/** The running side of stream_ref.py: one turn of the loop of `main`, which
    stops the captures whose recording is over and then starts (or reports
    as missed) every recording whose start has passed, and the reload of the
    schedule, which merges a freshly parsed table into the upcoming and the
    running recordings. Both tables are keyed by "start channel". */
module StreamRefLoop {
  import Capture
  import Dict
  import Naming
  import StreamRef

  type Option<T> = StreamRef.Option<T>
  type Recording = StreamRef.Recording

  /** A recording being captured (an entry of `handles`): its end, programme,
      channel and schedule id, the file it writes to and the engine's handle. */
  datatype Running = Running(end: int, programme: Option<string>, channel: string, sid: nat,
                             outfile: string, handle: Capture.Handle)

  /** The handle a running capture keeps. */
  function HandleOf(a: Running): Capture.Handle
  {
    a.handle
  }

  /** A capture started in this turn for `rec`: it carries the recording's
      end, programme, channel and schedule id, under a handle the engine had
      not issued and into a file the directory did not hold when the turn
      began. */
  predicate Fresh(a: Running, rec: Recording, issued: nat, files: set<string>)
  {
    && a.end == rec.end && a.programme == rec.programme && a.channel == rec.channel && a.sid == rec.sid
    && a.handle.id >= issued && a.outfile !in files
  }

  /** A capture is stopped once `now` is past its end. */
  predicate Expired(a: Running, now: int)
  {
    now > a.end
  }

  // ---------------------------------------------------------------------
  // Schedule reload (reloadSchedule), as a function of the tables

  /** The upcoming recordings, the running ones and the count of new
      recordings, as the reload goes through the revised table. */
  datatype Tables = Tables(upcoming: map<string, Recording>, running: map<string, Running>, added: nat)

  /** `ids` is what the reload's first loops build from a table whose
      schedule ids are `sids`: it maps every schedule id present to one key
      holding it (the last one visited, when several do). */
  ghost predicate IsSidIndex(ids: map<nat, string>, sids: map<string, nat>)
  {
    && (forall s :: s in ids ==> ids[s] in sids && sids[ids[s]] == s)
    && (forall k :: k in sids ==> sids[k] in ids)
  }

  function RunningSids(running: map<string, Running>): map<string, nat>
  {
    map k | k in running :: running[k].sid
  }

  function UpcomingSids(upcoming: map<string, Recording>): map<string, nat>
  {
    map k | k in upcoming :: upcoming[k].sid
  }

  /** The reload's first two loops: for every key of a table, in some
      order, record its schedule id as leading to that key. */
  method SidIndex(sids: map<string, nat>) returns (ids: map<nat, string>)
    ensures IsSidIndex(ids, sids)
  {
    ids := map[];
    var ks := sids.Keys;
    while ks != {}
      invariant ks <= sids.Keys
      invariant forall s :: s in ids ==> ids[s] in sids && sids[ids[s]] == s
      invariant forall k :: k in sids && k !in ks ==> sids[k] in ids
      decreases |ks|
    {
      var k := Dict.Choose(ks);
      ks := ks - {k};
      ids := ids[sids[k] := k];
    }
  }

  /** A revised recording the reload puts among the upcoming ones: not
      running, and not over yet. */
  predicate Eligible(data: Recording, runningIds: map<nat, string>, now: int)
  {
    data.sid !in runningIds && data.end > now
  }

  /** The reload's handling of one revised recording `data` under key `r`.
      A running recording with the same schedule id takes the new end when
      the channel and the programme match and the end differs. Otherwise a
      recording that is not over goes into the upcoming table under `r`,
      after the upcoming recording that had its schedule id is removed; it
      counts as new when no upcoming recording had its schedule id. With
      `checked` off, the removal is done as written: the key found for the
      schedule id before the reload began is removed whatever it holds by
      now. With `checked` on, it is removed only while it still holds a
      recording with that schedule id. */
  ghost function ReviseOne(t: Tables, r: string, data: Recording, runningIds: map<nat, string>,
                           upcomingIds: map<nat, string>, now: int, checked: bool): (u: Tables)
    requires forall s :: s in runningIds ==> runningIds[s] in t.running
    ensures u.running.Keys == t.running.Keys
    ensures forall h :: h in t.running ==> u.running[h] == t.running[h].(end := u.running[h].end)
    ensures forall h :: h in t.running && u.running[h].end != t.running[h].end ==>
              && data.sid in runningIds && runningIds[data.sid] == h && u.running[h].end == data.end
              && data.channel == t.running[h].channel && data.programme == t.running[h].programme
    ensures forall k :: k in u.upcoming ==>
              (k in t.upcoming && u.upcoming[k] == t.upcoming[k]) ||
              (k == r && Eligible(data, runningIds, now) && u.upcoming[k] == data)
    ensures u.added == t.added + (if IsNew(data, runningIds, upcomingIds, now) then 1 else 0)
  {
    if data.sid in runningIds then
      var h := runningIds[data.sid];
      if data.channel == t.running[h].channel && data.programme == t.running[h].programme && data.end != t.running[h].end
      then t.(running := t.running[h := t.running[h].(end := data.end)])
      else t
    else if data.end > now then
      if data.sid in upcomingIds then
        var s := upcomingIds[data.sid];
        var kept := if !checked || (s in t.upcoming && t.upcoming[s].sid == data.sid) then t.upcoming - {s} else t.upcoming;
        t.(upcoming := kept[r := data])
      else t.(upcoming := t.upcoming[r := data], added := t.added + 1)
    else t
  }

  /** The reload's pass over the revised table, in the order `order` in
      which it visits the keys. */
  ghost function Revise(t: Tables, revised: map<string, Recording>, order: seq<string>, runningIds: map<nat, string>,
                        upcomingIds: map<nat, string>, now: int, checked: bool): (u: Tables)
    requires forall i :: 0 <= i < |order| ==> order[i] in revised
    requires forall s :: s in runningIds ==> runningIds[s] in t.running
    ensures u.running.Keys == t.running.Keys
    decreases |order|
  {
    if order == [] then t
    else
      Revise(ReviseOne(t, order[0], revised[order[0]], runningIds, upcomingIds, now, checked),
             revised, order[1..], runningIds, upcomingIds, now, checked)
  }

  /** The schedule id of an entry matches a running recording's, and so do
      its channel and programme. */
  predicate MatchesRunning(data: Recording, run: Running)
  {
    data.sid == run.sid && data.channel == run.channel && data.programme == run.programme
  }

  /** The reload never adds or removes a running recording and changes
      nothing of one but its end; an end changes only to the end of a
      revised recording with the same schedule id, channel and programme. */
  lemma {:induction false} ReviseRunningEnds(t: Tables, revised: map<string, Recording>, order: seq<string>,
                                             runningIds: map<nat, string>, upcomingIds: map<nat, string>,
                                             now: int, checked: bool)
    requires forall i :: 0 <= i < |order| ==> order[i] in revised
    requires forall s :: s in runningIds ==> runningIds[s] in t.running && t.running[runningIds[s]].sid == s
    ensures var u := Revise(t, revised, order, runningIds, upcomingIds, now, checked);
      && u.running.Keys == t.running.Keys
      && (forall h :: h in t.running ==> u.running[h] == t.running[h].(end := u.running[h].end))
      && (forall h :: h in t.running && u.running[h].end != t.running[h].end ==>
            exists i :: 0 <= i < |order| && MatchesRunning(revised[order[i]], t.running[h]) &&
                        u.running[h].end == revised[order[i]].end)
    decreases |order|
  {
    if order != [] {
      var t1 := ReviseOne(t, order[0], revised[order[0]], runningIds, upcomingIds, now, checked);
      ReviseRunningEnds(t1, revised, order[1..], runningIds, upcomingIds, now, checked);
      var u := Revise(t, revised, order, runningIds, upcomingIds, now, checked);
      forall h | h in t.running && u.running[h].end != t.running[h].end
        ensures exists i :: 0 <= i < |order| && MatchesRunning(revised[order[i]], t.running[h]) &&
                            u.running[h].end == revised[order[i]].end
      {
        if u.running[h].end != t1.running[h].end {
          var i :| 0 <= i < |order[1..]| && MatchesRunning(revised[order[1..][i]], t1.running[h]) &&
                   u.running[h].end == revised[order[1..][i]].end;
          assert order[1..][i] == order[i + 1];
        } else {
          assert MatchesRunning(revised[order[0]], t.running[h]);
        }
      }
    }
  }

  /** Every upcoming recording after the reload is either one that was
      upcoming before, under the same key, or a revised recording that is
      not running and not over, under its own key: a revised recording that
      is over, or whose schedule id is running, never becomes upcoming. */
  lemma {:induction false} ReviseUpcomingSources(t: Tables, revised: map<string, Recording>, order: seq<string>,
                                                 runningIds: map<nat, string>, upcomingIds: map<nat, string>,
                                                 now: int, checked: bool)
    requires forall i :: 0 <= i < |order| ==> order[i] in revised
    requires forall s :: s in runningIds ==> runningIds[s] in t.running
    ensures var u := Revise(t, revised, order, runningIds, upcomingIds, now, checked);
      forall k :: k in u.upcoming ==>
        (k in t.upcoming && u.upcoming[k] == t.upcoming[k]) ||
        (k in order && Eligible(revised[k], runningIds, now) && u.upcoming[k] == revised[k])
    decreases |order|
  {
    if order != [] {
      var t1 := ReviseOne(t, order[0], revised[order[0]], runningIds, upcomingIds, now, checked);
      ReviseUpcomingSources(t1, revised, order[1..], runningIds, upcomingIds, now, checked);
      var u := Revise(t, revised, order, runningIds, upcomingIds, now, checked);
      forall k | k in u.upcoming
        ensures (k in t.upcoming && u.upcoming[k] == t.upcoming[k]) ||
                (k in order && Eligible(revised[k], runningIds, now) && u.upcoming[k] == revised[k])
      {
        if k in order[1..] {
          assert k in order;
        }
      }
    }
  }

  /** An upcoming recording stays as it was while no revised recording the
      reload acts on (one that is not running and not over) has its key or a
      schedule id that leads to its key: a revised recording that is over,
      or whose schedule id is running, leaves the upcoming table alone. */
  lemma {:induction false} ReviseKeepsUntouched(t: Tables, revised: map<string, Recording>, order: seq<string>,
                                                runningIds: map<nat, string>, upcomingIds: map<nat, string>,
                                                now: int, checked: bool, k: string)
    requires forall i :: 0 <= i < |order| ==> order[i] in revised
    requires forall s :: s in runningIds ==> runningIds[s] in t.running
    requires k in t.upcoming
    requires forall i :: 0 <= i < |order| && Eligible(revised[order[i]], runningIds, now) ==>
               order[i] != k && (revised[order[i]].sid !in upcomingIds || upcomingIds[revised[order[i]].sid] != k)
    ensures var u := Revise(t, revised, order, runningIds, upcomingIds, now, checked);
      k in u.upcoming && u.upcoming[k] == t.upcoming[k]
    decreases |order|
  {
    if order != [] {
      var t1 := ReviseOne(t, order[0], revised[order[0]], runningIds, upcomingIds, now, checked);
      assert forall i :: 0 <= i < |order[1..]| ==> order[1..][i] == order[i + 1];
      ReviseKeepsUntouched(t1, revised, order[1..], runningIds, upcomingIds, now, checked, k);
    }
  }

  /** With the checked removal, a recording stays upcoming while no
      remaining revised recording has its key or its schedule id. */
  lemma {:induction false} ReviseLeavesAlone(t: Tables, revised: map<string, Recording>, order: seq<string>,
                                             runningIds: map<nat, string>, upcomingIds: map<nat, string>,
                                             now: int, k: string)
    requires forall i :: 0 <= i < |order| ==> order[i] in revised
    requires forall s :: s in runningIds ==> runningIds[s] in t.running
    requires k in t.upcoming && k !in order
    requires forall i :: 0 <= i < |order| ==> revised[order[i]].sid != t.upcoming[k].sid
    ensures var u := Revise(t, revised, order, runningIds, upcomingIds, now, true);
      k in u.upcoming && u.upcoming[k] == t.upcoming[k]
    decreases |order|
  {
    if order != [] {
      var t1 := ReviseOne(t, order[0], revised[order[0]], runningIds, upcomingIds, now, true);
      assert forall i :: 0 <= i < |order[1..]| ==> order[1..][i] == order[i + 1];
      ReviseLeavesAlone(t1, revised, order[1..], runningIds, upcomingIds, now, k);
    }
  }

  /** With the checked removal, and the revised table's schedule ids all
      different (as parsing makes them), every revised recording that is not
      running and not over ends up upcoming under its key. */
  lemma {:induction false} ReviseInsertsEligible(t: Tables, revised: map<string, Recording>, order: seq<string>,
                                                 runningIds: map<nat, string>, upcomingIds: map<nat, string>,
                                                 now: int)
    requires forall i :: 0 <= i < |order| ==> order[i] in revised
    requires forall s :: s in runningIds ==> runningIds[s] in t.running
    requires forall i, j :: 0 <= i < j < |order| ==> order[i] != order[j]
    requires forall i, j :: 0 <= i < j < |order| ==> revised[order[i]].sid != revised[order[j]].sid
    ensures var u := Revise(t, revised, order, runningIds, upcomingIds, now, true);
      forall k :: k in order && Eligible(revised[k], runningIds, now) ==> k in u.upcoming && u.upcoming[k] == revised[k]
    decreases |order|
  {
    if order != [] {
      var r := order[0];
      var t1 := ReviseOne(t, r, revised[r], runningIds, upcomingIds, now, true);
      var rest := order[1..];
      assert forall i :: 0 <= i < |rest| ==> rest[i] == order[i + 1];
      ReviseInsertsEligible(t1, revised, rest, runningIds, upcomingIds, now);
      if Eligible(revised[r], runningIds, now) {
        assert r !in rest;
        ReviseLeavesAlone(t1, revised, rest, runningIds, upcomingIds, now, r);
      }
      var u := Revise(t, revised, order, runningIds, upcomingIds, now, true);
      forall k | k in order && Eligible(revised[k], runningIds, now)
        ensures k in u.upcoming && u.upcoming[k] == revised[k]
      {
        if k != r {
          assert k in rest;
        }
      }
    }
  }

  /** Key `k` of the upcoming table is free, or holds its own revised
      recording that is not running and not over. */
  ghost predicate HoldsRevised(upcoming: map<string, Recording>, k: string, revised: map<string, Recording>,
                               runningIds: map<nat, string>, now: int)
  {
    k in upcoming ==> k in revised && Eligible(revised[k], runningIds, now) && upcoming[k] == revised[k]
  }

  /** Once key `k` is free or holds its own revised recording, the rest of
      the pass keeps it so: it only ever removes a key or stores a revised
      recording under its own key. */
  lemma {:induction false} ReviseKeepsRevised(t: Tables, revised: map<string, Recording>, order: seq<string>,
                                              runningIds: map<nat, string>, upcomingIds: map<nat, string>,
                                              now: int, checked: bool, k: string)
    requires forall i :: 0 <= i < |order| ==> order[i] in revised
    requires forall s :: s in runningIds ==> runningIds[s] in t.running
    requires HoldsRevised(t.upcoming, k, revised, runningIds, now)
    ensures HoldsRevised(Revise(t, revised, order, runningIds, upcomingIds, now, checked).upcoming,
                         k, revised, runningIds, now)
    decreases |order|
  {
    if order != [] {
      var t1 := ReviseOne(t, order[0], revised[order[0]], runningIds, upcomingIds, now, checked);
      assert forall j :: 0 <= j < |order[1..]| ==> order[1..][j] == order[j + 1];
      ReviseKeepsRevised(t1, revised, order[1..], runningIds, upcomingIds, now, checked, k);
    }
  }

  /** An upcoming recording under key `k`, the key the index gives for
      schedule id `s`, is removed when the pass reaches a revised recording
      with schedule id `s` that is not running and not over: afterwards `k`
      is free or holds its own revised recording. */
  lemma {:induction false} ReviseReplaces(t: Tables, revised: map<string, Recording>, order: seq<string>,
                                          runningIds: map<nat, string>, upcomingIds: map<nat, string>,
                                          now: int, checked: bool, k: string, s: nat, i: nat)
    requires forall j :: 0 <= j < |order| ==> order[j] in revised
    requires forall x :: x in runningIds ==> runningIds[x] in t.running
    requires s in upcomingIds && upcomingIds[s] == k
    requires k in t.upcoming ==> t.upcoming[k].sid == s || HoldsRevised(t.upcoming, k, revised, runningIds, now)
    requires i < |order| && Eligible(revised[order[i]], runningIds, now) && revised[order[i]].sid == s
    ensures HoldsRevised(Revise(t, revised, order, runningIds, upcomingIds, now, checked).upcoming,
                         k, revised, runningIds, now)
    decreases |order|
  {
    var t1 := ReviseOne(t, order[0], revised[order[0]], runningIds, upcomingIds, now, checked);
    assert forall j :: 0 <= j < |order[1..]| ==> order[1..][j] == order[j + 1];
    if i == 0 {
      assert HoldsRevised(t1.upcoming, k, revised, runningIds, now);
      ReviseKeepsRevised(t1, revised, order[1..], runningIds, upcomingIds, now, checked, k);
    } else {
      ReviseReplaces(t1, revised, order[1..], runningIds, upcomingIds, now, checked, k, s, i - 1);
    }
  }

  /** `runningIds` leads every schedule id it holds to a running recording
      with that schedule id. */
  ghost predicate RunningIndexed(running: map<string, Running>, runningIds: map<nat, string>)
  {
    forall x :: x in runningIds ==> runningIds[x] in running && running[runningIds[x]].sid == x
  }

  /** A running recording whose schedule id no revised recording of the
      pass carries is left as it is. */
  lemma {:induction false} ReviseSkipsRunning(t: Tables, revised: map<string, Recording>, order: seq<string>,
                                              runningIds: map<nat, string>, upcomingIds: map<nat, string>,
                                              now: int, checked: bool, h: string)
    requires forall j :: 0 <= j < |order| ==> order[j] in revised
    requires RunningIndexed(t.running, runningIds)
    requires h in t.running
    requires forall j :: 0 <= j < |order| ==> revised[order[j]].sid != t.running[h].sid
    ensures Revise(t, revised, order, runningIds, upcomingIds, now, checked).running[h] == t.running[h]
    decreases |order|
  {
    if order != [] {
      var t1 := ReviseOne(t, order[0], revised[order[0]], runningIds, upcomingIds, now, checked);
      assert forall j :: 0 <= j < |order[1..]| ==> order[1..][j] == order[j + 1];
      ReviseSkipsRunning(t1, revised, order[1..], runningIds, upcomingIds, now, checked, h);
    }
  }

  /** When the schedule ids along the pass differ, a revised recording whose
      schedule id leads to running recording `h`, with the same channel and
      programme, leaves its end as `h`'s end. */
  lemma {:induction false} ReviseAppliesEnd(t: Tables, revised: map<string, Recording>, order: seq<string>,
                                            runningIds: map<nat, string>, upcomingIds: map<nat, string>,
                                            now: int, checked: bool, h: string, i: nat)
    requires forall j :: 0 <= j < |order| ==> order[j] in revised
    requires RunningIndexed(t.running, runningIds)
    requires forall a, b :: 0 <= a < b < |order| ==> revised[order[a]].sid != revised[order[b]].sid
    requires i < |order| && revised[order[i]].sid in runningIds && runningIds[revised[order[i]].sid] == h
    requires revised[order[i]].channel == t.running[h].channel && revised[order[i]].programme == t.running[h].programme
    ensures Revise(t, revised, order, runningIds, upcomingIds, now, checked).running[h].end == revised[order[i]].end
    decreases |order|
  {
    var t1 := ReviseOne(t, order[0], revised[order[0]], runningIds, upcomingIds, now, checked);
    var rest := order[1..];
    assert forall j :: 0 <= j < |rest| ==> rest[j] == order[j + 1];
    if i == 0 {
      ReviseSkipsRunning(t1, revised, rest, runningIds, upcomingIds, now, checked, h);
    } else {
      ReviseAppliesEnd(t1, revised, rest, runningIds, upcomingIds, now, checked, h, i - 1);
    }
  }

  /** A revised recording the reload counts as new: not running, not over,
      and with a schedule id no upcoming recording had. */
  predicate IsNew(data: Recording, runningIds: map<nat, string>, upcomingIds: map<nat, string>, now: int)
  {
    Eligible(data, runningIds, now) && data.sid !in upcomingIds
  }

  /** The number of new revised recordings, in the order visited. */
  ghost function NewCount(revised: map<string, Recording>, order: seq<string>, runningIds: map<nat, string>,
                          upcomingIds: map<nat, string>, now: int): nat
    requires forall i :: 0 <= i < |order| ==> order[i] in revised
    decreases |order|
  {
    if order == [] then 0
    else
      var data := revised[order[0]];
      (if IsNew(data, runningIds, upcomingIds, now) then 1 else 0) +
      NewCount(revised, order[1..], runningIds, upcomingIds, now)
  }

  /** The reload's count of new recordings is the number of revised
      recordings that are not running, not over, and whose schedule id no
      upcoming recording had. */
  lemma {:induction false} ReviseCountsNew(t: Tables, revised: map<string, Recording>, order: seq<string>,
                                           runningIds: map<nat, string>, upcomingIds: map<nat, string>,
                                           now: int, checked: bool)
    requires forall i :: 0 <= i < |order| ==> order[i] in revised
    requires forall s :: s in runningIds ==> runningIds[s] in t.running
    ensures Revise(t, revised, order, runningIds, upcomingIds, now, checked).added ==
            t.added + NewCount(revised, order, runningIds, upcomingIds, now)
    decreases |order|
  {
    if order != [] {
      var t1 := ReviseOne(t, order[0], revised[order[0]], runningIds, upcomingIds, now, checked);
      ReviseCountsNew(t1, revised, order[1..], runningIds, upcomingIds, now, checked);
    }
  }

  /** The keys of the new revised recordings, in the order visited. */
  ghost function NewIn(revised: map<string, Recording>, order: seq<string>, runningIds: map<nat, string>,
                       upcomingIds: map<nat, string>, now: int): set<string>
    requires forall i :: 0 <= i < |order| ==> order[i] in revised
    decreases |order|
  {
    if order == [] then {}
    else
      (if IsNew(revised[order[0]], runningIds, upcomingIds, now) then {order[0]} else {}) +
      NewIn(revised, order[1..], runningIds, upcomingIds, now)
  }

  /** `NewIn` holds the visited keys of exactly the new revised recordings. */
  lemma {:induction false} NewInMembers(revised: map<string, Recording>, order: seq<string>,
                                        runningIds: map<nat, string>, upcomingIds: map<nat, string>, now: int)
    requires forall i :: 0 <= i < |order| ==> order[i] in revised
    ensures forall k :: k in NewIn(revised, order, runningIds, upcomingIds, now) <==>
                        k in order && IsNew(revised[k], runningIds, upcomingIds, now)
    decreases |order|
  {
    if order != [] {
      var rest := order[1..];
      assert forall i :: 0 <= i < |rest| ==> rest[i] == order[i + 1];
      NewInMembers(revised, rest, runningIds, upcomingIds, now);
      assert order == [order[0]] + rest;
    }
  }

  /** The rest of an order that visits revised keys once does so too, and
      does not visit its first key again. */
  lemma OrderTail(revised: map<string, Recording>, order: seq<string>)
    requires order != []
    requires forall i :: 0 <= i < |order| ==> order[i] in revised
    requires forall i, j :: 0 <= i < j < |order| ==> order[i] != order[j]
    ensures forall i :: 0 <= i < |order[1..]| ==> order[1..][i] in revised
    ensures forall i, j :: 0 <= i < j < |order[1..]| ==> order[1..][i] != order[1..][j]
    ensures order[0] !in order[1..]
  {
    assert forall i :: 0 <= i < |order[1..]| ==> order[1..][i] == order[i + 1];
  }

  /** When the order visits each key once, the count is the size of `NewIn`. */
  lemma {:induction false} NewCountIsSize(revised: map<string, Recording>, order: seq<string>,
                                          runningIds: map<nat, string>, upcomingIds: map<nat, string>, now: int)
    requires forall i :: 0 <= i < |order| ==> order[i] in revised
    requires forall i, j :: 0 <= i < j < |order| ==> order[i] != order[j]
    ensures NewCount(revised, order, runningIds, upcomingIds, now) ==
            |NewIn(revised, order, runningIds, upcomingIds, now)|
    decreases |order|
  {
    if order != [] {
      OrderTail(revised, order);
      NewCountIsSize(revised, order[1..], runningIds, upcomingIds, now);
      NewInMembers(revised, order[1..], runningIds, upcomingIds, now);
    }
  }

  /** A recording of channel "ch" from 0 to 100 with schedule id `sid`. */
  function Sample(sid: nat): Recording
  {
    StreamRef.Recording("udp://ch", "ch", 0, 100, StreamRef.None, sid)
  }

  /** The removal as written can lose a revised recording. Two upcoming
      recordings K1 and K2 had schedule ids 0 and 1; a new entry K0 is added
      at the top of the schedule file, so K0, K1 and K2 get ids 0, 1 and 2.
      Visiting K1, K2, K0 in that order at time 10, K1 removes K2 (id 1) and
      is stored, K2 comes back as new, and K0 then removes the key K1 (id 0
      before the reload), which by now holds the revised K1: K1 is lost
      although it is still to come. */
  lemma ReloadDropsShiftedRecording()
    ensures var upcoming := map["K1" := Sample(0), "K2" := Sample(1)];
      var revised := map["K0" := Sample(0), "K1" := Sample(1), "K2" := Sample(2)];
      var upcomingIds := map[0 := "K1", 1 := "K2"];
      && IsSidIndex(upcomingIds, UpcomingSids(upcoming))
      && StillToCome(revised["K1"], map[], 10)
      && "K1" !in Revise(Tables(upcoming, map[], 0), revised, ["K1", "K2", "K0"], map[], upcomingIds, 10, false).upcoming
  {
    var upcoming := map["K1" := Sample(0), "K2" := Sample(1)];
    var revised := map["K0" := Sample(0), "K1" := Sample(1), "K2" := Sample(2)];
    var upcomingIds := map[0 := "K1", 1 := "K2"];
    var order := ["K1", "K2", "K0"];
    assert UpcomingSids(upcoming) == map["K1" := 0, "K2" := 1];
    assert RunningSids(map[]).Values == {};
    assert order[1..] == ["K2", "K0"] && order[1..][1..] == ["K0"] && order[1..][1..][1..] == [];
    var a1 := ReviseOne(Tables(upcoming, map[], 0), "K1", revised["K1"], map[], upcomingIds, 10, false);
    var a2 := ReviseOne(a1, "K2", revised["K2"], map[], upcomingIds, 10, false);
    var a3 := ReviseOne(a2, "K0", revised["K0"], map[], upcomingIds, 10, false);
    assert a3.upcoming == (a2.upcoming - {"K1"})["K0" := Sample(0)];
  }

  /** On the same tables and order, the checked removal keeps all three
      revised recordings. */
  lemma CheckedReloadKeepsShiftedRecording()
    ensures var upcoming := map["K1" := Sample(0), "K2" := Sample(1)];
      var revised := map["K0" := Sample(0), "K1" := Sample(1), "K2" := Sample(2)];
      var upcomingIds := map[0 := "K1", 1 := "K2"];
      Revise(Tables(upcoming, map[], 0), revised, ["K1", "K2", "K0"], map[], upcomingIds, 10, true).upcoming == revised
  {
    var upcoming := map["K1" := Sample(0), "K2" := Sample(1)];
    var revised := map["K0" := Sample(0), "K1" := Sample(1), "K2" := Sample(2)];
    var upcomingIds := map[0 := "K1", 1 := "K2"];
    var order := ["K1", "K2", "K0"];
    assert order[1..] == ["K2", "K0"] && order[1..][1..] == ["K0"] && order[1..][1..][1..] == [];
    var c1 := ReviseOne(Tables(upcoming, map[], 0), "K1", revised["K1"], map[], upcomingIds, 10, true);
    assert c1.upcoming == map["K1" := Sample(1)];
    var c2 := ReviseOne(c1, "K2", revised["K2"], map[], upcomingIds, 10, true);
    assert c2.upcoming == map["K1" := Sample(1), "K2" := Sample(2)];
    var c3 := ReviseOne(c2, "K0", revised["K0"], map[], upcomingIds, 10, true);
    assert c3.upcoming == revised;
  }

  /** A schedule id index holds exactly the schedule ids of its table. */
  lemma SidIndexDomain(ids: map<nat, string>, sids: map<string, nat>)
    requires IsSidIndex(ids, sids)
    ensures forall s :: s in ids <==> s in sids.Values
  {
    forall s | s in sids.Values
      ensures s in ids
    {
      var k :| k in sids && sids[k] == s;
    }
  }

  /** `order` visits every key of the revised table once, as iterating over
      a dictionary does. */
  ghost predicate Visits(revised: map<string, Recording>, order: seq<string>)
  {
    && (forall k :: k in revised <==> k in order)
    && (forall i, j :: 0 <= i < j < |order| ==> order[i] != order[j])
  }

  /** The schedule id indexes the reload builds of the tables `t`. */
  ghost predicate Indexes(t: Tables, runningIds: map<nat, string>, upcomingIds: map<nat, string>)
  {
    IsSidIndex(runningIds, RunningSids(t.running)) && IsSidIndex(upcomingIds, UpcomingSids(t.upcoming))
  }

  /** A revised recording still to come at `now`: not over, and with a
      schedule id no running recording has. */
  predicate StillToCome(data: Recording, running: map<string, Running>, now: int)
  {
    data.end > now && data.sid !in RunningSids(running).Values
  }

  /** No two recordings of a table share a schedule id, as for every table
      the parser returns. */
  predicate DistinctSids(table: map<string, Recording>)
  {
    forall k, l :: k in table && l in table && k != l ==> table[k].sid != table[l].sid
  }

  /** After the reload the running recordings are the same ones, differing
      only in their ends, and a changed end is the end of a revised recording
      with the same schedule id, channel and programme. */
  predicate EndsRevised(before: map<string, Running>, after: map<string, Running>, revised: map<string, Recording>)
  {
    && after.Keys == before.Keys
    && (forall h :: h in before ==> after[h] == before[h].(end := after[h].end))
    && (forall h :: h in before && after[h].end != before[h].end ==>
          exists k :: k in revised && MatchesRunning(revised[k], before[h]) && after[h].end == revised[k].end)
  }

  /** After the reload every upcoming recording is an old one under its old
      key, or a revised recording still to come under its own key. */
  predicate UpcomingFrom(before: map<string, Recording>, after: map<string, Recording>, revised: map<string, Recording>,
                         running: map<string, Running>, now: int)
  {
    forall k :: k in after ==>
      (k in before && after[k] == before[k]) ||
      (k in revised && StillToCome(revised[k], running, now) && after[k] == revised[k])
  }

  /** No revised recording still to come has key `k` or the schedule id of
      `rec`. */
  predicate Unmentioned(rec: Recording, k: string, revised: map<string, Recording>, running: map<string, Running>, now: int)
  {
    forall l :: l in revised && StillToCome(revised[l], running, now) ==> l != k && revised[l].sid != rec.sid
  }

  /** An upcoming recording stays as it was after the reload when no revised
      recording still to come has its key or its schedule id: revised
      recordings that are over, or whose schedule id is running, are ignored. */
  predicate UntouchedKept(before: map<string, Recording>, after: map<string, Recording>, revised: map<string, Recording>,
                          running: map<string, Running>, now: int)
  {
    forall k :: k in before && Unmentioned(before[k], k, revised, running, now) ==> k in after && after[k] == before[k]
  }

  /** Every revised recording still to come is upcoming after the reload. */
  predicate AllInserted(after: map<string, Recording>, revised: map<string, Recording>,
                        running: map<string, Running>, now: int)
  {
    forall k :: k in revised && StillToCome(revised[k], running, now) ==> k in after && after[k] == revised[k]
  }

  /** The revised recordings still to come whose schedule id no upcoming
      recording had: the new ones. */
  function NewKeys(revised: map<string, Recording>, t: Tables, now: int): set<string>
  {
    set k | k in revised && StillToCome(revised[k], t.running, now) && revised[k].sid !in UpcomingSids(t.upcoming).Values
  }

  /** The reload's facts about the running recordings, for any order: only
      ends change, each to the end of a matching revised recording, and when
      the revised and the running schedule ids differ, every matching revised
      recording does set its end. */
  lemma ReloadEnds(t: Tables, revised: map<string, Recording>, order: seq<string>,
                   runningIds: map<nat, string>, upcomingIds: map<nat, string>, now: int, checked: bool)
    requires Visits(revised, order) && Indexes(t, runningIds, upcomingIds)
    ensures EndsRevised(t.running, Revise(t, revised, order, runningIds, upcomingIds, now, checked).running, revised)
    ensures DistinctSids(revised) && DistinctRunningSids(t.running) ==>
              EndsApplied(t.running, Revise(t, revised, order, runningIds, upcomingIds, now, checked).running, revised)
  {
    ReviseRunningEnds(t, revised, order, runningIds, upcomingIds, now, checked);
    if DistinctSids(revised) && DistinctRunningSids(t.running) {
      var u := Revise(t, revised, order, runningIds, upcomingIds, now, checked);
      assert RunningIndexed(t.running, runningIds);
      forall a, b | 0 <= a < b < |order|
        ensures revised[order[a]].sid != revised[order[b]].sid
      {
        assert order[a] in revised && order[b] in revised;
      }
      forall h, l | h in t.running && l in revised && MatchesRunning(revised[l], t.running[h])
        ensures h in u.running && u.running[h].end == revised[l].end
      {
        var x := t.running[h].sid;
        assert RunningSids(t.running)[h] == x;
        var h' := runningIds[x];
        assert h' in t.running && t.running[h'].sid == x;
        var i :| 0 <= i < |order| && order[i] == l;
        ReviseAppliesEnd(t, revised, order, runningIds, upcomingIds, now, checked, h, i);
      }
    }
  }

  /** Where the reload's upcoming recordings come from, for any order. */
  lemma ReloadUpcoming(t: Tables, revised: map<string, Recording>, order: seq<string>,
                       runningIds: map<nat, string>, upcomingIds: map<nat, string>, now: int, checked: bool)
    requires Visits(revised, order) && Indexes(t, runningIds, upcomingIds)
    ensures UpcomingFrom(t.upcoming, Revise(t, revised, order, runningIds, upcomingIds, now, checked).upcoming,
                         revised, t.running, now)
  {
    SidIndexDomain(runningIds, RunningSids(t.running));
    ReviseUpcomingSources(t, revised, order, runningIds, upcomingIds, now, checked);
  }

  /** The reload leaves alone what the revision does not mention or only
      mentions in recordings it ignores, for any order. */
  lemma ReloadKeeps(t: Tables, revised: map<string, Recording>, order: seq<string>,
                    runningIds: map<nat, string>, upcomingIds: map<nat, string>, now: int, checked: bool)
    requires Visits(revised, order) && Indexes(t, runningIds, upcomingIds)
    ensures UntouchedKept(t.upcoming, Revise(t, revised, order, runningIds, upcomingIds, now, checked).upcoming,
                          revised, t.running, now)
  {
    SidIndexDomain(runningIds, RunningSids(t.running));
    var u := Revise(t, revised, order, runningIds, upcomingIds, now, checked);
    forall k | k in t.upcoming && Unmentioned(t.upcoming[k], k, revised, t.running, now)
      ensures k in u.upcoming && u.upcoming[k] == t.upcoming[k]
    {
      forall i | 0 <= i < |order| && Eligible(revised[order[i]], runningIds, now)
        ensures order[i] != k && (revised[order[i]].sid !in upcomingIds || upcomingIds[revised[order[i]].sid] != k)
      {
        var l := order[i];
        assert l in revised && StillToCome(revised[l], t.running, now);
      }
      ReviseKeepsUntouched(t, revised, order, runningIds, upcomingIds, now, checked, k);
    }
  }

  /** With the checked removal and the parser's distinct schedule ids, the
      reload inserts every revised recording still to come. */
  lemma ReloadInserts(t: Tables, revised: map<string, Recording>, order: seq<string>,
                      runningIds: map<nat, string>, upcomingIds: map<nat, string>, now: int)
    requires Visits(revised, order) && Indexes(t, runningIds, upcomingIds)
    requires DistinctSids(revised)
    ensures AllInserted(Revise(t, revised, order, runningIds, upcomingIds, now, true).upcoming, revised, t.running, now)
  {
    SidIndexDomain(runningIds, RunningSids(t.running));
    forall i, j | 0 <= i < j < |order|
      ensures revised[order[i]].sid != revised[order[j]].sid
    {
      assert order[i] in revised && order[j] in revised;
    }
    ReviseInsertsEligible(t, revised, order, runningIds, upcomingIds, now);
  }

  /** The reload counts exactly the new recordings, for any order. */
  lemma ReloadCount(t: Tables, revised: map<string, Recording>, order: seq<string>,
                    runningIds: map<nat, string>, upcomingIds: map<nat, string>, now: int, checked: bool)
    requires Visits(revised, order) && Indexes(t, runningIds, upcomingIds)
    ensures Revise(t, revised, order, runningIds, upcomingIds, now, checked).added == t.added + |NewKeys(revised, t, now)|
  {
    SidIndexDomain(runningIds, RunningSids(t.running));
    SidIndexDomain(upcomingIds, UpcomingSids(t.upcoming));
    ReviseCountsNew(t, revised, order, runningIds, upcomingIds, now, checked);
    NewCountIsSize(revised, order, runningIds, upcomingIds, now);
    NewInMembers(revised, order, runningIds, upcomingIds, now);
    var counted := NewIn(revised, order, runningIds, upcomingIds, now);
    forall k
      ensures k in counted <==> k in NewKeys(revised, t, now)
    {
      if k in revised {
        assert IsNew(revised[k], runningIds, upcomingIds, now) <==>
               StillToCome(revised[k], t.running, now) && revised[k].sid !in UpcomingSids(t.upcoming).Values;
      }
    }
    assert counted == NewKeys(revised, t, now);
  }

  /** No two running recordings share a schedule id. */
  predicate DistinctRunningSids(running: map<string, Running>)
  {
    forall h, g :: h in running && g in running && h != g ==> running[h].sid != running[g].sid
  }

  /** After the reload an upcoming recording whose schedule id a revised
      recording still to come carries is gone, unless its key now holds its
      own revised recording still to come. */
  predicate Replaced(before: map<string, Recording>, after: map<string, Recording>, revised: map<string, Recording>,
                     running: map<string, Running>, now: int)
  {
    forall k, l :: k in before && l in revised && StillToCome(revised[l], running, now) &&
                   revised[l].sid == before[k].sid && k in after ==>
      k in revised && StillToCome(revised[k], running, now) && after[k] == revised[k]
  }

  /** After the reload a running recording has the end of every revised
      recording with its schedule id, channel and programme. */
  predicate EndsApplied(before: map<string, Running>, after: map<string, Running>, revised: map<string, Recording>)
  {
    forall h, l :: h in before && l in revised && MatchesRunning(revised[l], before[h]) ==>
      h in after && after[h].end == revised[l].end
  }

  /** For any order, an upcoming recording is replaced by the revised
      recording still to come with its schedule id, when the upcoming
      schedule ids differ. */
  lemma ReloadReplaces(t: Tables, revised: map<string, Recording>, order: seq<string>,
                       runningIds: map<nat, string>, upcomingIds: map<nat, string>, now: int, checked: bool)
    requires Visits(revised, order) && Indexes(t, runningIds, upcomingIds)
    requires DistinctSids(t.upcoming)
    ensures Replaced(t.upcoming, Revise(t, revised, order, runningIds, upcomingIds, now, checked).upcoming,
                     revised, t.running, now)
  {
    SidIndexDomain(runningIds, RunningSids(t.running));
    var u := Revise(t, revised, order, runningIds, upcomingIds, now, checked);
    forall k, l | k in t.upcoming && l in revised && StillToCome(revised[l], t.running, now) &&
                  revised[l].sid == t.upcoming[k].sid && k in u.upcoming
      ensures k in revised && StillToCome(revised[k], t.running, now) && u.upcoming[k] == revised[k]
    {
      var s := t.upcoming[k].sid;
      assert UpcomingSids(t.upcoming)[k] == s;
      var k' := upcomingIds[s];
      assert k' in t.upcoming && t.upcoming[k'].sid == s;
      var i :| 0 <= i < |order| && order[i] == l;
      ReviseReplaces(t, revised, order, runningIds, upcomingIds, now, checked, k, s, i);
    }
  }

  /** What the reload with the checked removal promises of the tables `u`
      it makes from `t`, as the `Reload*` lemmas state it one by one. */
  ghost predicate ReloadPromises(t: Tables, u: Tables, revised: map<string, Recording>, now: int)
  {
    && EndsRevised(t.running, u.running, revised)
    && (DistinctSids(revised) && DistinctRunningSids(t.running) ==> EndsApplied(t.running, u.running, revised))
    && UpcomingFrom(t.upcoming, u.upcoming, revised, t.running, now)
    && (DistinctSids(t.upcoming) ==> Replaced(t.upcoming, u.upcoming, revised, t.running, now))
    && UntouchedKept(t.upcoming, u.upcoming, revised, t.running, now)
    && (DistinctSids(revised) ==> AllInserted(u.upcoming, revised, t.running, now))
    && u.added == t.added + |NewKeys(revised, t, now)|
  }

  /** The reload's promises hold of the pass with the checked removal, for
      any order. */
  lemma ReloadKeepsPromises(t: Tables, revised: map<string, Recording>, order: seq<string>,
                            runningIds: map<nat, string>, upcomingIds: map<nat, string>, now: int)
    requires Visits(revised, order) && Indexes(t, runningIds, upcomingIds)
    ensures ReloadPromises(t, Revise(t, revised, order, runningIds, upcomingIds, now, true), revised, now)
  {
    ReloadEnds(t, revised, order, runningIds, upcomingIds, now, true);
    ReloadUpcoming(t, revised, order, runningIds, upcomingIds, now, true);
    if DistinctSids(t.upcoming) {
      ReloadReplaces(t, revised, order, runningIds, upcomingIds, now, true);
    }
    ReloadKeeps(t, revised, order, runningIds, upcomingIds, now, true);
    if DistinctSids(revised) {
      ReloadInserts(t, revised, order, runningIds, upcomingIds, now);
    }
    ReloadCount(t, revised, order, runningIds, upcomingIds, now, true);
  }

  class Scheduler {
    /** Recordings not started yet (`recordings`). */
    var recordings: map<string, Recording>
    /** Recordings being captured (`handles`). */
    var handles: map<string, Running>
    /** The capture engine and the output directory. */
    const recorder: Capture.Recorder

    /** Every running capture holds its own live handle, and every live
        handle belongs to a running capture. */
    ghost predicate Valid()
      reads this, recorder
    {
      && recorder.Valid()
      && recorder.live == Capture.HandlesOf(handles, HandleOf)
      && Capture.DistinctHandlesOf(handles, HandleOf)
    }

    /** The start of `main`: the parsed table, nothing running yet, over an
        output directory holding `files`. */
    constructor (table: map<string, Recording>, files: set<string>)
      ensures Valid()
      ensures recordings == table && handles == map[]
      ensures recorder.live == {} && recorder.files == files
    {
      recordings := table;
      handles := map[];
      recorder := new Capture.Recorder(files);
    }

    /** The first loop of a turn: every capture whose end has passed is
        stopped and its handle dropped; the rest is left alone. Stopping is
        taken to succeed: the script drops the handle even when it fails. */
    method StopExpired(now: int)
      requires Valid()
      modifies this, recorder
      ensures Valid()
      ensures recordings == old(recordings)
      ensures forall k :: k in handles <==> k in old(handles) && !Expired(old(handles)[k], now)
      ensures forall k :: k in handles ==> handles[k] == old(handles)[k]
      ensures recorder.issued == old(recorder.issued) && recorder.files == old(recorder.files)
    {
      ghost var H0 := handles;
      var hs := handles.Keys;
      while hs != {}
        invariant Valid()
        invariant hs <= H0.Keys
        invariant forall k :: k in handles <==> k in H0 && (k in hs || !Expired(H0[k], now))
        invariant forall k :: k in handles ==> handles[k] == H0[k]
        invariant recordings == old(recordings)
        invariant recorder.issued == old(recorder.issued) && recorder.files == old(recorder.files)
        decreases |hs|
      {
        var h := Dict.Choose(hs);
        hs := hs - {h};
        var data := handles[h];
        if now > data.end {
          recorder.Stop(data.handle);
          Capture.HandlesRemove(handles, HandleOf, h);
          handles := handles - {h};
        }
      }
    }

    /** The start of one recording `r` in the second loop: name its file
        after the recording's start time, channel and programme (the first
        free name for that stem, with the programme's spaces turned into
        underscores), start its capture and store its handle. The time stamp
        text of a time is `stamp(time)`. */
    method StartRecording(r: string, stamp: int -> string)
      requires Valid() && r in recordings && r !in handles
      modifies this, recorder
      ensures Valid()
      ensures recordings == old(recordings)
      ensures r in handles && handles == old(handles)[r := handles[r]]
      ensures Fresh(handles[r], recordings[r], old(recorder.issued), old(recorder.files))
      ensures Naming.FirstFree(StreamRef.TSStem(stamp(recordings[r].start), recordings[r].channel, recordings[r].programme),
                               StreamRef.Ext, old(recorder.files), handles[r].outfile)
      ensures recorder.files == old(recorder.files) + {handles[r].outfile}
    {
      var data := recordings[r];
      var fn := StreamRef.InitialiseTS(data.channel, stamp(data.start), data.programme, recorder.files);
      var h := recorder.Start(data.url, fn);
      var running := Running(data.end, data.programme, data.channel, data.sid, fn, h);
      Capture.HandlesAdd(handles, HandleOf, r, running);
      handles := handles[r := running];
    }

    /** The second loop's body for one recording `r`: when it is not being
        captured and its start has passed, it leaves `recordings`, and it is
        captured when its end has not come yet. */
    method StartOrMissOne(r: string, now: int, stamp: int -> string)
      requires Valid() && r in recordings
      modifies this, recorder
      ensures Valid()
      ensures r !in old(handles) && now > old(recordings)[r].start ==> recordings == old(recordings) - {r}
      ensures r in old(handles) || now <= old(recordings)[r].start ==> recordings == old(recordings)
      ensures r !in old(handles) && old(recordings)[r].start < now < old(recordings)[r].end ==>
                && r in handles && handles == old(handles)[r := handles[r]]
                && Fresh(handles[r], old(recordings)[r], old(recorder.issued), old(recorder.files))
      ensures r in old(handles) || !(old(recordings)[r].start < now < old(recordings)[r].end) ==> handles == old(handles)
      ensures old(recorder.issued) <= recorder.issued
      ensures old(recorder.files) <= recorder.files
    {
      var data := recordings[r];
      if r !in handles && now > data.start {
        if now < data.end {
          StartRecording(r, stamp);
        }
        recordings := recordings - {r};
      }
    }

    /** The second loop of a turn: every recording not being captured whose
        start has passed leaves `recordings`; it is captured when its end
        has not come yet, and otherwise only reported as missed. */
    method StartOrMiss(now: int, stamp: int -> string)
      requires Valid()
      modifies this, recorder
      ensures Valid()
      ensures forall k :: k in recordings <==>
                k in old(recordings) && (k in old(handles) || now <= old(recordings)[k].start)
      ensures forall k :: k in recordings ==> recordings[k] == old(recordings)[k]
      ensures forall k :: k in handles <==>
                k in old(handles) ||
                (k in old(recordings) && old(recordings)[k].start < now < old(recordings)[k].end)
      ensures forall k :: k in old(handles) ==> handles[k] == old(handles)[k]
      ensures forall k :: k in handles && k !in old(handles) ==>
                k in old(recordings) && Fresh(handles[k], old(recordings)[k], old(recorder.issued), old(recorder.files))
      ensures old(recorder.issued) <= recorder.issued
      ensures old(recorder.files) <= recorder.files
    {
      ghost var R0, H0, I0, F0 := recordings, handles, recorder.issued, recorder.files;
      var rs := recordings.Keys;
      while rs != {}
        invariant Valid()
        invariant rs <= R0.Keys
        invariant forall k :: k in recordings <==> k in R0 && (k in rs || k in H0 || now <= R0[k].start)
        invariant forall k :: k in recordings ==> recordings[k] == R0[k]
        invariant forall k :: k in handles <==>
                    k in H0 || (k in R0 && k !in rs && R0[k].start < now < R0[k].end)
        invariant forall k :: k in handles ==>
                    if k in H0 then handles[k] == H0[k] else Fresh(handles[k], R0[k], I0, F0)
        invariant I0 <= recorder.issued
        invariant F0 <= recorder.files
        decreases |rs|
      {
        var r := Dict.Choose(rs);
        rs := rs - {r};
        StartOrMissOne(r, now, stamp);
      }
    }

    /** One turn of the loop of `main` at time `now`: first the captures that
        are over are stopped, then every recording whose start has passed
        and that is not being captured any more leaves `recordings`, with a
        new capture when its end has not come yet. */
    method Step(now: int, stamp: int -> string)
      requires Valid()
      modifies this, recorder
      ensures Valid()
      ensures forall k :: k in recordings <==>
                k in old(recordings) &&
                ((k in old(handles) && !Expired(old(handles)[k], now)) || now <= old(recordings)[k].start)
      ensures forall k :: k in recordings ==> recordings[k] == old(recordings)[k]
      ensures forall k :: k in handles <==>
                (k in old(handles) && !Expired(old(handles)[k], now)) ||
                (k in old(recordings) && old(recordings)[k].start < now < old(recordings)[k].end)
      ensures forall k :: k in handles && k in old(handles) && !Expired(old(handles)[k], now) ==>
                handles[k] == old(handles)[k]
      ensures forall k :: k in handles && (k !in old(handles) || Expired(old(handles)[k], now)) ==>
                && k in old(recordings) && Fresh(handles[k], old(recordings)[k], old(recorder.issued), old(recorder.files))
                && handles[k].handle !in old(recorder.live)
      ensures old(recorder.files) <= recorder.files
    {
      StopExpired(now);
      StartOrMiss(now, stamp);
    }

    /** The reload's handling of one revised recording `data` under key
        `r`, with the checked removal, `added` new recordings counted so
        far: the tables become `ReviseOne` of the old ones, and the handles
        stay those of the live captures. */
    method ReloadOne(r: string, data: Recording, runningIds: map<nat, string>, upcomingIds: map<nat, string>,
                     now: int, added: nat) returns (count: nat)
      requires Valid()
      requires forall s :: s in runningIds ==> runningIds[s] in handles
      modifies this
      ensures Valid()
      ensures Tables(recordings, handles, count) ==
              ReviseOne(Tables(old(recordings), old(handles), added), r, data, runningIds, upcomingIds, now, true)
    {
      count := added;
      if data.sid in runningIds {
        var h := runningIds[data.sid];
        if data.channel == handles[h].channel && data.programme == handles[h].programme && data.end != handles[h].end {
          Capture.HandlesReplace(handles, HandleOf, h, handles[h].(end := data.end));
          handles := handles[h := handles[h].(end := data.end)];
        }
      } else if data.end > now {
        if data.sid in upcomingIds {
          var s := upcomingIds[data.sid];
          if s in recordings && recordings[s].sid == data.sid {
            recordings := recordings - {s};
          }
        } else {
          count := count + 1;
        }
        recordings := recordings[r := data];
      }
    }

    /** The reload's main loop, with the checked removal: the tables become
        the pass `Revise` over the old ones, and the handles stay those of
        the live captures. */
    method ReloadPass(revised: map<string, Recording>, order: seq<string>, runningIds: map<nat, string>,
                      upcomingIds: map<nat, string>, now: int) returns (newRec: nat)
      requires Valid()
      requires forall i :: 0 <= i < |order| ==> order[i] in revised
      requires forall s :: s in runningIds ==> runningIds[s] in handles
      modifies this
      ensures Valid()
      ensures Tables(recordings, handles, newRec) ==
              Revise(Tables(old(recordings), old(handles), 0), revised, order, runningIds, upcomingIds, now, true)
    {
      ghost var U := Revise(Tables(recordings, handles, 0), revised, order, runningIds, upcomingIds, now, true);
      ghost var K := handles.Keys;
      newRec := 0;
      var rest := order;
      while rest != []
        invariant forall j :: 0 <= j < |rest| ==> rest[j] in revised
        invariant Valid()
        invariant handles.Keys == K
        invariant forall s :: s in runningIds ==> runningIds[s] in handles
        invariant Revise(Tables(recordings, handles, newRec), revised, rest, runningIds, upcomingIds, now, true) == U
        decreases |rest|
      {
        var r := rest[0];
        newRec := ReloadOne(r, revised[r], runningIds, upcomingIds, now, newRec);
        rest := rest[1..];
      }
    }

    /** `reloadSchedule`, with the checked removal: merge the revised table
        `revised`, visited in the order `order`, into the upcoming and the
        running recordings at time `now`, and return the number of new
        recordings. The new tables are the pass `Revise` over the old ones
        for the schedule id indexes the method builds: no running recording
        is added or removed and an end changes only to the end of a matching
        revised recording, and (when schedule ids differ) every matching
        revised recording sets it; every upcoming recording is an old one or
        a revised one still to come; an upcoming recording whose schedule id
        a revised recording still to come carries is replaced; an upcoming
        recording stays when no revised recording still to come has its key
        or its schedule id; with the parser's distinct schedule ids, every
        revised recording still to come becomes upcoming; and the count is
        that of the new recordings. */
    method ReloadSchedule(revised: map<string, Recording>, order: seq<string>, now: int) returns (newRec: nat)
      requires Valid() && Visits(revised, order)
      modifies this
      ensures Valid()
      ensures exists runningIds, upcomingIds ::
                && Indexes(Tables(old(recordings), old(handles), 0), runningIds, upcomingIds)
                && Revise(Tables(old(recordings), old(handles), 0), revised, order, runningIds, upcomingIds, now, true)
                   == Tables(recordings, handles, newRec)
      ensures EndsRevised(old(handles), handles, revised)
      ensures DistinctSids(revised) && DistinctRunningSids(old(handles)) ==> EndsApplied(old(handles), handles, revised)
      ensures UpcomingFrom(old(recordings), recordings, revised, old(handles), now)
      ensures DistinctSids(old(recordings)) ==> Replaced(old(recordings), recordings, revised, old(handles), now)
      ensures UntouchedKept(old(recordings), recordings, revised, old(handles), now)
      ensures DistinctSids(revised) ==> AllInserted(recordings, revised, old(handles), now)
      ensures newRec == |NewKeys(revised, Tables(old(recordings), old(handles), 0), now)|
    {
      var runningIds := SidIndex(RunningSids(handles));
      var upcomingIds := SidIndex(UpcomingSids(recordings));
      ghost var T0 := Tables(recordings, handles, 0);
      ReloadKeepsPromises(T0, revised, order, runningIds, upcomingIds, now);
      newRec := ReloadPass(revised, order, runningIds, upcomingIds, now);
    }
  }
}
