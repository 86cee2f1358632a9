/** The timer set-up of stream_ref.py: turning the entries of the schedule
    file into the table of recordings, keyed by "start channel", and choosing
    the output file of a recording. Times are whole seconds on one clock. */
module StreamRef {
  import Naming

  datatype Option<T> = None | Some(value: T)

  /** One entry of the schedule file: its `start` text as written (part of
      the recording's key) and the time it denotes, the optional `end` time
      and `duration` in minutes, the `channel` name and the optional
      `programme` title. */
  datatype Entry = Entry(start: string, at: int, end: Option<int>, duration: Option<int>,
                         channel: string, programme: Option<string>)

  /** One recording of the table: the channel's URL, the channel, the window,
      the programme and the schedule id `sid`, the entry's position in the
      schedule file. */
  datatype Recording = Recording(url: string, channel: string, start: int, end: int,
                                 programme: Option<string>, sid: nat)

  /** The outcome of parsing: the table, or the position of the first kept
      entry whose channel the channel list lacks (the lookup of its URL
      raises there, and the script stops). */
  datatype Outcome = Table(recordings: map<string, Recording>) | UnknownChannel(index: nat)

  const SecondsPerMinute: int := 60

  /** The extension of every recording. */
  const Ext: string := ".ts"

  // ---------------------------------------------------------------------
  // Schedule parser (parseSchedule)

  /** The end of an entry's recording: the later of `end` and `start +
      duration` when both are given, either one when only it is given, and
      none when neither is. An `end` before the start is kept as it is. */
  function EndTime(e: Entry): (r: Option<int>)
    ensures r.None? <==> e.end.None? && e.duration.None?
    ensures r.Some? && e.end.Some? ==> r.value >= e.end.value
    ensures r.Some? && e.duration.Some? ==> r.value >= e.at + e.duration.value * SecondsPerMinute
    ensures r.Some? ==> (e.end.Some? && r.value == e.end.value) ||
                        (e.duration.Some? && r.value == e.at + e.duration.value * SecondsPerMinute)
  {
    var offset := if e.duration.Some? then Some(e.at + e.duration.value * SecondsPerMinute) else None;
    if offset.Some? && e.end.Some? then
      (if offset.value > e.end.value then offset else e.end)
    else if offset.Some? then offset
    else if e.end.None? && offset.None? then None
    else e.end
  }

  /** An entry is kept when it has an end or a duration; the others are
      only reported. */
  predicate Kept(e: Entry)
  {
    EndTime(e).Some?
  }

  /** The key of an entry's recording: its start text, a space, its channel. */
  function KeyOf(e: Entry): string
  {
    e.start + " " + e.channel
  }

  /** The recording a kept entry at position `x` becomes. */
  function RecordingOf(e: Entry, url: string, x: nat): Recording
    requires Kept(e)
  {
    Recording(url, e.channel, e.at, EndTime(e).value, e.programme, x)
  }

  /** What parsing the schedule yields, entry after entry: a skipped entry
      leaves the table alone, a kept one with a known channel is stored under
      its key (over any earlier recording with that key), and the first kept
      one with an unknown channel ends the parse. */
  ghost function Parsed(schedule: seq<Entry>, channels: map<string, string>): Outcome
    decreases |schedule|
  {
    if schedule == [] then Table(map[])
    else
      var x := |schedule| - 1;
      var e := schedule[x];
      match Parsed(schedule[..x], channels)
      case UnknownChannel(i) => UnknownChannel(i)
      case Table(t) =>
        if !Kept(e) then Table(t)
        else if e.channel !in channels then UnknownChannel(x)
        else Table(t[KeyOf(e) := RecordingOf(e, channels[e.channel], x)])
  }

  /** The loop of `parseSchedule`. */
  method ParseSchedule(schedule: seq<Entry>, channels: map<string, string>) returns (res: Outcome)
    ensures res == Parsed(schedule, channels)
  {
    var recordings: map<string, Recording> := map[];
    var x := 0;
    while x < |schedule|
      invariant 0 <= x <= |schedule|
      invariant Parsed(schedule[..x], channels) == Table(recordings)
    {
      var entry := schedule[x];
      assert schedule[..x + 1][..x] == schedule[..x];
      var endtime := EndTime(entry);
      if endtime.None? {
        x := x + 1;
        continue;
      }
      if entry.channel !in channels {
        FailureSticks(schedule, channels, x + 1);
        return UnknownChannel(x);
      }
      var addr := channels[entry.channel];
      var pid := entry.start + " " + entry.channel;
      recordings := recordings[pid := RecordingOf(entry, addr, x)];
      x := x + 1;
    }
    assert schedule[..x] == schedule;
    res := Table(recordings);
  }

  /** Parsing fails exactly when some kept entry names an unknown channel,
      and then it names the first such entry. */
  lemma {:induction false} ParsedFailsAtFirstUnknown(schedule: seq<Entry>, channels: map<string, string>)
    ensures Parsed(schedule, channels).UnknownChannel? <==>
            exists x :: 0 <= x < |schedule| && Kept(schedule[x]) && schedule[x].channel !in channels
    ensures Parsed(schedule, channels).UnknownChannel? ==>
            var x := Parsed(schedule, channels).index;
            && x < |schedule| && Kept(schedule[x]) && schedule[x].channel !in channels
            && forall y :: 0 <= y < x && Kept(schedule[y]) ==> schedule[y].channel in channels
    decreases |schedule|
  {
    if schedule != [] {
      var x := |schedule| - 1;
      var init := schedule[..x];
      ParsedFailsAtFirstUnknown(init, channels);
      assert forall y :: 0 <= y < x ==> init[y] == schedule[y];
    }
  }

  /** A failed parse stays failed however many entries follow. */
  lemma {:induction false} FailureSticks(schedule: seq<Entry>, channels: map<string, string>, n: nat)
    requires n <= |schedule| && Parsed(schedule[..n], channels).UnknownChannel?
    ensures Parsed(schedule, channels) == Parsed(schedule[..n], channels)
    decreases |schedule|
  {
    if n < |schedule| {
      var init := schedule[..|schedule| - 1];
      assert init[..n] == schedule[..n];
      FailureSticks(init, channels, n);
    } else {
      assert schedule[..n] == schedule;
    }
  }

  /** A successful parse holds a recording under the key of every kept entry. */
  lemma {:induction false} ParsedCoversKept(schedule: seq<Entry>, channels: map<string, string>)
    requires Parsed(schedule, channels).Table?
    ensures var t := Parsed(schedule, channels).recordings;
      forall x :: 0 <= x < |schedule| && Kept(schedule[x]) ==> KeyOf(schedule[x]) in t
    decreases |schedule|
  {
    if schedule != [] {
      var x := |schedule| - 1;
      var init := schedule[..x];
      ParsedCoversKept(init, channels);
      assert forall y :: 0 <= y < x ==> init[y] == schedule[y];
    }
  }

  /** Each recording of a successful parse comes from the LAST kept entry
      with its key, and its `sid` is that entry's position. */
  lemma {:induction false} ParsedFromLastEntry(schedule: seq<Entry>, channels: map<string, string>)
    requires Parsed(schedule, channels).Table?
    ensures var t := Parsed(schedule, channels).recordings;
      forall k :: k in t ==>
        && t[k].sid < |schedule| && Kept(schedule[t[k].sid]) && KeyOf(schedule[t[k].sid]) == k
        && schedule[t[k].sid].channel in channels
        && t[k] == RecordingOf(schedule[t[k].sid], channels[schedule[t[k].sid].channel], t[k].sid)
        && forall y :: t[k].sid < y < |schedule| && Kept(schedule[y]) ==> KeyOf(schedule[y]) != k
    decreases |schedule|
  {
    if schedule != [] {
      var x := |schedule| - 1;
      var init := schedule[..x];
      var e := schedule[x];
      ParsedFromLastEntry(init, channels);
      var t0 := Parsed(init, channels).recordings;
      var t := Parsed(schedule, channels).recordings;
      forall k | k in t
        ensures && t[k].sid < |schedule| && Kept(schedule[t[k].sid]) && KeyOf(schedule[t[k].sid]) == k
                && schedule[t[k].sid].channel in channels
                && t[k] == RecordingOf(schedule[t[k].sid], channels[schedule[t[k].sid].channel], t[k].sid)
                && forall y :: t[k].sid < y < |schedule| && Kept(schedule[y]) ==> KeyOf(schedule[y]) != k
      {
        if Kept(e) && k == KeyOf(e) {
          assert t[k] == RecordingOf(e, channels[e.channel], x);
        } else {
          assert k in t0 && t[k] == t0[k];
          assert init[t0[k].sid] == schedule[t0[k].sid];
          assert forall y :: t0[k].sid < y < x ==> init[y] == schedule[y];
        }
      }
    }
  }

  /** No two recordings of a parsed table share a schedule id. */
  lemma ParsedSidsDistinct(schedule: seq<Entry>, channels: map<string, string>)
    requires Parsed(schedule, channels).Table?
    ensures var t := Parsed(schedule, channels).recordings;
      forall k, l :: k in t && l in t && k != l ==> t[k].sid != t[l].sid
  {
    ParsedFromLastEntry(schedule, channels);
  }

  // ---------------------------------------------------------------------
  // Output namer (initialiseTS)

  /** The output name before the extension as `initialiseTS` builds it: the
      time stamp and the channel, then the programme when there is one, all
      joined by underscores. The programme's spaces are meant to become
      underscores, but the result of that replacement is thrown away, so
      they stay. */
  function TSStemAsWritten(stamp: string, channel: string, programme: Option<string>): string
  {
    if programme.Some? then stamp + "_" + channel + "_" + programme.value
    else stamp + "_" + channel
  }

  /** The output name before the extension with the programme's spaces
      turned into underscores, as the comment beside the replacement says. */
  function TSStem(stamp: string, channel: string, programme: Option<string>): string
  {
    if programme.Some? then stamp + "_" + channel + "_" + Naming.Underscored(programme.value)
    else stamp + "_" + channel
  }

  /** The two stems agree whenever the programme holds no space, and only
      then: the discarded replacement matters exactly for titles with spaces. */
  lemma StemsAgreeWithoutSpaces(stamp: string, channel: string, programme: Option<string>)
    ensures TSStemAsWritten(stamp, channel, programme) == TSStem(stamp, channel, programme) <==>
            (programme.Some? ==> ' ' !in programme.value)
  {
    if programme.Some? {
      var p := programme.value;
      var pre := stamp + "_" + channel + "_";
      if ' ' !in p {
        assert Naming.Underscored(p) == p;
      } else {
        var i :| 0 <= i < |p| && p[i] == ' ';
        assert (pre + p)[|pre| + i] == ' ';
        assert (pre + Naming.Underscored(p))[|pre| + i] == '_';
      }
    }
  }

  /** A programme with a space, as written: the space reaches the file name,
      where the corrected stem has an underscore. */
  lemma ProgrammeSpacesKept()
    ensures ' ' in TSStemAsWritten("20150818_180800", "BBC", Some("Late News"))
    ensures ' ' !in TSStem("20150818_180800", "BBC", Some("Late News"))
  {
    var pre := "20150818_180800_BBC_";
    assert TSStemAsWritten("20150818_180800", "BBC", Some("Late News")) == pre + "Late News";
    assert (pre + "Late News")[|pre| + 4] == ' ';
    TSStemHasNoSpace("20150818_180800", "BBC", Some("Late News"));
  }

  /** With the replacement in place, a space can reach the stem only through
      the time stamp or the channel name, which are used as they are. */
  lemma TSStemHasNoSpace(stamp: string, channel: string, programme: Option<string>)
    requires ' ' !in stamp && ' ' !in channel
    ensures ' ' !in TSStem(stamp, channel, programme)
  {
    if programme.Some? {
      var u := Naming.Underscored(programme.value);
      assert TSStem(stamp, channel, programme) == stamp + ("_" + (channel + ("_" + u)));
    } else {
      assert TSStem(stamp, channel, programme) == stamp + ("_" + channel);
    }
  }

  /** `initialiseTS`, with the programme's spaces replaced, the directory
      listing and the formatted time stamp as inputs and the bare file name
      as result: the first of `stem.ts`, `stem_0.ts`, `stem_1.ts`, ... that
      the listing does not hold. */
  method InitialiseTS(channel: string, stamp: string, programme: Option<string>, listing: set<string>)
    returns (name: string)
    ensures name !in listing
    ensures Naming.FirstFree(TSStem(stamp, channel, programme), Ext, listing, name)
  {
    var d := Naming.WithExtension(listing, Ext);
    var fn := stamp + "_" + channel;
    if programme.Some? {
      var title := Naming.Underscored(programme.value);
      fn := fn + "_" + title;
    }
    name := Naming.FreeName(fn, Ext, d);
    Naming.FirstFreeInListing(fn, Ext, listing, name);
  }
}
