/** The capture engine both scripts drive (VLC): it records a stream URI into
    an output file from `Start` until `Stop`. The scripts only hold on to the
    handle it gives back and hand it to `Stop` once; the engine itself is a
    black box, so this class keeps just what the scripts can observe: which
    handles are live and which files the output directory holds. */
module Capture {

  /** The opaque reference to one running capture (the instance, player and
      media objects the scripts keep). */
  datatype Handle = Handle(id: nat)

  /** The handles held by the entries of a table of running captures, where
      `handle` gives the handle an entry keeps. */
  ghost function HandlesOf<K, V>(table: map<K, V>, handle: V -> Handle): set<Handle>
  {
    set k | k in table :: handle(table[k])
  }

  /** No two entries of the table share a handle. */
  ghost predicate DistinctHandlesOf<K, V>(table: map<K, V>, handle: V -> Handle)
  {
    forall k, l :: k in table && l in table && k != l ==> handle(table[k]) != handle(table[l])
  }

  /** A capture with a new handle joins the running ones. */
  lemma HandlesAdd<K, V>(table: map<K, V>, handle: V -> Handle, k: K, v: V)
    requires k !in table && handle(v) !in HandlesOf(table, handle)
    requires DistinctHandlesOf(table, handle)
    ensures HandlesOf(table[k := v], handle) == HandlesOf(table, handle) + {handle(v)}
    ensures DistinctHandlesOf(table[k := v], handle)
  {
    var t := table[k := v];
    forall x | x in HandlesOf(t, handle)
      ensures x in HandlesOf(table, handle) + {handle(v)}
    {
      var l :| l in t && handle(t[l]) == x;
    }
    forall x | x in HandlesOf(table, handle) + {handle(v)}
      ensures x in HandlesOf(t, handle)
    {
      if x == handle(v) {
        assert handle(t[k]) == x;
      } else {
        var l :| l in table && handle(table[l]) == x;
        assert handle(t[l]) == x;
      }
    }
  }

  /** A stopped capture takes exactly its own handle with it. */
  lemma HandlesRemove<K, V>(table: map<K, V>, handle: V -> Handle, k: K)
    requires k in table && DistinctHandlesOf(table, handle)
    ensures HandlesOf(table - {k}, handle) == HandlesOf(table, handle) - {handle(table[k])}
    ensures DistinctHandlesOf(table - {k}, handle)
  {
    var t := table - {k};
    forall x | x in HandlesOf(t, handle)
      ensures x in HandlesOf(table, handle) - {handle(table[k])}
    {
      var l :| l in t && handle(t[l]) == x;
      assert l in table && l != k;
    }
    forall x | x in HandlesOf(table, handle) - {handle(table[k])}
      ensures x in HandlesOf(t, handle)
    {
      var l :| l in table && handle(table[l]) == x;
      assert l != k && handle(t[l]) == x;
    }
  }

  /** Replacing an entry by one with the same handle keeps the handles. */
  lemma HandlesReplace<K, V>(table: map<K, V>, handle: V -> Handle, k: K, v: V)
    requires k in table && handle(v) == handle(table[k]) && DistinctHandlesOf(table, handle)
    ensures HandlesOf(table[k := v], handle) == HandlesOf(table, handle)
    ensures DistinctHandlesOf(table[k := v], handle)
  {
    var t := table[k := v];
    forall x | x in HandlesOf(t, handle)
      ensures x in HandlesOf(table, handle)
    {
      var l :| l in t && handle(t[l]) == x;
      assert handle(table[l]) == x;
    }
    forall x | x in HandlesOf(table, handle)
      ensures x in HandlesOf(t, handle)
    {
      var l :| l in table && handle(table[l]) == x;
      assert handle(t[l]) == x;
    }
  }

  class Recorder {
    /** Number of captures started so far. */
    var issued: nat
    /** Captures started and not yet stopped. */
    var live: set<Handle>
    /** File names in the output directory. */
    var files: set<string>

    ghost predicate Valid()
      reads this
    {
      forall h :: h in live ==> h.id < issued
    }

    /** An engine with no capture running, over a directory holding `files`. */
    constructor (files: set<string>)
      ensures Valid()
      ensures live == {} && this.files == files
    {
      issued := 0;
      live := {};
      this.files := files;
    }

    /** Begins capturing `uri` into `outfile` and returns at once; the output
        file appears in the directory. The handle is new: no capture, live or
        stopped, had it before, since handles are numbered in the order the
        captures start. */
    method Start(uri: string, outfile: string) returns (h: Handle)
      requires Valid()
      modifies this
      ensures Valid()
      ensures h !in old(live) && live == old(live) + {h}
      ensures h.id == old(issued) && issued == old(issued) + 1
      ensures files == old(files) + {outfile}
    {
      h := Handle(issued);
      issued := issued + 1;
      live := live + {h};
      files := files + {outfile};
    }

    /** Stops and releases the capture behind `h`, which must still be live:
        a handle is released exactly once. */
    method Stop(h: Handle)
      requires Valid() && h in live
      modifies this
      ensures Valid()
      ensures live == old(live) - {h}
      ensures issued == old(issued) && files == old(files)
    {
      live := live - {h};
    }
  }
}
