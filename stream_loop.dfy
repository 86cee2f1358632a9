/** One turn of the poll loop of stream.py: the jobs still waiting
    (`records`) and the jobs being captured (`handling_records`), keyed by
    the job id of the table `initialize_records` built. A turn first starts
    every waiting job whose window is open, then stops every capture whose
    window has closed. */
module StreamLoop {
  import Capture
  import Dict
  import Naming
  import Stream

  /** A job whose capture is running: the job, the file it writes to and
      the engine's handle for it. */
  datatype Active = Active(rec: Stream.Record, outfile: string, handle: Capture.Handle)

  /** A waiting job is started when `now` lies strictly inside its window. */
  predicate Due(r: Stream.Record, now: int)
  {
    r.start < now < r.end
  }

  /** A running capture is stopped once `now` is past its window. */
  predicate Expired(a: Active, now: int)
  {
    now > a.rec.end
  }

  /** The handle a running capture keeps. */
  function HandleOf(a: Active): Capture.Handle
  {
    a.handle
  }

  /** A capture started for job `rec` in this turn: it records that job,
      under a handle that was not live and into a file the directory did not
      hold when the turn began. */
  predicate Fresh(a: Active, rec: Stream.Record, live: set<Capture.Handle>, files: set<string>)
  {
    a.rec == rec && a.handle !in live && a.outfile !in files
  }

  class Poller {
    /** Jobs not started yet (`records`). */
    var records: map<int, Stream.Record>
    /** Jobs being captured (`handling_records`). */
    var handling: map<int, Active>
    /** The capture engine and the output directory. */
    const recorder: Capture.Recorder

    /** A job is waiting or running, never both; every running capture
        holds its own live handle, and every live handle belongs to a
        running capture, so none is lost. */
    ghost predicate Valid()
      reads this, recorder
    {
      && recorder.Valid()
      && records.Keys !! handling.Keys
      && recorder.live == Capture.HandlesOf(handling, HandleOf)
      && Capture.DistinctHandlesOf(handling, HandleOf)
    }

    /** The start of `main`: the table of all jobs of the template's
        windows at time `now`, nothing running yet, over an output directory
        holding `files`. */
    constructor (streams: seq<Stream.Source>, template: Stream.Template, now: int, files: set<string>)
      requires Stream.LoopEnds(template, now)
      ensures Valid()
      ensures var grid := Stream.Grid(streams, Stream.TemplateSchedule(template, now));
        && (forall k :: k in records <==> 0 <= k < |grid|)
        && (forall k :: k in records ==> records[k] == grid[k])
      ensures handling == map[]
      ensures recorder.live == {} && recorder.files == files
    {
      var schedules := Stream.CreateSchedule(template, now);
      var table := Stream.InitializeRecords(streams, schedules);
      records := table;
      handling := map[];
      recorder := new Capture.Recorder(files);
    }

    /** The body of the first loop for a due job `r`: name its output file
        (the first free name for the stamp and the job's stream name), start
        its capture and move it from `records` to `handling`. */
    method StartJob(r: int, stamp: string)
      requires Valid() && r in records
      modifies this, recorder
      ensures Valid()
      ensures records == old(records) - {r}
      ensures r in handling && handling == old(handling)[r := handling[r]]
      ensures handling[r].rec == old(records)[r]
      ensures handling[r].handle !in old(recorder.live)
      ensures recorder.live == old(recorder.live) + {handling[r].handle}
      ensures handling[r].outfile !in old(recorder.files)
      ensures Naming.FirstFree(Stream.OutfileStem(stamp, old(records)[r].name), Stream.Ext,
                               old(recorder.files), handling[r].outfile)
      ensures recorder.files == old(recorder.files) + {handling[r].outfile}
    {
      var data := records[r];
      var outfile := Stream.GenerateOutfile(data.name, recorder.files, stamp);
      var h := recorder.Start(data.uri, outfile);
      Capture.HandlesAdd(handling, HandleOf, r, Active(data, outfile, h));
      handling := handling[r := Active(data, outfile, h)];
      records := records - {r};
    }

    /** The first loop's body for job `r`: when it is due it is started and
        moves to `handling`, and otherwise nothing changes. */
    method StartIfDue(r: int, now: int, stamp: string)
      requires Valid() && r in records
      modifies this, recorder
      ensures Valid()
      ensures Due(old(records)[r], now) ==>
                && records == old(records) - {r}
                && r in handling && handling == old(handling)[r := handling[r]]
                && Fresh(handling[r], old(records)[r], old(recorder.live), old(recorder.files))
                && Naming.FirstFree(Stream.OutfileStem(stamp, old(records)[r].name), Stream.Ext,
                                    old(recorder.files), handling[r].outfile)
      ensures !Due(old(records)[r], now) ==> records == old(records) && handling == old(handling)
      ensures old(recorder.live) <= recorder.live
      ensures old(recorder.files) <= recorder.files
    {
      var data := records[r];
      if data.start < now < data.end {
        StartJob(r, stamp);
      }
    }

    /** The first loop of a turn: every due job leaves `records` and gets a
        capture with a new handle, writing to a file that was not in the
        directory; every other job stays where it was. */
    method StartDue(now: int, stamp: string)
      requires Valid()
      modifies this, recorder
      ensures Valid()
      ensures forall k :: k in records <==> k in old(records) && !Due(old(records)[k], now)
      ensures forall k :: k in records ==> records[k] == old(records)[k]
      ensures forall k :: k in handling <==> k in old(handling) || (k in old(records) && Due(old(records)[k], now))
      ensures forall k :: k in old(handling) ==> handling[k] == old(handling)[k]
      ensures forall k :: k in handling && k !in old(handling) ==>
                k in old(records) && Fresh(handling[k], old(records)[k], old(recorder.live), old(recorder.files))
      ensures old(recorder.files) <= recorder.files
    {
      ghost var R0, H0, L0, F0 := records, handling, recorder.live, recorder.files;
      var rs := records.Keys;
      while rs != {}
        invariant Valid()
        invariant rs <= R0.Keys
        invariant forall k :: k in records <==> k in R0 && (k in rs || !Due(R0[k], now))
        invariant forall k :: k in records ==> records[k] == R0[k]
        invariant forall k :: k in handling <==> k in H0 || (k in R0 && k !in rs && Due(R0[k], now))
        invariant forall k :: k in handling ==> if k in H0 then handling[k] == H0[k] else Fresh(handling[k], R0[k], L0, F0)
        invariant L0 <= recorder.live
        invariant F0 <= recorder.files
        decreases |rs|
      {
        var r := Dict.Choose(rs);
        rs := rs - {r};
        StartIfDue(r, now, stamp);
      }
    }

    /** The second loop of a turn: exactly the expired captures are stopped
        and dropped; `records` and the directory are left alone. */
    method StopExpired(now: int)
      requires Valid()
      modifies this, recorder
      ensures Valid()
      ensures records == old(records)
      ensures forall k :: k in handling <==> k in old(handling) && !Expired(old(handling)[k], now)
      ensures forall k :: k in handling ==> handling[k] == old(handling)[k]
      ensures recorder.files == old(recorder.files)
    {
      ghost var H1 := handling;
      var hrs := handling.Keys;
      while hrs != {}
        invariant Valid()
        invariant hrs <= H1.Keys
        invariant forall k :: k in handling <==> k in H1 && (k in hrs || !Expired(H1[k], now))
        invariant forall k :: k in handling ==> handling[k] == H1[k]
        invariant records == old(records)
        invariant recorder.files == old(recorder.files)
        decreases |hrs|
      {
        var hr := Dict.Choose(hrs);
        hrs := hrs - {hr};
        var data := handling[hr];
        if now > data.rec.end {
          recorder.Stop(data.handle);
          Capture.HandlesRemove(handling, HandleOf, hr);
          handling := handling - {hr};
        }
      }
    }

    /** One turn of the poll loop at time `now`, every output name built
        from the time stamp `stamp`. Exactly the due jobs leave `records`,
        each with a new capture; exactly the expired captures are dropped,
        and a capture started in this turn is never among them, since a due
        job's window is still open. A waiting job whose window has already
        closed is never due, so it stays in `records` for good. */
    method Step(now: int, stamp: string)
      requires Valid()
      modifies this, recorder
      ensures Valid()
      ensures forall k :: k in records <==> k in old(records) && !Due(old(records)[k], now)
      ensures forall k :: k in records ==> records[k] == old(records)[k]
      ensures forall k :: k in handling <==>
                (k in old(handling) && !Expired(old(handling)[k], now)) ||
                (k in old(records) && Due(old(records)[k], now))
      ensures forall k :: k in handling && k in old(handling) ==> handling[k] == old(handling)[k]
      ensures forall k :: k in handling && k !in old(handling) ==>
                k in old(records) && Fresh(handling[k], old(records)[k], old(recorder.live), old(recorder.files))
      ensures old(recorder.files) <= recorder.files
      ensures forall k :: k in old(records) && old(records)[k].end <= now ==> k in records
    {
      StartDue(now, stamp);
      StopExpired(now);
    }
  }
}
