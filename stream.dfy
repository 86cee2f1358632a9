/** The job set-up of stream.py: expanding the schedule template into
    recording windows, pairing every window with every stream, and choosing
    the output file of a recording. Times are whole seconds on one clock;
    the template's start and end already carry today's date. */
module Stream {
  import Naming

  /** One entry of the configuration's `stream_list`. */
  datatype Source = Source(uri: string, name: string)

  /** One recording window, from `start` to `end`. */
  datatype Schedule = Schedule(start: int, end: int)

  /** The configuration's `schedule_template`: the day's first start and its
      end bound in seconds, the length of each recording and the pause
      between two recordings in minutes. */
  datatype Template = Template(start: int, end: int, duration: int, pause: int)

  /** One job of the table `initialize_records` builds. */
  datatype Record = Record(uri: string, name: string, start: int, end: int)

  const SecondsPerMinute: int := 60

  /** The extension of every recording. */
  const Ext: string := ".ts"

  // ---------------------------------------------------------------------
  // Schedule generator (create_schedule)

  /** The windows the template loop emits once its cursor stands at `cursor`:
      one window of `duration` seconds, then `gap` seconds of pause, and so
      on while the cursor is still before `end`. The loop only moves its
      cursor forward when duration and pause add up to more than zero; when
      the cursor already stands at or past `end` it does not run at all. */
  function Windows(cursor: int, end: int, duration: int, gap: int): seq<Schedule>
    requires cursor < end ==> duration + gap > 0
    decreases end - cursor
  {
    if cursor < end then [Schedule(cursor, cursor + duration)] + Windows(cursor + duration + gap, end, duration, gap)
    else []
  }

  /** Where the template loop starts: the template's start, or `now` when
      that start has already passed. */
  function FirstStart(t: Template, now: int): int
  {
    if t.start < now then now else t.start
  }

  /** The template loop can run for ever only when its first start is before
      the end bound and duration and pause add up to zero or less. */
  predicate LoopEnds(t: Template, now: int)
  {
    FirstStart(t, now) < t.end ==> t.duration + t.pause > 0
  }

  /** Duration plus pause in minutes is more than zero exactly when it is in
      seconds. */
  lemma StepInSeconds(t: Template)
    ensures t.duration + t.pause > 0 <==> t.duration * SecondsPerMinute + t.pause * SecondsPerMinute > 0
  {
    assert t.duration * SecondsPerMinute + t.pause * SecondsPerMinute == (t.duration + t.pause) * 60;
  }

  /** The schedule `create_schedule` derives from a template at time `now`. */
  function TemplateSchedule(t: Template, now: int): seq<Schedule>
    requires LoopEnds(t, now)
  {
    StepInSeconds(t);
    Windows(FirstStart(t, now), t.end, t.duration * SecondsPerMinute, t.pause * SecondsPerMinute)
  }

  /** The loop of `create_schedule`. A template whose duration and pause add
      up to zero or less never moves the cursor forward, and the loop then
      runs for ever once it is entered: such a template is excluded unless
      its first start is already at or past its end bound, when the
      schedule is empty. */
  method CreateSchedule(t: Template, now: int) returns (schedules: seq<Schedule>)
    requires LoopEnds(t, now)
    ensures schedules == TemplateSchedule(t, now)
  {
    schedules := [];
    var startTime := t.start;
    var endTime := t.end;
    var duration := t.duration * SecondsPerMinute;
    var breakTime := t.pause * SecondsPerMinute;
    if startTime < now {
      startTime := now;
    }
    StepInSeconds(t);
    while startTime < endTime
      invariant startTime < endTime ==> duration + breakTime > 0
      invariant schedules + Windows(startTime, endTime, duration, breakTime) == TemplateSchedule(t, now)
      decreases endTime - startTime
    {
      var start := startTime;
      startTime := startTime + duration;
      var end := startTime;
      schedules := schedules + [Schedule(start, end)];
      startTime := startTime + breakTime;
    }
  }

  /** The first window starts at the cursor, and there is one exactly when
      the cursor is before the end bound; every window is `duration` long and
      starts at or after the cursor and before the end bound. */
  lemma {:induction false} WindowsShape(cursor: int, end: int, duration: int, gap: int)
    requires cursor < end ==> duration + gap > 0
    ensures var w := Windows(cursor, end, duration, gap);
      && (|w| > 0 <==> cursor < end)
      && (|w| > 0 ==> w[0].start == cursor)
      && forall i :: 0 <= i < |w| ==> w[i].end == w[i].start + duration && cursor <= w[i].start < end
    decreases end - cursor
  {
    if cursor < end {
      WindowsShape(cursor + duration + gap, end, duration, gap);
    }
  }

  /** Each window after the first starts `gap` seconds after the previous
      one ends. */
  lemma {:induction false} WindowsChain(cursor: int, end: int, duration: int, gap: int)
    requires cursor < end ==> duration + gap > 0
    ensures var w := Windows(cursor, end, duration, gap);
      forall i :: 0 < i < |w| ==> w[i].start == w[i - 1].end + gap
    decreases end - cursor
  {
    if cursor < end {
      var next := cursor + duration + gap;
      WindowsChain(next, end, duration, gap);
      WindowsShape(next, end, duration, gap);
    }
  }

  /** Window `i` starts `i` steps of duration plus pause after the cursor. */
  lemma {:induction false} WindowsClosedForm(cursor: int, end: int, duration: int, gap: int, i: nat)
    requires cursor < end ==> duration + gap > 0
    requires i < |Windows(cursor, end, duration, gap)|
    ensures Windows(cursor, end, duration, gap)[i] ==
            Schedule(cursor + i * (duration + gap), cursor + i * (duration + gap) + duration)
    decreases i
  {
    if i > 0 {
      var next := cursor + duration + gap;
      WindowsClosedForm(next, end, duration, gap, i - 1);
      assert next + (i - 1) * (duration + gap) == cursor + i * (duration + gap);
    }
  }

  /** Nothing of the day is skipped: the window that would follow the last
      one would start at or after the end bound. */
  lemma {:induction false} WindowsReachEnd(cursor: int, end: int, duration: int, gap: int)
    requires cursor < end ==> duration + gap > 0
    ensures var w := Windows(cursor, end, duration, gap);
      |w| > 0 ==> w[|w| - 1].end + gap >= end
    decreases end - cursor
  {
    if cursor < end {
      var next := cursor + duration + gap;
      WindowsReachEnd(next, end, duration, gap);
      WindowsShape(next, end, duration, gap);
    }
  }

  /** With a positive duration and no negative pause, the windows come in
      strictly increasing order and no two of them overlap. */
  lemma {:induction false} WindowsOrdered(cursor: int, end: int, duration: int, gap: int)
    requires duration > 0 && gap >= 0
    ensures var w := Windows(cursor, end, duration, gap);
      forall i, j :: 0 <= i < j < |w| ==> w[i].start < w[j].start && w[i].end <= w[j].start
    decreases end - cursor
  {
    if cursor < end {
      var next := cursor + duration + gap;
      WindowsOrdered(next, end, duration, gap);
      WindowsShape(next, end, duration, gap);
    }
  }

  /** What the template promises about the schedule `create_schedule`
      returns: it is empty exactly when the first start (the template's start,
      clipped to `now`) is not before the end bound; otherwise it begins at
      that first start, every window lasts the template's duration and starts
      before the end bound, and each next window starts one pause after the
      previous one ends. */
  lemma TemplateScheduleShape(t: Template, now: int)
    requires LoopEnds(t, now)
    ensures var w := TemplateSchedule(t, now);
      && (w == [] <==> (if t.start < now then now else t.start) >= t.end)
      && (w != [] ==> w[0].start == (if t.start < now then now else t.start))
      && (forall i :: 0 <= i < |w| ==> w[i].end - w[i].start == t.duration * 60 && now <= w[i].start < t.end)
      && (forall i :: 0 < i < |w| ==> w[i].start == w[i - 1].end + t.pause * 60)
  {
    var d, g := t.duration * SecondsPerMinute, t.pause * SecondsPerMinute;
    WindowsShape(FirstStart(t, now), t.end, d, g);
    WindowsChain(FirstStart(t, now), t.end, d, g);
  }

  /** How many windows there are: as many steps of duration plus pause as
      it takes to get from the cursor to the end bound; the last window
      starts before the end bound and one more step would reach it. */
  lemma WindowsCount(cursor: int, end: int, duration: int, gap: int)
    requires cursor < end ==> duration + gap > 0
    ensures var w := Windows(cursor, end, duration, gap);
      |w| > 0 ==> cursor + (|w| - 1) * (duration + gap) < end <= cursor + |w| * (duration + gap)
  {
    var w := Windows(cursor, end, duration, gap);
    if |w| > 0 {
      var n := |w|;
      WindowsShape(cursor, end, duration, gap);
      WindowsReachEnd(cursor, end, duration, gap);
      WindowsClosedForm(cursor, end, duration, gap, n - 1);
      assert (n - 1) * (duration + gap) + (duration + gap) == n * (duration + gap);
    }
  }

  /** The hourly template over a whole day, read at ten o'clock: the first
      window is ten to eleven, the last one starts at 23:00, and there are
      fourteen of them. */
  lemma HourlyTemplateAtTen()
    ensures var w := TemplateSchedule(Template(0, 86399, 60, 0), 36000);
      && |w| == 14
      && w[0] == Schedule(36000, 39600)
      && w[13] == Schedule(82800, 86400)
  {
    WindowsShape(36000, 86399, 3600, 0);
    WindowsCount(36000, 86399, 3600, 0);
    WindowsClosedForm(36000, 86399, 3600, 0, 13);
  }

  // ---------------------------------------------------------------------
  // Job initializer (initialize_records)

  /** The job for one stream in one window. */
  function RecordFor(s: Source, w: Schedule): Record
  {
    Record(s.uri, s.name, w.start, w.end)
  }

  /** The jobs of one window, one per stream in the order of the stream list. */
  ghost function Row(streams: seq<Source>, w: Schedule): seq<Record>
  {
    seq(|streams|, j requires 0 <= j < |streams| => RecordFor(streams[j], w))
  }

  /** All jobs in id order: the rows of the windows one after the other. */
  ghost function Grid(streams: seq<Source>, schedules: seq<Schedule>): seq<Record>
    decreases |schedules|
  {
    if schedules == [] then []
    else Grid(streams, schedules[..|schedules| - 1]) + Row(streams, schedules[|schedules| - 1])
  }

  /** The grid has one job per window and stream. */
  lemma {:induction false} GridLength(streams: seq<Source>, schedules: seq<Schedule>)
    ensures |Grid(streams, schedules)| == |schedules| * |streams|
    decreases |schedules|
  {
    if schedules != [] {
      var n, m := |schedules|, |streams|;
      var init := schedules[..n - 1];
      GridLength(streams, init);
      assert |Grid(streams, schedules)| == |Grid(streams, init)| + m;
      assert (n - 1) * m + m == n * m;
    }
  }

  /** Position i*|streams| + j of the grid holds stream j in window i. */
  lemma {:induction false} GridCell(streams: seq<Source>, schedules: seq<Schedule>, i: nat, j: nat)
    requires i < |schedules| && j < |streams|
    ensures i * |streams| + j < |Grid(streams, schedules)|
    ensures Grid(streams, schedules)[i * |streams| + j] == RecordFor(streams[j], schedules[i])
    decreases |schedules|
  {
    var n, m := |schedules|, |streams|;
    var init := schedules[..n - 1];
    GridLength(streams, init);
    assert Grid(streams, schedules) == Grid(streams, init) + Row(streams, schedules[n - 1]);
    if i < n - 1 {
      GridCell(streams, init, i, j);
    } else {
      assert i * m == (n - 1) * m;
    }
  }

  /** The job table `records` numbers the jobs of `jobs` from 0. */
  ghost predicate Numbers(records: map<int, Record>, jobs: seq<Record>)
  {
    && |records| == |jobs|
    && (forall k :: k in records <==> 0 <= k < |jobs|)
    && (forall k :: 0 <= k < |jobs| ==> records[k] == jobs[k])
  }

  /** Storing the next job under the next id keeps the numbering. */
  lemma NumbersAppend(records: map<int, Record>, jobs: seq<Record>, rec: Record)
    requires Numbers(records, jobs)
    ensures Numbers(records[|jobs| := rec], jobs + [rec])
  {
    assert |jobs| !in records;
  }

  /** The two nested loops of `initialize_records`, window-major with ids
      counted from 0: id k holds the k-th job of the grid, so (by GridLength
      and GridCell) the ids are 0 to |schedules|*|streams| - 1 and id
      i*|streams| + j holds stream j in window i. */
  method InitializeRecords(streams: seq<Source>, schedules: seq<Schedule>) returns (records: map<int, Record>)
    ensures |records| == |Grid(streams, schedules)|
    ensures forall k :: k in records <==> 0 <= k < |Grid(streams, schedules)|
    ensures forall k :: k in records ==> records[k] == Grid(streams, schedules)[k]
  {
    records := map[];
    var pid := -1;
    ghost var flat: seq<Record> := [];
    var i := 0;
    while i < |schedules|
      invariant 0 <= i <= |schedules|
      invariant flat == Grid(streams, schedules[..i])
      invariant pid == |flat| - 1
      invariant Numbers(records, flat)
    {
      var j := 0;
      ghost var done := flat;
      while j < |streams|
        invariant 0 <= j <= |streams|
        invariant flat == done + Row(streams, schedules[i])[..j]
        invariant pid == |flat| - 1
        invariant Numbers(records, flat)
      {
        var rec := RecordFor(streams[j], schedules[i]);
        assert Row(streams, schedules[i])[..j + 1] == Row(streams, schedules[i])[..j] + [rec];
        NumbersAppend(records, flat, rec);
        pid := pid + 1;
        records := records[pid := rec];
        flat := flat + [rec];
        j := j + 1;
      }
      assert schedules[..i + 1][..i] == schedules[..i];
      assert Row(streams, schedules[i])[..j] == Row(streams, schedules[i]);
      i := i + 1;
    }
    assert schedules[..i] == schedules;
  }

  lemma MulMonotone(a: int, b: int, c: nat)
    requires a <= b
    ensures a * c <= b * c
  {
    assert b * c - a * c == (b - a) * c;
  }

  /** An index below n*m splits into a quotient below n and a remainder below m. */
  lemma CellOf(k: int, n: nat, m: nat)
    requires 0 <= k < n * m
    ensures m > 0 && 0 <= k / m < n && 0 <= k % m < m && k == (k / m) * m + k % m
  {
    if m == 0 {
      assert false;
    }
    if n <= k / m {
      MulMonotone(n, k / m, m);
    }
  }

  /** Conversely, every id of the table is a cell of the window-by-stream
      grid: job k records stream k % |streams| in window k / |streams|. */
  lemma GridEntry(streams: seq<Source>, schedules: seq<Schedule>, k: int)
    requires 0 <= k < |Grid(streams, schedules)|
    ensures |streams| > 0 && k / |streams| < |schedules|
    ensures Grid(streams, schedules)[k] == RecordFor(streams[k % |streams|], schedules[k / |streams|])
  {
    GridLength(streams, schedules);
    CellOf(k, |schedules|, |streams|);
    var i: nat, j: nat := k / |streams|, k % |streams|;
    assert k == i * |streams| + j;
    GridCell(streams, schedules, i, j);
  }

  // ---------------------------------------------------------------------
  // Output namer (generate_outfile)

  /** The output name before the extension: the time stamp, then the stream
      name with its spaces turned into underscores. */
  function OutfileStem(stamp: string, streamName: string): string
  {
    stamp + "_" + Naming.Underscored(streamName)
  }

  /** `generate_outfile`, with the directory listing and the formatted time
      stamp (`%Y%m%d_%H%M%S`) as inputs and the bare file name as result: the
      first of `stem.ts`, `stem_0.ts`, `stem_1.ts`, ... that the listing does
      not hold. */
  method GenerateOutfile(streamName: string, listing: set<string>, stamp: string) returns (name: string)
    ensures name !in listing
    ensures Naming.FirstFree(OutfileStem(stamp, streamName), Ext, listing, name)
  {
    var d := Naming.WithExtension(listing, Ext);
    var fnStr := stamp + "_" + Naming.Underscored(streamName);
    name := Naming.FreeName(fnStr, Ext, d);
    Naming.FirstFreeInListing(fnStr, Ext, listing, name);
  }

  /** The stem holds no space wherever the time stamp holds none. */
  lemma OutfileStemHasNoSpace(stamp: string, streamName: string)
    requires ' ' !in stamp
    ensures ' ' !in OutfileStem(stamp, streamName)
  {
    var s := OutfileStem(stamp, streamName);
    assert s == stamp + ("_" + Naming.Underscored(streamName));
  }
}
