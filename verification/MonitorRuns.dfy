/** Monitor samples stored as runs of equal values per device and counter
    (rpd_tracer/MonitorTable.cpp:112-127, :145-166 and :191-200).  `log` is the
    sequence of rows handed to insertInternal(). */
module MonitorRuns {
  import opened Wrappers

  datatype Key = Key(deviceId: int, monitorType: string, deviceType: string)

  datatype Sample = Sample(start: int, value: int)

  datatype Row = Row(key: Key, start: int, end: int, value: int)

  // ---- one key ---------------------------------------------------------

  /** What a key has: its open run and the rows stored for it. */
  datatype KeyView = KeyView(open: Option<Sample>, rows: seq<Row>)

  function TakeSample(v: KeyView, k: Key, x: Sample): KeyView {
    match v.open
    case None => v.(open := Some(x))
    case Some(run) =>
      if run.value == x.value then v
      else KeyView(Some(x), v.rows + [Row(k, run.start, x.start, run.value)])
  }

  function EndRun(v: KeyView, k: Key, ts: int): KeyView {
    match v.open
    case None => v
    case Some(run) => KeyView(None, v.rows + [Row(k, run.start, ts, run.value)])
  }

  function Project(log: seq<Row>, k: Key): seq<Row> {
    if log == [] then []
    else
      var n := |log| - 1;
      Project(log[..n], k) + if log[n].key == k then [log[n]] else []
  }

  lemma ProjectAdds(log: seq<Row>, r: Row, k: Key)
    ensures Project(log + [r], k) == if r.key == k then Project(log, k) + [r] else Project(log, k)
  {
    assert (log + [r])[..|log|] == log;
  }

  lemma ProjectsAdd(log: seq<Row>, r: Row)
    ensures forall k :: Project(log + [r], k) == if r.key == k then Project(log, k) + [r] else Project(log, k)
  {
    forall k ensures Project(log + [r], k) == if r.key == k then Project(log, k) + [r] else Project(log, k) {
      ProjectAdds(log, r, k);
    }
  }

  // ---- the table -------------------------------------------------------

  class MonitorTable {
    var values: map<Key, Sample>
    var log: seq<Row>

    function View(k: Key): KeyView
      reads this
    {
      KeyView(if k in values then Some(values[k]) else None, Project(log, k))
    }

    constructor ()
      ensures values == map[] && log == []
    {
      values, log := map[], [];
    }

    method Insert(key: Key, x: Sample)
      modifies this
      ensures forall k :: View(k) == if k == key then TakeSample(old(View(k)), k, x) else old(View(k))
    {
      if key !in values {
        values := values[key := x];
      }
      var current := values[key];
      if current.value != x.value {
        var r := Row(key, current.start, x.start, current.value);
        ProjectsAdd(log, r);
        log := log + [r];
        values := values[key := x];
      }
    }

    /** Keys in any order: rows of different keys do not depend on it. */
    method EndCurrentRuns(ts: int)
      modifies this
      ensures values == map[]
      ensures forall k :: View(k) == EndRun(old(View(k)), k, ts)
    {
      hide Project;
      var todo := values.Keys;
      while todo != {}
        invariant values == old(values) && todo <= values.Keys
        invariant forall k :: Project(log, k) == if k in values && k !in todo then EndRun(old(View(k)), k, ts).rows
                                                  else old(View(k)).rows
        decreases |todo|
      {
        var key :| key in todo;
        var r := Row(key, values[key].start, ts, values[key].value);
        ProjectsAdd(log, r);
        log := log + [r];
        todo := todo - {key};
      }
      values := map[];
    }
  }

  // ---- whole runs ------------------------------------------------------

  datatype Event = Sampled(key: Key, x: Sample) | Ended(ts: int)

  /** A key's view depends only on its own samples and the ends. */
  function KeyRun(k: Key, events: seq<Event>): KeyView {
    if events == [] then KeyView(None, [])
    else
      var n := |events| - 1;
      var v := KeyRun(k, events[..n]);
      match events[n]
      case Sampled(key, x) => if key == k then TakeSample(v, k, x) else v
      case Ended(ts) => EndRun(v, k, ts)
  }

  method Monitor(events: seq<Event>) returns (table: MonitorTable)
    ensures forall k :: table.View(k) == KeyRun(k, events)
  {
    table := new MonitorTable();
    assert events[..0] == [];
    for i := 0 to |events|
      invariant fresh(table)
      invariant forall k :: table.View(k) == KeyRun(k, events[..i])
    {
      assert events[..i + 1][..i] == events[..i];
      match events[i] {
        case Sampled(key, x) => table.Insert(key, x);
        case Ended(ts) => table.EndCurrentRuns(ts);
      }
    }
    assert events[..|events|] == events;
  }

  // ---- faithful run-length encoding ------------------------------------

  ghost predicate Ascending(xs: seq<Sample>) {
    forall i, j :: 0 <= i < j < |xs| ==> xs[i].start <= xs[j].start
  }

  /** The run a sample belongs to: how often the value changed up to it. */
  function RunOf(xs: seq<Sample>, j: nat): nat
    requires j < |xs|
  {
    if j == 0 then 0 else RunOf(xs, j - 1) + if xs[j].value != xs[j - 1].value then 1 else 0
  }

  /** Contiguous runs of one key from `start` to `end`; neighbours differ. */
  ghost predicate Contiguous(k: Key, start: int, end: int, runs: seq<Row>) {
    && runs != [] && runs[0].start == start && runs[|runs| - 1].end == end
    && (forall i :: 0 <= i < |runs| ==> runs[i].key == k && runs[i].start <= runs[i].end)
    && (forall i :: 0 <= i < |runs| - 1 ==> runs[i].end == runs[i + 1].start && runs[i].value != runs[i + 1].value)
  }

  /** A sample lies in its run and has its value; one that changed the value
      starts its run. */
  ghost predicate Placed(xs: seq<Sample>, j: nat, runs: seq<Row>)
    requires j < |xs|
  {
    && RunOf(xs, j) < |runs| && Covers(runs[RunOf(xs, j)], xs[j])
    && (j > 0 && xs[j].value != xs[j - 1].value ==> runs[RunOf(xs, j)].start == xs[j].start)
  }

  /** The runs are the run-length encoding of the samples, closed at `ts`. */
  ghost predicate Encodes(k: Key, xs: seq<Sample>, ts: int, runs: seq<Row>) {
    && xs != [] && |runs| == RunOf(xs, |xs| - 1) + 1
    && Contiguous(k, xs[0].start, ts, runs)
    && forall j :: 0 <= j < |xs| ==> Placed(xs, j, runs)
  }

  predicate Covers(r: Row, x: Sample) {
    r.start <= x.start <= r.end && r.value == x.value
  }

  /** Feed a key the samples of one stretch between two resets. */
  function Feed(v: KeyView, k: Key, xs: seq<Sample>): KeyView {
    if xs == [] then v
    else
      var n := |xs| - 1;
      TakeSample(Feed(v, k, xs[..n]), k, xs[n])
  }

  lemma {:induction false} RunOfPrefix(xs: seq<Sample>, n: nat, j: nat)
    requires j < n <= |xs|
    ensures RunOf(xs[..n], j) == RunOf(xs, j)
  {
    if j > 0 {
      RunOfPrefix(xs, n, j - 1);
    }
  }

  /** Closing the open run at ts gives the encoding; rows stored before stay. */
  ghost predicate FeedsTo(before: seq<Row>, k: Key, xs: seq<Sample>, v: KeyView, ts: int) {
    && xs != [] && v.open.Some? && before <= v.rows
    && v.open.value.value == xs[|xs| - 1].value
    && Encodes(k, xs, ts, v.rows[|before|..] + [Row(k, v.open.value.start, ts, v.open.value.value)])
  }

  lemma {:induction false} FeedEncodes(before: seq<Row>, k: Key, xs: seq<Sample>, ts: int)
    requires xs != [] && Ascending(xs) && xs[|xs| - 1].start <= ts
    ensures FeedsTo(before, k, xs, Feed(KeyView(None, before), k, xs), ts)
    decreases |xs|
  {
    hide Encodes, RunOf;
    var n := |xs| - 1;
    var v := Feed(KeyView(None, before), k, xs[..n]);
    if n == 0 {
      assert v == KeyView(None, before);
      assert Feed(KeyView(None, before), k, xs) == KeyView(Some(xs[0]), before);
      var last := Row(k, xs[0].start, ts, xs[0].value);
      assert before[|before|..] + [last] == [last];
      FirstRun(k, xs, ts);
    } else {
      FeedEncodes(before, k, xs[..n], xs[n].start);
      FeedEncodes(before, k, xs[..n], ts);
      var open := v.open.value;
      if open.value == xs[n].value {
        SameRun(k, xs, ts, v.rows[|before|..] + [Row(k, open.start, ts, open.value)]);
      } else {
        var runs := v.rows[|before|..] + [Row(k, open.start, xs[n].start, open.value)];
        NewRun(k, xs, ts, runs);
        var w := Feed(KeyView(None, before), k, xs);
        assert w.rows[|before|..] == runs;
      }
    }
  }

  lemma FirstRun(k: Key, xs: seq<Sample>, ts: int)
    requires |xs| == 1 && xs[0].start <= ts
    ensures Encodes(k, xs, ts, [Row(k, xs[0].start, ts, xs[0].value)])
  {
  }

  lemma StillPlaced(xs: seq<Sample>, n: nat, j: nat, runs: seq<Row>, more: seq<Row>)
    requires j < n <= |xs| && Placed(xs[..n], j, runs)
    ensures Placed(xs, j, runs + more)
  {
    RunOfPrefix(xs, n, j);
  }

  lemma StepOfRun(xs: seq<Sample>)
    requires |xs| >= 2
    ensures var n := |xs| - 1;
            RunOf(xs, n) == RunOf(xs[..n], n - 1) + if xs[n].value != xs[n - 1].value then 1 else 0
  {
    RunOfPrefix(xs, |xs| - 1, |xs| - 2);
  }

  /** One more sample of the same value stays in the last run. */
  lemma SameRun(k: Key, xs: seq<Sample>, ts: int, runs: seq<Row>)
    requires |xs| >= 2 && Ascending(xs) && xs[|xs| - 1].start <= ts && xs[|xs| - 1].value == xs[|xs| - 2].value
    requires Encodes(k, xs[..|xs| - 1], ts, runs)
    ensures Encodes(k, xs, ts, runs)
  {
    hide RunOf;
    var n := |xs| - 1;
    StepOfRun(xs);
    assert Placed(xs[..n], n - 1, runs);
    forall j | 0 <= j < |xs| ensures Placed(xs, j, runs) {
      if j < n {
        assert Placed(xs[..n], j, runs);
        StillPlaced(xs, n, j, runs, []);
        assert runs + [] == runs;
      }
    }
  }

  /** A changed value closes the last run and opens the next. */
  lemma NewRun(k: Key, xs: seq<Sample>, ts: int, runs: seq<Row>)
    requires |xs| >= 2 && Ascending(xs) && xs[|xs| - 1].start <= ts && xs[|xs| - 1].value != xs[|xs| - 2].value
    requires Encodes(k, xs[..|xs| - 1], xs[|xs| - 1].start, runs) && runs[|runs| - 1].value == xs[|xs| - 2].value
    ensures Encodes(k, xs, ts, runs + [Row(k, xs[|xs| - 1].start, ts, xs[|xs| - 1].value)])
  {
    hide RunOf;
    var n := |xs| - 1;
    var last := Row(k, xs[n].start, ts, xs[n].value);
    StepOfRun(xs);
    ContiguousGrows(k, xs[0].start, runs, last);
    forall j | 0 <= j < |xs| ensures Placed(xs, j, runs + [last]) {
      if j < n {
        assert Placed(xs[..n], j, runs);
        StillPlaced(xs, n, j, runs, [last]);
      }
    }
  }

  lemma ContiguousGrows(k: Key, start: int, runs: seq<Row>, last: Row)
    requires Contiguous(k, start, last.start, runs) && last.key == k && last.start <= last.end
    requires runs[|runs| - 1].value != last.value
    ensures Contiguous(k, start, last.end, runs + [last])
  {
  }

  /** The samples of key k in a stretch without ends. */
  function SamplesOf(k: Key, events: seq<Event>): seq<Sample> {
    if events == [] then []
    else
      var n := |events| - 1;
      SamplesOf(k, events[..n]) + if events[n].Sampled? && events[n].key == k then [events[n].x] else []
  }

  lemma {:induction false} StretchFeeds(k: Key, before: seq<Event>, stretch: seq<Event>)
    requires forall e :: e in stretch ==> e.Sampled?
    ensures KeyRun(k, before + stretch) == Feed(KeyRun(k, before), k, SamplesOf(k, stretch))
    decreases |stretch|
  {
    if stretch == [] {
      assert before + stretch == before;
    } else {
      var n := |stretch| - 1;
      assert (before + stretch)[..|before| + n] == before + stretch[..n];
      StretchFeeds(k, before, stretch[..n]);
      var xs := SamplesOf(k, stretch[..n]);
      assert stretch[n] in stretch;
      if stretch[n].key == k {
        assert (xs + [stretch[n].x])[..|xs|] == xs;
      } else {
        assert xs + [] == xs;
      }
    }
  }

  lemma {:induction false} AfterEndNothingOpen(k: Key, events: seq<Event>)
    requires events == [] || events[|events| - 1].Ended?
    ensures KeyRun(k, events).open == None
  {
  }

  /** Between two resets, with times that never go back, the rows a key gains
      are a faithful run-length encoding of its samples; a key without samples
      gains none. */
  lemma StretchIsEncoded(k: Key, before: seq<Event>, stretch: seq<Event>, ts: int)
    requires before == [] || before[|before| - 1].Ended?
    requires forall e :: e in stretch ==> e.Sampled?
    requires var xs := SamplesOf(k, stretch); Ascending(xs) && (xs != [] ==> xs[|xs| - 1].start <= ts)
    ensures var past, now := KeyRun(k, before).rows, KeyRun(k, before + stretch + [Ended(ts)]).rows;
            && past <= now
            && if SamplesOf(k, stretch) == [] then now == past else Encodes(k, SamplesOf(k, stretch), ts, now[|past|..])
  {
    var xs, first := SamplesOf(k, stretch), KeyRun(k, before);
    assert (before + stretch + [Ended(ts)])[..|before + stretch|] == before + stretch;
    StretchFeeds(k, before, stretch);
    AfterEndNothingOpen(k, before);
    if xs != [] {
      FeedEncodes(first.rows, k, xs, ts);
      var v := Feed(first, k, xs);
      assert (v.rows + [Row(k, v.open.value.start, ts, v.open.value.value)])[|first.rows|..]
          == v.rows[|first.rows|..] + [Row(k, v.open.value.start, ts, v.open.value.value)];
    }
  }

  /** Emitted runs of one stretch do not overlap. */
  lemma {:induction false} RunsApart(k: Key, xs: seq<Sample>, ts: int, runs: seq<Row>, i: nat, j: nat)
    requires Encodes(k, xs, ts, runs) && i < j < |runs|
    ensures runs[i].end <= runs[j].start
  {
    if i + 1 < j {
      RunsApart(k, xs, ts, runs, i, j - 1);
    }
  }
}
