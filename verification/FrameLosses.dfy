/** Stack frames are copied with the ids their backend's temporary table gave
    them, 1, 2, 3, ... (rpd_tracer/StackFrameTable.cpp:67-76): in the default mode
    a second backend's flush meets ids the first one took. */
module FrameLosses {
  import opened Wrappers
  import opened SqlSchema
  import opened CollectedRows
  import opened WriterBackends
  import opened BackendRuns
  import opened FlushLosses
  import RowCodec

  ghost predicate FramesLost(s: State) {
    exists w :: w in s.lost && w.table == StackFrame
  }

  // ---- what steps do to frames -----------------------------------------

  function Frames(s: State, i: nat): seq<Record>
    requires i < |s.backends|
  {
    Waiting(s, i, StackFrame)
  }

  function LastFrame(s: State, i: nat): int
    requires i < |s.backends|
  {
    LastId(s.backends[i].temp, StackFrame)
  }

  predicate FrameStored(s: State, id: int) {
    Taken(s.main, StackFrame, id)
  }

  predicate HasId(rs: seq<Record>, id: int) {
    exists k :: 0 <= k < |rs| && rs[k].id == id
  }

  lemma FrameHasNoKey(w: Written)
    ensures w.table == StackFrame ==> KeyOf(w) == None
  {
  }

  /** A write adds a frame to its backend's table under the next id. */
  lemma PutFrames(s: State, i: nat, w: Written)
    requires i < |s.backends|
    ensures var t := Put(s, i, w);
            && |t.backends| == |s.backends|
            && (forall j :: 0 <= j < |s.backends| ==>
                  t.backends[j].direct == s.backends[j].direct && t.backends[j].table == s.backends[j].table)
            && (forall j :: 0 <= j < |s.backends| ==>
                  if j == i && !s.backends[i].direct && w.table == StackFrame then
                    Frames(t, j) == Frames(s, j) + [Record(LastFrame(s, j) + 1, w)]
                    && LastFrame(t, j) == LastFrame(s, j) + 1
                  else Frames(t, j) == Frames(s, j) && LastFrame(t, j) == LastFrame(s, j))
            && (!(s.backends[i].direct && w.table == StackFrame) ==>
                  forall id :: FrameStored(t, id) <==> FrameStored(s, id))
            && (forall id :: FrameStored(s, id) ==> FrameStored(t, id))
  {
    FrameHasNoKey(w);
    var f := Target(s, i);
    hide KeyOf, Taken, LastId, OfTable;
    if !KeyTaken(f, w) {
      var id := IdFor(f, w);
      OfTableNext(f.records, Record(id, w), StackFrame);
      LastAfter(f, id, w, StackFrame);
      forall x ensures Taken(Append(f, id, w), StackFrame, x)
                       <==> Taken(f, StackFrame, x) || (w.table == StackFrame && id == x)
      {
        TakenAfter(f, id, w, StackFrame, x);
      }
    }
  }

  /** One copy statement stores the waiting frames under their ids, or refuses
      them all; statements for other tables leave frames alone. */
  lemma CopyFrames(s: State, i: nat, t: SqlTable)
    requires Inv(s) && i < |s.backends|
    ensures var rs := Frames(s, i);
            forall id :: FrameStored(Copied(s, i, t), id) <==>
              FrameStored(s, id) || (t == StackFrame && !Refused(s.main, rs, StackFrame) && HasId(rs, id))
  {
    var temp := s.backends[i].temp;
    TargetOk(s, i);
    assert FileOk(temp);
    OfTableFacts(temp, |temp.records|, t);
    assert temp.records[..|temp.records|] == temp.records;
    FlushCopiesColumns(StackFrame);
    hide FileOk, Copyable, Taken, RowsOf, OfTable, CopiesId, AppendAll;
    var rs := Waiting(s, i, t);
    if !Refused(s.main, rs, t) {
      AppendAllOk(s.main, rs, t);
    }
  }

  lemma NoFramesElsewhere(s: State, i: nat)
    requires Inv(s) && i < |s.backends|
    ensures StackFrame !in Into(s.backends[i].table) ==> Frames(s, i) == []
    ensures StackFrame in Into(s.backends[i].table) ==> Into(s.backends[i].table) == [StackFrame]
    ensures s.backends[i].direct ==> Frames(s, i) == []
  {
    TargetOk(s, i);
    var rs := s.backends[i].temp.records;
    OfTableFrom(rs, StackFrame);
    if Frames(s, i) != [] {
      assert Frames(s, i)[0] in rs;
    }
  }

  /** A flush stores the waiting frames under their ids, or loses them all. */
  lemma FlushFrames(s: State, i: nat)
    requires Inv(s) && i < |s.backends|
    ensures var t, rs := Flushed(s, i), Frames(s, i);
            && |t.backends| == |s.backends|
            && (forall j :: 0 <= j < |s.backends| ==>
                  t.backends[j].direct == s.backends[j].direct && t.backends[j].table == s.backends[j].table)
            && (forall j :: 0 <= j < |s.backends| ==>
                  Frames(t, j) == (if j == i then [] else Frames(s, j)) && LastFrame(t, j) == LastFrame(s, j))
            && (forall id :: FrameStored(t, id)
                             <==> FrameStored(s, id) || (!Refuses(s, i, StackFrame) && HasId(rs, id)))
  {
    FlushBackends(s, i);
    NoFramesElsewhere(s, i);
    hide Flushed, Inv;
    FlushStores(s, i);
  }

  lemma FlushBackends(s: State, i: nat)
    requires Inv(s) && i < |s.backends|
    ensures Flushed(s, i).backends
            == if s.backends[i].direct then s.backends else Emptied(s, i).backends
  {
    hide Copied, Inv;
    FlushSteps(s, i);
    var ts := Into(s.backends[i].table);
    SameBackends(s, i, ts[0]);
    if |ts| > 1 {
      SameBackends(Copied(s, i, ts[0]), i, ts[1]);
    }
  }

  lemma FlushStores(s: State, i: nat)
    requires Inv(s) && i < |s.backends|
    ensures forall id :: FrameStored(Flushed(s, i), id)
                         <==> FrameStored(s, id) || (!Refuses(s, i, StackFrame) && HasId(Frames(s, i), id))
  {
    NoFramesElsewhere(s, i);
    IntoFacts(s.backends[i].table);
    hide Refused, Into, Taken, Copied, CopiesId, Inv, FileOk, OfTable;
    FlushSteps(s, i);
    var ts := Into(s.backends[i].table);
    if !s.backends[i].direct {
      CopyOk(s, i, ts[0]);
      SameBackends(s, i, ts[0]);
      CopyFrames(s, i, ts[0]);
      if |ts| > 1 {
        CopyFrames(Copied(s, i, ts[0]), i, ts[1]);
      }
    }
  }

  /** Frames are lost only by a flush that refuses them. */
  lemma FramesLostAfter(s: State, e: Event)
    requires Inv(s) && Enabled(s, e)
    ensures FramesLost(Step(s, e)) <==> FramesLost(s) || (e.Flush? && Refuses(s, e.backend, StackFrame))
  {
    hide Step, KeyTaken, Refused, Inv, OfTable;
    forall w: Written | w.table == StackFrame
      ensures w in Step(s, e).lost <==>
                w in s.lost || (e.Flush? && Refuses(s, e.backend, StackFrame) && HasRow(Frames(s, e.backend), w))
    {
      LostAfter(s, e, w);
      FrameHasNoKey(w);
    }
    if e.Flush? && Refuses(s, e.backend, StackFrame) {
      var w := RefusedFrame(s, e.backend);
      assert w in Step(s, e).lost;
    }
  }

  lemma RefusedFrame(s: State, i: nat) returns (w: Written)
    requires i < |s.backends| && Refuses(s, i, StackFrame)
    ensures w.table == StackFrame && HasRow(Frames(s, i), w)
  {
    var rs := Frames(s, i);
    OfTableFrom(s.backends[i].temp.records, StackFrame);
    assert rs[0] in rs;
    w := rs[0].row;
  }

  // ---- one writer keeps all --------------------------------------------

  ghost predicate WritesFrames(events: seq<Event>, i: nat) {
    exists k :: 0 <= k < |events| && FrameFrom(events[k], i)
  }

  lemma {:induction false} ConfigStays(states: seq<State>, events: seq<Event>, n: nat)
    requires IsRun(states, events) && n <= |events|
    ensures |states[n].backends| == |states[0].backends|
    ensures forall j :: 0 <= j < |states[0].backends| ==>
              states[n].backends[j].direct == states[0].backends[j].direct
              && states[n].backends[j].table == states[0].backends[j].table
  {
    hide Initial, Put, Flushed, Inv;
    if n > 0 {
      ConfigStays(states, events, n - 1);
      RunOk(states, events, n - 1);
      match events[n - 1] {
        case Write(i, w) => PutFrames(states[n - 1], i, w);
        case Flush(i) => FlushFrames(states[n - 1], i);
      }
    }
  }

  /** Only backend i has frames waiting, and all of them come after those
      stored. */
  ghost predicate OneWriter(s: State, i: nat) {
    && (forall j :: 0 <= j < |s.backends| && j != i ==> Frames(s, j) == [])
    && (i < |s.backends| ==>
          forall id :: FrameStored(s, id) ==>
            id <= LastFrame(s, i) && forall k :: 0 <= k < |Frames(s, i)| ==> id < Frames(s, i)[k].id)
  }

  lemma OneWriterNext(s: State, i: nat, e: Event)
    requires Inv(s) && Enabled(s, e) && OneWriter(s, i) && i < |s.backends| && !s.backends[i].direct
    requires e.Write? && e.row.table == StackFrame ==> e.backend == i
    ensures OneWriter(Step(s, e), i) && !(e.Flush? && Refuses(s, e.backend, StackFrame))
  {
    hide Put, Flushed, FrameStored, Frames, LastFrame, Refused, Inv;
    match e
    case Write(j, w) =>
      PutFrames(s, j, w);
    case Flush(j) =>
      FlushFrames(s, j);
      FramesBelowLast(s, i);
      NothingRefused(s, i, j);
  }

  lemma FramesBelowLast(s: State, i: nat)
    requires Inv(s) && i < |s.backends|
    ensures forall k :: 0 <= k < |Frames(s, i)| ==> Frames(s, i)[k].id <= LastFrame(s, i)
  {
    TargetOk(s, i);
    var temp := s.backends[i].temp;
    OfTableFrom(temp.records, StackFrame);
    forall k | 0 <= k < |Frames(s, i)| ensures Frames(s, i)[k].id <= LastFrame(s, i) {
      assert Frames(s, i)[k] in temp.records;
      var c :| 0 <= c < |temp.records| && temp.records[c] == Frames(s, i)[k];
      assert RecordOk(temp, temp.records[c]);
    }
  }

  lemma NothingRefused(s: State, i: nat, j: nat)
    requires i < |s.backends| && j < |s.backends| && OneWriter(s, i)
    ensures !Refuses(s, j, StackFrame)
  {
    hide Taken, OfTable;
    var rs := Waiting(s, j, StackFrame);
    assert rs == Frames(s, j);
    forall k | 0 <= k < |rs| ensures !Taken(s.main, StackFrame, rs[k].id) {
      assert !FrameStored(s, rs[k].id);
    }
    assert !Refused(s.main, rs, StackFrame);
  }

  lemma {:induction false} OneWriterStays(states: seq<State>, events: seq<Event>, n: nat, i: nat)
    requires IsRun(states, events) && n <= |events| && i < |states[0].backends| && !states[0].backends[i].direct
    requires forall j: nat :: WritesFrames(events, j) ==> j == i
    ensures |states[n].backends| == |states[0].backends| && OneWriter(states[n], i) && !FramesLost(states[n])
  {
    hide Step, OneWriter, Inv, FramesLost, Refuses;
    ConfigStays(states, events, n);
    if n == 0 {
      NoFramesYet(states[0], i);
    } else {
      ConfigStays(states, events, n - 1);
      OneWriterStays(states, events, n - 1, i);
      RunOk(states, events, n - 1);
      var e := events[n - 1];
      if e.Write? && e.row.table == StackFrame {
        assert WritesFrames(events, e.backend);
      }
      OneWriterNext(states[n - 1], i, e);
      FramesLostAfter(states[n - 1], e);
    }
  }

  lemma NoFramesYet(s: State, i: nat)
    requires Initial(s)
    ensures OneWriter(s, i) && !FramesLost(s)
    ensures forall j :: 0 <= j < |s.backends| ==> Frames(s, j) == [] && LastFrame(s, j) == 0
    ensures forall id :: !FrameStored(s, id)
  {
  }

  // ---- direct writing keeps all ----------------------------------------

  lemma {:induction false} DirectFramesKept(states: seq<State>, events: seq<Event>, n: nat)
    requires IsRun(states, events) && n <= |events|
    requires forall j: nat :: WritesFrames(events, j) ==> j < |states[0].backends| && states[0].backends[j].direct
    ensures forall j :: 0 <= j < |states[n].backends| ==> Frames(states[n], j) == []
    ensures !FramesLost(states[n])
  {
    hide Put, Flushed, Inv, FramesLost, Frames, FrameStored, LastFrame;
    if n == 0 {
      NoFramesYet(states[0], 0);
    } else {
      DirectFramesKept(states, events, n - 1);
      ConfigStays(states, events, n - 1);
      RunOk(states, events, n - 1);
      var s, e := states[n - 1], events[n - 1];
      FramesLostAfter(s, e);
      match e {
        case Write(i, w) =>
          if w.table == StackFrame {
            assert WritesFrames(events, i);
          }
          PutFrames(s, i, w);
        case Flush(i) =>
          FlushFrames(s, i);
          NoneWaiting(s, i);
      }
    }
  }

  lemma NoneWaiting(s: State, i: nat)
    requires i < |s.backends| && Frames(s, i) == []
    ensures !Refuses(s, i, StackFrame)
  {
  }

  // ---- two writers do not ----------------------------------------------

  /** A backend's first frame, which had id 1, has left its temporary table. */
  predicate FirstGone(s: State, j: nat)
    requires j < |s.backends|
  {
    LastFrame(s, j) >= 1 && !HasId(Frames(s, j), 1)
  }

  /** As long as no frame is lost, at most one backend's first frame is stored. */
  ghost predicate OneFirst(s: State) {
    && (forall j :: 0 <= j < |s.backends| ==> LastFrame(s, j) >= 0)
    && (forall j :: 0 <= j < |s.backends| && FirstGone(s, j) ==> FrameStored(s, 1))
    && (forall j, k :: 0 <= j < k < |s.backends| ==> !(FirstGone(s, j) && FirstGone(s, k)))
  }

  lemma OneFirstNext(s: State, e: Event)
    requires Inv(s) && Enabled(s, e) && OneFirst(s)
    ensures OneFirst(Step(s, e)) || (e.Flush? && Refuses(s, e.backend, StackFrame))
  {
    hide Put, Flushed, FrameStored, Frames, LastFrame, Refused, Inv, HasId;
    match e
    case Write(i, w) =>
      PutFrames(s, i, w);
      HasIdNext(Frames(s, i), Record(LastFrame(s, i) + 1, w));
      var t := Put(s, i, w);
      assert forall j :: 0 <= j < |s.backends| && j != i ==> (FirstGone(t, j) <==> FirstGone(s, j));
      assert FirstGone(t, i) ==> FirstGone(s, i);
    case Flush(i) =>
      FlushFrames(s, i);
      NoIds();
      FirstRefused(s, i);
      var t := Flushed(s, i);
      assert forall j :: 0 <= j < |s.backends| && j != i ==> (FirstGone(t, j) <==> FirstGone(s, j));
      assert FirstGone(t, i) ==> FirstGone(s, i) || HasId(Frames(s, i), 1);
      if !Refuses(s, i, StackFrame) && HasId(Frames(s, i), 1) {
        assert FrameStored(t, 1);
        assert forall j :: 0 <= j < |s.backends| ==> !FirstGone(s, j);
      }
  }

  lemma HasIdNext(rs: seq<Record>, r: Record)
    ensures forall id :: HasId(rs + [r], id) <==> HasId(rs, id) || id == r.id
  {
    forall id ensures HasId(rs + [r], id) <==> HasId(rs, id) || id == r.id {
      if HasId(rs, id) {
        var k :| 0 <= k < |rs| && rs[k].id == id;
        assert (rs + [r])[k].id == id;
      }
      assert (rs + [r])[|rs|] == r;
    }
  }

  lemma NoIds()
    ensures forall id :: !HasId([], id)
  {
  }

  lemma FirstRefused(s: State, i: nat)
    requires Inv(s) && i < |s.backends|
    ensures FrameStored(s, 1) && HasId(Frames(s, i), 1) ==> Refuses(s, i, StackFrame)
  {
    NoFramesElsewhere(s, i);
    FlushCopiesColumns(StackFrame);
  }

  lemma {:induction false} OneFirstStays(states: seq<State>, events: seq<Event>, n: nat)
    requires IsRun(states, events) && n <= |events|
    ensures FramesLost(states[n]) || OneFirst(states[n])
  {
    hide Step, OneFirst, Inv, FramesLost, Refuses;
    if n == 0 {
      FirstOfNone(states[0]);
    } else {
      OneFirstStays(states, events, n - 1);
      RunOk(states, events, n - 1);
      FramesLostAfter(states[n - 1], events[n - 1]);
      if OneFirst(states[n - 1]) {
        OneFirstNext(states[n - 1], events[n - 1]);
      }
    }
  }

  lemma FirstOfNone(s: State)
    requires Initial(s)
    ensures OneFirst(s)
  {
    NoFramesYet(s, 0);
  }

  predicate FrameFrom(e: Event, i: nat) {
    e.Write? && e.row.table == StackFrame && e.backend == i
  }

  lemma WritesNext(events: seq<Event>, n: nat, i: nat)
    requires n < |events|
    ensures WritesFrames(events[..n + 1], i) <==> WritesFrames(events[..n], i) || FrameFrom(events[n], i)
  {
    var all, before := events[..n + 1], events[..n];
    if WritesFrames(before, i) {
      var k :| 0 <= k < n && FrameFrom(before[k], i);
      assert FrameFrom(all[k], i);
    }
    if FrameFrom(events[n], i) {
      assert FrameFrom(all[n], i);
    }
    if WritesFrames(all, i) {
      var k :| 0 <= k < n + 1 && FrameFrom(all[k], i);
      assert k < n ==> FrameFrom(before[k], i);
    }
  }

  /** A step of a backend in the default mode counts its frames. */
  lemma LastFrameNext(s: State, e: Event, i: nat)
    requires Inv(s) && Enabled(s, e) && i < |s.backends| && !s.backends[i].direct
    ensures i < |Step(s, e).backends|
    ensures LastFrame(Step(s, e), i) == LastFrame(s, i) + if FrameFrom(e, i) then 1 else 0
  {
    hide Put, Flushed, Inv, Frames, FrameStored, LastFrame;
    match e
    case Write(j, w) => PutFrames(s, j, w);
    case Flush(j) => FlushFrames(s, j);
  }

  lemma {:induction false} WroteOne(states: seq<State>, events: seq<Event>, n: nat, i: nat)
    requires IsRun(states, events) && n <= |events| && i < |states[0].backends| && !states[0].backends[i].direct
    ensures i < |states[n].backends| && LastFrame(states[n], i) >= 0
    ensures WritesFrames(events[..n], i) ==> LastFrame(states[n], i) >= 1
  {
    hide Step, Enabled, Inv, LastFrame, Initial, WritesFrames, FrameFrom;
    ConfigStays(states, events, n);
    if n == 0 {
      NoFramesYet(states[0], i);
      NoWrites(i);
      assert events[..0] == [];
    } else {
      WroteOne(states, events, n - 1, i);
      ConfigStays(states, events, n - 1);
      RunOk(states, events, n - 1);
      WritesNext(events, n - 1, i);
      LastFrameNext(states[n - 1], events[n - 1], i);
    }
  }

  lemma NoWrites(i: nat)
    ensures !WritesFrames([], i)
  {
  }

  lemma TwoWritersLose(states: seq<State>, events: seq<Event>, i: nat, j: nat)
    requires IsRun(states, events) && Quiescent(states[|events|]) && i != j
    requires i < |states[0].backends| && !states[0].backends[i].direct && WritesFrames(events, i)
    requires j < |states[0].backends| && !states[0].backends[j].direct && WritesFrames(events, j)
    ensures FramesLost(states[|events|])
  {
    var n := |events|;
    assert events[..n] == events;
    WroteOne(states, events, n, i);
    WroteOne(states, events, n, j);
    OneFirstStays(states, events, n);
    assert Frames(states[n], i) == [] && Frames(states[n], j) == [];
    hide LastFrame, Frames, FramesLost, Initial, Step;
    NoIds();
    assert FirstGone(states[n], i) && FirstGone(states[n], j);
  }

  /** In the default mode, once everything has been flushed, frames have been lost
      if and only if two backends wrote any. */
  lemma FramesKeptIffOneWriter(states: seq<State>, events: seq<Event>)
    requires IsRun(states, events) && Quiescent(states[|events|])
    requires forall i: nat :: WritesFrames(events, i) ==> i < |states[0].backends| && !states[0].backends[i].direct
    ensures !FramesLost(states[|events|])
            <==> forall i: nat, j: nat :: WritesFrames(events, i) && WritesFrames(events, j) ==> i == j
  {
    hide Initial, Step, Enabled, Quiescent, FramesLost, WritesFrames;
    if i: nat, j: nat :| WritesFrames(events, i) && WritesFrames(events, j) && i != j {
      TwoWritersLose(states, events, i, j);
    } else if i: nat :| WritesFrames(events, i) {
      OneWriterStays(states, events, |events|, i);
    } else {
      DirectFramesKept(states, events, |events|);
    }
  }

  // ---- an input --------------------------------------------------------

  function OneFrame(w: Written): File {
    File([Record(1, w)], map[StackFrame := 1])
  }

  const NONE_LEFT := File([], map[StackFrame := 1])

  lemma FirstPut(s: State, i: nat, w: Written)
    requires i < |s.backends| && s.backends[i] == Backend(RowCodec.StackFrameTable, false, EMPTY_FILE)
    requires w.table == StackFrame
    ensures Put(s, i, w) == WithTemp(s, i, OneFrame(w))
  {
    FrameHasNoKey(w);
    hide KeyOf;
    assert EMPTY_FILE.records + [Record(1, w)] == [Record(1, w)];
  }

  lemma OneWaiting(w: Written)
    requires w.table == StackFrame
    ensures OfTable([Record(1, w)], StackFrame) == [Record(1, w)] && RowsOf([Record(1, w)]) == [w]
  {
    OneTable([Record(1, w)], StackFrame);
  }

  lemma RefusedOne(main: File, w: Written)
    requires w.table == StackFrame
    ensures Refused(main, [Record(1, w)], StackFrame) <==> Taken(main, StackFrame, 1)
  {
    hide Taken;
    assert [Record(1, w)][0].id == 1;
  }

  lemma AppendOne(w: Written)
    requires w.table == StackFrame
    ensures AppendAll(EMPTY_FILE, [Record(1, w)], StackFrame) == OneFrame(w)
  {
    var rs := [Record(1, w)];
    assert rs[..0] == [] && AppendAll(EMPTY_FILE, [], StackFrame) == EMPTY_FILE;
    assert EMPTY_FILE.records + rs == rs;
    assert AppendAll(EMPTY_FILE, rs, StackFrame) == Append(EMPTY_FILE, 1, w);
  }

  lemma FirstFlush(s: State, i: nat, w: Written)
    requires i < |s.backends| && s.backends[i] == Backend(RowCodec.StackFrameTable, false, OneFrame(w))
    requires w.table == StackFrame
    ensures s.main == EMPTY_FILE ==> Flushed(s, i) == WithTemp(s.(main := OneFrame(w)), i, NONE_LEFT)
    ensures Taken(s.main, StackFrame, 1) ==> Flushed(s, i) == WithTemp(s.(lost := s.lost + [w]), i, NONE_LEFT)
  {
    OneWaiting(w);
    RefusedOne(s.main, w);
    AppendOne(w);
    EmptyTakes(StackFrame, 1);
    FlushSteps(s, i);
    hide AppendAll, OfTable, RowsOf, Taken, LastId, Refused, Flushed;
    assert s.lost + [] == s.lost;
  }

  lemma EmptyTakes(t: SqlTable, id: int)
    ensures !Taken(EMPTY_FILE, t, id)
  {
  }

  /** Two backends of one file each write a frame and flush it: the second frame
      is nowhere any more. */
  lemma SecondFrameIsLost(a: Written, b: Written, states: seq<State>)
    requires a.table == b.table == StackFrame
    requires var empty := Backend(RowCodec.StackFrameTable, false, EMPTY_FILE);
             |states| == 5 && states[0] == State(EMPTY_FILE, [empty, empty], [])
    requires IsRun(states, [Write(0, a), Write(1, b), Flush(0), Flush(1)])
    ensures states[4].main.records == [Record(1, a)] && states[4].lost == [b]
    ensures Quiescent(states[4])
  {
    var events := [Write(0, a), Write(1, b), Flush(0), Flush(1)];
    assert events[0] == Write(0, a) && events[1] == Write(1, b) && events[2] == Flush(0) && events[3] == Flush(1);
    hide Put, Flushed, Initial, Taken;
    assert states[1] == Put(states[0], 0, a) && states[2] == Put(states[1], 1, b);
    assert states[3] == Flushed(states[2], 0) && states[4] == Flushed(states[3], 1);
    hide IsRun, Enabled, Step;
    FirstPut(states[0], 0, a);
    FirstPut(states[1], 1, b);
    FirstFlush(states[2], 0, a);
    OneFrameTaken(a);
    FirstFlush(states[3], 1, b);
  }

  lemma OneFrameTaken(w: Written)
    requires w.table == StackFrame
    ensures Taken(OneFrame(w), StackFrame, 1)
  {
    assert OneFrame(w).records[0] == Record(1, w);
  }
}
