/** The input both call-stack generators read: the rocpd_api table and, for
    every thread, its start and end events as the shared ORDER BY delivers them
    (rocpd_python/rocpd/call_stacks.py:54-65 and :146-161). */
module CallTrace {
  import opened Sequences

  datatype Thread = Thread(pid: int, tid: int)

  /** One row of rocpd_api. */
  datatype Frame = Frame(id: int, thread: Thread, start: int, end: int)

  datatype Event = Event(frame: Frame, isStart: bool) {
    function Ts(): int {
      if isStart then frame.start else frame.end
    }

    function Delta(): int {
      if isStart then 1 else -1
    }

    /** ORDER BY ts, evt DESC: at one timestamp starts come before ends. */
    predicate NotAfter(that: Event) {
      Ts() < that.Ts() || (Ts() == that.Ts() && Delta() >= that.Delta())
    }
  }

  /** One row of ext_callstack. */
  datatype Row = Row(parent: int, child: int, depth: nat, cpu: int, gpu: int)

  /** api_id -> SUM(end - start) over the operations of that call. */
  type GpuTimes = map<int, int>

  function GpuOf(gpu: GpuTimes, id: int): int {
    if id in gpu then gpu[id] else 0
  }

  function EventsOf(frames: seq<Frame>): seq<Event> {
    if frames == [] then [] else [Event(frames[0], true), Event(frames[0], false)] + EventsOf(frames[1..])
  }

  function ThreadFrames(api: seq<Frame>, t: Thread): seq<Frame> {
    if api == [] then []
    else (if api[0].thread == t then [api[0]] else []) + ThreadFrames(api[1..], t)
  }

  ghost predicate UniqueIds(api: seq<Frame>) {
    forall i, j :: 0 <= i < j < |api| ==> api[i].id != api[j].id
  }

  ghost predicate Ordered(ev: seq<Event>) {
    forall i, j :: 0 <= i < j < |ev| ==> ev[i].NotAfter(ev[j])
  }

  ghost predicate NoRepeat(ev: seq<Event>) {
    forall i, j :: 0 <= i < j < |ev| ==> ev[i] != ev[j]
  }

  /** The table, its distinct threads in any order, and one event stream per
      thread.  SQL leaves the order of equal keys open, so a stream is any
      ordered permutation of the thread's events. */
  datatype Trace = Trace(api: seq<Frame>, threads: seq<Thread>, streams: seq<seq<Event>>) {
    ghost predicate Valid() {
      && UniqueIds(api)
      && |threads| == |streams|
      && (forall t, u :: 0 <= t < u < |threads| ==> threads[t] != threads[u])
      && (forall f :: f in api ==> f.thread in threads)
      && (forall t :: 0 <= t < |threads| ==>
            && Ordered(streams[t])
            && multiset(streams[t]) == multiset(EventsOf(ThreadFrames(api, threads[t]))))
    }
  }

  /** Sum of the +1 and -1 marks of a stream. */
  function Net(ev: seq<Event>): int {
    if ev == [] then 0 else ev[0].Delta() + Net(ev[1..])
  }

  lemma {:induction false} NetConcat(a: seq<Event>, b: seq<Event>)
    ensures Net(a + b) == Net(a) + Net(b)
  {
    if a == [] {
      assert a + b == b;
    } else {
      NetConcat(a[1..], b);
      assert (a + b)[1..] == a[1..] + b;
    }
  }

  lemma NetWithout(ev: seq<Event>, i: nat)
    requires i < |ev|
    ensures Net(ev) == ev[i].Delta() + Net(Without(ev, i))
  {
    assert ev == ev[..i] + ev[i..];
    NetConcat(ev[..i], ev[i..]);
    NetConcat(ev[..i], ev[i + 1..]);
  }

  lemma {:induction false} NetPermutes(a: seq<Event>, b: seq<Event>)
    requires multiset(a) == multiset(b)
    ensures Net(a) == Net(b)
  {
    if a == [] {
      assert |multiset(b)| == 0;
    } else {
      assert a[0] in multiset(b);
      var i :| 0 <= i < |b| && b[i] == a[0];
      BagWithout(a, 0);
      BagWithout(b, i);
      NetPermutes(Without(a, 0), Without(b, i));
      NetWithout(a, 0);
      NetWithout(b, i);
    }
  }

  lemma {:induction false} NetOfTable(frames: seq<Frame>)
    ensures Net(EventsOf(frames)) == 0
  {
    if frames != [] {
      NetOfTable(frames[1..]);
      NetConcat([Event(frames[0], true), Event(frames[0], false)], EventsOf(frames[1..]));
      assert [Event(frames[0], true), Event(frames[0], false)][1..] == [Event(frames[0], false)];
    }
  }

  lemma {:induction false} EventMembers(frames: seq<Frame>, e: Event)
    requires UniqueIds(frames)
    ensures multiset(EventsOf(frames))[e] == if e.frame in frames then 1 else 0
  {
    if frames != [] {
      EventMembers(frames[1..], e);
      assert frames == [frames[0]] + frames[1..];
      assert frames[0] !in frames[1..];
    }
  }

  lemma {:induction false} ThreadMembers(api: seq<Frame>, t: Thread)
    requires UniqueIds(api)
    ensures UniqueIds(ThreadFrames(api, t))
    ensures forall f :: f in ThreadFrames(api, t) <==> f in api && f.thread == t
  {
    if api != [] {
      ThreadMembers(api[1..], t);
      assert api == [api[0]] + api[1..];
      var rest := ThreadFrames(api[1..], t);
      forall f | f in rest ensures f.id != api[0].id {
        assert f in api[1..];
      }
    }
  }

  /** What the ordered permutation says about membership and balance. */
  lemma StreamFacts(tr: Trace, t: nat)
    requires tr.Valid() && t < |tr.threads|
    ensures NoRepeat(tr.streams[t]) && Net(tr.streams[t]) == 0
    ensures forall e: Event :: e in tr.streams[t] <==> e.frame in tr.api && e.frame.thread == tr.threads[t]
  {
    var ev, frames := tr.streams[t], ThreadFrames(tr.api, tr.threads[t]);
    ThreadMembers(tr.api, tr.threads[t]);
    NetOfTable(frames);
    NetPermutes(ev, EventsOf(frames));
    forall e: Event ensures multiset(ev)[e] == if e.frame in frames then 1 else 0 {
      EventMembers(frames, e);
    }
    forall e: Event ensures e in ev <==> e.frame in frames {
      assert e in ev <==> e in multiset(ev);
    }
    forall i, j | 0 <= i < j < |ev| ensures ev[i] != ev[j] {
      if ev[i] == ev[j] {
        RepeatCounts(ev, i, j);
      }
    }
  }
}
