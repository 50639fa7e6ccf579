/** One table's channel in the collector: receivers and flush() queue entries,
    one writer thread handles them, end() stops it
    (rpd_tracer/RemoteDataSource.cpp:280-365 and :517-564). */
module WriterChannel {
  import opened Sequences

  /** A queue entry; a flush nobody waits for has number 0. */
  datatype Entry = Batch(body: int) | FlushMark(seqNo: nat)

  /** The fields guarded by the channel's mutexes, and the backend behind it:
      batches go to its temporary table until a flush moves them on. */
  datatype Channel = Channel(queue: seq<Entry>, nextFlushSeq: nat, completedFlushSeq: nat, done: bool,
                             temp: seq<int>, main: seq<int>)

  function Flushed(c: Channel): Channel {
    c.(main := c.main + c.temp, temp := [])
  }

  /** signalFlushComplete() */
  function Signalled(c: Channel, seqNo: nat): Channel {
    if seqNo > c.completedFlushSeq then c.(completedFlushSeq := seqNo) else c
  }

  /** The backend's part of handling an entry. */
  function Handled(c: Channel, e: Entry): Channel {
    match e
    case Batch(body) => c.(temp := c.temp + [body])
    case FlushMark(_) => Flushed(c)
  }

  /** The drain loop after the writer's main loop. */
  function Drained(c: Channel): Channel
    decreases |c.queue|
  {
    if c.queue == [] then c
    else
      var e, d := c.queue[0], Handled(c, c.queue[0]).(queue := c.queue[1..]);
      Drained(if e.FlushMark? then Signalled(d, e.seqNo) else d)
  }

  /** The batches among some entries, in order. */
  function Bodies(es: seq<Entry>): seq<int> {
    if es == [] then []
    else
      var n := |es| - 1;
      Bodies(es[..n]) + if es[n].Batch? then [es[n].body] else []
  }

  /** The highest flush number among some entries and n. */
  function Highest(es: seq<Entry>, n: nat): nat {
    if es == [] then n
    else
      var m := Highest(es[..|es| - 1], n);
      var e := es[|es| - 1];
      if e.FlushMark? && e.seqNo > m then e.seqNo else m
  }

  lemma {:induction false} FirstEntry(e: Entry, es: seq<Entry>, n: nat)
    ensures Bodies([e] + es) == (if e.Batch? then [e.body] else []) + Bodies(es)
    ensures Highest([e] + es, n) == Highest(es, if e.FlushMark? && e.seqNo > n then e.seqNo else n)
    decreases |es|
  {
    var all := [e] + es;
    if es == [] {
      assert all == [e] && all[..0] == [];
      assert Bodies([]) == [] && [] + Bodies(all) == Bodies(all);
    } else {
      var k := |es| - 1;
      FirstEntry(e, es[..k], n);
      assert all[..|all| - 1] == [e] + es[..k] && all[|all| - 1] == es[k];
    }
  }

  /** The drain loop handles every entry once and in order: each batch reaches
      the backend behind what it had, and completion rises to the highest mark. */
  lemma {:induction false} DrainedHandlesAll(c: Channel)
    ensures var d := Drained(c);
            && d.queue == [] && d.main + d.temp == c.main + c.temp + Bodies(c.queue)
            && d.completedFlushSeq == Highest(c.queue, c.completedFlushSeq)
            && d.nextFlushSeq == c.nextFlushSeq && d.done == c.done
    decreases |c.queue|
  {
    if c.queue == [] {
      assert c.main + c.temp + [] == c.main + c.temp;
    } else {
      DrainsFirst(c);
      DrainedHandlesAll(AfterFirst(c));
      FirstEntry(c.queue[0], c.queue[1..], c.completedFlushSeq);
      hide Drained, AfterFirst, Bodies, Highest;
      assert [c.queue[0]] + c.queue[1..] == c.queue;
      Regroup(c.main + c.temp, if c.queue[0].Batch? then [c.queue[0].body] else [], Bodies(c.queue[1..]));
    }
  }

  function AfterFirst(c: Channel): Channel
    requires c.queue != []
  {
    var e := c.queue[0];
    var h := Handled(c, e).(queue := c.queue[1..]);
    if e.FlushMark? then Signalled(h, e.seqNo) else h
  }

  lemma DrainsFirst(c: Channel)
    requires c.queue != []
    ensures Drained(c) == Drained(AfterFirst(c))
    ensures var e, n := c.queue[0], AfterFirst(c);
            && n.queue == c.queue[1..] && n.nextFlushSeq == c.nextFlushSeq && n.done == c.done
            && n.main + n.temp == c.main + c.temp + (if e.Batch? then [e.body] else [])
            && n.completedFlushSeq
               == if e.FlushMark? && e.seqNo > c.completedFlushSeq then e.seqNo else c.completedFlushSeq
  {
    var e := c.queue[0];
    if e.Batch? {
      Regroup(c.main, c.temp, [e.body]);
    } else {
      assert c.main + c.temp + [] == c.main + c.temp;
    }
  }

  class Writer {
    var queue: seq<Entry>
    var nextFlushSeq: nat
    var completedFlushSeq: nat
    var done: bool
    var temp: seq<int>
    var main: seq<int>

    function View(): Channel
      reads this
    {
      Channel(queue, nextFlushSeq, completedFlushSeq, done, temp, main)
    }

    constructor ()
      ensures View() == Channel([], 0, 0, false, [], [])
    {
      queue, nextFlushSeq, completedFlushSeq, done, temp, main := [], 0, 0, false, [], [];
    }

    method Enqueue(e: Entry)
      modifies `queue
      ensures View() == old(View()).(queue := old(queue) + [e])
    {
      queue := queue + [e];
    }

    /** flush() up to the wait; a stopped channel is skipped. */
    method RequestFlush() returns (queued: bool, seqNo: nat)
      modifies `queue, `nextFlushSeq
      ensures queued == !old(done)
      ensures queued ==> seqNo == old(nextFlushSeq) + 1
                         && View() == old(View()).(nextFlushSeq := seqNo, queue := old(queue) + [FlushMark(seqNo)])
      ensures !queued ==> View() == old(View())
    {
      if done {
        return false, 0;
      }
      nextFlushSeq := nextFlushSeq + 1;
      seqNo := nextFlushSeq;
      queue := queue + [FlushMark(seqNo)];
      queued := true;
    }

    method BackendWrite(body: int)
      modifies `temp
      ensures View() == old(View()).(temp := old(temp) + [body])
    {
      temp := temp + [body];
    }

    method BackendFlush()
      modifies `temp, `main
      ensures View() == Flushed(old(View()))
    {
      main := main + temp;
      temp := [];
    }

    method SignalFlushComplete(seqNo: nat)
      modifies `completedFlushSeq
      ensures View() == Signalled(old(View()), seqNo)
      ensures seqNo == 0 ==> View() == old(View())
    {
      if seqNo == 0 {
        return;
      }
      if seqNo > completedFlushSeq {
        completedFlushSeq := seqNo;
      }
    }

    method Drain()
      modifies this
      ensures View() == Flushed(Drained(old(View())))
      ensures queue == [] && temp == [] && main == old(main) + old(temp) + Bodies(old(queue))
      ensures completedFlushSeq == Highest(old(queue), old(completedFlushSeq))
    {
      DrainedHandlesAll(View());
      while queue != []
        invariant Drained(View()) == Drained(old(View()))
        decreases |queue|
      {
        var item := queue[0];
        match item {
          case Batch(body) =>
            BackendWrite(body);
          case FlushMark(seqNo) =>
            BackendFlush();
            SignalFlushComplete(seqNo);
        }
        queue := queue[1..];
      }
      BackendFlush();
    }
  }
}
