/** generateCallStacksSQL: the four relational phases as functions over rows in
    table order (rocpd_python/rocpd/call_stacks.py:143-217). */
module SqlPipeline {
  import opened Wrappers
  import opened CallTrace

  /** A row of the temporary table "opens". */
  datatype Open = Open(frame: Frame, depth: int)

  /** A row of "slim_tree"; the parent is NULL when the subquery finds none. */
  datatype Slim = Slim(child: int, parent: Option<int>, inclusive: int)

  /** A row of the recursive table "cs". */
  datatype Climber = Climber(parent: Option<int>, child: int, depth: nat, cpu: int, gpu: int)

  /** Phase 1: SUM(evt) OVER (... ROWS UNBOUNDED PRECEDING), start events kept. */
  function RunningDepth(ev: seq<Event>, acc: int): seq<Open> {
    if ev == [] then []
    else
      var sum := acc + ev[0].Delta();
      (if ev[0].isStart then [Open(ev[0].frame, sum)] else []) + RunningDepth(ev[1..], sum)
  }

  function Opens(streams: seq<seq<Event>>): seq<Open> {
    if streams == [] then [] else RunningDepth(streams[0], 0) + Opens(streams[1..])
  }

  /** Phase 2: the WHERE clause of the parent subquery. */
  predicate Contains(p: Open, c: Open) {
    && p.frame.thread == c.frame.thread
    && p.depth == c.depth - 1
    && p.frame.start <= c.frame.start
    && p.frame.end >= c.frame.end
  }

  /** ORDER BY p.start DESC LIMIT 1. */
  function Tightest(opens: seq<Open>, c: Open): (r: Option<Frame>)
    ensures r.None? <==> forall o :: o in opens ==> !Contains(o, c)
    ensures r.Some? ==> exists o :: o in opens && Contains(o, c) && o.frame == r.value
    ensures r.Some? ==> forall o :: o in opens && Contains(o, c) ==> o.frame.start <= r.value.start
  {
    if opens == [] then None
    else
      var rest := Tightest(opens[1..], c);
      if Contains(opens[0], c) && (rest.None? || opens[0].frame.start >= rest.value.start)
      then Some(opens[0].frame) else rest
  }

  function ParentId(opens: seq<Open>, c: Open): Option<int> {
    match Tightest(opens, c)
    case None => None
    case Some(f) => Some(f.id)
  }

  /** slim_tree: one row for each of the given opens below the top level. */
  function SlimTree(opens: seq<Open>, children: seq<Open>): seq<Slim> {
    if children == [] then []
    else
      var c := children[0];
      (if c.depth > 1 then [Slim(c.frame.id, ParentId(opens, c), c.frame.end - c.frame.start)] else [])
      + SlimTree(opens, children[1..])
  }

  /** Phase 3: COALESCE(total_child_inclusive, 0) for one parent id. */
  function ChildInclusive(slim: seq<Slim>, id: int): int {
    if slim == [] then 0
    else (if slim[0].parent == Some(id) then slim[0].inclusive else 0) + ChildInclusive(slim[1..], id)
  }

  function Exclusive(slim: seq<Slim>, f: Frame): int {
    f.end - f.start - ChildInclusive(slim, f.id)
  }

  /** Phase 4, the join cs.parent_id = se.child_id: NULL joins nothing. */
  function StepUp(slim: seq<Slim>, r: Climber): seq<Climber> {
    if slim == [] then []
    else
      (if r.parent == Some(slim[0].child)
       then [Climber(slim[0].parent, r.child, r.depth + 1, r.cpu, r.gpu)] else [])
      + StepUp(slim[1..], r)
  }

  /** The rows of the recursive table that stem from the queued rows, at most
      `rounds` joins deep.  Recursion is linear, so each queued row is joined on
      its own and UNION ALL keeps every copy. */
  function Recurse(slim: seq<Slim>, queue: seq<Climber>, rounds: nat): seq<Climber>
    decreases rounds, |queue|
  {
    if queue == [] then []
    else [queue[0]] + Above(slim, queue[0], rounds) + Recurse(slim, queue[1..], rounds)
  }

  function Above(slim: seq<Slim>, r: Climber, rounds: nat): seq<Climber>
    decreases rounds, 0
  {
    if rounds == 0 then [] else Recurse(slim, StepUp(slim, r), rounds - 1)
  }

  function BaseCase(slim: seq<Slim>, opens: seq<Open>, gpu: GpuTimes): seq<Climber> {
    if opens == [] then []
    else
      var f := opens[0].frame;
      [Climber(Some(f.id), f.id, 0, Exclusive(slim, f), GpuOf(gpu, f.id))]
      + BaseCase(slim, opens[1..], gpu)
  }

  /** INSERT INTO ext_callstack: parent_id is NOT NULL, so one NULL fails it. */
  function Insert(cs: seq<Climber>): Result<seq<Row>> {
    if cs == [] then Ok([])
    else if cs[0].parent.None? then Err
    else
      match Insert(cs[1..])
      case Err => Err
      case Ok(rows) => Ok([Row(cs[0].parent.value, cs[0].child, cs[0].depth, cs[0].cpu, cs[0].gpu)] + rows)
  }

  /** The whole pipeline.  A chain of joins visits one depth after the other,
      so |opens| rounds exhaust it (CallStackAgreement.RoundsSuffice). */
  function Generate(streams: seq<seq<Event>>, gpu: GpuTimes): Result<seq<Row>> {
    var opens := Opens(streams);
    var slim := SlimTree(opens, opens);
    Insert(Recurse(slim, BaseCase(slim, opens, gpu), |opens|))
  }
}
