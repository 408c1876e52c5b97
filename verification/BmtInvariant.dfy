/** The invariant of the concurrent hasher while a chunk is being hashed. */
module BmtInvariant {
  import opened BmtReference
  import opened BmtMachine
  import opened BmtValues

  /** The part of a job the invariant speaks of: the last leaf, the row of its first
      leftmost ancestor, the row finalise starts at, whether the last piece is hashed on
      its own, the last piece, and the value due to leave each node. */
  datatype Plan = Plan(last: nat, root: nat, first: nat, depth: nat, big: bool, piece: Bytes, val: Pos -> Bytes)

  ghost function PlanOf(job: Job): Plan
    requires job.Valid()
  {
    Plan(job.Last(), Root(job), FirstHeight(job), job.depth, |job.pieces[job.Last()]| > job.base.size,
         job.pieces[job.Last()], p => if InScope(job, p) then Out(job, p) else [])
  }

  ghost predicate PlanOk(pl: Plan) {
    && Anc(pl.last, pl.root) == 0 && pl.root <= pl.depth && (pl.root == 0 <==> pl.last == 0)
    && (pl.first == if pl.big && pl.last > 0 then 1 else 0)
    && pl.last < Pow2(pl.depth)
  }

  lemma PlanOfOk(job: Job)
    requires job.Valid()
    ensures PlanOk(PlanOf(job))
  {
    RootInTree(job);
  }

  /** Nodes the session touches. */
  predicate Scope(pl: Plan, p: Pos) { p.h <= pl.root && p.x <= Anc(pl.last, p.h) }

  predicate OnPath(pl: Plan, p: Pos) { p.x == Anc(pl.last, p.h) }

  predicate Both(pl: Plan, p: Pos) {
    p.h > 0 && (p.x < Anc(pl.last, p.h) || Anc(pl.last, p.h - 1) % 2 == 1)
  }

  /** The last piece enters its ancestor at height h from the left. */
  predicate EntersLeft(pl: Plan, h: nat) { h == 0 || Anc(pl.last, h - 1) % 2 == 0 }

  /** The number of rows whose node the goroutine has carried the value out of. */
  function Level(pl: Plan, t: Task): nat {
    match t
    case Run(pc, at, _, _, _, _) => if pc.Combine? || pc.Leave? then at.h + 1 else at.h
    case Returned(at) => at.h
    case Sending(_) => pl.root + 1
    case Sent => pl.root + 1
    case _ => 0
  }

  /** t has toggled, or passed unbalanced, its node of height h. */
  predicate Past(pl: Plan, t: Task, h: nat) { Level(pl, t) > h || (t.Returned? && t.at.h == h) }

  /** t has written its slot of its node of height h. */
  predicate Stored(pl: Plan, t: Task, h: nat) { Past(pl, t, h) || (t.Run? && t.at.h == h && !t.pc.Store?) }

  /** t runs at its leaf and has written the slot. */
  predicate AtLeaf(t: Task) { t.Run? && t.at.h == 0 && !t.pc.Store? }

  /** Rows below this one have been finalised. */
  function FinalisedTo(pl: Plan, m: Main): nat {
    match m
    case Writing(_) => 0
    case Finalising(p, _, _) => p.h
    case _ => pl.root + 1
  }

  predicate Finalised(pl: Plan, m: Main, p: Pos) {
    OnPath(pl, p) && pl.first <= p.h < FinalisedTo(pl, m)
  }

  /** The value goroutine j brings to its node of height h. */
  function Carried(pl: Plan, j: nat, h: nat): Bytes {
    if h == 0 then pl.piece else pl.val(Pos(h - 1, Anc(j, h - 1)))
  }

  predicate TaskOk(pl: Plan, j: nat, t: Task) {
    match t
    case Idle => true
    case Hashing(d) =>
      pl.depth > 0 && (j < pl.last ==> d > 0) && (pl.last == 0 ==> d == 0) && (j == pl.last ==> pl.big)
    case Run(pc, at, isLeft, i, s, d) =>
      && at.h <= pl.root && at.x == Anc(j, at.h)
      && (at.h == 0 ==> j == pl.last && pl.first == 0)
      && isLeft == (at.h == 0 || Anc(j, at.h - 1) % 2 == 0)
      && (pc.Store? || pc.Check? || pc.Toggle? ==> s == Carried(pl, j, at.h))
      && (pc.Toggle? ==> Both(pl, at))
      && (pc.Leave? ==> s == pl.val(at))
      && (if pl.last == 0 then i == 0 && d == 0 else if j < pl.last then d > 0 else i > 0)
    case Sending(s) => s == pl.val(Pos(pl.root, 0))
    case Returned(at) => 0 < at.h <= pl.root && at.x == Anc(j, at.h)
    case Sent => false
  }

  predicate Owns(owner: map<Pos, nat>, j: nat, h: nat) {
    Pos(h, Anc(j, h)) in owner && owner[Pos(h, Anc(j, h))] == j
  }

  /** owner names the goroutine that carried each finished node's value out of it. */
  ghost predicate OwnerOk(pl: Plan, tasks: seq<Task>, owner: map<Pos, nat>)
    requires |tasks| == pl.last + 1
  {
    && (forall p :: p in owner ==> owner[p] < |tasks| && p.h < Level(pl, tasks[owner[p]]) && p.x == Anc(owner[p], p.h))
    && (forall j, h :: 0 <= j < |tasks| && 0 <= h < Level(pl, tasks[j]) ==> Owns(owner, j, h))
    && (forall p :: p in owner && OnPath(pl, p) ==> !tasks[pl.last].Idle?)
  }

  ghost predicate ChildPast(pl: Plan, tasks: seq<Task>, owner: map<Pos, nat>, c: Pos) {
    c in owner && owner[c] < |tasks| && Past(pl, tasks[owner[c]], c.h + 1)
  }

  ghost predicate ChildStored(pl: Plan, tasks: seq<Task>, owner: map<Pos, nat>, c: Pos) {
    c in owner && owner[c] < |tasks| && Stored(pl, tasks[owner[c]], c.h + 1)
  }

  /** b toggled by those of its two children that have arrived. */
  function Toggled(b: int, l: bool, r: bool): int {
    if l && r then AddInt32(AddInt32(b)) else if l || r then AddInt32(b) else b
  }

  ghost predicate FlagsOk(pl: Plan, m: Main, p: Pos, n: Node) {
    && n.unbalanced == (Finalised(pl, m, p) && EntersLeft(pl, p.h))
    && n.root == (p.h == pl.depth || (p == Pos(pl.root, 0) && FinalisedTo(pl, m) > pl.root))
    && (Finalised(pl, m, p) && EntersLeft(pl, p.h) ==> n.right == [])
  }

  /** Counting and slots of a node: `b` is its toggle count when the session began. */
  ghost predicate DataOk(pl: Plan, b: int, n: Node, tasks: seq<Task>, owner: map<Pos, nat>, p: Pos)
    requires p.h > 0
  {
    var l, r := ChildPast(pl, tasks, owner, Lc(p)), ChildPast(pl, tasks, owner, Rc(p));
    && (ChildStored(pl, tasks, owner, Lc(p)) ==> n.left == pl.val(Lc(p)))
    && if Both(pl, p) then
         && n.state == Toggled(b, l, r)
         && (p in owner <==> l && r)
         && (ChildStored(pl, tasks, owner, Rc(p)) ==> n.right == pl.val(Rc(p)))
       else
         n.state == b && (p in owner <==> l)
  }

  ghost predicate NodeOk(pl: Plan, b: Node, st: State, owner: map<Pos, nat>, p: Pos)
    requires |st.tasks| == pl.last + 1 && p in st.nodes
  {
    var n := st.nodes[p];
    if !Scope(pl, p) then n.unbalanced == b.unbalanced && n.root == b.root && n.state == b.state
    else
      && FlagsOk(pl, st.main, p, n)
      && (p.h > 0 ==> DataOk(pl, b.state, n, st.tasks, owner, p))
      && (p.h == 0 ==> n.state == b.state)
      && (p == Pos(0, pl.last) && AtLeaf(st.tasks[pl.last]) ==> n.left == pl.piece)
  }

  ghost predicate LaunchedBut(pl: Plan, tasks: seq<Task>)
    requires |tasks| == pl.last + 1
  {
    tasks[pl.last].Idle? && forall j :: 0 <= j < pl.last ==> !tasks[j].Idle?
  }

  ghost predicate MainOk(pl: Plan, m: Main, tasks: seq<Task>)
    requires |tasks| == pl.last + 1
  {
    match m
    case Writing(k) => k <= pl.last && forall j :: 0 <= j < |tasks| ==> (tasks[j].Idle? <==> k <= j)
    case Finalising(p, isLeft, d) =>
      && pl.first <= p.h <= pl.root && OnPath(pl, p) && isLeft == EntersLeft(pl, p.h)
      && d == p.h - pl.first
      && LaunchedBut(pl, tasks)
    case Launching(d) => d == pl.root - pl.first && LaunchedBut(pl, tasks)
    case Waiting => forall j :: 0 <= j < |tasks| ==> !tasks[j].Idle?
    case _ => false
  }

  ghost predicate TasksOk(pl: Plan, tasks: seq<Task>)
    requires |tasks| == pl.last + 1
  {
    forall j :: 0 <= j < |tasks| ==> TaskOk(pl, j, tasks[j])
  }

  ghost predicate Covers(depth: nat, nodes: map<Pos, Node>) {
    forall p :: InTree(depth, p) ==> p in nodes
  }

  ghost predicate NodesOk(pl: Plan, base: map<Pos, Node>, st: State, owner: map<Pos, nat>)
    requires |st.tasks| == pl.last + 1
    requires Covers(pl.depth, base) && Covers(pl.depth, st.nodes)
  {
    forall p :: InTree(pl.depth, p) ==> NodeOk(pl, base[p], st, owner, p)
  }

  ghost predicate Inv(pl: Plan, base: map<Pos, Node>, st: State, owner: map<Pos, nat>) {
    && |st.tasks| == pl.last + 1
    && Covers(pl.depth, base) && Covers(pl.depth, st.nodes)
    && MainOk(pl, st.main, st.tasks)
    && TasksOk(pl, st.tasks)
    && OwnerOk(pl, st.tasks, owner)
    && NodesOk(pl, base, st, owner)
    && st.result.None?
  }

  lemma ScopeInTree(pl: Plan, p: Pos)
    requires PlanOk(pl) && Scope(pl, p)
    ensures InTree(pl.depth, p)
  {
    AncInTree(pl.last, p.h, pl.depth);
  }

  /** Every goroutine stays among the nodes of the session. */
  lemma AncInScope(pl: Plan, j: nat, h: nat)
    requires j <= pl.last && h <= pl.root
    ensures Scope(pl, Pos(h, Anc(j, h)))
  {
    AncMonotone(j, pl.last, h);
  }

  lemma InitInv(job: Job, base: map<Pos, Node>)
    requires job.Valid() && Clean(job.depth, base)
    ensures Inv(PlanOf(job), base, Start(job, base), map[])
  {
    RootInTree(job);
    var pl := PlanOf(job);
    var st := Start(job, base);
    forall p | InTree(job.depth, p)
      ensures NodeOk(pl, base[p], st, map[], p)
    {
      assert CleanNode(job.depth, p, base[p]);
    }
  }
}
