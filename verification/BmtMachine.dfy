/** The concurrent hasher of chain/bmt/bmt.go as a step system: the caller's thread
    (Write, Sum, finalise, releaseTree) and one goroutine per piece, over shared nodes. */
module BmtMachine {
  import opened BmtReference

  /** A node by height above the leaves and index in its row; the leaves have height 0. */
  datatype Pos = Pos(h: nat, x: nat)

  function Parent(p: Pos): Pos { Pos(p.h + 1, p.x / 2) }

  datatype Node = Node(left: Bytes, right: Bytes, state: int, unbalanced: bool, root: bool)

  function Pow2(k: nat): nat { if k == 0 then 1 else 2 * Pow2(k - 1) }

  predicate InTree(depth: nat, p: Pos) { p.h <= depth && p.x < Pow2(depth - p.h) }

  /** What one session hashes: the chunk cut into double segments, the last possibly short. */
  datatype Job = Job(base: Base, depth: nat, pieces: seq<Bytes>) {
    predicate Valid() {
      && base.size > 0
      && pieces != []
      && (forall i :: 0 <= i < |pieces| - 1 ==> |pieces[i]| == 2 * base.size)
      && |pieces[|pieces| - 1]| <= 2 * base.size
      && (|pieces| > 1 ==> pieces[|pieces| - 1] != [])
      && |pieces| <= Pow2(depth)
    }

    function Last(): nat requires Valid() { |pieces| - 1 }
  }

  /** Where a goroutine inside `run` stands: before the slot write, the test of
      `unbalanced`, the toggle, the combination, and the test of `root`. */
  datatype Pc = Store | Check | Toggle | Combine | Leave

  datatype Task =
    | Idle
    | Hashing(d: nat)
    | Run(pc: Pc, at: Pos, isLeft: bool, i: nat, s: Bytes, d: nat)
    | Sending(s: Bytes)
    | Returned(at: Pos)
    | Sent

  datatype Main =
    | Writing(next: nat)
    | Finalising(at: Pos, isLeft: bool, d: nat)
    | Launching(d: nat)
    | Waiting
    | Releasing(at: Pos)
    | Finished

  datatype Option<T> = None | Some(value: T)

  datatype State = State(nodes: map<Pos, Node>, tasks: seq<Task>, main: Main, result: Option<Bytes>)

  /** Crash is a nil dereference. */
  datatype Outcome = Ok(state: State) | Crash

  datatype Action = MainStep | TaskStep(j: nat) | Receive(j: nat)

  /** atomic.AddInt32 with its wrap-around. */
  function AddInt32(n: int): int { if n + 1 > 0x7fff_ffff then n + 1 - 0x1_0000_0000 else n + 1 }

  /** Go's `n % 2 == 1`: the remainder of a negative odd number is -1. */
  predicate OddRemainder(n: int) { n >= 0 && n % 2 == 1 }

  predicate Enabled(st: State, a: Action) {
    match a
    case MainStep => !st.main.Waiting? && !st.main.Finished?
    case TaskStep(j) => j < |st.tasks| && (st.tasks[j].Hashing? || st.tasks[j].Run?)
    case Receive(j) => st.main.Waiting? && j < |st.tasks| && st.tasks[j].Sending?
  }

  function Apply(job: Job, st: State, a: Action): (out: Outcome)
    requires job.Valid() && |st.tasks| == |job.pieces| && Enabled(st, a)
    ensures out.Ok? ==> |out.state.tasks| == |job.pieces|
  {
    match a
    case MainStep => ApplyMain(job, st)
    case TaskStep(j) => ApplyTask(job, st, j)
    case Receive(j) =>
      Ok(st.(tasks := st.tasks[j := Sent], main := Releasing(Pos(0, job.Last())), result := Some(st.tasks[j].s)))
  }

  /** writeSegment: a full double segment is hashed on its own goroutine and enters the
      tree at the leaf's parent; a short one enters at the leaf. */
  function Launch(job: Job, k: nat, d: nat): Task
    requires job.Valid() && k < |job.pieces|
  {
    if |job.pieces[k]| > job.base.size && job.depth > 0 then Hashing(d)
    else Run(Store, Pos(0, k), true, 2 * k, job.pieces[k], d)
  }

  function ApplyMain(job: Job, st: State): Outcome
    requires job.Valid() && |st.tasks| == |job.pieces| && Enabled(st, MainStep)
  {
    var last := job.Last();
    match st.main
    case Writing(k) =>
      if k < last then
        Ok(st.(tasks := st.tasks[k := Launch(job, k, job.depth)], main := Writing(k + 1)))
      else if |job.pieces[last]| > job.base.size && last > 0 && job.depth > 0 then
        Ok(st.(main := Finalising(Pos(1, last / 2), last % 2 == 0, 0)))
      else
        Ok(st.(main := Finalising(Pos(0, last), true, 0)))
    case Finalising(p, isLeft, d) =>
      if p !in st.nodes then Crash
      else
        var n := st.nodes[p].(unbalanced := isLeft, right := []);
        if p.x == 0 then Ok(st.(nodes := st.nodes[p := n.(root := true)], main := Launching(d)))
        else Ok(st.(nodes := st.nodes[p := n], main := Finalising(Parent(p), p.x % 2 == 0, d + 1)))
    case Launching(d) =>
      Ok(st.(tasks := st.tasks[last := Launch(job, last, d)], main := Waiting))
    case Releasing(p) =>
      if p !in st.nodes then Crash
      else
        var n := st.nodes[p].(unbalanced := false, root := st.nodes[p].root && p.h == job.depth);
        Ok(st.(nodes := st.nodes[p := n],
               main := if p.h < job.depth then Releasing(Parent(p)) else Finished))
  }

  function ApplyTask(job: Job, st: State, j: nat): Outcome
    requires job.Valid() && |st.tasks| == |job.pieces| && Enabled(st, TaskStep(j))
  {
    match st.tasks[j]
    case Hashing(d) =>
      var p := Pos(0, j);
      var s := job.base.sum(job.pieces[j]);
      if p !in st.nodes then Crash
      else if st.nodes[p].root then Ok(st.(tasks := st.tasks[j := Sending(s)]))
      else Ok(st.(tasks := st.tasks[j := Run(Store, Parent(p), j % 2 == 0, j, s, d)]))
    case Run(pc, p, isLeft, i, s, d) =>
      if p !in st.nodes then Crash
      else
        var n := st.nodes[p];
        match pc
        case Store =>
          Ok(st.(nodes := st.nodes[p := if isLeft then n.(left := s) else n.(right := s)],
                 tasks := st.tasks[j := Run(Check, p, isLeft, i, s, d)]))
        case Check =>
          Ok(st.(tasks := st.tasks[j := Run(if n.unbalanced then Combine else Toggle, p, isLeft, i, s, d)]))
        case Toggle =>
          var t := AddInt32(n.state);
          Ok(st.(nodes := st.nodes[p := n.(state := t)],
                 tasks := st.tasks[j := if OddRemainder(t) then Returned(p) else Run(Combine, p, isLeft, i, s, d)]))
        case Combine =>
          var both := n.left + n.right;
          var s' := if !n.unbalanced || !isLeft || (i == 0 && d == 0) then job.base.sum(both) else both;
          Ok(st.(tasks := st.tasks[j := Run(Leave, p, isLeft, i, s', d)]))
        case Leave =>
          Ok(st.(tasks := st.tasks[j := if n.root then Sending(s)
                                         else Run(Store, Parent(p), p.x % 2 == 0, i + 1, s, d)]))
  }

  /** A tree as the pool hands it out: even, non-negative toggles, no unbalanced node,
      only the top marked root. Slot contents may be stale. */
  ghost predicate Clean(depth: nat, nodes: map<Pos, Node>) {
    forall p :: InTree(depth, p) ==>
      p in nodes && CleanNode(depth, p, nodes[p])
  }

  predicate CleanNode(depth: nat, p: Pos, n: Node) {
    && n.state % 2 == 0 && 0 <= n.state <= 0x7fff_ffff
    && !n.unbalanced
    && (n.root <==> p.h == depth)
  }

  function Start(job: Job, nodes: map<Pos, Node>): State
    requires job.Valid()
  {
    State(nodes, seq(|job.pieces|, _ => Idle), Writing(0), None)
  }

  /** acts is a schedule: each step is enabled when its turn comes. */
  predicate IsSchedule(job: Job, st: State, acts: seq<Action>)
    requires job.Valid() && |st.tasks| == |job.pieces|
    decreases |acts|
  {
    acts != [] ==>
      && Enabled(st, acts[0])
      && var out := Apply(job, st, acts[0]);
         out.Ok? ==> IsSchedule(job, out.state, acts[1..])
  }

  function Exec(job: Job, st: State, acts: seq<Action>): (out: Outcome)
    requires job.Valid() && |st.tasks| == |job.pieces| && IsSchedule(job, st, acts)
    ensures out.Ok? ==> |out.state.tasks| == |job.pieces|
    decreases |acts|
  {
    if acts == [] then Ok(st)
    else
      var out := Apply(job, st, acts[0]);
      if out.Crash? then Crash else Exec(job, out.state, acts[1..])
  }
}
