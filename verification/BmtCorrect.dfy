/** The caller's thread, and the main theorems about hashing one chunk and many. */
module BmtCorrect {
  import opened BmtReference
  import opened BmtMachine
  import opened BmtValues
  import opened BmtInvariant
  import opened BmtSteps

  // ---- the caller's own steps ----

  /** Launching a goroutine changes no node and nobody's view of any node. */
  lemma LaunchKeeps(pl: Plan, base: map<Pos, Node>, st: State, st': State, owner: map<Pos, nat>, k: nat)
    requires Inv(pl, base, st, owner) && k < |st.tasks| && st.tasks[k].Idle?
    requires |st'.tasks| == |st.tasks| && st'.tasks == st.tasks[k := st'.tasks[k]]
    requires st'.nodes == st.nodes && FinalisedTo(pl, st'.main) == FinalisedTo(pl, st.main) && st'.result == st.result
    requires !st'.tasks[k].Idle? && Level(pl, st'.tasks[k]) == 0 && !AtLeaf(st'.tasks[k]) && TaskOk(pl, k, st'.tasks[k])
    requires MainOk(pl, st'.main, st'.tasks)
    ensures Inv(pl, base, st', owner)
  {
    OwnerFrame(pl, st.tasks, owner, k, st'.tasks[k]);
    forall q | InTree(pl.depth, q)
      ensures NodeOk(pl, base[q], st', owner, q)
    {
      assert NodeOk(pl, base[q], st, owner, q);
      if q.h > 0 {
        assert ChildPast(pl, st.tasks, owner, Lc(q)) == ChildPast(pl, st'.tasks, owner, Lc(q));
        assert ChildPast(pl, st.tasks, owner, Rc(q)) == ChildPast(pl, st'.tasks, owner, Rc(q));
        assert ChildStored(pl, st.tasks, owner, Lc(q)) == ChildStored(pl, st'.tasks, owner, Lc(q));
        assert ChildStored(pl, st.tasks, owner, Rc(q)) == ChildStored(pl, st'.tasks, owner, Rc(q));
      }
    }
  }

  lemma WritingKeeps(job: Job, base: map<Pos, Node>, st: State, owner: map<Pos, nat>)
    requires job.Valid() && Inv(PlanOf(job), base, st, owner) && st.main.Writing?
    ensures |st.tasks| == |job.pieces|
    ensures var out := ApplyMain(job, st); out.Ok? && Inv(PlanOf(job), base, out.state, owner)
  {
    var pl := PlanOf(job);
    PlanOfOk(job);
    var st' := ApplyMain(job, st).state;
    var k := st.main.next;
    if k < pl.last {
      assert job.depth > 0;
      LaunchKeeps(pl, base, st, st', owner, k);
    } else {
      assert pl.first == 1 ==> pl.root >= 1;
      SameNodes(pl, base, st, st', owner);
    }
  }

  lemma SameNodes(pl: Plan, base: map<Pos, Node>, st: State, st': State, owner: map<Pos, nat>)
    requires Inv(pl, base, st, owner)
    requires st'.tasks == st.tasks && st'.nodes == st.nodes && st'.result == st.result
    requires MainOk(pl, st'.main, st'.tasks)
    requires forall p :: Finalised(pl, st'.main, p) <==> Finalised(pl, st.main, p)
    requires FinalisedTo(pl, st'.main) > pl.root <==> FinalisedTo(pl, st.main) > pl.root
    ensures Inv(pl, base, st', owner)
  {
    forall q | InTree(pl.depth, q)
      ensures NodeOk(pl, base[q], st', owner, q)
    {
      assert NodeOk(pl, base[q], st, owner, q);
    }
  }

  lemma LaunchingKeeps(job: Job, base: map<Pos, Node>, st: State, owner: map<Pos, nat>)
    requires job.Valid() && Inv(PlanOf(job), base, st, owner) && st.main.Launching?
    ensures |st.tasks| == |job.pieces|
    ensures var out := ApplyMain(job, st); out.Ok? && Inv(PlanOf(job), base, out.state, owner)
  {
    var pl := PlanOf(job);
    PlanOfOk(job);
    var st' := ApplyMain(job, st).state;
    assert pl.last > 0 ==> job.depth > 0;
    LaunchKeeps(pl, base, st, st', owner, pl.last);
  }

  lemma FinaliseKeeps(job: Job, base: map<Pos, Node>, st: State, owner: map<Pos, nat>)
    requires job.Valid() && Inv(PlanOf(job), base, st, owner) && st.main.Finalising?
    ensures |st.tasks| == |job.pieces|
    ensures var out := ApplyMain(job, st); out.Ok? && Inv(PlanOf(job), base, out.state, owner)
  {
    var pl := PlanOf(job);
    PlanOfOk(job);
    var p := st.main.at;
    ScopeInTree(pl, p);
    var st' := ApplyMain(job, st).state;
    if p.x == 0 { assert p.h == pl.root; }
    forall q | InTree(pl.depth, q)
      ensures NodeOk(pl, base[q], st', owner, q)
    {
      assert NodeOk(pl, base[q], st, owner, q);
      FinaliseNode(pl, base[q], st, st', owner, q);
    }
  }

  /** finalise writes only nodes on the path whose right side nothing has reached. */
  lemma FinaliseNode(pl: Plan, b: Node, st: State, st': State, owner: map<Pos, nat>, q: Pos)
    requires PlanOk(pl) && |st.tasks| == pl.last + 1 && st.main.Finalising? && MainOk(pl, st.main, st.tasks)
    requires OwnerOk(pl, st.tasks, owner) && q in st.nodes && st'.tasks == st.tasks && NodeOk(pl, b, st, owner, q)
    requires var p := st.main.at; var isLeft := st.main.isLeft;
             && p in st.nodes && (p.x == 0 <==> p.h == pl.root)
             && st'.nodes == st.nodes[p := st.nodes[p].(unbalanced := isLeft, right := [],
                                                       root := st.nodes[p].root || p.x == 0)]
             && FinalisedTo(pl, st'.main) == p.h + 1
    ensures NodeOk(pl, b, st', owner, q)
  {
    if q.h > 0 && OnPath(pl, q) && Both(pl, q) {
      assert OnPath(pl, Rc(q));
      assert Rc(q) !in owner;
    }
  }

  // ---- the goroutines' steps, together ----

  lemma PlanCombines(job: Job, p: Pos)
    requires job.Valid() && Scope(PlanOf(job), p)
    requires p.h == 0 ==> p.x == job.Last() && FirstHeight(job) == 0
    ensures CombinesTo(job, PlanOf(job), p)
  {
    assert InScope(job, p);
    if p.h > 0 { ChildrenInScope(job, p); }
  }

  lemma TaskKeeps(job: Job, base: map<Pos, Node>, st: State, owner: map<Pos, nat>, j: nat)
    returns (owner': map<Pos, nat>)
    requires job.Valid() && Clean(job.depth, base) && Inv(PlanOf(job), base, st, owner)
    requires j < |st.tasks| == |job.pieces| && Enabled(st, TaskStep(j))
    ensures var out := ApplyTask(job, st, j); out.Ok? && Inv(PlanOf(job), base, out.state, owner')
  {
    var pl := PlanOf(job);
    PlanOfOk(job);
    owner' := owner;
    match st.tasks[j] {
      case Hashing(_) =>
        assert TaskOk(pl, j, st.tasks[j]);
        AncInScope(pl, j, 0);
        assert InScope(job, Pos(0, j));
        HashKeeps(job, pl, base, st, owner, j);
        owner' := owner[Pos(0, j) := j];
      case Run(pc, p, _, _, _, _) =>
        match pc {
          case Store => StoreKeeps(job, pl, base, st, owner, j);
          case Check =>
            if Both(pl, p) {
              CheckKeeps(job, pl, base, st, owner, j);
            } else {
              PassKeeps(job, pl, base, st, owner, j);
              owner' := owner[p := j];
            }
          case Toggle => owner' := ToggleKeeps(job, pl, base, st, owner, j);
          case Combine =>
            NodeOfTask(pl, base, st, owner, j);
            PlanCombines(job, p);
            CombineKeeps(job, pl, base, st, owner, j);
          case Leave => LeaveKeeps(job, pl, base, st, owner, j);
        }
    }
  }

  // ---- one sender, and nobody left behind ----

  predicate Sends(t: Task) { t.Sending? || t.Sent? }

  lemma OneSender(pl: Plan, base: map<Pos, Node>, st: State, owner: map<Pos, nat>, j: nat, k: nat)
    requires PlanOk(pl) && Inv(pl, base, st, owner) && j < |st.tasks| && k < |st.tasks|
    requires Sends(st.tasks[j]) && Sends(st.tasks[k])
    ensures j == k
  {
    AncMonotone(j, pl.last, pl.root);
    AncMonotone(k, pl.last, pl.root);
    assert Owns(owner, j, pl.root) && Owns(owner, k, pl.root);
  }

  /** If the root's value is out, so is that of every node below it. */
  lemma {:induction false} AllOwned(pl: Plan, base: map<Pos, Node>, st: State, owner: map<Pos, nat>, p: Pos)
    requires PlanOk(pl) && Inv(pl, base, st, owner) && Pos(pl.root, 0) in owner && Scope(pl, p)
    ensures p in owner
    ensures p.h < pl.root ==> Past(pl, st.tasks[owner[p]], p.h + 1)
    decreases pl.root - p.h
  {
    if p.h < pl.root {
      var q := Parent(p);
      AllOwned(pl, base, st, owner, q);
      ScopeInTree(pl, q);
      assert NodeOk(pl, base[q], st, owner, q);
      assert p == Lc(q) || p == Rc(q);
    }
  }

  /** When one goroutine is ready to send, all others have returned. */
  lemma OthersReturned(pl: Plan, base: map<Pos, Node>, st: State, owner: map<Pos, nat>, k: nat, j: nat)
    requires PlanOk(pl) && Inv(pl, base, st, owner) && k < |st.tasks| && st.tasks[k].Sending?
    requires j < |st.tasks| && j != k
    ensures st.tasks[j].Returned?
  {
    AncMonotone(k, pl.last, pl.root);
    assert Owns(owner, k, pl.root);
    var l := Level(pl, st.tasks[j]);
    assert TaskOk(pl, j, st.tasks[j]);
    AncMonotone(j, pl.last, pl.root);
    assert l > pl.root ==> Owns(owner, j, pl.root);
    if l == 0 {
      AncInScope(pl, j, 0);
      AllOwned(pl, base, st, owner, Pos(0, j));
    } else if l <= pl.root {
      AncInScope(pl, j, l - 1);
      assert Owns(owner, j, l - 1);
      AllOwned(pl, base, st, owner, Pos(l - 1, Anc(j, l - 1)));
    }
  }

  // ---- releasing the tree ----

  function EndState(pl: Plan, b: Node, p: Pos): int {
    if Scope(pl, p) && Both(pl, p) then AddInt32(AddInt32(b.state)) else b.state
  }

  ghost predicate ReleaseNode(pl: Plan, b: Node, m: Main, p: Pos, n: Node) {
    && n.state == EndState(pl, b, p)
    && (n.unbalanced ==> m.Releasing? && OnPath(pl, p) && p.h >= m.at.h)
    && (n.root <==> p.h == pl.depth || (m.Releasing? && p == Pos(pl.root, 0) && m.at.h <= pl.root))
  }

  ghost predicate Released(pl: Plan, base: map<Pos, Node>, st: State, k: nat) {
    && |st.tasks| == pl.last + 1
    && k < |st.tasks| && st.tasks[k].Sent? && (forall j :: 0 <= j < |st.tasks| && j != k ==> st.tasks[j].Returned?)
    && (st.main.Releasing? || st.main.Finished?)
    && (st.main.Releasing? ==> st.main.at.h <= pl.depth && OnPath(pl, st.main.at))
    && Covers(pl.depth, base) && Covers(pl.depth, st.nodes)
    && st.result == Some(pl.val(Pos(pl.root, 0)))
    && (forall p :: InTree(pl.depth, p) ==> ReleaseNode(pl, base[p], st.main, p, st.nodes[p]))
  }

  lemma ReceiveReleases(job: Job, base: map<Pos, Node>, st: State, owner: map<Pos, nat>, k: nat)
    requires job.Valid() && Clean(job.depth, base) && Inv(PlanOf(job), base, st, owner)
    requires k < |st.tasks| == |job.pieces| && Enabled(st, Receive(k))
    ensures var out := Apply(job, st, Receive(k)); out.Ok? && Released(PlanOf(job), base, out.state, k)
  {
    var pl := PlanOf(job);
    PlanOfOk(job);
    var st' := Apply(job, st, Receive(k)).state;
    forall j | 0 <= j < |st'.tasks| && j != k
      ensures st'.tasks[j].Returned?
    {
      OthersReturned(pl, base, st, owner, k, j);
    }
    AncMonotone(k, pl.last, pl.root);
    assert Owns(owner, k, pl.root);
    assert TaskOk(pl, k, st.tasks[k]);
    forall p | InTree(pl.depth, p)
      ensures ReleaseNode(pl, base[p], st'.main, p, st'.nodes[p])
    {
      assert NodeOk(pl, base[p], st, owner, p);
      assert CleanNode(pl.depth, p, base[p]);
      if Scope(pl, p) { AllOwned(pl, base, st, owner, p); }
    }
  }

  lemma ReleaseKeeps(job: Job, pl: Plan, base: map<Pos, Node>, st: State, k: nat)
    requires job.Valid() && PlanOk(pl) && pl.depth == job.depth && |job.pieces| == pl.last + 1
    requires Released(pl, base, st, k) && st.main.Releasing?
    ensures var out := ApplyMain(job, st); out.Ok? && Released(pl, base, out.state, k)
  {
    var p := st.main.at;
    AncInTree(pl.last, p.h, pl.depth);
    var st' := ApplyMain(job, st).state;
    forall q | InTree(pl.depth, q)
      ensures ReleaseNode(pl, base[q], st'.main, q, st'.nodes[q])
    {
      assert ReleaseNode(pl, base[q], st.main, q, st.nodes[q]);
    }
  }

  // ---- whole runs ----

  /** Hashing is under way, or the result has been handed over and the tree is being released. */
  ghost predicate Good(job: Job, base: map<Pos, Node>, st: State)
    requires job.Valid()
  {
    (exists owner :: Inv(PlanOf(job), base, st, owner)) || (exists k :: Released(PlanOf(job), base, st, k))
  }

  /** A step of the caller while hashing is under way. */
  lemma MainKeeps(job: Job, base: map<Pos, Node>, st: State, owner: map<Pos, nat>)
    requires job.Valid() && Inv(PlanOf(job), base, st, owner)
    requires |st.tasks| == |job.pieces| && Enabled(st, MainStep)
    ensures var out := ApplyMain(job, st); out.Ok? && Inv(PlanOf(job), base, out.state, owner)
  {
    match st.main {
      case Writing(_) => WritingKeeps(job, base, st, owner);
      case Finalising(_, _, _) => FinaliseKeeps(job, base, st, owner);
      case Launching(_) => LaunchingKeeps(job, base, st, owner);
    }
  }

  lemma RunningStep(job: Job, base: map<Pos, Node>, st: State, owner: map<Pos, nat>, a: Action)
    requires job.Valid() && Clean(job.depth, base) && Inv(PlanOf(job), base, st, owner)
    requires |st.tasks| == |job.pieces| && Enabled(st, a)
    ensures Apply(job, st, a).Ok? && Good(job, base, Apply(job, st, a).state)
  {
    match a {
      case MainStep => MainKeeps(job, base, st, owner);
      case TaskStep(j) => var owner' := TaskKeeps(job, base, st, owner, j);
      case Receive(k) => ReceiveReleases(job, base, st, owner, k);
    }
  }

  lemma GoodStep(job: Job, base: map<Pos, Node>, st: State, a: Action)
    requires job.Valid() && Clean(job.depth, base) && Good(job, base, st)
    requires |st.tasks| == |job.pieces| && Enabled(st, a)
    ensures Apply(job, st, a).Ok? && Good(job, base, Apply(job, st, a).state)
  {
    if owner :| Inv(PlanOf(job), base, st, owner) {
      RunningStep(job, base, st, owner, a);
    } else {
      var k :| Released(PlanOf(job), base, st, k);
      PlanOfOk(job);
      ReleaseKeeps(job, PlanOf(job), base, st, k);
    }
  }

  /** What a state shows to the outside: at most one goroutine ever sends, what it sends and
      what Sum receives is the reference hash, and a finished session leaves no goroutine behind
      and hands the tree back with every touched inner node toggled exactly twice. */
  ghost predicate Sound(job: Job, base: map<Pos, Node>, st: State)
    requires job.Valid()
  {
    var hash := TreeHash(job.base, Cat(job.pieces));
    && (forall j, k :: 0 <= j < |st.tasks| && 0 <= k < |st.tasks| && Sends(st.tasks[j]) && Sends(st.tasks[k]) ==>
        j == k)
    && (forall j :: 0 <= j < |st.tasks| && st.tasks[j].Sending? ==> st.tasks[j].s == hash)
    && (st.result.Some? ==> st.result.value == hash)
    && (st.main.Finished? ==>
          && st.result == Some(hash)
          && (exists k :: 0 <= k < |st.tasks| && st.tasks[k].Sent?)
          && (forall j :: 0 <= j < |st.tasks| ==> st.tasks[j].Sent? || st.tasks[j].Returned?)
          && HandedBack(job, base, st.nodes))
  }

  ghost predicate HandedBack(job: Job, base: map<Pos, Node>, nodes: map<Pos, Node>)
    requires job.Valid()
  {
    forall p :: InTree(job.depth, p) ==>
      && p in nodes && p in base
      && nodes[p].state ==
         (if InScope(job, p) && Balanced(job, p) then AddInt32(AddInt32(base[p].state)) else base[p].state)
      && !nodes[p].unbalanced && (nodes[p].root <==> p.h == job.depth)
  }

  lemma InvIsSound(job: Job, base: map<Pos, Node>, st: State, owner: map<Pos, nat>)
    requires job.Valid() && Inv(PlanOf(job), base, st, owner)
    ensures Sound(job, base, st)
  {
    var pl := PlanOf(job);
    PlanOfOk(job);
    RootValueIsReference(job);
    forall j, k | 0 <= j < |st.tasks| && 0 <= k < |st.tasks| && Sends(st.tasks[j]) && Sends(st.tasks[k])
      ensures j == k
    {
      OneSender(pl, base, st, owner, j, k);
    }
    forall j | 0 <= j < |st.tasks| && st.tasks[j].Sending?
      ensures st.tasks[j].s == TreeHash(job.base, Cat(job.pieces))
    {
      assert TaskOk(pl, j, st.tasks[j]);
      assert InScope(job, Pos(Root(job), 0));
    }
  }

  lemma ReleasedIsSound(job: Job, base: map<Pos, Node>, st: State, k: nat)
    requires job.Valid() && Released(PlanOf(job), base, st, k)
    ensures Sound(job, base, st)
  {
    RootValueIsReference(job);
    assert InScope(job, Pos(Root(job), 0));
    if st.main.Finished? {
      forall p | InTree(job.depth, p)
        ensures p in st.nodes && p in base
        ensures st.nodes[p].state ==
                (if InScope(job, p) && Balanced(job, p) then AddInt32(AddInt32(base[p].state)) else base[p].state)
        ensures !st.nodes[p].unbalanced && (st.nodes[p].root <==> p.h == job.depth)
      {
        assert ReleaseNode(PlanOf(job), base[p], st.main, p, st.nodes[p]);
      }
    }
  }

  lemma GoodIsSound(job: Job, base: map<Pos, Node>, st: State)
    requires job.Valid() && Good(job, base, st)
    ensures Sound(job, base, st)
  {
    if owner :| Inv(PlanOf(job), base, st, owner) {
      InvIsSound(job, base, st, owner);
    } else {
      var k :| Released(PlanOf(job), base, st, k);
      ReleasedIsSound(job, base, st, k);
    }
  }

  /** Safety: however the goroutines and the caller interleave, nothing is dereferenced that
      does not exist and every state is sound. */
  lemma {:induction false} EveryRunIsSound(job: Job, base: map<Pos, Node>, st: State, acts: seq<Action>)
    requires job.Valid() && Clean(job.depth, base) && Good(job, base, st)
    requires |st.tasks| == |job.pieces| && IsSchedule(job, st, acts)
    ensures Exec(job, st, acts).Ok?
    ensures Good(job, base, Exec(job, st, acts).state) && Sound(job, base, Exec(job, st, acts).state)
    decreases |acts|
  {
    if acts == [] {
      GoodIsSound(job, base, st);
    } else {
      GoodStep(job, base, st, acts[0]);
      EveryRunIsSound(job, base, Apply(job, st, acts[0]).state, acts[1..]);
    }
  }

  // ---- progress and termination ----

  /** With every goroutine at rest, the value has climbed through every node of the session. */
  lemma {:induction false} Climbed(pl: Plan, base: map<Pos, Node>, st: State, owner: map<Pos, nat>, p: Pos)
    requires PlanOk(pl) && Inv(pl, base, st, owner) && Scope(pl, p)
    requires forall j :: 0 <= j < |st.tasks| ==> st.tasks[j].Returned? || Sends(st.tasks[j])
    ensures p in owner
    decreases p.h
  {
    ScopeInTree(pl, p);
    assert NodeOk(pl, base[p], st, owner, p);
    if p.h == 0 {
      var t := st.tasks[p.x];
      assert TaskOk(pl, p.x, t);
      RestedLevel(pl, base, st, owner, p.x);
      assert Owns(owner, p.x, 0);
    } else {
      assert Scope(pl, Lc(p));
      Climbed(pl, base, st, owner, Lc(p));
      RestedPast(pl, base, st, owner, Lc(p));
      if Both(pl, p) {
        assert Scope(pl, Rc(p));
        Climbed(pl, base, st, owner, Rc(p));
        RestedPast(pl, base, st, owner, Rc(p));
      }
    }
  }

  lemma RestedLevel(pl: Plan, base: map<Pos, Node>, st: State, owner: map<Pos, nat>, j: nat)
    requires PlanOk(pl) && Inv(pl, base, st, owner) && j < |st.tasks|
    requires st.tasks[j].Returned? || Sends(st.tasks[j])
    ensures Level(pl, st.tasks[j]) > 0
  {
    assert TaskOk(pl, j, st.tasks[j]);
  }

  lemma RestedPast(pl: Plan, base: map<Pos, Node>, st: State, owner: map<Pos, nat>, c: Pos)
    requires PlanOk(pl) && Inv(pl, base, st, owner) && c in owner && c.h < pl.root
    requires st.tasks[owner[c]].Returned? || Sends(st.tasks[owner[c]])
    ensures ChildPast(pl, st.tasks, owner, c)
  {
  }

  /** Nothing ever deadlocks: until the session is finished some step is possible. */
  lemma Progress(job: Job, base: map<Pos, Node>, st: State)
    requires job.Valid() && Good(job, base, st) && !st.main.Finished?
    ensures exists a :: Enabled(st, a)
  {
    var pl := PlanOf(job);
    PlanOfOk(job);
    if !st.main.Waiting? {
      assert Enabled(st, MainStep);
    } else {
      var owner :| Inv(pl, base, st, owner);
      if j :| 0 <= j < |st.tasks| && (st.tasks[j].Hashing? || st.tasks[j].Run?) {
        assert Enabled(st, TaskStep(j));
      } else {
        var k := RootSends(pl, base, st, owner);
        assert Enabled(st, Receive(k));
      }
    }
  }

  /** With every goroutine at rest, one of them is sending. */
  lemma RootSends(pl: Plan, base: map<Pos, Node>, st: State, owner: map<Pos, nat>) returns (k: nat)
    requires PlanOk(pl) && Inv(pl, base, st, owner) && st.main.Waiting?
    requires forall j :: 0 <= j < |st.tasks| ==> !st.tasks[j].Hashing? && !st.tasks[j].Run?
    ensures k < |st.tasks| && st.tasks[k].Sending?
  {
    Climbed(pl, base, st, owner, Pos(pl.root, 0));
    k := owner[Pos(pl.root, 0)];
    assert TaskOk(pl, k, st.tasks[k]);
  }

  /** Steps goroutine t can still make, at most. */
  function TaskFuel(root: nat, t: Task): nat {
    match t
    case Idle => 5 * root + 12
    case Hashing(_) => 5 * root + 11
    case Run(pc, at, _, _, _, _) =>
      var rows := if at.h <= root then root - at.h else 0;
      5 * rows + (match pc case Store => 10 case Check => 9 case Toggle => 8 case Combine => 7 case Leave => 6)
    case Sending(_) => 1
    case _ => 0
  }

  function TasksFuel(root: nat, tasks: seq<Task>): nat {
    if tasks == [] then 0 else TaskFuel(root, tasks[0]) + TasksFuel(root, tasks[1..])
  }

  lemma {:induction false} FuelUpdate(root: nat, tasks: seq<Task>, j: nat, t: Task)
    requires j < |tasks|
    ensures TasksFuel(root, tasks[j := t]) == TasksFuel(root, tasks) - TaskFuel(root, tasks[j]) + TaskFuel(root, t)
  {
    if j == 0 {
      assert tasks[0 := t][1..] == tasks[1..];
    } else {
      FuelUpdate(root, tasks[1..], j - 1, t);
      assert tasks[j := t][1..] == tasks[1..][j - 1 := t];
    }
  }

  function MainFuel(pl: Plan, m: Main): nat {
    match m
    case Writing(k) => pl.depth + pl.root + 6 + (if k <= pl.last then pl.last - k else 0)
    case Finalising(p, _, _) => pl.depth + 4 + (if p.h <= pl.root then pl.root - p.h else 0)
    case Launching(_) => pl.depth + 3
    case Waiting => pl.depth + 2
    case Releasing(p) => if p.h <= pl.depth then pl.depth - p.h + 1 else 1
    case Finished => 0
  }

  function Fuel(pl: Plan, st: State): nat {
    MainFuel(pl, st.main) + TasksFuel(pl.root, st.tasks)
  }

  lemma TaskBurns(job: Job, pl: Plan, st: State, j: nat)
    requires job.Valid() && |st.tasks| == |job.pieces| && Enabled(st, TaskStep(j)) && ApplyTask(job, st, j).Ok?
    requires TaskOk(pl, j, st.tasks[j])
    requires st.tasks[j].Run? && st.tasks[j].pc.Leave? && st.tasks[j].at in st.nodes ==>
               (st.nodes[st.tasks[j].at].root <==> st.tasks[j].at.h == pl.root)
    requires st.tasks[j].Hashing? && Pos(0, j) in st.nodes && !st.nodes[Pos(0, j)].root ==> pl.root > 0
    ensures Fuel(pl, ApplyTask(job, st, j).state) < Fuel(pl, st)
  {
    var t := ApplyTask(job, st, j).state.tasks[j];
    OneTaskBurns(job, pl, st, j);
    FuelUpdate(pl.root, st.tasks, j, t);
  }

  lemma OneTaskBurns(job: Job, pl: Plan, st: State, j: nat)
    requires job.Valid() && |st.tasks| == |job.pieces| && Enabled(st, TaskStep(j)) && ApplyTask(job, st, j).Ok?
    requires TaskOk(pl, j, st.tasks[j])
    requires st.tasks[j].Run? && st.tasks[j].pc.Leave? && st.tasks[j].at in st.nodes ==>
               (st.nodes[st.tasks[j].at].root <==> st.tasks[j].at.h == pl.root)
    requires st.tasks[j].Hashing? && Pos(0, j) in st.nodes && !st.nodes[Pos(0, j)].root ==> pl.root > 0
    ensures var st' := ApplyTask(job, st, j).state;
            st'.main == st.main && st'.tasks == st.tasks[j := st'.tasks[j]] &&
                TaskFuel(pl.root, st'.tasks[j]) < TaskFuel(pl.root, st.tasks[j])
  {
  }

  lemma TaskBurnsGood(job: Job, base: map<Pos, Node>, st: State, owner: map<Pos, nat>, j: nat)
    requires job.Valid() && Inv(PlanOf(job), base, st, owner)
    requires |st.tasks| == |job.pieces| && Enabled(st, TaskStep(j)) && ApplyTask(job, st, j).Ok?
    ensures Fuel(PlanOf(job), ApplyTask(job, st, j).state) < Fuel(PlanOf(job), st)
  {
    var pl := PlanOf(job);
    PlanOfOk(job);
    assert TaskOk(pl, j, st.tasks[j]);
    if st.tasks[j].Run? {
      if st.tasks[j].pc.Leave? { LeaveAtRoot(pl, base, st, owner, j); }
    } else {
      AncInScope(pl, j, 0);
      ScopeInTree(pl, Pos(0, j));
      assert NodeOk(pl, base[Pos(0, j)], st, owner, Pos(0, j));
    }
    TaskBurns(job, pl, st, j);
  }

  lemma MainBurns(job: Job, pl: Plan, st: State)
    requires job.Valid() && |st.tasks| == |job.pieces| && Enabled(st, MainStep) && ApplyMain(job, st).Ok?
    requires pl.last == job.Last() && pl.depth == job.depth && pl.first <= pl.root
    requires pl.first == FirstHeight(job)
    requires st.main.Writing? ==> st.main.next <= pl.last && st.tasks[st.main.next].Idle?
    requires st.main.Finalising? ==> st.main.at.h <= pl.root && (st.main.at.x == 0 <==> st.main.at.h == pl.root)
    requires st.main.Launching? ==> st.tasks[pl.last].Idle?
    requires st.main.Releasing? ==> st.main.at.h <= pl.depth
    ensures Fuel(pl, ApplyMain(job, st).state) < Fuel(pl, st)
  {
    var st' := ApplyMain(job, st).state;
    if st.main.Writing? && st.main.next < pl.last {
      FuelUpdate(pl.root, st.tasks, st.main.next, st'.tasks[st.main.next]);
    } else if st.main.Launching? {
      FuelUpdate(pl.root, st.tasks, pl.last, st'.tasks[pl.last]);
    }
  }

  lemma MainBurnsGood(job: Job, base: map<Pos, Node>, st: State)
    requires job.Valid() && Good(job, base, st)
    requires |st.tasks| == |job.pieces| && Enabled(st, MainStep) && ApplyMain(job, st).Ok?
    ensures Fuel(PlanOf(job), ApplyMain(job, st).state) < Fuel(PlanOf(job), st)
  {
    PlanOfOk(job);
    MainBurns(job, PlanOf(job), st);
  }

  lemma StepBurns(job: Job, base: map<Pos, Node>, st: State, a: Action)
    requires job.Valid() && Good(job, base, st)
    requires |st.tasks| == |job.pieces| && Enabled(st, a) && Apply(job, st, a).Ok?
    ensures Fuel(PlanOf(job), Apply(job, st, a).state) < Fuel(PlanOf(job), st)
  {
    match a {
      case MainStep => MainBurnsGood(job, base, st);
      case TaskStep(j) =>
        var owner :| Inv(PlanOf(job), base, st, owner);
        TaskBurnsGood(job, base, st, owner, j);
      case Receive(k) => ReceiveBurns(job, PlanOf(job), st, k);
    }
  }

  lemma ReceiveBurns(job: Job, pl: Plan, st: State, k: nat)
    requires job.Valid() && |st.tasks| == |job.pieces| && Enabled(st, Receive(k)) && pl.depth == job.depth
    ensures Fuel(pl, Apply(job, st, Receive(k)).state) < Fuel(pl, st)
  {
    FuelUpdate(pl.root, st.tasks, k, Sent);
  }

  /** Termination: no schedule is longer than the fuel it starts with. */
  lemma {:induction false} EveryRunEnds(job: Job, base: map<Pos, Node>, st: State, acts: seq<Action>)
    requires job.Valid() && Clean(job.depth, base) && Good(job, base, st)
    requires |st.tasks| == |job.pieces| && IsSchedule(job, st, acts)
    ensures |acts| <= Fuel(PlanOf(job), st)
    decreases |acts|
  {
    if acts != [] {
      GoodStep(job, base, st, acts[0]);
      StepBurns(job, base, st, acts[0]);
      EveryRunEnds(job, base, Apply(job, st, acts[0]).state, acts[1..]);
    }
  }

  /** The theorem for one chunk: from a clean tree, in every schedule, no step crashes, every
      state is sound, the schedule is bounded, and it can be prolonged until Sum has returned. */
  lemma HashesOneChunk(job: Job, base: map<Pos, Node>, acts: seq<Action>)
    requires job.Valid() && Clean(job.depth, base) && IsSchedule(job, Start(job, base), acts)
    ensures var out := Exec(job, Start(job, base), acts);
            && out.Ok? && Sound(job, base, out.state)
            && (out.state.main.Finished? || exists a :: Enabled(out.state, a))
    ensures |acts| <= Fuel(PlanOf(job), Start(job, base))
  {
    InitInv(job, base);
    var st := Start(job, base);
    assert Good(job, base, st);
    EveryRunIsSound(job, base, st, acts);
    EveryRunEnds(job, base, st, acts);
    var out := Exec(job, st, acts).state;
    if !out.main.Finished? { Progress(job, base, out); }
  }
}
