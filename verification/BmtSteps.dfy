/** Every step of every goroutine keeps the invariant of BmtInvariant. */
module BmtSteps {
  import opened BmtReference
  import opened BmtMachine
  import opened BmtValues
  import opened BmtInvariant

  /** Replacing goroutine j's state by one of the same level keeps the ownership map right. */
  lemma OwnerFrame(pl: Plan, tasks: seq<Task>, owner: map<Pos, nat>, j: nat, t: Task)
    requires |tasks| == pl.last + 1 && j < |tasks|
    requires OwnerOk(pl, tasks, owner)
    requires Level(pl, t) == Level(pl, tasks[j]) && !t.Idle?
    ensures OwnerOk(pl, tasks[j := t], owner)
  {
  }

  /** Goroutine j takes over the node of the next row. */
  lemma OwnerGrows(pl: Plan, tasks: seq<Task>, owner: map<Pos, nat>, j: nat, t: Task, p: Pos)
    requires |tasks| == pl.last + 1 && j < |tasks|
    requires OwnerOk(pl, tasks, owner)
    requires p == Pos(Level(pl, tasks[j]), Anc(j, Level(pl, tasks[j]))) && p !in owner
    requires Level(pl, t) == p.h + 1 && !t.Idle?
    requires OnPath(pl, p) ==> !tasks[pl.last].Idle?
    ensures OwnerOk(pl, tasks[j := t], owner[p := j])
  {
    var owner' := owner[p := j];
    var tasks' := tasks[j := t];
    forall k, h | 0 <= k < |tasks'| && 0 <= h < Level(pl, tasks'[k])
      ensures Owns(owner', k, h)
    {
      if !(k == j && h == p.h) {
        assert Owns(owner, k, h);
      }
    }
  }

  /** t and t' differ, to an observer, only in what they did at their node of height h. */
  ghost predicate SameBut(pl: Plan, t: Task, t': Task, h: nat) {
    forall g: nat :: g != h ==> Past(pl, t, g) == Past(pl, t', g) && Stored(pl, t, g) == Stored(pl, t', g)
  }

  /** What goroutine j's step at p may change: j itself, p, and the ownership of p. */
  ghost predicate StepAt(pl: Plan, st: State, st': State, owner: map<Pos, nat>, owner': map<Pos, nat>, j: nat, p: Pos) {
    && |st.tasks| == pl.last + 1 && j < |st.tasks| == |st'.tasks|
    && st'.tasks == st.tasks[j := st'.tasks[j]] && st'.main == st.main && st'.result == st.result
    && st'.nodes.Keys == st.nodes.Keys
    && (forall q :: q in st.nodes && q != p ==> st'.nodes[q] == st.nodes[q])
    && p.x == Anc(j, p.h) && SameBut(pl, st.tasks[j], st'.tasks[j], p.h)
    && (AtLeaf(st'.tasks[j]) && !AtLeaf(st.tasks[j]) ==> p.h == 0)
    && (owner' == owner || (owner' == owner[p := j] && p !in owner && !Stored(pl, st'.tasks[j], p.h + 1)))
  }

  lemma OtherChild(pl: Plan, st: State, st': State, owner: map<Pos, nat>, owner': map<Pos, nat>, j: nat, p: Pos, c: Pos)
    requires StepAt(pl, st, st', owner, owner', j, p) && OwnerOk(pl, st.tasks, owner)
    requires Parent(c) != p
    ensures ChildPast(pl, st.tasks, owner, c) == ChildPast(pl, st'.tasks, owner', c)
    ensures ChildStored(pl, st.tasks, owner, c) == ChildStored(pl, st'.tasks, owner', c)
  {
    if c in owner && owner[c] == j {
      assert Anc(j, c.h + 1) == c.x / 2;
      assert c.h + 1 != p.h;
    }
  }

  lemma OtherNode(pl: Plan, b: Node, st: State, st': State, owner: map<Pos, nat>, owner': map<Pos, nat>, j: nat, p: Pos,
                  q: Pos)
    requires StepAt(pl, st, st', owner, owner', j, p) && OwnerOk(pl, st.tasks, owner)
    requires q != p && q in st.nodes && NodeOk(pl, b, st, owner, q)
    ensures NodeOk(pl, b, st', owner', q)
  {
    if q.h > 0 {
      OtherChild(pl, st, st', owner, owner', j, p, Lc(q));
      OtherChild(pl, st, st', owner, owner', j, p, Rc(q));
    }
  }

  /** A step at p keeps the invariant if it does so for j, for p and for the owners. */
  lemma StepKeeps(pl: Plan, base: map<Pos, Node>, st: State, st': State, owner: map<Pos, nat>, owner': map<Pos, nat>,
                  j: nat, p: Pos)
    requires Inv(pl, base, st, owner) && StepAt(pl, st, st', owner, owner', j, p)
    requires p in st.nodes && p in base && NodeOk(pl, base[p], st', owner', p)
    requires TaskOk(pl, j, st'.tasks[j]) && OwnerOk(pl, st'.tasks, owner')
    requires !st.tasks[j].Idle? && !st'.tasks[j].Idle?
    ensures Inv(pl, base, st', owner')
  {
    forall q | InTree(pl.depth, q)
      ensures NodeOk(pl, base[q], st', owner', q)
    {
      if q != p { OtherNode(pl, base[q], st, st', owner, owner', j, p, q); }
    }
  }

  /** To the other goroutines a step of t inside `run` shows only at its node. */
  ghost predicate Moves(pl: Plan, t: Task, t': Task, p: Pos) {
    SameBut(pl, t, t', p.h) && (AtLeaf(t') && !AtLeaf(t) ==> p.h == 0) && !t'.Idle?
  }

  lemma EarlyMoves(pl: Plan, t: Task, t': Task)
    requires t.Run? && (t.pc.Store? || t.pc.Check? || t.pc.Toggle?)
    requires t' == Returned(t.at) || (t'.Run? && t' == t.(pc := t'.pc) && !t'.pc.Store? && !t'.pc.Leave?)
    ensures Moves(pl, t, t', t.at)
  {
  }

  lemma LateMoves(pl: Plan, t: Task, t': Task)
    requires t.Run? && (t.pc.Combine? || t.pc.Leave?) && t.at.h <= pl.root
    requires t'.Run? || (t'.Sending? && t.at.h == pl.root)
    requires t'.Run? && t.pc.Combine? ==> t'.pc.Leave? && t'.at == t.at
    requires t'.Run? && t.pc.Leave? ==> t'.pc.Store? && t'.at == Parent(t.at)
    ensures Moves(pl, t, t', t.at)
  {
  }

  /** A goroutine inside `run` touches nothing but itself and its node. */
  lemma StepShape(job: Job, pl: Plan, st: State, owner: map<Pos, nat>, owner': map<Pos, nat>, j: nat)
    requires job.Valid() && |st.tasks| == |job.pieces| == pl.last + 1 && j < |st.tasks|
    requires st.tasks[j].Run? && st.tasks[j].at in st.nodes && TaskOk(pl, j, st.tasks[j])
    requires st.tasks[j].pc.Leave? && st.nodes[st.tasks[j].at].root ==> st.tasks[j].at.h == pl.root
    requires owner' == owner ||
             (owner' == owner[st.tasks[j].at := j] && st.tasks[j].at !in owner && !st.tasks[j].pc.Leave?)
    ensures var out := ApplyTask(job, st, j);
            out.Ok? && StepAt(pl, st, out.state, owner, owner', j, st.tasks[j].at) && !out.state.tasks[j].Idle?
  {
    var t, t' := st.tasks[j], ApplyTask(job, st, j).state.tasks[j];
    if t.pc.Combine? || t.pc.Leave? {
      LateMoves(pl, t, t');
    } else {
      EarlyMoves(pl, t, t');
    }
    assert Moves(pl, t, t', t.at);
  }

  /** A goroutine's node exists and is part of the session. */
  lemma NodeOfTask(pl: Plan, base: map<Pos, Node>, st: State, owner: map<Pos, nat>, j: nat)
    requires PlanOk(pl) && Inv(pl, base, st, owner) && j < |st.tasks| && st.tasks[j].Run?
    ensures TaskOk(pl, j, st.tasks[j])
    ensures var p := st.tasks[j].at;
            InTree(pl.depth, p) && Scope(pl, p) && p in st.nodes && p in base && NodeOk(pl, base[p], st, owner, p)
  {
    assert TaskOk(pl, j, st.tasks[j]);
    AncInScope(pl, j, st.tasks[j].at.h);
    ScopeInTree(pl, st.tasks[j].at);
  }

  lemma StoreKeeps(job: Job, pl: Plan, base: map<Pos, Node>, st: State, owner: map<Pos, nat>, j: nat)
    requires job.Valid() && PlanOk(pl) && |st.tasks| == |job.pieces| && Inv(pl, base, st, owner) && j < |st.tasks|
    requires st.tasks[j].Run? && st.tasks[j].pc.Store?
    ensures var out := ApplyTask(job, st, j); out.Ok? && Inv(pl, base, out.state, owner)
  {
    var p := st.tasks[j].at;
    NodeOfTask(pl, base, st, owner, j);
    StepShape(job, pl, st, owner, owner, j);
    var st' := ApplyTask(job, st, j).state;
    OwnerFrame(pl, st.tasks, owner, j, st'.tasks[j]);
    StoreNode(job, pl, base[p], st, owner, j);
    StepKeeps(pl, base, st, st', owner, owner, j, p);
  }

  lemma StoreNode(job: Job, pl: Plan, b: Node, st: State, owner: map<Pos, nat>, j: nat)
    requires job.Valid() && |st.tasks| == |job.pieces| == pl.last + 1 && j < |st.tasks|
    requires st.tasks[j].Run? && st.tasks[j].pc.Store? && st.tasks[j].at in st.nodes
    requires OwnerOk(pl, st.tasks, owner) && TaskOk(pl, j, st.tasks[j]) && NodeOk(pl, b, st, owner, st.tasks[j].at)
    requires Scope(pl, st.tasks[j].at)
    ensures var out := ApplyTask(job, st, j); out.Ok? && NodeOk(pl, b, out.state, owner, st.tasks[j].at)
  {
    var p := st.tasks[j].at;
    if p.h > 0 {
      assert Owns(owner, j, p.h - 1);
      AncMonotone(j, pl.last, p.h - 1);
      var c := Pos(p.h - 1, Anc(j, p.h - 1));
      var st' := ApplyTask(job, st, j).state;
      StoreChildren(pl, st.tasks, owner, j, c, if c == Lc(p) then Rc(p) else Lc(p));
      StoredNode(pl, b, st, st', owner, j, c);
    }
  }

  /** After the slot is written the goroutine's own child is stored, and nothing else has changed. */
  lemma StoreChildren(pl: Plan, tasks: seq<Task>, owner: map<Pos, nat>, j: nat, c: Pos, o: Pos)
    requires |tasks| == pl.last + 1 && j < |tasks| && OwnerOk(pl, tasks, owner)
    requires tasks[j].Run? && tasks[j].pc.Store? && tasks[j].at.h == c.h + 1 == o.h + 1
    requires c in owner && owner[c] == j && o != c && c.x == Anc(j, c.h)
    ensures var tasks' := tasks[j := tasks[j].(pc := Check)];
            && !ChildPast(pl, tasks, owner, c) && !ChildPast(pl, tasks', owner, c)
            && ChildPast(pl, tasks', owner, o) == ChildPast(pl, tasks, owner, o)
            && ChildStored(pl, tasks', owner, o) == ChildStored(pl, tasks, owner, o)
  {
  }

  lemma StoredNode(pl: Plan, b: Node, st: State, st': State, owner: map<Pos, nat>, j: nat, c: Pos)
    requires |st.tasks| == pl.last + 1 && j < |st.tasks| && st'.main == st.main && st.tasks[j].Run?
    requires st'.tasks == st.tasks[j := st.tasks[j].(pc := Check)]
    requires var p := st.tasks[j].at;
             && p.h > 0 && p in st.nodes && Scope(pl, p) && NodeOk(pl, b, st, owner, p)
             && (c == Lc(p) || (c == Rc(p) && Both(pl, p)))
             && st'.nodes ==
                st.nodes[p := if c == Lc(p) then st.nodes[p].(left := pl.val(c)) else st.nodes[p].(right := pl.val(c))]
    requires var p := st.tasks[j].at;
             var o := if c == Lc(p) then Rc(p) else Lc(p);
             && !ChildPast(pl, st.tasks, owner, c) && !ChildPast(pl, st'.tasks, owner, c)
             && ChildPast(pl, st'.tasks, owner, o) == ChildPast(pl, st.tasks, owner, o)
             && ChildStored(pl, st'.tasks, owner, o) == ChildStored(pl, st.tasks, owner, o)
    requires Finalised(pl, st.main, st.tasks[j].at) && EntersLeft(pl, st.tasks[j].at.h) ==> c == Lc(st.tasks[j].at)
    ensures NodeOk(pl, b, st', owner, st.tasks[j].at)
  {
  }

  /** Once anything has left a node on the last piece's path, finalise is over. */
  lemma PathOwned(pl: Plan, base: map<Pos, Node>, st: State, owner: map<Pos, nat>, p: Pos)
    requires Inv(pl, base, st, owner) && p in owner && OnPath(pl, p)
    ensures st.main.Waiting?
  {
    assert !st.tasks[pl.last].Idle?;
  }

  /** A goroutine at an unbalanced node entered it from the left, along the path. */
  lemma UnbalancedEntry(pl: Plan, base: map<Pos, Node>, st: State, owner: map<Pos, nat>, j: nat)
    requires PlanOk(pl) && Inv(pl, base, st, owner) && j < |st.tasks| && st.tasks[j].Run?
    requires !Both(pl, st.tasks[j].at)
    ensures var p := st.tasks[j].at;
            && OnPath(pl, p) && EntersLeft(pl, p.h) && st.main.Waiting? && pl.first <= p.h
            && st.tasks[j].isLeft
            && (p.h > 0 ==> Owns(owner, j, p.h - 1) && Pos(p.h - 1, Anc(j, p.h - 1)) == Lc(p))
  {
    var p := st.tasks[j].at;
    assert TaskOk(pl, j, st.tasks[j]);
    AncMonotone(j, pl.last, p.h);
    if p.h > 0 {
      AncMonotone(j, pl.last, p.h - 1);
      assert Owns(owner, j, p.h - 1);
      PathOwned(pl, base, st, owner, Lc(p));
    } else {
      assert !st.tasks[pl.last].Idle?;
    }
  }

  lemma CheckKeeps(job: Job, pl: Plan, base: map<Pos, Node>, st: State, owner: map<Pos, nat>, j: nat)
    requires job.Valid() && PlanOk(pl) && |st.tasks| == |job.pieces| && Inv(pl, base, st, owner) && j < |st.tasks|
    requires st.tasks[j].Run? && st.tasks[j].pc.Check? && Both(pl, st.tasks[j].at)
    ensures var out := ApplyTask(job, st, j); out.Ok? && Inv(pl, base, out.state, owner)
  {
    var p := st.tasks[j].at;
    NodeOfTask(pl, base, st, owner, j);
    StepShape(job, pl, st, owner, owner, j);
    var st' := ApplyTask(job, st, j).state;
    assert !st.nodes[p].unbalanced;
    OwnerFrame(pl, st.tasks, owner, j, st'.tasks[j]);
    CheckNode(pl, base[p], st, st', owner, j);
    StepKeeps(pl, base, st, st', owner, owner, j, p);
  }

  lemma PassKeeps(job: Job, pl: Plan, base: map<Pos, Node>, st: State, owner: map<Pos, nat>, j: nat)
    requires job.Valid() && PlanOk(pl) && |st.tasks| == |job.pieces| && Inv(pl, base, st, owner) && j < |st.tasks|
    requires st.tasks[j].Run? && st.tasks[j].pc.Check? && !Both(pl, st.tasks[j].at)
    ensures var out := ApplyTask(job, st, j); out.Ok? && Inv(pl, base, out.state, owner[st.tasks[j].at := j])
  {
    var p := st.tasks[j].at;
    NodeOfTask(pl, base, st, owner, j);
    UnbalancedEntry(pl, base, st, owner, j);
    PathLaunched(pl, base, st, owner);
    UnownedByLevel(pl, base[p], st, owner, j);
    PassStep(job, pl, base[p], st, owner, j);
    var st' := ApplyTask(job, st, j).state;
    PassOwner(pl, st, owner, j);
    PassNode(pl, base[p], st, st', owner, j);
    StepKeeps(pl, base, st, st', owner, owner[p := j], j, p);
  }

  lemma PathLaunched(pl: Plan, base: map<Pos, Node>, st: State, owner: map<Pos, nat>)
    requires Inv(pl, base, st, owner) && st.main.Waiting?
    ensures !st.tasks[pl.last].Idle?
  {
  }

  /** A goroutine that checks an unbalanced node goes on to combine. */
  lemma PassStep(job: Job, pl: Plan, b: Node, st: State, owner: map<Pos, nat>, j: nat)
    requires job.Valid() && |st.tasks| == |job.pieces| == pl.last + 1 && j < |st.tasks|
    requires st.tasks[j].Run? && st.tasks[j].pc.Check?
    requires var p := st.tasks[j].at;
             && p in st.nodes && Scope(pl, p) && NodeOk(pl, b, st, owner, p)
             && OnPath(pl, p) && EntersLeft(pl, p.h) && st.main.Waiting? && pl.first <= p.h
    ensures ApplyTask(job, st, j) == Ok(st.(tasks := st.tasks[j := st.tasks[j].(pc := Combine)]))
  {
  }

  /** The goroutine that passes takes the node over. */
  lemma PassOwner(pl: Plan, st: State, owner: map<Pos, nat>, j: nat)
    requires |st.tasks| == pl.last + 1 && j < |st.tasks| && OwnerOk(pl, st.tasks, owner)
    requires st.tasks[j].Run? && st.tasks[j].pc.Check? && TaskOk(pl, j, st.tasks[j]) && !st.tasks[pl.last].Idle?
    requires st.tasks[j].at !in owner
    ensures var p, st' := st.tasks[j].at, st.(tasks := st.tasks[j := st.tasks[j].(pc := Combine)]);
            && StepAt(pl, st, st', owner, owner[p := j], j, p)
            && TaskOk(pl, j, st'.tasks[j]) && OwnerOk(pl, st'.tasks, owner[p := j])
  {
    var t := st.tasks[j].(pc := Combine);
    EarlyMoves(pl, st.tasks[j], t);
    OwnerGrows(pl, st.tasks, owner, j, t, t.at);
  }

  /** A node whose goroutine has only just checked it has not been left yet. */
  lemma UnownedByLevel(pl: Plan, b: Node, st: State, owner: map<Pos, nat>, j: nat)
    requires |st.tasks| == pl.last + 1 && j < |st.tasks| && OwnerOk(pl, st.tasks, owner)
    requires st.tasks[j].Run? && (st.tasks[j].pc.Check? || st.tasks[j].pc.Toggle?) && TaskOk(pl, j, st.tasks[j])
    requires st.tasks[j].at in st.nodes && Scope(pl, st.tasks[j].at) && NodeOk(pl, b, st, owner, st.tasks[j].at)
    ensures st.tasks[j].at !in owner
  {
    var p := st.tasks[j].at;
    if p.h > 0 {
      assert Owns(owner, j, p.h - 1);
      AncMonotone(j, pl.last, p.h - 1);
    }
  }

  lemma CheckNode(pl: Plan, b: Node, st: State, st': State, owner: map<Pos, nat>, j: nat)
    requires |st.tasks| == pl.last + 1 && j < |st.tasks| && OwnerOk(pl, st.tasks, owner)
    requires st.tasks[j].Run? && st.tasks[j].pc.Check? && TaskOk(pl, j, st.tasks[j])
    requires st.tasks[j].at in st.nodes && Scope(pl, st.tasks[j].at) && NodeOk(pl, b, st, owner, st.tasks[j].at)
    requires Both(pl, st.tasks[j].at)
    requires st' == st.(tasks := st.tasks[j := st.tasks[j].(pc := Toggle)])
    ensures NodeOk(pl, b, st', owner, st.tasks[j].at)
  {
  }

  lemma PassNode(pl: Plan, b: Node, st: State, st': State, owner: map<Pos, nat>, j: nat)
    requires |st.tasks| == pl.last + 1 && j < |st.tasks| && OwnerOk(pl, st.tasks, owner)
    requires st.tasks[j].Run? && st.tasks[j].pc.Check? && TaskOk(pl, j, st.tasks[j])
    requires st.tasks[j].at in st.nodes && Scope(pl, st.tasks[j].at) && NodeOk(pl, b, st, owner, st.tasks[j].at)
    requires !Both(pl, st.tasks[j].at) && st.tasks[j].at !in owner
    requires st.tasks[j].at.h > 0 ==>
             Owns(owner, j, st.tasks[j].at.h - 1) &&
                 Pos(st.tasks[j].at.h - 1, Anc(j, st.tasks[j].at.h - 1)) == Lc(st.tasks[j].at)
    requires st' == st.(tasks := st.tasks[j := st.tasks[j].(pc := Combine)])
    ensures NodeOk(pl, b, st', owner[st.tasks[j].at := j], st.tasks[j].at)
  {
  }

  /** A toggle from an even, non-negative count: the first arrival waits, the second goes on. */
  lemma ToggleKeeps(job: Job, pl: Plan, base: map<Pos, Node>, st: State, owner: map<Pos, nat>, j: nat)
    returns (owner': map<Pos, nat>)
    requires job.Valid() && PlanOk(pl) && |st.tasks| == |job.pieces| && Inv(pl, base, st, owner) && j < |st.tasks|
    requires Clean(pl.depth, base)
    requires st.tasks[j].Run? && st.tasks[j].pc.Toggle?
    ensures var out := ApplyTask(job, st, j); out.Ok? && Inv(pl, base, out.state, owner')
  {
    var p := st.tasks[j].at;
    NodeOfTask(pl, base, st, owner, j);
    assert CleanNode(pl.depth, p, base[p]);
    UnownedByLevel(pl, base[p], st, owner, j);
    owner' := ToggleNode(job, pl, base[p], st, owner, j);
    ToggleOwner(job, pl, st, owner, owner', j);
    StepShape(job, pl, st, owner, owner', j);
    StepKeeps(pl, base, st, ApplyTask(job, st, j).state, owner, owner', j, p);
  }

  lemma ToggleOwner(job: Job, pl: Plan, st: State, owner: map<Pos, nat>, owner': map<Pos, nat>, j: nat)
    requires job.Valid() && |st.tasks| == |job.pieces| == pl.last + 1 && j < |st.tasks| && OwnerOk(pl, st.tasks, owner)
    requires st.tasks[j].Run? && st.tasks[j].pc.Toggle? && TaskOk(pl, j, st.tasks[j])
    requires st.tasks[j].at in st.nodes && st.tasks[j].at !in owner
    requires var out := ApplyTask(job, st, j);
             out.Ok? &&
             if out.state.tasks[j].Returned? then owner' == owner
             else owner' == owner[st.tasks[j].at := j] && Rc(st.tasks[j].at) in owner
    ensures OwnerOk(pl, ApplyTask(job, st, j).state.tasks, owner')
    ensures TaskOk(pl, j, ApplyTask(job, st, j).state.tasks[j])
  {
    var p := st.tasks[j].at;
    var t := ApplyTask(job, st, j).state.tasks[j];
    if t.Returned? {
      OwnerFrame(pl, st.tasks, owner, j, t);
    } else {
      if OnPath(pl, p) { assert OnPath(pl, Rc(p)); }
      OwnerGrows(pl, st.tasks, owner, j, t, p);
    }
  }

  /** After a toggle the goroutine's own child has arrived, and for the other nothing has changed. */
  lemma ToggleChildren(pl: Plan, tasks: seq<Task>, t: Task, owner: map<Pos, nat>, owner': map<Pos, nat>, j: nat, c: Pos,
                       o: Pos)
    requires |tasks| == pl.last + 1 && j < |tasks| && OwnerOk(pl, tasks, owner)
    requires tasks[j].Run? && tasks[j].pc.Toggle? && tasks[j].at.h == c.h + 1 == o.h + 1 && tasks[j].at !in owner
    requires t == Returned(tasks[j].at) || t == tasks[j].(pc := Combine)
    requires owner' == owner || owner' == owner[tasks[j].at := j]
    requires c in owner && owner[c] == j && o != c && c.x == Anc(j, c.h)
    ensures !ChildPast(pl, tasks, owner, c) && ChildPast(pl, tasks[j := t], owner', c)
    ensures ChildStored(pl, tasks, owner, c) && ChildStored(pl, tasks[j := t], owner', c)
    ensures ChildPast(pl, tasks[j := t], owner', o) == ChildPast(pl, tasks, owner, o)
    ensures ChildStored(pl, tasks[j := t], owner', o) == ChildStored(pl, tasks, owner, o)
  {
  }

  lemma ToggleNode(job: Job, pl: Plan, b: Node, st: State, owner: map<Pos, nat>, j: nat) returns (owner': map<Pos, nat>)
    requires job.Valid() && |st.tasks| == |job.pieces| == pl.last + 1 && j < |st.tasks| && OwnerOk(pl, st.tasks, owner)
    requires st.tasks[j].Run? && st.tasks[j].pc.Toggle? && TaskOk(pl, j, st.tasks[j])
    requires st.tasks[j].at in st.nodes && Scope(pl, st.tasks[j].at) && NodeOk(pl, b, st, owner, st.tasks[j].at)
    requires CleanNode(pl.depth, st.tasks[j].at, b) && st.tasks[j].at !in owner
    ensures var out := ApplyTask(job, st, j);
            && out.Ok? && NodeOk(pl, b, out.state, owner', st.tasks[j].at)
            && (if out.state.tasks[j].Returned? then owner' == owner else
                && owner' == owner[st.tasks[j].at := j]
                && Lc(st.tasks[j].at) in owner && Rc(st.tasks[j].at) in owner)
  {
    var p := st.tasks[j].at;
    assert Owns(owner, j, p.h - 1);
    var c := Pos(p.h - 1, Anc(j, p.h - 1));
    var o := if c == Lc(p) then Rc(p) else Lc(p);
    owner' := if ChildPast(pl, st.tasks, owner, o) then owner[p := j] else owner;
    var st' := ApplyTask(job, st, j).state;
    ToggleChildren(pl, st.tasks, st'.tasks[j], owner, owner', j, c, o);
    ToggledNode(pl, b, st, st', owner, owner', j, c, o);
  }

  lemma ToggledNode(pl: Plan, b: Node, st: State, st': State, owner: map<Pos, nat>, owner': map<Pos, nat>, j: nat,
                    c: Pos, o: Pos)
    requires |st.tasks| == pl.last + 1 && j < |st.tasks| && st'.main == st.main
    requires st.tasks[j].Run? && |st'.tasks| == |st.tasks| && st'.tasks == st.tasks[j := st'.tasks[j]]
    requires var p := st.tasks[j].at;
             && p.h > 0 && p in st.nodes && Scope(pl, p) && Both(pl, p) && NodeOk(pl, b, st, owner, p) &&
                CleanNode(pl.depth, p, b)
             && st'.nodes == st.nodes[p := st.nodes[p].(state := AddInt32(st.nodes[p].state))]
             && ((c == Lc(p) && o == Rc(p)) || (c == Rc(p) && o == Lc(p))) && p !in owner
             && owner' == (if ChildPast(pl, st.tasks, owner, o) then owner[p := j] else owner)
    requires !ChildPast(pl, st.tasks, owner, c) && ChildPast(pl, st'.tasks, owner', c)
    requires ChildStored(pl, st.tasks, owner, c) && ChildStored(pl, st'.tasks, owner', c)
    requires ChildPast(pl, st'.tasks, owner', o) == ChildPast(pl, st.tasks, owner, o)
    requires ChildStored(pl, st'.tasks, owner', o) == ChildStored(pl, st.tasks, owner, o)
    ensures NodeOk(pl, b, st', owner', st.tasks[j].at)
    ensures OddRemainder(AddInt32(st.nodes[st.tasks[j].at].state)) <==> !ChildPast(pl, st.tasks, owner, o)
  {
  }

  /** What the plan says about the value leaving p, when p is combined. */
  ghost predicate CombinesTo(job: Job, pl: Plan, p: Pos) {
    if Both(pl, p) then pl.val(p) == job.base.sum(pl.val(Lc(p)) + pl.val(Rc(p)))
    else if p.h > 0 then pl.val(p) == pl.val(Lc(p))
    else pl.val(p) == if pl.last == 0 then job.base.sum(pl.piece) else pl.piece
  }

  lemma CombineKeeps(job: Job, pl: Plan, base: map<Pos, Node>, st: State, owner: map<Pos, nat>, j: nat)
    requires job.Valid() && PlanOk(pl) && |st.tasks| == |job.pieces| && Inv(pl, base, st, owner) && j < |st.tasks|
    requires st.tasks[j].Run? && st.tasks[j].pc.Combine? && CombinesTo(job, pl, st.tasks[j].at)
    ensures var out := ApplyTask(job, st, j); out.Ok? && Inv(pl, base, out.state, owner)
  {
    var p := st.tasks[j].at;
    NodeOfTask(pl, base, st, owner, j);
    CombineValue(job, pl, base, st, owner, j);
    CombineLocally(job, pl, base[p], st, owner, j);
    StepKeeps(pl, base, st, ApplyTask(job, st, j).state, owner, owner, j, p);
  }

  /** The part of CombineKeeps that concerns the goroutine and its node. */
  lemma CombineLocally(job: Job, pl: Plan, b: Node, st: State, owner: map<Pos, nat>, j: nat)
    requires job.Valid() && |st.tasks| == |job.pieces| == pl.last + 1 && j < |st.tasks| && OwnerOk(pl, st.tasks, owner)
    requires st.tasks[j].Run? && st.tasks[j].pc.Combine? && TaskOk(pl, j, st.tasks[j])
    requires st.tasks[j].at in st.nodes && NodeOk(pl, b, st, owner, st.tasks[j].at)
    requires ApplyTask(job, st, j).state.tasks[j] == st.tasks[j].(pc := Leave, s := pl.val(st.tasks[j].at))
    ensures var out := ApplyTask(job, st, j);
            var p := st.tasks[j].at;
            && out.Ok? && StepAt(pl, st, out.state, owner, owner, j, p) && NodeOk(pl, b, out.state, owner, p)
            && TaskOk(pl, j, out.state.tasks[j]) && OwnerOk(pl, out.state.tasks, owner) && !out.state.tasks[j].Idle?
  {
    StepShape(job, pl, st, owner, owner, j);
    var st' := ApplyTask(job, st, j).state;
    OwnerFrame(pl, st.tasks, owner, j, st'.tasks[j]);
    SameLevelNode(pl, b, st, st', owner, j);
  }

  /** At the combination both slots (or the one slot) hold what the plan says. */
  lemma CombineValue(job: Job, pl: Plan, base: map<Pos, Node>, st: State, owner: map<Pos, nat>, j: nat)
    requires job.Valid() && PlanOk(pl) && |st.tasks| == |job.pieces| && Inv(pl, base, st, owner) && j < |st.tasks|
    requires st.tasks[j].Run? && st.tasks[j].pc.Combine? && CombinesTo(job, pl, st.tasks[j].at)
    requires st.tasks[j].at in st.nodes
    ensures ApplyTask(job, st, j).state.tasks[j] == st.tasks[j].(pc := Leave, s := pl.val(st.tasks[j].at))
  {
    var p := st.tasks[j].at;
    NodeOfTask(pl, base, st, owner, j);
    assert Owns(owner, j, p.h);
    if !Both(pl, p) {
      UnbalancedEntry(pl, base, st, owner, j);
      assert st.nodes[p].right == [];
      assert st.nodes[p].left + [] == st.nodes[p].left;
    }
  }

  lemma SameLevelNode(pl: Plan, b: Node, st: State, st': State, owner: map<Pos, nat>, j: nat)
    requires |st.tasks| == pl.last + 1 && j < |st.tasks| && OwnerOk(pl, st.tasks, owner)
    requires st.tasks[j].Run? && st.tasks[j].at in st.nodes && NodeOk(pl, b, st, owner, st.tasks[j].at)
    requires |st'.tasks| == |st.tasks| && st'.tasks == st.tasks[j := st'.tasks[j]] && st'.main == st.main
    requires st'.nodes == st.nodes
    requires forall g: nat :: Past(pl, st.tasks[j], g) == Past(pl, st'.tasks[j], g)
    requires forall g: nat :: Stored(pl, st.tasks[j], g) == Stored(pl, st'.tasks[j], g)
    requires AtLeaf(st'.tasks[j]) ==> AtLeaf(st.tasks[j])
    ensures NodeOk(pl, b, st', owner, st.tasks[j].at)
  {
  }

  lemma LeaveKeeps(job: Job, pl: Plan, base: map<Pos, Node>, st: State, owner: map<Pos, nat>, j: nat)
    requires job.Valid() && PlanOk(pl) && |st.tasks| == |job.pieces| && Inv(pl, base, st, owner) && j < |st.tasks|
    requires st.tasks[j].Run? && st.tasks[j].pc.Leave?
    ensures var out := ApplyTask(job, st, j); out.Ok? && Inv(pl, base, out.state, owner)
  {
    var p := st.tasks[j].at;
    NodeOfTask(pl, base, st, owner, j);
    LeaveAtRoot(pl, base, st, owner, j);
    LeaveLocally(job, pl, base[p], st, owner, j);
    StepKeeps(pl, base, st, ApplyTask(job, st, j).state, owner, owner, j, p);
  }

  /** The part of LeaveKeeps that concerns the goroutine and its node. */
  lemma LeaveLocally(job: Job, pl: Plan, b: Node, st: State, owner: map<Pos, nat>, j: nat)
    requires job.Valid() && PlanOk(pl) && |st.tasks| == |job.pieces| == pl.last + 1 && j < |st.tasks|
    requires OwnerOk(pl, st.tasks, owner)
    requires st.tasks[j].Run? && st.tasks[j].pc.Leave? && TaskOk(pl, j, st.tasks[j])
    requires var p := st.tasks[j].at;
             && p in st.nodes && NodeOk(pl, b, st, owner, p)
             && (st.nodes[p].root <==> p.h == pl.root) && (p.h == pl.root ==> p.x == 0)
    ensures var out := ApplyTask(job, st, j);
            var p := st.tasks[j].at;
            && out.Ok? && StepAt(pl, st, out.state, owner, owner, j, p) && NodeOk(pl, b, out.state, owner, p)
            && TaskOk(pl, j, out.state.tasks[j]) && OwnerOk(pl, out.state.tasks, owner) && !out.state.tasks[j].Idle?
  {
    StepShape(job, pl, st, owner, owner, j);
    var st' := ApplyTask(job, st, j).state;
    OwnerFrame(pl, st.tasks, owner, j, st'.tasks[j]);
    SameLevelNode(pl, b, st, st', owner, j);
  }

  /** The root flag is seen exactly at the top of the session's subtree. */
  lemma LeaveAtRoot(pl: Plan, base: map<Pos, Node>, st: State, owner: map<Pos, nat>, j: nat)
    requires PlanOk(pl) && Inv(pl, base, st, owner) && j < |st.tasks|
    requires st.tasks[j].Run? && st.tasks[j].pc.Leave? && st.tasks[j].at in st.nodes
    ensures st.nodes[st.tasks[j].at].root <==> st.tasks[j].at.h == pl.root
    ensures st.tasks[j].at.h == pl.root ==> st.tasks[j].at.x == 0
  {
    var p := st.tasks[j].at;
    NodeOfTask(pl, base, st, owner, j);
    assert Owns(owner, j, p.h);
    if p.h == pl.root { PathOwned(pl, base, st, owner, p); }
  }

  lemma HashKeeps(job: Job, pl: Plan, base: map<Pos, Node>, st: State, owner: map<Pos, nat>, j: nat)
    requires job.Valid() && PlanOk(pl) && |st.tasks| == |job.pieces| && Inv(pl, base, st, owner) && j < |st.tasks|
    requires st.tasks[j].Hashing? && pl.val(Pos(0, j)) == job.base.sum(job.pieces[j])
    ensures var out := ApplyTask(job, st, j); out.Ok? && Inv(pl, base, out.state, owner[Pos(0, j) := j])
  {
    var p := Pos(0, j);
    assert TaskOk(pl, j, st.tasks[j]);
    AncInScope(pl, j, 0);
    ScopeInTree(pl, p);
    assert NodeOk(pl, base[p], st, owner, p);
    var st' := ApplyTask(job, st, j).state;
    assert st.nodes[p].root <==> pl.root == 0;
    OwnerGrows(pl, st.tasks, owner, j, st'.tasks[j], p);
    StepKeeps(pl, base, st, st', owner, owner[p := j], j, p);
  }
}
