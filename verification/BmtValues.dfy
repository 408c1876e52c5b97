/** The value each node of the concurrent tree has to produce, and its agreement with the
    recursive reference. */
module BmtValues {
  import opened BmtReference
  import opened BmtMachine

  /** The index of leaf x's ancestor k rows up. */
  function Anc(x: nat, k: nat): nat { if k == 0 then x else Anc(x, k - 1) / 2 }

  lemma {:induction false} AncMonotone(x: nat, y: nat, k: nat)
    requires x <= y
    ensures Anc(x, k) <= Anc(y, k)
  {
    if k > 0 { AncMonotone(x, y, k - 1); }
  }

  lemma {:induction false} AncInTree(x: nat, k: nat, depth: nat)
    requires x < Pow2(depth) && k <= depth
    ensures Anc(x, k) < Pow2(depth - k)
  {
    if k > 0 { AncInTree(x, k - 1, depth); }
  }

  /** The first height at which x's ancestor is the leftmost node. */
  function RootFrom(x: nat, h: nat): (r: nat)
    ensures h <= r && Anc(x, r) == 0
    ensures forall g :: h <= g < r ==> Anc(x, g) > 0
    decreases Anc(x, h)
  {
    if Anc(x, h) == 0 then h else RootFrom(x, h + 1)
  }

  function Root(job: Job): nat
    requires job.Valid()
  {
    RootFrom(job.Last(), 0)
  }

  lemma RootInTree(job: Job)
    requires job.Valid()
    ensures Root(job) <= job.depth
    ensures Root(job) == 0 <==> job.Last() == 0
    ensures Root(job) > 0 ==> Anc(job.Last(), Root(job) - 1) == 1
  {
    AncInTree(job.Last(), job.depth, job.depth);
    assert Anc(job.Last(), job.depth) == 0;
    assert Anc(job.Last(), 0) == job.Last();
  }

  /** The height at which `finalise` starts. */
  function FirstHeight(job: Job): nat
    requires job.Valid()
  {
    if |job.pieces[job.Last()]| > job.base.size && job.Last() > 0 then 1 else 0
  }

  /** Value leaving a node all of whose leaves lie before the last piece. */
  function Full(job: Job, h: nat, x: nat): Bytes
    requires job.Valid() && x < Anc(job.Last(), h)
    decreases h
  {
    if h == 0 then job.base.sum(job.pieces[x])
    else job.base.sum(Full(job, h - 1, 2 * x) + Full(job, h - 1, 2 * x + 1))
  }

  /** Value leaving the ancestor of the last leaf at height h. */
  function PathOut(job: Job, h: nat): Bytes
    requires job.Valid()
  {
    if h == 0 then
      var s := job.pieces[job.Last()];
      if job.Last() == 0 || |s| > job.base.size then job.base.sum(s) else s
    else
      var a := Anc(job.Last(), h - 1);
      if a % 2 == 1 then job.base.sum(Full(job, h - 1, a - 1) + PathOut(job, h - 1))
      else PathOut(job, h - 1)
  }

  /** Nodes the session touches: at or below the root's row, not right of the last leaf. */
  predicate InScope(job: Job, p: Pos)
    requires job.Valid()
  {
    p.h <= Root(job) && p.x <= Anc(job.Last(), p.h)
  }

  function Out(job: Job, p: Pos): Bytes
    requires job.Valid() && InScope(job, p)
  {
    if p.x < Anc(job.Last(), p.h) then Full(job, p.h, p.x) else PathOut(job, p.h)
  }

  /** Both children of p receive data. */
  predicate Balanced(job: Job, p: Pos)
    requires job.Valid()
  {
    p.h > 0 && (p.x < Anc(job.Last(), p.h) || Anc(job.Last(), p.h - 1) % 2 == 1)
  }

  function Lc(p: Pos): Pos requires p.h > 0 { Pos(p.h - 1, 2 * p.x) }
  function Rc(p: Pos): Pos requires p.h > 0 { Pos(p.h - 1, 2 * p.x + 1) }

  lemma ChildrenInScope(job: Job, p: Pos)
    requires job.Valid() && InScope(job, p) && p.h > 0
    ensures InScope(job, Lc(p))
    ensures Balanced(job, p) ==> InScope(job, Rc(p)) && Out(job, p) == job.base.sum(Out(job, Lc(p)) + Out(job, Rc(p)))
    ensures !Balanced(job, p) ==>
      && p.x == Anc(job.Last(), p.h)
      && Lc(p).x == Anc(job.Last(), p.h - 1)
      && Out(job, p) == Out(job, Lc(p))
  {
  }

  // ---- agreement with the reference ----

  function Cat(pieces: seq<Bytes>): Bytes {
    if pieces == [] then [] else pieces[0] + Cat(pieces[1..])
  }

  lemma {:induction false} CatAppend(a: seq<Bytes>, b: seq<Bytes>)
    ensures Cat(a + b) == Cat(a) + Cat(b)
  {
    if a == [] {
      assert a + b == b;
    } else {
      assert (a + b)[1..] == a[1..] + b;
      CatAppend(a[1..], b);
    }
  }

  /** First leaf below node x of height h. */
  function Lo(h: nat, x: nat): nat { if h == 0 then x else Lo(h - 1, 2 * x) }

  lemma {:induction false} LoMonotone(h: nat, x: nat, y: nat)
    requires x <= y
    ensures Lo(h, x) <= Lo(h, y)
    ensures x < y ==> Lo(h, x) < Lo(h, y)
    ensures Lo(h, 0) == 0
  {
    if h > 0 { LoMonotone(h - 1, 2 * x, 2 * y); }
  }

  lemma {:induction false} LoBound(h: nat, x: nat, y: nat)
    requires x <= Anc(y, h)
    ensures Lo(h, x) <= y
  {
    if h > 0 { LoBound(h - 1, 2 * x, y); }
  }

  /** The data below a node all of whose leaves are full. */
  ghost function FullData(job: Job, h: nat, x: nat): Bytes
    requires job.Valid() && x < Anc(job.Last(), h)
  {
    LoBound(h, x + 1, job.Last());
    LoMonotone(h, x, x + 1);
    Cat(job.pieces[Lo(h, x)..Lo(h, x + 1)])
  }

  lemma {:induction false} FullDataSplits(job: Job, h: nat, x: nat)
    requires job.Valid() && h > 0 && x < Anc(job.Last(), h)
    ensures FullData(job, h, x) == FullData(job, h - 1, 2 * x) + FullData(job, h - 1, 2 * x + 1)
  {
    LoBound(h, x + 1, job.Last());
    LoMonotone(h - 1, 2 * x, 2 * x + 1);
    LoMonotone(h - 1, 2 * x + 1, 2 * x + 2);
    var lo, mid, hi := Lo(h - 1, 2 * x), Lo(h - 1, 2 * x + 1), Lo(h - 1, 2 * x + 2);
    assert job.pieces[lo..hi] == job.pieces[lo..mid] + job.pieces[mid..hi];
    CatAppend(job.pieces[lo..mid], job.pieces[mid..hi]);
  }

  lemma {:induction false} FullIsReference(job: Job, h: nat, x: nat)
    requires job.Valid() && x < Anc(job.Last(), h)
    ensures |FullData(job, h, x)| == Span(job.base.size, h)
    ensures Full(job, h, x) == TreeHash(job.base, FullData(job, h, x))
  {
    if h == 0 {
      assert job.pieces[x..x + 1] == [job.pieces[x]];
      assert Cat([job.pieces[x]]) == job.pieces[x];
    } else {
      FullIsReference(job, h - 1, 2 * x);
      FullIsReference(job, h - 1, 2 * x + 1);
      FullJoins(job, h, x);
    }
  }

  lemma FullJoins(job: Job, h: nat, x: nat)
    requires job.Valid() && h > 0 && x < Anc(job.Last(), h)
    requires |FullData(job, h - 1, 2 * x)| == |FullData(job, h - 1, 2 * x + 1)| == Span(job.base.size, h - 1)
    ensures |FullData(job, h, x)| == Span(job.base.size, h)
    ensures TreeHash(job.base, FullData(job, h, x)) ==
            job.base.sum(TreeHash(job.base, FullData(job, h - 1, 2 * x)) + TreeHash(job.base,
                                                                                    FullData(job, h - 1, 2 * x + 1)))
  {
    FullDataSplits(job, h, x);
    SpanIsSpan(job.base.size, h - 1);
    TreeHashJoins(job.base, FullData(job, h - 1, 2 * x), FullData(job, h - 1, 2 * x + 1), h - 1);
  }

  /** The data below the last leaf's ancestor at height h. */
  ghost function PathData(job: Job, h: nat): Bytes
    requires job.Valid()
  {
    LoBound(h, Anc(job.Last(), h), job.Last());
    Cat(job.pieces[Lo(h, Anc(job.Last(), h))..])
  }

  lemma PathDataSplits(job: Job, h: nat)
    requires job.Valid() && h > 0
    ensures var a := Anc(job.Last(), h - 1);
            PathData(job, h) ==
                (if a % 2 == 1 then FullData(job, h - 1, a - 1) + PathData(job, h - 1) else PathData(job, h - 1))
  {
    var a := Anc(job.Last(), h - 1);
    if a % 2 == 1 {
      LoBound(h - 1, a, job.Last());
      LoMonotone(h - 1, a - 1, a);
      CatFrom(job.pieces, Lo(h - 1, a - 1), Lo(h - 1, a));
    }
  }

  lemma CatFrom(pieces: seq<Bytes>, lo: nat, mid: nat)
    requires lo <= mid <= |pieces|
    ensures Cat(pieces[lo..]) == Cat(pieces[lo..mid]) + Cat(pieces[mid..])
  {
    assert pieces[lo..] == pieces[lo..mid] + pieces[mid..];
    CatAppend(pieces[lo..mid], pieces[mid..]);
  }

  ghost predicate PathAgrees(job: Job, h: nat)
    requires job.Valid()
  {
    && 0 < |PathData(job, h)| <= Span(job.base.size, h)
    && PathOut(job, h) == RawOrHash(job.base, PathData(job, h))
  }

  lemma {:induction false} PathIsReference(job: Job, h: nat)
    requires job.Valid() && job.Last() > 0
    ensures PathAgrees(job, h)
  {
    if h == 0 {
      PathStarts(job);
    } else {
      PathIsReference(job, h - 1);
      var a := Anc(job.Last(), h - 1);
      if a % 2 == 1 { PathJoins(job, h, a); } else { PathDataSplits(job, h); }
    }
  }

  lemma PathJoins(job: Job, h: nat, a: nat)
    requires job.Valid() && h > 0 && a == Anc(job.Last(), h - 1) && a % 2 == 1
    requires PathAgrees(job, h - 1)
    ensures PathAgrees(job, h)
  {
    var left, right := FullData(job, h - 1, a - 1), PathData(job, h - 1);
    PathDataSplits(job, h);
    FullIsReference(job, h - 1, a - 1);
    SpanIsSpan(job.base.size, h - 1);
    TreeHashJoins(job.base, left, right, h - 1);
    assert |left + right| > job.base.size;
  }

  lemma PathStarts(job: Job)
    requires job.Valid() && job.Last() > 0
    ensures PathData(job, 0) == job.pieces[job.Last()]
    ensures PathOut(job, 0) == RawOrHash(job.base, PathData(job, 0))
  {
    var last := job.Last();
    assert job.pieces[last..] == [job.pieces[last]];
    assert Cat([job.pieces[last]]) == job.pieces[last];
  }

  /** What leaves the root node is the reference hash of the chunk. */
  lemma RootValueIsReference(job: Job)
    requires job.Valid()
    ensures Out(job, Pos(Root(job), 0)) == TreeHash(job.base, Cat(job.pieces))
  {
    var r := Root(job);
    RootInTree(job);
    if job.Last() == 0 {
      assert job.pieces == [job.pieces[0]];
      assert Cat(job.pieces) == job.pieces[0];
    } else {
      PathIsReference(job, r);
      LoMonotone(r, 0, 0);
      assert job.pieces[0..] == job.pieces;
      assert |Cat(job.pieces)| >= |job.pieces[0]|;
    }
  }
}
