/** The hasher object of chain/bmt/bmt.go: cutting writes into pieces, building trees, and
    the theorems over whole chunks and over many chunks on one tree. */
module BmtHasher {
  import opened BmtReference
  import opened BmtMachine
  import opened BmtValues
  import opened BmtCorrect

  // ---- cutting data into double segments ----

  /** The pieces writeSegment gets: double segments, the last one possibly short or empty. */
  function Pieces(size: nat, w: Bytes): (ps: seq<Bytes>)
    requires size > 0
    ensures ps != [] && (|ps| == 1 <==> |w| <= 2 * size)
    decreases |w|
  {
    if |w| <= 2 * size then [w] else [w[..2 * size]] + Pieces(size, w[2 * size..])
  }

  lemma {:induction false} PiecesShape(size: nat, w: Bytes)
    requires size > 0
    ensures var ps := Pieces(size, w);
            && Cat(ps) == w
            && (forall i :: 0 <= i < |ps| - 1 ==> |ps[i]| == 2 * size)
            && |ps[|ps| - 1]| <= 2 * size && (|ps| > 1 ==> ps[|ps| - 1] != [])
            && Times(2 * size, |ps| - 1) + |ps[|ps| - 1]| == |w|
    decreases |w|
  {
    if |w| <= 2 * size {
      assert Cat([w]) == w;
    } else {
      var rest := Pieces(size, w[2 * size..]);
      PiecesShape(size, w[2 * size..]);
      var ps := Pieces(size, w);
      assert ps[1..] == rest;
      assert ps[|ps| - 1] == rest[|rest| - 1];
      assert forall i :: 1 <= i < |ps| ==> ps[i] == rest[i - 1];
    }
  }

  /** More data first fills the open piece. */
  lemma {:induction false} PiecesFill(size: nat, w: Bytes, t: Bytes)
    requires size > 0
    requires var ps := Pieces(size, w); |ps[|ps| - 1]| + |t| <= 2 * size
    ensures var ps := Pieces(size, w);
            Pieces(size, w + t) == ps[..|ps| - 1] + [ps[|ps| - 1] + t]
    decreases |w|
  {
    if |w| > 2 * size {
      PiecesFill(size, w[2 * size..], t);
      assert (w + t)[2 * size..] == w[2 * size..] + t;
      assert (w + t)[..2 * size] == w[..2 * size];
    }
  }

  /** Once the open piece is full, the next data opens a new one. */
  lemma {:induction false} PiecesNext(size: nat, w: Bytes, t: Bytes)
    requires size > 0 && 0 < |t| <= 2 * size
    requires var ps := Pieces(size, w); |ps[|ps| - 1]| == 2 * size
    ensures Pieces(size, w + t) == Pieces(size, w) + [t]
    decreases |w|
  {
    assert (w + t)[2 * size..] == w[2 * size..] + t;
    assert (w + t)[..2 * size] == w[..2 * size];
    if |w| > 2 * size {
      PiecesNext(size, w[2 * size..], t);
    } else {
      assert w[2 * size..] + t == t;
      assert w[..2 * size] == w;
    }
  }

  /** n times size, by repeated addition. */
  function Times(size: nat, n: nat): nat { if n == 0 then 0 else size + Times(size, n - 1) }

  lemma {:induction false} TimesIsProduct(size: nat, n: nat)
    ensures Times(size, n) == size * n == n * size
  {
    if n > 0 { TimesIsProduct(size, n - 1); assert size * n == size * (n - 1) + size; }
  }

  /** Data within the capacity needs no more pieces than the tree has leaves. */
  lemma PieceCount(size: nat, count: nat, w: Bytes)
    requires size > 0 && count > 0 && |w| <= size * count
    ensures |Pieces(size, w)| <= (count + 1) / 2
  {
    PiecesShape(size, w);
    var k := |Pieces(size, w)| - 1;
    TimesIsProduct(2 * size, k);
    if k > 0 && 2 * k >= count {
      assert size * (2 * k) == 2 * size * k;
      MulMonotone(size, count, 2 * k);
    }
  }

  /** Hasher: the write cursor and the open segment; `launched` logs the pieces writeSegment
      was given, in order, the i-th for leaf i. */
  class Hasher {
    const size: nat
    const count: nat
    var cur: nat
    var segment: Bytes
    var launched: seq<Bytes>

    /** The object holds exactly the data w. */
    ghost predicate Holds(w: Bytes)
      reads this
      requires size > 0
    {
      launched + [segment] == Pieces(size, w) && cur == |launched|
    }

    constructor (size: nat, count: nat)
      requires size > 0 && count > 0
      ensures this.size == size && this.count == count && Holds([])
    {
      this.size := size;
      this.count := count;
      cur := 0;
      segment := [];
      launched := [];
    }

    /** Bytes from the open piece's start to the capacity. */
    method RoomFromCursor(ghost w: Bytes) returns (need: int)
      requires size > 0 && count > 0 && Holds(w) && cur < Slots(count)
      ensures need == Times(size, count) - |w| + |segment|
      ensures cur == Slots(count) - 1 ==> need == if count % 2 == 0 then 2 * size else size
      ensures cur < Slots(count) - 1 ==> need > 2 * size
    {
      need := count * size - cur * 2 * size;
      RoomLeft(size, count, cur, launched, segment, w);
    }

    /** Write. A write that passes the capacity is cut at Limit; one after that crashes, on a
        slice with a negative bound. */
    method Write(b: Bytes, ghost w: Bytes) returns (n: nat, crash: bool)
      requires size > 0 && count > 0 && Holds(w) && cur < Slots(count)
      modifies this`cur, this`segment, this`launched
      ensures crash <==> b != [] && |w| > Times(size, count)
      ensures crash ==> Holds(w) && cur == old(cur)
      ensures !crash ==> n == |b| && cur < Slots(count)
      ensures !crash ==> Holds(if b == [] then w else Truncated(Limit(size, count, old(cur), |old(segment)|), w + b))
    {
      n, crash := |b|, false;
      PiecesShape(size, w);
      if |b| == 0 {
        return;
      }
      var need := RoomFromCursor(w);
      var step := size;
      if need > size { step := step * 2; }
      if |b| < need { need := |b|; }
      if step < |segment| {
        return 0, true;
      }
      ghost var taken;
      ghost var c := cur;
      ghost var open := segment;
      launched, segment, cur, taken := Cut(size, count, launched, segment, cur, b, need, step, w);
      CutAtLimit(size, count, c, open, w, b, need, step, taken);
    }
  }

  function Slots(count: nat): nat { (count + 1) / 2 }

  /** Where a write is cut: at the capacity if the last piece is open, and otherwise as much further
      as the open piece is long, but at the end of the last double segment. */
  function Limit(size: nat, count: nat, cur: nat, open: nat): nat {
    var cap, end := Times(size, count), Times(2 * size, Slots(count));
    if cur + 1 == Slots(count) then cap else if cap + open < end then cap + open else end
  }

  /** The capacity in double segments. */
  lemma CapacityIs(size: nat, count: nat)
    requires count > 0
    ensures Times(size, count) == Times(2 * size, Slots(count) - 1) + if count % 2 == 0 then 2 * size else size
    ensures Times(2 * size, Slots(count)) == Times(2 * size, Slots(count) - 1) + 2 * size
  {
    var k := Slots(count) - 1;
    TimesIsProduct(size, count);
    TimesIsProduct(2 * size, k);
    assert count == 2 * k + (if count % 2 == 0 then 2 else 1);
    Spread(size, k, if count % 2 == 0 then 2 else 1);
  }

  lemma Spread(size: nat, k: nat, r: nat)
    ensures size * (2 * k + r) == 2 * size * k + size * r
  {
  }

  lemma {:induction false} TimesGrows(size: nat, i: nat, k: nat)
    requires i <= k
    ensures Times(size, i) <= Times(size, k) && (i < k ==> Times(size, i) + size <= Times(size, k))
  {
    if i < k { TimesGrows(size, i, k - 1); }
  }

  lemma RoomLeft(size: nat, count: nat, cur: nat, launched: seq<Bytes>, segment: Bytes, w: Bytes)
    requires size > 0 && count > 0 && launched + [segment] == Pieces(size, w) && cur == |launched| < Slots(count)
    ensures count * size - cur * 2 * size == Times(size, count) - |w| + |segment| ==
            Times(size, count) - Times(2 * size, cur)
    ensures cur == Slots(count) - 1 ==>
            Times(size, count) - |w| + |segment| == if count % 2 == 0 then 2 * size else size
    ensures cur < Slots(count) - 1 ==> Times(size, count) - |w| + |segment| > 2 * size
    ensures |segment| <= 2 * size && |w| == Times(2 * size, cur) + |segment|
  {
    PiecesShape(size, w);
    assert Pieces(size, w)[|Pieces(size, w)| - 1] == segment;
    AsProducts(size, count, cur);
    CapacityIs(size, count);
    TimesGrows(2 * size, cur, Slots(count) - 1);
  }

  lemma AsProducts(size: nat, count: nat, cur: nat)
    ensures count * size - cur * 2 * size == Times(size, count) - Times(2 * size, cur)
  {
    TimesIsProduct(size, count);
    TimesIsProduct(2 * size, cur);
    Regroup(size, cur);
  }

  lemma Regroup(size: nat, cur: nat)
    ensures cur * 2 * size == cur * (2 * size)
  {
  }

  lemma CutAtLimit(size: nat, count: nat, cur: nat, open: Bytes, w: Bytes, b: Bytes, need: nat, step: nat, taken: nat)
    requires size > 0 && count > 0 && cur < Slots(count) && |open| <= step && b != []
    requires |w| == Times(2 * size, cur) + |open|
    requires var room := Times(size, count) - Times(2 * size, cur);
             need == (if |b| < room then |b| else room) && step == (if room > size then 2 * size else size)
    requires taken ==
             (if cur + 1 == Slots(count) then Least(need, step - |open|)
                 else Least(need, Times(2 * size, Slots(count)) - |w|)) <= |b|
    ensures w + b[..taken] == Truncated(Limit(size, count, cur, |open|), w + b)
  {
    CapacityIs(size, count);
    TimesGrows(2 * size, cur, Slots(count) - 1);
  }

  function Least(a: int, b: int): int { if a < b then a else b }

  /** The loop of Write: fill the open piece, then push every piece that more data follows. */
  method Cut(size: nat, count: nat, launched: seq<Bytes>, segment: Bytes, cur: nat, b: Bytes, total: nat, width: nat,
             ghost w: Bytes)
    returns (log: seq<Bytes>, s: Bytes, i: nat, ghost taken: nat)
    requires size > 0 && count > 0 && total <= |b| && cur < Slots(count)
    requires launched + [segment] == Pieces(size, w) && cur == |launched| && |w| == Times(2 * size, cur) + |segment|
    requires |segment| <= width <= 2 * size && (width == 2 * size || cur + 1 == Slots(count))
    ensures taken <= total && log + [s] == Pieces(size, w + b[..taken]) && i == |log| < Slots(count)
    ensures taken == if cur + 1 == Slots(count) then Least(total, width - |segment|)
            else Least(total, Times(2 * size, Slots(count)) - |w|)
  {
    var slots := (count + 1) / 2;
    var need: int, step := total, width;
    s, i, log := segment, cur, launched;
    var rest := step - |s|;
    if need < rest { rest := need; }
    s := s + b[..rest];
    need := need - rest;
    FillPiece(size, w, log, segment, b[..rest]);
    taken := rest;
    while need > 0 && i < slots - 1
      invariant cur <= i < slots && 0 <= rest <= total && i == |log| && taken == rest
      invariant log + [s] == Pieces(size, w + b[..rest])
      invariant cur + 1 == slots ==> rest == Least(total, width - |segment|)
      invariant cur + 1 < slots && need > 0 ==>
                need == total - rest && step == 2 * size && |s| == 2 * size && |w| + rest == Times(2 * size, i + 1)
      invariant cur + 1 < slots && need <= 0 ==> rest == total && |w| + rest <= Times(2 * size, i + 1)
      decreases need
    {
      log := log + [s];
      need := need - step;
      if need < 0 { step := step + need; }
      s := b[rest..rest + step];
      NextPiece(size, w, b, rest, step);
      rest := rest + step;
      i := i + 1;
      taken := rest;
    }
    TimesGrows(2 * size, i + 1, slots);
  }

  lemma FillPiece(size: nat, w: Bytes, launched: seq<Bytes>, segment: Bytes, t: Bytes)
    requires size > 0 && launched + [segment] == Pieces(size, w) && |segment| + |t| <= 2 * size
    ensures launched + [segment + t] == Pieces(size, w + t)
  {
    var ps := Pieces(size, w);
    assert ps[|ps| - 1] == segment && ps[..|ps| - 1] == launched;
    PiecesFill(size, w, t);
  }

  lemma NextPiece(size: nat, w: Bytes, b: Bytes, rest: nat, step: nat)
    requires size > 0 && 0 < step <= 2 * size && rest + step <= |b|
    requires var ps := Pieces(size, w + b[..rest]); |ps[|ps| - 1]| == 2 * size
    ensures Pieces(size, w + b[..rest + step]) == Pieces(size, w + b[..rest]) + [b[rest..rest + step]]
  {
    PiecesNext(size, w + b[..rest], b[rest..rest + step]);
    assert w + b[..rest] + b[rest..rest + step] == w + b[..rest + step];
  }

  /** Whatever is written, the held data is cut at the capacity exactly if the count of segments is
      even, no piece was open, the last one was, or nothing is beyond the capacity. */
  lemma CutAtCapacityIff(size: nat, count: nat, launched: seq<Bytes>, segment: Bytes, w: Bytes, b: Bytes)
    requires size > 0 && count > 0 && launched + [segment] == Pieces(size, w) && |launched| < Slots(count)
    requires |w| <= Times(size, count)
    ensures Truncated(Limit(size, count, |launched|, |segment|), w + b) == Truncated(Times(size, count), w + b) <==>
            count % 2 == 0 || segment == [] || |launched| + 1 == Slots(count) || |w + b| <= Times(size, count)
  {
    RoomLeft(size, count, |launched|, launched, segment, w);
    CapacityIs(size, count);
    var cap, limit := Times(size, count), Limit(size, count, |launched|, |segment|);
    assert |Truncated(cap, w + b)| == if |w + b| <= cap then |w + b| else cap;
    assert |Truncated(limit, w + b)| == if |w + b| <= limit then |w + b| else limit;
  }

  /** Three segments of one byte: after one byte, a write of three is taken whole, one byte too many. */
  lemma OddCountOverruns(x: bv8)
    ensures [] + [[x]] == Pieces(1, [x]) && Truncated(Limit(1, 3, 0, 1), [x] + [x, x, x]) == [x, x, x, x]
    ensures Times(1, 3) == 3
  {
  }

  // ---- trees ----

  lemma {:induction false} AncShift(x: nat, k: nat)
    ensures Anc(x, k + 1) == Anc(x / 2, k)
  {
    if k > 0 { AncShift(x, k - 1); }
  }

  lemma {:induction false} AncVanishes(x: nat, d: nat)
    ensures Anc(x, d) == 0 <==> x < Pow2(d)
  {
    if d > 0 {
      AncShift(x, d - 1);
      AncVanishes(x / 2, d - 1);
    }
  }

  /** depth: rows below the top for a capacity of n segments. */
  method Depth(n: nat) returns (d: nat)
    requires n > 0
    ensures (n + 1) / 2 <= Pow2(d)
    ensures d > 0 ==> Pow2(d - 1) < (n + 1) / 2
  {
    d := 0;
    var l := (n - 1) / 2;
    while l > 0
      invariant l == Anc((n - 1) / 2, d)
      invariant d > 0 ==> Anc((n - 1) / 2, d - 1) > 0
    {
      d := d + 1;
      l := l / 2;
    }
    AncVanishes((n - 1) / 2, d);
    if d > 0 { AncVanishes((n - 1) / 2, d - 1); }
  }

  predicate Fresh(p: Pos, depth: nat, n: Node) {
    n == Node([], [], 0, false, p.h == depth)
  }

  /** NewTree: a top marked root, then row after row of twice as many nodes. */
  method NewTree(segments: nat) returns (depth: nat, nodes: map<Pos, Node>)
    requires segments > 0
    ensures (segments + 1) / 2 <= Pow2(depth)
    ensures forall p :: p in nodes <==> InTree(depth, p)
    ensures forall p :: p in nodes ==> Fresh(p, depth, nodes[p])
    ensures Clean(depth, nodes)
  {
    depth := Depth(segments);
    nodes := map[Pos(depth, 0) := Node([], [], 0, false, true)];
    var level, row := 1, 2;
    while level <= depth
      invariant 1 <= level <= depth + 1 && row == Pow2(level)
      invariant forall p :: p in nodes <==> InTree(depth, p) && p.h > depth - level
      invariant forall p :: p in nodes ==> Fresh(p, depth, nodes[p])
    {
      var i := 0;
      while i < row
        invariant 0 <= i <= row
        invariant forall p :: p in nodes <==>
                  InTree(depth, p) && (p.h > depth - level || (p.h == depth - level && p.x < i))
        invariant forall p :: p in nodes ==> Fresh(p, depth, nodes[p])
      {
        nodes := nodes[Pos(depth - level, i) := Node([], [], 0, false, false)];
        i := i + 1;
      }
      level := level + 1;
      row := row * 2;
    }
    forall p | InTree(depth, p)
      ensures p in nodes && CleanNode(depth, p, nodes[p])
    {
      assert p in nodes;
      assert Fresh(p, depth, nodes[p]);
    }
  }

  // ---- whole chunks ----

  /** The session that hashes chunk d with a hasher for `count` segments. */
  function JobOf(b: Base, count: nat, depth: nat, d: Bytes): Job
    requires b.size > 0
  {
    Job(b, depth, Pieces(b.size, Truncated(b.size * count, d)))
  }

  lemma JobOfValid(b: Base, count: nat, depth: nat, d: Bytes)
    requires b.size > 0 && count > 0 && (count + 1) / 2 <= Pow2(depth)
    ensures JobOf(b, count, depth, d).Valid()
    ensures Cat(JobOf(b, count, depth, d).pieces) == Truncated(b.size * count, d)
  {
    var w := Truncated(b.size * count, d);
    PiecesShape(b.size, w);
    PieceCount(b.size, count, w);
  }

  /** For every segment count, every chunk (cut at the capacity) and every interleaving: what
      Sum receives, if it has received anything, is what RefHasher.Hash returns; no schedule
      runs forever or gets stuck before Sum has received it; and then the tree is handed back. */
  lemma ConcurrentEqualsReference(b: Base, count: nat, depth: nat, nodes: map<Pos, Node>, d: Bytes, acts: seq<Action>)
    requires b.size > 0 && count > 0 && (count + 1) / 2 <= Pow2(depth) && Clean(depth, nodes)
    requires JobOf(b, count, depth, d).Valid()
    requires IsSchedule(JobOf(b, count, depth, d), Start(JobOf(b, count, depth, d), nodes), acts)
    ensures var job := JobOf(b, count, depth, d);
            var out := Exec(job, Start(job, nodes), acts);
            && out.Ok?
            && (out.state.result.Some? ==>
                  && out.state.result.value == TreeHash(b, Truncated(b.size * count, d))
                  && (exists x :: out.state.result.value == b.sum(x))
                  && (|d| <= b.size * count && |d| <= 2 * b.size ==> out.state.result.value == b.sum(d)))
            && (out.state.main.Finished? || exists a :: Enabled(out.state, a))
            && (out.state.main.Finished? ==> out.state.result.Some? && HandedBack(job, nodes, out.state.nodes))
  {
    var cut := Truncated(b.size * count, d);
    JobOfValid(b, count, depth, d);
    HashesOneChunk(JobOf(b, count, depth, d), nodes, acts);
    TreeHashIsSum(b, cut);
    if |cut| <= 2 * b.size { TreeHashShort(b, cut); }
  }

  // ---- many chunks on one tree ----

  /** One chunk hashed to the end on a tree, leaving the tree as nodes'. */
  ghost predicate Session(job: Job, nodes: map<Pos, Node>, acts: seq<Action>, nodes': map<Pos, Node>)
    requires job.Valid()
  {
    && IsSchedule(job, Start(job, nodes), acts)
    && var out := Exec(job, Start(job, nodes), acts);
       out.Ok? ==> out.state.main.Finished? && nodes' == out.state.nodes
  }

  /** Flags clean, and toggle counts even and at most twice the number of chunks. */
  ghost predicate Used(depth: nat, nodes: map<Pos, Node>, times: nat) {
    forall p :: InTree(depth, p) ==>
      p in nodes && CleanNode(depth, p, nodes[p]) && nodes[p].state <= 2 * times
  }

  /** The first 2^30 chunks hashed on one tree, each in any interleaving, all come out right. */
  lemma {:induction false} ManyChunks(jobs: seq<Job>, trees: seq<map<Pos, Node>>, runs: seq<seq<Action>>, depth: nat,
                                      k: nat)
    requires |jobs| == |runs| && |trees| == |jobs| + 1 && |jobs| <= 0x4000_0000
    requires Used(depth, trees[0], 0)
    requires forall i :: 0 <= i < |jobs| ==> jobs[i].Valid() && jobs[i].depth == depth
    requires forall i :: 0 <= i < |jobs| ==> Session(jobs[i], trees[i], runs[i], trees[i + 1])
    requires k < |jobs|
    ensures Used(depth, trees[k], k)
    ensures jobs[k].Valid() && Session(jobs[k], trees[k], runs[k], trees[k + 1])
    ensures var out := Exec(jobs[k], Start(jobs[k], trees[k]), runs[k]);
            out.Ok? && out.state.result == Some(TreeHash(jobs[k].base, Cat(jobs[k].pieces)))
  {
    if k > 0 {
      ManyChunks(jobs, trees, runs, depth, k - 1);
      OneUse(jobs[k - 1], trees[k - 1], runs[k - 1], trees[k], k - 1);
    }
    assert Session(jobs[k], trees[k], runs[k], trees[k + 1]);
    assert Clean(depth, trees[k]);
    HashesOneChunk(jobs[k], trees[k], runs[k]);
  }

  lemma OneUse(job: Job, nodes: map<Pos, Node>, acts: seq<Action>, nodes': map<Pos, Node>, times: nat)
    requires job.Valid() && Session(job, nodes, acts, nodes') && Used(job.depth, nodes, times) && times < 0x3fff_ffff
    ensures Used(job.depth, nodes', times + 1)
  {
    assert Clean(job.depth, nodes);
    HashesOneChunk(job, nodes, acts);
    assert HandedBack(job, nodes, nodes');
    forall p | InTree(job.depth, p)
      ensures p in nodes' && CleanNode(job.depth, p, nodes'[p]) && nodes'[p].state <= 2 * (times + 1)
    {
      assert CleanNode(job.depth, p, nodes[p]);
    }
  }

  // ---- where the toggle stops working ----

  predicate IsInt32(n: int) { -0x8000_0000 <= n <= 0x7fff_ffff }

  /** On an even counter the first arrival waits and the second goes on exactly while the
      counter has not wrapped below zero. */
  lemma TogglePairWorks(n: int)
    requires IsInt32(n) && n % 2 == 0
    ensures (OddRemainder(AddInt32(n)) && !OddRemainder(AddInt32(AddInt32(n)))) <==> n >= 0
    ensures IsInt32(AddInt32(AddInt32(n))) && AddInt32(AddInt32(n)) % 2 == 0
  {
  }

  /** Each chunk whose session root is the node of height r toggles it twice, so that the 2^30-th
      brings its counter to -2^31. */
  lemma {:induction false} RootCounter(jobs: seq<Job>, trees: seq<map<Pos, Node>>, runs: seq<seq<Action>>, depth: nat,
                                       r: nat, k: nat)
    requires |jobs| == |runs| && |trees| == |jobs| + 1 && |jobs| <= 0x4000_0000
    requires Used(depth, trees[0], 0) && 0 < r <= depth
    requires forall i :: 0 <= i < |jobs| ==> jobs[i].Valid() && jobs[i].depth == depth && Root(jobs[i]) == r
    requires forall i :: 0 <= i < |jobs| ==> Session(jobs[i], trees[i], runs[i], trees[i + 1])
    requires k <= |jobs|
    ensures Pos(r, 0) in trees[k] && trees[k][Pos(r, 0)].state == if k < 0x4000_0000 then 2 * k else -0x8000_0000
    ensures k > 0 ==> HandedBack(jobs[k - 1], trees[k - 1], trees[k])
  {
    RootIsInTree(depth, r);
    if k == 0 {
      assert CleanNode(depth, Pos(r, 0), trees[0][Pos(r, 0)]);
    } else {
      RootCounter(jobs, trees, runs, depth, r, k - 1);
      ManyChunks(jobs, trees, runs, depth, k - 1);
      assert Clean(depth, trees[k - 1]);
      HashesOneChunk(jobs[k - 1], trees[k - 1], runs[k - 1]);
      RootTwice(jobs[k - 1], trees[k - 1], trees[k - 1 + 1]);
    }
  }

  lemma RootIsInTree(depth: nat, r: nat)
    requires r <= depth
    ensures InTree(depth, Pos(r, 0))
  {
    AncOfZero(depth - r);
    AncVanishes(0, depth - r);
  }

  lemma {:induction false} AncOfZero(k: nat)
    ensures Anc(0, k) == 0
  {
    if k > 0 { AncOfZero(k - 1); }
  }

  lemma RootTwice(job: Job, nodes: map<Pos, Node>, nodes': map<Pos, Node>)
    requires job.Valid() && HandedBack(job, nodes, nodes') && Root(job) > 0
    ensures var p := Pos(Root(job), 0);
            p in nodes && p in nodes' && nodes'[p].state == AddInt32(AddInt32(nodes[p].state))
  {
    RootInTree(job);
    RootIsInTree(job.depth, Root(job));
    assert Balanced(job, Pos(Root(job), 0));
  }

  /** Some schedule lets the first goroutine send a hash over an empty right half, with the second
      goroutine not even started. */
  ghost predicate SendsEarly(job: Job, st: State)
    requires job.Valid() && |job.pieces| == 2 && |st.tasks| == 2
  {
    exists acts :: IsSchedule(job, st, acts) && IsEarly(job, Exec(job, st, acts))
  }

  predicate IsEarly(job: Job, out: Outcome)
    requires |job.pieces| == 2
  {
    && out.Ok? && |out.state.tasks| == 2 && out.state.tasks[1].Idle?
    && out.state.tasks[0] == Sending(job.base.sum(job.base.sum(job.pieces[0]) + []))
  }

  lemma EarlyBefore(job: Job, st: State, a: Action)
    requires job.Valid() && |job.pieces| == 2 && |st.tasks| == 2 && Enabled(st, a) && Apply(job, st, a).Ok?
    requires SendsEarly(job, Apply(job, st, a).state)
    ensures SendsEarly(job, st)
  {
    var st' := Apply(job, st, a).state;
    var acts :| IsSchedule(job, st', acts) && IsEarly(job, Exec(job, st', acts));
    Prepend(job, st, a, acts);
  }

  /** From where finalise has marked the session root. */
  lemma EarlyOnceMarked(job: Job, st: State, d: nat)
    requires job.Valid() && |job.pieces| == 2 && |st.tasks| == 2 && st.tasks == [Hashing(d), Idle]
    requires Pos(0, 0) in st.nodes && !st.nodes[Pos(0, 0)].root && Pos(1, 0) in st.nodes
    requires var n := st.nodes[Pos(1, 0)];
             n.root && !n.unbalanced && n.right == [] && IsInt32(n.state) && n.state < 0 && n.state % 2 == 0
    ensures SendsEarly(job, st)
  {
    var t := TaskStep(0);
    var s1 := Apply(job, st, t).state;
    var s2 := Apply(job, s1, t).state;
    var s3 := Apply(job, s2, t).state;
    var s4 := Apply(job, s3, t).state;
    var s5 := Apply(job, s4, t).state;
    var s6 := Apply(job, s5, t).state;
    assert SendsEarly(job, s6) by { assert IsSchedule(job, s6, []) && IsEarly(job, Exec(job, s6, [])); }
    EarlyBefore(job, s5, t);
    EarlyBefore(job, s4, t);
    EarlyBefore(job, s3, t);
    EarlyBefore(job, s2, t);
    EarlyBefore(job, s1, t);
    EarlyBefore(job, st, t);
  }

  /** Finalise marks the session root. */
  lemma EarlyAtRoot(job: Job, st: State, d: nat, k: nat)
    requires job.Valid() && |job.pieces| == 2 && |st.tasks| == 2 && st.tasks == [Hashing(d), Idle]
    requires st.main == Finalising(Pos(1, 0), false, k)
    requires Pos(0, 0) in st.nodes && !st.nodes[Pos(0, 0)].root && Pos(1, 0) in st.nodes
    requires var n := st.nodes[Pos(1, 0)]; IsInt32(n.state) && n.state < 0 && n.state % 2 == 0
    ensures SendsEarly(job, st)
  {
    EarlyOnceMarked(job, Apply(job, st, MainStep).state, d);
    EarlyBefore(job, st, MainStep);
  }

  /** With a negative even counter at the session root of a chunk of two pieces, on a tree of any
      depth, the first goroutine to arrive there does not wait for the other half. */
  lemma WrappedToggleSendsStale(job: Job, nodes: map<Pos, Node>)
    requires job.Valid() && |job.pieces| == 2 && Pos(0, 0) in nodes && Pos(0, 1) in nodes && Pos(1, 0) in nodes
    requires !nodes[Pos(0, 0)].root && IsInt32(nodes[Pos(1, 0)].state) && nodes[Pos(1, 0)].state < 0
    requires nodes[Pos(1, 0)].state % 2 == 0
    ensures SendsEarly(job, Start(job, nodes))
  {
    assert job.depth > 0 by { assert Pow2(0) == 1; }
    var s0 := Start(job, nodes);
    var s1 := Apply(job, s0, MainStep).state;
    assert s1.tasks == [Hashing(job.depth), Idle];
    var s2 := Apply(job, s1, MainStep).state;
    if |job.pieces[1]| > job.base.size {
      EarlyAtRoot(job, s2, job.depth, 0);
    } else {
      EarlyAtRoot(job, Apply(job, s2, MainStep).state, job.depth, 1);
      EarlyBefore(job, s2, MainStep);
    }
    EarlyBefore(job, s1, MainStep);
    EarlyBefore(job, s0, MainStep);
  }

  /** The chunk after 2^30 chunks of two pieces can come out wrong. */
  lemma BreaksAfterWrap(jobs: seq<Job>, trees: seq<map<Pos, Node>>, runs: seq<seq<Action>>, depth: nat, job: Job)
    requires |jobs| == |runs| == 0x4000_0000 && |trees| == |jobs| + 1 && Used(depth, trees[0], 0)
    requires forall i :: 0 <= i < |jobs| ==> jobs[i].Valid() && jobs[i].depth == depth && |jobs[i].pieces| == 2
    requires forall i :: 0 <= i < |jobs| ==> Session(jobs[i], trees[i], runs[i], trees[i + 1])
    requires job.Valid() && |job.pieces| == 2 && job.depth == depth
    ensures SendsEarly(job, Start(job, trees[|jobs|]))
  {
    assert depth > 0 by { assert Pow2(0) == 1; }
    forall i | 0 <= i < |jobs|
      ensures Root(jobs[i]) == 1
    {
      RootOfTwo(jobs[i]);
    }
    RootCounter(jobs, trees, runs, depth, 1, |jobs|);
    RootIsInTree(depth, 0);
    assert InTree(depth, Pos(0, 1));
    assert HandedBack(jobs[|jobs| - 1], trees[|jobs| - 1], trees[|jobs|]);
    WrappedToggleSendsStale(job, trees[|jobs|]);
  }

  lemma RootOfTwo(job: Job)
    requires job.Valid() && |job.pieces| == 2
    ensures Root(job) == 1
  {
    RootInTree(job);
    assert Anc(1, 1) == 0;
  }

  lemma Prepend(job: Job, st: State, a: Action, acts: seq<Action>)
    requires job.Valid() && |st.tasks| == |job.pieces| && Enabled(st, a) && Apply(job, st, a).Ok?
    requires IsSchedule(job, Apply(job, st, a).state, acts)
    ensures IsSchedule(job, st, [a] + acts)
    ensures Exec(job, st, [a] + acts) == Exec(job, Apply(job, st, a).state, acts)
  {
    assert ([a] + acts)[1..] == acts;
  }
}
