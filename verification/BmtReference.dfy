/** The recursive reference hasher of chain/bmt/bmt_r.go: the specification side
    of the binary Merkle tree (BMT) hash. */
module BmtReference {
  type Bytes = seq<bv8>

  /** A base hash: any function on byte strings, with the segment size the tree is cut by. */
  datatype Base = Base(sum: Bytes -> Bytes, size: nat)

  /** Spans are the section size (two segments) doubled any number of times. */
  function Span(size: nat, h: nat): nat {
    if h == 0 then 2 * size else 2 * Span(size, h - 1)
  }

  predicate IsSpan(size: nat, s: nat)
    requires size > 0
    decreases s
  {
    s == 2 * size || (s > 2 * size && s % 2 == 0 && IsSpan(size, s / 2))
  }

  lemma {:induction false} SpanIsSpan(size: nat, h: nat)
    requires size > 0
    ensures IsSpan(size, Span(size, h)) && Span(size, h) >= 2 * size
  {
    if h > 0 { SpanIsSpan(size, h - 1); }
  }

  /** The span-halving loop `for ; s >= l; s /= 2`. */
  function Halved(s: nat, l: nat): (r: nat)
    requires l > 0
    ensures r < l
    decreases s
  {
    if s < l then s else Halved(s / 2, l)
  }

  lemma {:induction false} HalvedIsSpan(size: nat, s: nat, l: nat)
    requires size > 0 && IsSpan(size, s) && l > 2 * size
    ensures IsSpan(size, Halved(s, l))
    decreases s
  {
    if s >= l { HalvedIsSpan(size, s / 2, l); }
  }

  /** RefHasher.hash: the tree hash of `d`, splitting at the largest span below its length. */
  function RefHash(b: Base, d: Bytes, s: nat): Bytes
    requires b.size > 0 && IsSpan(b.size, s)
    decreases |d|
  {
    if |d| <= 2 * b.size then b.sum(d)
    else
      HalvedIsSpan(b.size, s, |d|);
      var s' := Halved(s, |d|);
      var left := RefHash(b, d[..s'], s');
      var right := if |d| - s' > b.size then RefHash(b, d[s'..], s') else d[s'..];
      b.sum(left + right)
  }

  lemma {:induction false} SpanHalves(size: nat, h: nat, k: nat, l: nat)
    requires size > 0 && h <= k && Span(size, h) < l <= Span(size, h + 1)
    ensures Halved(Span(size, k), l) == Span(size, h)
    decreases k
  {
    if k > h {
      SpanMonotone(size, h + 1, k);
      assert Span(size, k) / 2 == Span(size, k - 1);
      SpanHalves(size, h, k - 1, l);
    }
  }

  lemma {:induction false} SpanMonotone(size: nat, h: nat, k: nat)
    requires size > 0 && h <= k
    ensures Span(size, h) <= Span(size, k)
    decreases k
  {
    if k > h { SpanMonotone(size, h, k - 1); }
  }

  /** The span a caller starts from does not matter, as long as it reaches half the data. */
  lemma {:induction false} SpanIrrelevant(b: Base, d: Bytes, h: nat, k: nat)
    requires b.size > 0 && h <= k && |d| <= Span(b.size, h + 1)
    ensures IsSpan(b.size, Span(b.size, h)) && IsSpan(b.size, Span(b.size, k))
    ensures RefHash(b, d, Span(b.size, k)) == RefHash(b, d, Span(b.size, h))
  {
    SpanIsSpan(b.size, h);
    SpanIsSpan(b.size, k);
    if |d| > 2 * b.size {
      var g := SplitHeight(b.size, |d|, h);
      SpanHalves(b.size, g, k, |d|);
      SpanHalves(b.size, g, h, |d|);
    }
  }

  /** The height at which data of length l is split. */
  lemma {:induction false} SplitHeight(size: nat, l: nat, h: nat) returns (g: nat)
    requires size > 0 && 2 * size < l <= Span(size, h + 1)
    ensures g <= h && Span(size, g) < l <= Span(size, g + 1)
    decreases h
  {
    if l > Span(size, h) { g := h; } else { g := SplitHeight(size, l, h - 1); }
  }

  /** One level of the reference: data longer than Span(h) and at most twice that
      hashes its first Span(h) bytes against the (raw, if at most one segment) rest. */
  lemma RefSplits(b: Base, d: Bytes, h: nat, k: nat)
    requires b.size > 0 && h <= k && Span(b.size, h) < |d| <= Span(b.size, h + 1)
    ensures IsSpan(b.size, Span(b.size, h)) && IsSpan(b.size, Span(b.size, k))
    ensures var s := Span(b.size, h);
            RefHash(b, d, Span(b.size, k)) ==
            b.sum(RefHash(b, d[..s], s) + (if |d| - s > b.size then RefHash(b, d[s..], s) else d[s..]))
  {
    SpanIsSpan(b.size, h);
    SpanIsSpan(b.size, k);
    SpanHalves(b.size, h, k, |d|);
  }

  /** Segments in a span: twice as many per height. */
  function Doubled(h: nat): nat { if h == 0 then 2 else 2 * Doubled(h - 1) }

  lemma {:induction false} SpanSegments(size: nat, h: nat)
    ensures Doubled(h) * size == Span(size, h)
  {
    if h > 0 { SpanSegments(size, h - 1); assert 2 * Doubled(h - 1) * size == 2 * (Doubled(h - 1) * size); }
  }

  lemma {:induction false} MulMonotone(s: nat, a: nat, b: nat)
    requires a <= b
    ensures s * a <= s * b
    ensures s > 0 && a < b ==> s * a < s * b
    decreases b - a
  {
    if a < b { MulMonotone(s, a, b - 1); assert s * b == s * (b - 1) + s; }
  }

  /** Comparing a capacity in segments with spans in bytes. */
  lemma SpanReaches(size: nat, count: nat, h: nat)
    ensures count <= Doubled(h) ==> size * count <= Span(size, h)
    ensures size > 0 && Doubled(h) < count ==> Span(size, h) < size * count
  {
    SpanSegments(size, h);
    if count <= Doubled(h) { MulMonotone(size, count, Doubled(h)); } else { MulMonotone(size, Doubled(h), count); }
  }

  /** NewRefHasher: the smallest power of two reaching `count`, halved when above two. */
  method NewRefHasher(b: Base, count: nat) returns (span: nat, cap: nat, ghost h: nat)
    requires b.size > 0
    ensures cap == b.size * count
    ensures span == Span(b.size, h) && cap <= Span(b.size, h + 1)
    ensures h > 0 ==> span < cap
  {
    var c: nat;
    c, h := SpanCount(count);
    SpanReaches(b.size, count, h + 1);
    SpanReaches(b.size, count, h);
    SpanSegments(b.size, h);
    cap := b.size * count;
    span := c * b.size;
  }

  /** The doubling loop of NewRefHasher. */
  method SpanCount(count: nat) returns (c: nat, ghost h: nat)
    ensures c == Doubled(h) && count <= Doubled(h + 1) && (h > 0 ==> c < count)
  {
    c := 2;
    ghost var g := 0;
    while c < count
      invariant c == Doubled(g) && (g > 0 ==> Doubled(g - 1) < count)
    {
      c := 2 * c;
      g := g + 1;
    }
    h := g;
    if c > 2 {
      c := c / 2;
      h := g - 1;
    }
  }

  /** RefHasher.hash as written: a loop halves the span, then two recursive calls. */
  method ComputeRefHash(b: Base, d: Bytes, span: nat) returns (r: Bytes)
    requires b.size > 0 && IsSpan(b.size, span)
    ensures r == RefHash(b, d, span)
    ensures |d| <= 2 * b.size ==> r == b.sum(d)
    decreases |d|
  {
    var left, right := d, [];
    if |d| > 2 * b.size {
      var s: nat := span;
      while s >= |d|
        invariant IsSpan(b.size, s)
        invariant Halved(s, |d|) == Halved(span, |d|)
      {
        s := s / 2;
      }
      left := ComputeRefHash(b, d[..s], s);
      right := d[s..];
      if |d| - s > b.size {
        right := ComputeRefHash(b, right, s);
      }
    } else {
      assert left + right == d;
    }
    r := b.sum(left + right);
  }

  function Truncated(cap: nat, d: Bytes): (r: Bytes)
    ensures r <= d && |r| <= cap && (|r| < cap ==> r == d)
  {
    if |d| > cap then d[..cap] else d
  }

  /** The least height whose doubled span reaches l. */
  function LeastHeight(size: nat, l: nat, h: nat): (g: nat)
    requires size > 0
    ensures h <= g && l <= Span(size, g + 1)
    ensures g > h ==> Span(size, g) < l
    decreases if l > Span(size, h + 1) then l - Span(size, h + 1) else 0
  {
    SpanIsSpan(size, h);
    if l <= Span(size, h + 1) then h else LeastHeight(size, l, h + 1)
  }

  /** The BMT hash of a chunk, whatever capacity the hasher was built for. */
  function TreeHash(b: Base, d: Bytes): Bytes
    requires b.size > 0
  {
    var h := LeastHeight(b.size, |d|, 0);
    SpanIsSpan(b.size, h);
    RefHash(b, d, Span(b.size, h))
  }

  lemma TreeHashAtSpan(b: Base, d: Bytes, k: nat)
    requires b.size > 0 && |d| <= Span(b.size, k + 1)
    ensures IsSpan(b.size, Span(b.size, k))
    ensures RefHash(b, d, Span(b.size, k)) == TreeHash(b, d)
  {
    var h := LeastHeight(b.size, |d|, 0);
    if h > k { SpanMonotone(b.size, k + 1, h); }
    SpanIrrelevant(b, d, h, k);
  }

  /** Data of at most two segments is hashed as it is. */
  lemma TreeHashShort(b: Base, d: Bytes)
    requires b.size > 0 && |d| <= 2 * b.size
    ensures TreeHash(b, d) == b.sum(d)
  {
  }

  /** Longer data is split at the one span height that fits. */
  lemma TreeHashSplits(b: Base, d: Bytes, h: nat)
    requires b.size > 0 && Span(b.size, h) < |d| <= Span(b.size, h + 1)
    ensures var s := Span(b.size, h);
            TreeHash(b, d) ==
            b.sum(TreeHash(b, d[..s]) + (if |d| - s > b.size then TreeHash(b, d[s..]) else d[s..]))
  {
    var s := Span(b.size, h);
    RefSplits(b, d, h, h);
    TreeHashAtSpan(b, d, h);
    TreeHashAtSpan(b, d[..s], h);
    TreeHashAtSpan(b, d[s..], h);
  }

  /** A single segment travels up unhashed. */
  function RawOrHash(b: Base, d: Bytes): Bytes
    requires b.size > 0
  {
    if |d| <= b.size then d else TreeHash(b, d)
  }

  /** A full half and a rest no longer than it are hashed together. */
  lemma TreeHashJoins(b: Base, left: Bytes, right: Bytes, h: nat)
    requires b.size > 0 && |left| == Span(b.size, h) && 0 < |right| <= Span(b.size, h)
    ensures TreeHash(b, left + right) == b.sum(TreeHash(b, left) + RawOrHash(b, right))
  {
    var d := left + right;
    assert d[..|left|] == left && d[|left|..] == right;
    TreeHashSplits(b, d, h);
  }

  /** f hashes short data directly, and longer data by the hashes of its two parts. */
  ghost predicate IsTreeHash(b: Base, f: Bytes -> Bytes) {
    && (forall d :: |d| <= 2 * b.size ==> f(d) == b.sum(d))
    && (forall d, h: nat :: SplitsAt(b, f, d, h))
  }

  predicate SplitsAt(b: Base, f: Bytes -> Bytes, d: Bytes, h: nat) {
    var s := Span(b.size, h);
    s < |d| <= Span(b.size, h + 1) ==>
      f(d) == b.sum(f(d[..s]) + (if |d| - s > b.size then f(d[s..]) else d[s..]))
  }

  /** The equations have one solution, the hash of the reference. */
  lemma {:induction false} TreeHashUnique(b: Base, f: Bytes -> Bytes, d: Bytes)
    requires b.size > 0 && IsTreeHash(b, f)
    ensures f(d) == TreeHash(b, d)
    decreases |d|
  {
    if |d| <= 2 * b.size {
      TreeHashShort(b, d);
    } else {
      var h := LeastHeight(b.size, |d|, 0);
      var s := Span(b.size, h);
      SpanIsSpan(b.size, h);
      TreeHashSplits(b, d, h);
      assert SplitsAt(b, f, d, h);
      TreeHashUnique(b, f, d[..s]);
      if |d| - s > b.size { TreeHashUnique(b, f, d[s..]); }
    }
  }

  lemma TreeHashIsOne(b: Base)
    requires b.size > 0
    ensures IsTreeHash(b, d => TreeHash(b, d))
  {
    var f := d => TreeHash(b, d);
    forall d | |d| <= 2 * b.size
      ensures f(d) == b.sum(d)
    {
      TreeHashShort(b, d);
    }
    forall d, h: nat
      ensures SplitsAt(b, f, d, h)
    {
      if Span(b.size, h) < |d| <= Span(b.size, h + 1) { TreeHashSplits(b, d, h); }
    }
  }

  /** The hash of any data is a value of the base hash. */
  lemma TreeHashIsSum(b: Base, d: Bytes)
    requires b.size > 0
    ensures exists x :: TreeHash(b, d) == b.sum(x)
  {
    if |d| <= 2 * b.size {
      TreeHashShort(b, d);
    } else {
      var h := LeastHeight(b.size, |d|, 0);
      SpanIsSpan(b.size, h);
      TreeHashSplits(b, d, h);
    }
  }

  /** RefHasher.Hash: data past the capacity is cut off, the rest is tree-hashed. */
  method Hash(b: Base, count: nat, d: Bytes) returns (r: Bytes)
    requires b.size > 0
    ensures r == TreeHash(b, Truncated(b.size * count, d)) && exists x :: r == b.sum(x)
    ensures |d| <= b.size * count && |d| <= 2 * b.size ==> r == b.sum(d)
  {
    var span, cap, h := NewRefHasher(b, count);
    var e := if |d| > cap then d[..cap] else d;
    SpanIsSpan(b.size, h);
    r := ComputeRefHash(b, e, span);
    TreeHashAtSpan(b, e, h);
    TreeHashIsSum(b, e);
  }
}
