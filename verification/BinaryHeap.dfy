/** The binary heap of Go's container/heap on sequences, ordered by an integer key. */
module BinaryHeap {
  /** The edge from m's parent to m is ordered. */
  predicate EdgeOk<T>(key: T -> int, h: seq<T>, m: nat) {
    0 < m < |h| ==> key(h[(m - 1) / 2]) <= key(h[m])
  }

  predicate IsHeap<T>(key: T -> int, h: seq<T>) {
    forall m: nat :: m < |h| ==> EdgeOk(key, h, m)
  }

  /** The top of a heap is a minimum. */
  lemma {:induction false} HeapTop<T>(key: T -> int, h: seq<T>, i: nat)
    requires IsHeap(key, h) && i < |h|
    ensures key(h[0]) <= key(h[i])
  {
    if i > 0 {
      assert EdgeOk(key, h, i);
      HeapTop(key, h, (i - 1) / 2);
    }
  }

  function Swapped<T>(h: seq<T>, i: nat, j: nat): seq<T>
    requires i < |h| && j < |h|
  {
    h[i := h[j]][j := h[i]]
  }

  lemma SwapKeeps<T>(h: seq<T>, i: nat, j: nat)
    requires i < |h| && j < |h|
    ensures multiset(Swapped(h, i, j)) == multiset(h)
  {
    assert multiset(h[i := h[j]]) == multiset(h) - multiset{h[i]} + multiset{h[j]};
  }

  /** The children of i are no smaller than i's parent. */
  predicate GrandOk<T>(key: T -> int, h: seq<T>, i: nat) {
    0 < i < |h| ==>
      && (2 * i + 1 < |h| ==> key(h[(i - 1) / 2]) <= key(h[2 * i + 1]))
      && (2 * i + 2 < |h| ==> key(h[(i - 1) / 2]) <= key(h[2 * i + 2]))
  }

  /** Edges with a parent at or after lo are ordered, except those leaving i and entering e. */
  predicate OrderedBut<T>(key: T -> int, h: seq<T>, lo: nat, i: nat, e: nat) {
    && (forall m: nat :: 0 < m < |h| && (m - 1) / 2 >= lo && (m - 1) / 2 != i && m != e ==> EdgeOk(key, h, m))
    && (i > 0 && (i - 1) / 2 >= lo ==> GrandOk(key, h, i))
  }

  predicate OrderedFrom<T>(key: T -> int, h: seq<T>, lo: nat) {
    forall m: nat :: 0 < m < |h| && (m - 1) / 2 >= lo ==> EdgeOk(key, h, m)
  }

  /** One exchange of `up`: j goes to its parent i. */
  lemma UpStep<T>(key: T -> int, h: seq<T>, j: nat)
    requires 0 < j < |h| && key(h[j]) < key(h[(j - 1) / 2])
    requires GrandOk(key, h, j) && forall m: nat :: m < |h| && m != j ==> EdgeOk(key, h, m)
    ensures var i := (j - 1) / 2;
            var g := Swapped(h, i, j);
            GrandOk(key, g, i) && forall m: nat :: m < |g| && m != i ==> EdgeOk(key, g, m)
  {
    var i := (j - 1) / 2;
    var g := Swapped(h, i, j);
    forall m: nat | m < |g| && m != i
      ensures EdgeOk(key, g, m)
    {
      if m != j { assert EdgeOk(key, h, m); }
    }
    if 0 < i {
      assert EdgeOk(key, h, i) && (2 * i + 1 != j ==> EdgeOk(key, h, 2 * i + 1)) &&
             (2 * i + 2 != j ==> EdgeOk(key, h, 2 * i + 2));
    }
  }

  /** heap.up */
  method Up<T>(key: T -> int, h0: seq<T>, j0: nat) returns (h: seq<T>)
    requires j0 < |h0| && GrandOk(key, h0, j0)
    requires forall m: nat :: m < |h0| && m != j0 ==> EdgeOk(key, h0, m)
    ensures IsHeap(key, h) && multiset(h) == multiset(h0) && |h| == |h0|
  {
    h := h0;
    var j: nat := j0;
    while j > 0 && key(h[j]) < key(h[(j - 1) / 2])
      invariant j < |h| == |h0| && multiset(h) == multiset(h0)
      invariant GrandOk(key, h, j) && forall m: nat :: m < |h| && m != j ==> EdgeOk(key, h, m)
    {
      var i := (j - 1) / 2;
      UpStep(key, h, j);
      SwapKeeps(h, i, j);
      h := Swapped(h, i, j);
      j := i;
    }
  }

  /** One exchange of `down`: i goes to its smaller child j. */
  lemma DownStep<T>(key: T -> int, h: seq<T>, lo: nat, i: nat, e: nat, j: nat)
    requires e <= i < |h| && lo <= i && OrderedBut(key, h, lo, i, e)
    requires j < |h| && (j == 2 * i + 1 || j == 2 * i + 2) && key(h[j]) < key(h[i])
    requires 2 * i + 1 < |h| ==> key(h[j]) <= key(h[2 * i + 1])
    requires 2 * i + 2 < |h| ==> key(h[j]) <= key(h[2 * i + 2])
    ensures var g := Swapped(h, i, j);
            && OrderedBut(key, g, lo, j, e)
            && EdgeOk(key, g, j)
            && (i > 0 && (i - 1) / 2 >= lo ==> EdgeOk(key, g, i))
  {
    var g := Swapped(h, i, j);
    forall m: nat | 0 < m < |g| && (m - 1) / 2 >= lo && (m - 1) / 2 != j && m != e
      ensures EdgeOk(key, g, m)
    {
      if (m - 1) / 2 != i { assert EdgeOk(key, h, m); }
    }
    assert 2 * j + 1 < |h| ==> EdgeOk(key, h, 2 * j + 1);
    assert 2 * j + 2 < |h| ==> EdgeOk(key, h, 2 * j + 2);
  }

  /** When no child of i is smaller, `down` is done. */
  lemma DownDone<T>(key: T -> int, h: seq<T>, lo: nat, i: nat, e: nat)
    requires e <= i < |h| && OrderedBut(key, h, lo, i, e)
    requires 2 * i + 1 < |h| ==> key(h[i]) <= key(h[2 * i + 1])
    requires 2 * i + 2 < |h| ==> key(h[i]) <= key(h[2 * i + 2])
    ensures forall m: nat :: 0 < m < |h| && (m - 1) / 2 >= lo && m != e ==> EdgeOk(key, h, m)
  {
    forall m: nat | 0 < m < |h| && (m - 1) / 2 >= lo && m != e
      ensures EdgeOk(key, h, m)
    {
      if (m - 1) / 2 == i { assert m == 2 * i + 1 || m == 2 * i + 2; }
    }
  }

  /** The smaller child of i, or i when it is no larger than its children. */
  function Sink<T>(key: T -> int, h: seq<T>, i: nat): (j: nat)
    requires i < |h|
    ensures j < |h| && (j == i || j == 2 * i + 1 || j == 2 * i + 2)
    ensures (2 * i + 1 < |h| ==> key(h[j]) <= key(h[2 * i + 1])) && (2 * i + 2 < |h| ==> key(h[j]) <= key(h[2 * i + 2]))
    ensures j != i ==> key(h[j]) < key(h[i])
  {
    var l := 2 * i + 1;
    if l >= |h| then i
    else
      var j := if l + 1 < |h| && key(h[l + 1]) <= key(h[l]) then l + 1 else l;
      if key(h[j]) >= key(h[i]) then i else j
  }

  /** heap.down; `moved` tells whether the element left its place. */
  method Down<T>(key: T -> int, h0: seq<T>, i0: nat, ghost lo: nat) returns (h: seq<T>, moved: bool)
    requires i0 < |h0| && lo <= i0 && OrderedBut(key, h0, lo, i0, i0)
    ensures multiset(h) == multiset(h0) && |h| == |h0|
    ensures forall m: nat :: 0 < m < |h| && (m - 1) / 2 >= lo && m != i0 ==> EdgeOk(key, h, m)
    ensures moved && i0 > 0 && (i0 - 1) / 2 >= lo ==> EdgeOk(key, h, i0)
    ensures !moved ==> h == h0
  {
    h := h0;
    var i: nat := i0;
    var j := Sink(key, h, i);
    while j != i
      invariant i0 <= i < |h| == |h0| && multiset(h) == multiset(h0) && j == Sink(key, h, i)
      invariant i == i0 ==> h == h0
      invariant OrderedBut(key, h, lo, i, i0)
      invariant i > i0 && i0 > 0 && (i0 - 1) / 2 >= lo ==> EdgeOk(key, h, i0)
      decreases |h| - i
    {
      DownStep(key, h, lo, i, i0, j);
      SwapKeeps(h, i, j);
      h := Swapped(h, i, j);
      i := j;
      j := Sink(key, h, i);
    }
    DownDone(key, h, lo, i, i0);
    moved := i > i0;
  }

  /** heap.Push */
  method Push<T>(key: T -> int, h0: seq<T>, x: T) returns (h: seq<T>)
    requires IsHeap(key, h0)
    ensures IsHeap(key, h) && multiset(h) == multiset(h0) + multiset{x} && |h| == |h0| + 1
  {
    var g := h0 + [x];
    forall m: nat | m < |g| && m != |h0|
      ensures EdgeOk(key, g, m)
    {
      assert EdgeOk(key, h0, m);
    }
    h := Up(key, g, |h0|);
  }

  /** Replacing entry i of a heap disturbs only the edges around i. */
  lemma ReplaceOrders<T>(key: T -> int, h: seq<T>, g: seq<T>, i: nat)
    requires IsHeap(key, h) && i < |g| <= |h| && forall m :: 0 <= m < |g| && m != i ==> g[m] == h[m]
    ensures OrderedBut(key, g, 0, i, i)
  {
    forall m: nat | 0 < m < |g| && (m - 1) / 2 != i && m != i
      ensures EdgeOk(key, g, m)
    {
      assert EdgeOk(key, h, m);
    }
    assert EdgeOk(key, h, i);
    assert 2 * i + 1 < |g| ==> EdgeOk(key, h, 2 * i + 1);
    assert 2 * i + 2 < |g| ==> EdgeOk(key, h, 2 * i + 2);
  }

  /** heap.Pop */
  method Pop<T>(key: T -> int, h0: seq<T>) returns (h: seq<T>, x: T)
    requires IsHeap(key, h0) && |h0| > 0
    ensures x == h0[0] && IsHeap(key, h) && multiset(h) == multiset(h0) - multiset{x} && |h| == |h0| - 1
    ensures forall y :: y in multiset(h0) ==> key(x) <= key(y)
  {
    x := h0[0];
    forall y | y in multiset(h0)
      ensures key(x) <= key(y)
    {
      var i :| 0 <= i < |h0| && h0[i] == y;
      HeapTop(key, h0, i);
    }
    h := Remove(key, h0, 0);
  }

  lemma DropSwapped<T>(h: seq<T>, i: nat)
    requires i < |h|
    ensures multiset(Swapped(h, i, |h| - 1)[..|h| - 1]) == multiset(h) - multiset{h[i]}
  {
    var g := Swapped(h, i, |h| - 1);
    SwapKeeps(h, i, |h| - 1);
    assert g == g[..|h| - 1] + [h[i]];
  }

  /** heap.Remove; Pop is the removal of the top. */
  method Remove<T>(key: T -> int, h0: seq<T>, i: nat) returns (h: seq<T>)
    requires IsHeap(key, h0) && i < |h0|
    ensures IsHeap(key, h) && multiset(h) == multiset(h0) - multiset{h0[i]} && |h| == |h0| - 1
  {
    var n := |h0| - 1;
    DropSwapped(h0, i);
    h := Swapped(h0, i, n)[..n];
    if i < n {
      ReplaceOrders(key, h0, h, i);
      var moved;
      h, moved := Down(key, h, i, 0);
      if !moved {
        h := Up(key, h, i);
      }
    } else {
      FrontHeap(key, h0, h);
    }
  }

  lemma FrontHeap<T>(key: T -> int, h0: seq<T>, h: seq<T>)
    requires IsHeap(key, h0) && |h| <= |h0| && forall m :: 0 <= m < |h| ==> h[m] == h0[m]
    ensures IsHeap(key, h)
  {
    forall m: nat | m < |h|
      ensures EdgeOk(key, h, m)
    {
      assert EdgeOk(key, h0, m);
    }
  }

  /** heap.Init */
  method Init<T>(key: T -> int, h0: seq<T>) returns (h: seq<T>)
    ensures IsHeap(key, h) && multiset(h) == multiset(h0) && |h| == |h0|
  {
    h := h0;
    var i := |h| / 2;
    while i > 0
      invariant 0 <= i <= |h| / 2 && |h| == |h0| && multiset(h) == multiset(h0)
      invariant OrderedFrom(key, h, i)
    {
      i := i - 1;
      var moved;
      h, moved := Down(key, h, i, i);
    }
  }
}
