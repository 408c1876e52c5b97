/** The weighted random selection tree of chain/les/randselect.go. */
module RandSelect {
  type Item = nat

  datatype Option<T> = None | Some(value: T)

  const BRANCHES: nat := 8

  datatype Slot = Nil | Leaf(item: Item) | Sub(node: Node)

  datatype Node = Node(level: nat, maxItems: nat, items: seq<Slot>, weights: seq<int>, sumWeight: int, itemCnt: nat)

  /** One place of the tree, as seen from outside. */
  datatype Cell = Blank | Full(item: Item, weight: int)

  function Pow8(k: nat): (r: nat)
    ensures r > 0
  {
    if k == 0 then 1 else 8 * Pow8(k - 1)
  }

  /** The index of cell j of branch b, if every branch has c cells. */
  function Index(c: nat, b: nat, j: nat): nat { c * b + j }

  // ---- sequences of cells ----

  function Weight(c: Cell): int { if c.Blank? then 0 else c.weight }

  function Sum(cells: seq<Cell>): int {
    if cells == [] then 0 else Weight(cells[0]) + Sum(cells[1..])
  }

  function Count(cells: seq<Cell>): nat {
    if cells == [] then 0 else (if cells[0].Blank? then 0 else 1) + Count(cells[1..])
  }

  function Total(weights: seq<int>): int {
    if weights == [] then 0 else weights[0] + Total(weights[1..])
  }

  function Concat(parts: seq<seq<Cell>>): seq<Cell> {
    if parts == [] then [] else parts[0] + Concat(parts[1..])
  }

  function Blanks(k: nat): seq<Cell> { seq(k, _ => Blank) }

  ghost predicate AllFull(cells: seq<Cell>) { forall i :: 0 <= i < |cells| ==> cells[i].Full? }

  ghost predicate AllOf(parts: seq<seq<Cell>>, c: nat) { forall b :: 0 <= b < |parts| ==> |parts[b]| == c }

  lemma {:induction false} SumAppend(a: seq<Cell>, b: seq<Cell>)
    ensures Sum(a + b) == Sum(a) + Sum(b) && Count(a + b) == Count(a) + Count(b)
  {
    if a == [] {
      assert a + b == b;
    } else {
      SumAppend(a[1..], b);
      assert (a + b)[1..] == a[1..] + b;
    }
  }

  lemma {:induction false} BlankSums(k: nat)
    ensures Sum(Blanks(k)) == 0 && Count(Blanks(k)) == 0
  {
    if k > 0 {
      BlankSums(k - 1);
      assert Blanks(k)[1..] == Blanks(k - 1);
    }
  }

  lemma OneCell(c: Cell)
    ensures Sum([c]) == Weight(c) && Count([c]) == if c.Blank? then 0 else 1
  {
    assert [c][1..] == [];
  }

  lemma {:induction false} CountAll(cells: seq<Cell>)
    ensures Count(cells) <= |cells| && (Count(cells) == |cells| <==> AllFull(cells))
  {
    if cells != [] {
      CountAll(cells[1..]);
      assert AllFull(cells) <==> cells[0].Full? && AllFull(cells[1..]) by {
        assert forall i :: 0 <= i < |cells| ==> cells[i] == if i == 0 then cells[0] else cells[1..][i - 1];
        assert forall i :: 0 <= i < |cells[1..]| ==> cells[1..][i] == cells[i + 1];
      }
    }
  }

  lemma {:induction false} SumUpdate(cells: seq<Cell>, k: nat, c: Cell)
    requires k < |cells|
    ensures Sum(cells[k := c]) == Sum(cells) - Weight(cells[k]) + Weight(c)
    ensures Count(cells[k := c]) == Count(cells) - (if cells[k].Blank? then 0 else 1) + (if c.Blank? then 0 else 1)
  {
    if k > 0 {
      SumUpdate(cells[1..], k - 1, c);
      assert cells[k := c][1..] == cells[1..][k - 1 := c];
    }
  }

  lemma {:induction false} ConcatSize(parts: seq<seq<Cell>>, c: nat)
    requires AllOf(parts, c)
    ensures |Concat(parts)| == |parts| * c
  {
    if parts != [] {
      ConcatSize(parts[1..], c);
      assert |parts| * c == c + |parts[1..]| * c;
    }
  }

  /** Where the cells of part b stand in the whole. */
  lemma {:induction false} ConcatAt(parts: seq<seq<Cell>>, c: nat, b: nat)
    requires AllOf(parts, c) && b < |parts|
    ensures 0 <= c * b && c * b + c <= |Concat(parts)| && Concat(parts)[c * b..c * b + c] == parts[b]
  {
    ConcatSize(parts[1..], c);
    if b == 0 {
      assert c * 0 == 0;
      assert Concat(parts)[0..c] == parts[0];
    } else {
      ConcatAt(parts[1..], c, b - 1);
      assert c * b == c + c * (b - 1);
      assert Concat(parts)[c * b..c * b + c] == Concat(parts[1..])[c * (b - 1)..c * (b - 1) + c];
    }
  }

  /** Changing one cell of one part changes that cell of the whole. */
  lemma {:induction false} ConcatUpdate(parts: seq<seq<Cell>>, c: nat, b: nat, j: nat, x: Cell)
    requires AllOf(parts, c) && b < |parts| && j < c
    ensures Index(c, b, j) < |Concat(parts)| && Concat(parts)[Index(c, b, j)] == parts[b][j]
    ensures Concat(parts[b := parts[b][j := x]]) == Concat(parts)[Index(c, b, j) := x]
  {
    var parts' := parts[b := parts[b][j := x]];
    ConcatSize(parts[1..], c);
    if b == 0 {
      assert c * 0 == 0;
      assert parts'[1..] == parts[1..];
    } else {
      ConcatUpdate(parts[1..], c, b - 1, j, x);
      assert parts'[1..] == parts[1..][b - 1 := parts[1..][b - 1][j := x]];
      assert c * b == c + c * (b - 1);
    }
  }

  lemma {:induction false} ConcatSums(parts: seq<seq<Cell>>, weights: seq<int>)
    requires |weights| == |parts| && forall b :: 0 <= b < |parts| ==> weights[b] == Sum(parts[b])
    ensures Sum(Concat(parts)) == Total(weights)
  {
    if parts != [] {
      ConcatSums(parts[1..], weights[1..]);
      SumAppend(parts[0], Concat(parts[1..]));
    }
  }

  // ---- the tree ----

  /** Shape, sums and counts of a node are right, all the way down. */
  ghost predicate Wf(n: Node, level: nat)
    decreases level
  {
    && n.level == level && |n.items| == |n.weights| == BRANCHES && n.maxItems == Pow8(level + 1)
    && (forall b :: 0 <= b < BRANCHES ==> BranchOk(n.items[b], n.weights[b], level))
    && n.sumWeight == Total(n.weights)
    && n.itemCnt == Counts(n.items)
  }

  ghost predicate BranchOk(s: Slot, weight: int, level: nat)
    decreases level, 0
  {
    match s
    case Nil => weight == 0
    case Leaf(_) => level == 0 && weight > 0
    case Sub(m) => level > 0 && Wf(m, level - 1) && weight == m.sumWeight
  }

  function SlotCount(s: Slot): nat {
    match s
    case Nil => 0
    case Leaf(_) => 1
    case Sub(m) => m.itemCnt
  }

  function Counts(items: seq<Slot>): nat {
    if items == [] then 0 else SlotCount(items[0]) + Counts(items[1..])
  }

  /** The cells below one branch. */
  ghost function Part(s: Slot, weight: int, level: nat): seq<Cell>
    requires BranchOk(s, weight, level)
    decreases level, 0
  {
    match s
    case Nil => Blanks(Pow8(level))
    case Leaf(item) => [Full(item, weight)]
    case Sub(m) => Flat(m, level - 1)
  }

  ghost function Parts(n: Node, level: nat): (r: seq<seq<Cell>>)
    requires Wf(n, level)
    ensures |r| == BRANCHES
    decreases level, 1
  {
    seq(BRANCHES, b requires 0 <= b < BRANCHES &&
        BranchOk(n.items[b], n.weights[b], level) => Part(n.items[b], n.weights[b], level))
  }

  /** All cells of the tree, by item index. */
  ghost function Flat(n: Node, level: nat): seq<Cell>
    requires Wf(n, level)
    decreases level, 2
  {
    Concat(Parts(n, level))
  }

  lemma PartCases(n: Node, level: nat, b: nat)
    requires Wf(n, level) && b < BRANCHES
    ensures BranchOk(n.items[b], n.weights[b], level) && Parts(n, level)[b] == Part(n.items[b], n.weights[b], level)
    ensures n.items[b].Nil? ==> Parts(n, level)[b] == Blanks(Pow8(level))
    ensures n.items[b].Leaf? ==> level == 0 && Parts(n, level)[b] == [Full(n.items[b].item, n.weights[b])]
    ensures n.items[b].Sub? ==> level > 0 && Parts(n, level)[b] == Flat(n.items[b].node, level - 1)
  {
    assert BranchOk(n.items[b], n.weights[b], level);
  }

  lemma {:induction false} FlatSize(n: Node, level: nat)
    requires Wf(n, level)
    ensures AllOf(Parts(n, level), Pow8(level)) && |Flat(n, level)| == n.maxItems
    decreases level
  {
    forall b | 0 <= b < BRANCHES
      ensures |Parts(n, level)[b]| == Pow8(level)
    {
      assert BranchOk(n.items[b], n.weights[b], level);
      if n.items[b].Sub? { FlatSize(n.items[b].node, level - 1); }
    }
    ConcatSize(Parts(n, level), Pow8(level));
  }

  lemma {:induction false} ConcatCounts(parts: seq<seq<Cell>>, items: seq<Slot>)
    requires |items| == |parts| && forall b :: 0 <= b < |parts| ==> SlotCount(items[b]) == Count(parts[b])
    ensures Count(Concat(parts)) == Counts(items)
  {
    if parts != [] {
      ConcatCounts(parts[1..], items[1..]);
      SumAppend(parts[0], Concat(parts[1..]));
    }
  }

  /** A node's sum and count are those of the cells below it, and so are its branches'. */
  lemma {:induction false} Exact(n: Node, level: nat)
    requires Wf(n, level)
    ensures n.sumWeight == Sum(Flat(n, level)) && n.itemCnt == Count(Flat(n, level))
    ensures forall b :: 0 <= b < BRANCHES ==>
            n.weights[b] == Sum(Parts(n, level)[b]) && SlotCount(n.items[b]) == Count(Parts(n, level)[b])
    decreases level
  {
    var parts := Parts(n, level);
    forall b | 0 <= b < BRANCHES
      ensures n.weights[b] == Sum(parts[b]) && SlotCount(n.items[b]) == Count(parts[b])
    {
      PartCases(n, level, b);
      match n.items[b]
      case Nil => BlankSums(Pow8(level));
      case Leaf(item) => OneCell(Full(item, n.weights[b]));
      case Sub(m) => Exact(m, level - 1);
    }
    ConcatSums(parts, n.weights);
    ConcatCounts(parts, n.items);
  }

  lemma {:induction false} TotalUpdate(ws: seq<int>, b: nat, w: int)
    requires b < |ws|
    ensures Total(ws[b := w]) == Total(ws) - ws[b] + w
  {
    if b > 0 {
      TotalUpdate(ws[1..], b - 1, w);
      assert ws[b := w][1..] == ws[1..][b - 1 := w];
    }
  }

  lemma {:induction false} CountsUpdate(items: seq<Slot>, b: nat, s: Slot)
    requires b < |items|
    ensures Counts(items[b := s]) == Counts(items) - SlotCount(items[b]) + SlotCount(s)
  {
    if b > 0 {
      CountsUpdate(items[1..], b - 1, s);
      assert items[b := s][1..] == items[1..][b - 1 := s];
    }
  }

  /** The node after one branch has changed. */
  function Rebranched(n: Node, b: nat, s: Slot, weight: int): (r: Node)
    requires b < |n.items| == |n.weights| && n.itemCnt - SlotCount(n.items[b]) + SlotCount(s) >= 0
  {
    n.(items := n.items[b := s], weights := n.weights[b := weight], sumWeight := n.sumWeight - n.weights[b] + weight,
       itemCnt := n.itemCnt - SlotCount(n.items[b]) + SlotCount(s))
  }

  /** Changing one cell below one branch, with the sums and counts to match, changes just that
      cell of the tree. */
  lemma BranchUpdate(n: Node, level: nat, b: nat, s: Slot, weight: int, j: nat, x: Cell)
    requires Wf(n, level) && b < BRANCHES && BranchOk(s, weight, level) && j < Pow8(level)
    requires |Part(n.items[b], n.weights[b], level)| == Pow8(level)
    requires Part(s, weight, level) == Part(n.items[b], n.weights[b], level)[j := x]
    requires n.itemCnt - SlotCount(n.items[b]) + SlotCount(s) >= 0
    ensures Wf(Rebranched(n, b, s, weight), level)
    ensures |Flat(n, level)| == n.maxItems && Index(Pow8(level), b, j) < n.maxItems
    ensures Flat(Rebranched(n, b, s, weight), level) == Flat(n, level)[Index(Pow8(level), b, j) := x]
    ensures Flat(n, level)[Index(Pow8(level), b, j)] == Part(n.items[b], n.weights[b], level)[j]
  {
    BranchWf(n, level, b, s, weight);
    FlatSize(n, level);
    BranchParts(n, level, b, s, weight, j, x);
    ConcatUpdate(Parts(n, level), Pow8(level), b, j, x);
  }

  lemma BranchWf(n: Node, level: nat, b: nat, s: Slot, weight: int)
    requires Wf(n, level) && b < BRANCHES && BranchOk(s, weight, level)
    requires n.itemCnt - SlotCount(n.items[b]) + SlotCount(s) >= 0
    ensures Wf(Rebranched(n, b, s, weight), level)
  {
    TotalUpdate(n.weights, b, weight);
    CountsUpdate(n.items, b, s);
  }

  lemma BranchParts(n: Node, level: nat, b: nat, s: Slot, weight: int, j: nat, x: Cell)
    requires Wf(n, level) && b < BRANCHES && j < |Parts(n, level)[b]|
    requires n.itemCnt - SlotCount(n.items[b]) + SlotCount(s) >= 0 && Wf(Rebranched(n, b, s, weight), level)
    requires BranchOk(s, weight, level) && Part(s, weight, level) == Part(n.items[b], n.weights[b], level)[j := x]
    ensures Parts(Rebranched(n, b, s, weight), level) == Parts(n, level)[b := Parts(n, level)[b][j := x]]
  {
  }

  // ---- operations ----

  predicate BranchFull(s: Slot, level: nat) {
    s != Nil && (level == 0 || (s.Sub? && s.node.itemCnt == s.node.maxItems))
  }

  lemma FullBranch(n: Node, level: nat, b: nat)
    requires Wf(n, level) && b < BRANCHES
    ensures BranchFull(n.items[b], level) <==> AllFull(Parts(n, level)[b])
    ensures |Parts(n, level)[b]| == Pow8(level)
  {
    PartCases(n, level, b);
    match n.items[b]
    case Nil =>
      assert Blanks(Pow8(level))[0] == Blank;
    case Leaf(item) =>
    case Sub(m) =>
      FullNode(m, level, level - 1);
  }

  lemma FullNode(m: Node, level: nat, lower: nat)
    requires Wf(m, lower) && level == lower + 1
    ensures |Flat(m, lower)| == Pow8(level) && (m.itemCnt == m.maxItems <==> AllFull(Flat(m, lower)))
  {
    Exact(m, lower);
    FlatSize(m, lower);
    CountAll(Flat(m, lower));
  }

  lemma AllBranchesFull(n: Node, level: nat)
    requires Wf(n, level) && forall b :: 0 <= b < BRANCHES ==> AllFull(Parts(n, level)[b])
    ensures n.itemCnt == n.maxItems
  {
    FlatSize(n, level);
    Exact(n, level);
    PartsFull(Parts(n, level));
    CountAll(Flat(n, level));
  }

  lemma {:induction false} PartsFull(parts: seq<seq<Cell>>)
    requires forall b :: 0 <= b < |parts| ==> AllFull(parts[b])
    ensures AllFull(Concat(parts))
  {
    if parts != [] { PartsFull(parts[1..]); }
  }

  /** The cells before branch b, as far as the branches before it go. */
  lemma {:induction false} FullBefore(parts: seq<seq<Cell>>, c: nat, b: nat)
    requires AllOf(parts, c) && b < |parts| && forall k :: 0 <= k < b ==> AllFull(parts[k])
    ensures |Concat(parts)| == |parts| * c && c * b <= |parts| * c
    ensures forall i :: 0 <= i < c * b ==> Concat(parts)[i].Full?
  {
    ConcatSize(parts, c);
    if b == 0 {
      assert c * 0 == 0;
    } else {
      FullBefore(parts[1..], c, b - 1);
      assert c * b == c + c * (b - 1);
    }
  }

  /** insert: takes the first free cell; a free branch is always found. */
  method Insert(n: Node, item: Item, weight: int) returns (n': Node, idx: nat)
    requires Wf(n, n.level) && n.itemCnt < n.maxItems && weight > 0
    ensures Inserted(n, n.level, n', idx, item, weight)
    decreases n.level
  {
    var branch := FirstFree(n);
    if n.level == 0 {
      n', idx := InsertLeaf(n, branch, item, weight);
    } else {
      var sub := SubNode(n, branch);
      var sub', subIdx := Insert(sub, item, weight);
      var w := n.weights[branch] + weight;
      PlacedBelow(n, n.level, n.level - 1, branch, sub, sub', subIdx, item, weight, w);
      n' := n.(itemCnt := n.itemCnt + 1, sumWeight := n.sumWeight + weight, weights := n.weights[branch := w],
               items := n.items[branch := Sub(sub')]);
      assert n' == Rebranched(n, branch, Sub(sub'), w);
      idx := Index(sub.maxItems, branch, subIdx);
    }
  }

  method InsertLeaf(n: Node, branch: nat, item: Item, weight: int) returns (n': Node, idx: nat)
    requires Wf(n, 0) && branch < BRANCHES && n.items[branch] == Nil && weight > 0
    requires forall b :: 0 <= b < branch ==> AllFull(Parts(n, 0)[b])
    ensures idx == branch && Inserted(n, 0, n', idx, item, weight)
  {
    assert BranchOk(n.items[branch], n.weights[branch], 0);
    n' := n.(itemCnt := n.itemCnt + 1, sumWeight := n.sumWeight + weight,
             weights := n.weights[branch := n.weights[branch] + weight], items := n.items[branch := Leaf(item)]);
    idx := branch;
    assert Index(Pow8(0), branch, 0) == branch;
    Placed(n, 0, branch, Leaf(item), weight, 0, item, weight);
  }

  /** The branch's node, or a fresh one. */
  method SubNode(n: Node, branch: nat) returns (sub: Node)
    requires Wf(n, n.level) && n.level > 0 && branch < BRANCHES && !BranchFull(n.items[branch], n.level)
    ensures Wf(sub, n.level - 1) && sub.itemCnt == SlotCount(n.items[branch]) < sub.maxItems == Pow8(n.level)
    ensures sub.sumWeight == n.weights[branch]
    ensures Flat(sub, n.level - 1) == Part(n.items[branch], n.weights[branch], n.level)
  {
    assert BranchOk(n.items[branch], n.weights[branch], n.level);
    if n.items[branch] == Nil {
      FreshWf(n.level - 1);
      sub := Fresh(n.maxItems / BRANCHES, n.level - 1);
    } else {
      sub := n.items[branch].node;
      Exact(sub, n.level - 1);
      FlatSize(sub, n.level - 1);
      CountAll(Flat(sub, n.level - 1));
    }
  }

  /** item has gone into the first free cell, idx. */
  ghost predicate Inserted(n: Node, level: nat, n': Node, idx: nat, item: Item, weight: int)
    requires Wf(n, level)
  {
    && Wf(n', level) && n'.maxItems == n.maxItems
    && idx < |Flat(n, level)| && Flat(n, level)[idx].Blank? && (forall i :: 0 <= i < idx ==> Flat(n, level)[i].Full?)
    && Flat(n', level) == Flat(n, level)[idx := Full(item, weight)]
    && n'.sumWeight == n.sumWeight + weight && n'.itemCnt == n.itemCnt + 1
  }

  lemma PlacedBelow(n: Node, level: nat, lower: nat, branch: nat, sub: Node, sub': Node, subIdx: nat, item: Item,
                    weight: int, w: int)
    requires Wf(n, level) && level == lower + 1 && branch < BRANCHES
    requires forall b :: 0 <= b < branch ==> AllFull(Parts(n, level)[b])
    requires Wf(sub, lower) && sub.itemCnt == SlotCount(n.items[branch]) && sub.maxItems == Pow8(level)
    requires w == n.weights[branch] + weight && sub.sumWeight == n.weights[branch]
    requires BranchOk(n.items[branch], n.weights[branch], level)
    requires Flat(sub, lower) == Part(n.items[branch], n.weights[branch], level)
    requires Inserted(sub, lower, sub', subIdx, item, weight)
    ensures Inserted(n, level, Rebranched(n, branch, Sub(sub'), w), Index(Pow8(level), branch, subIdx), item, weight)
  {
    FlatSize(sub, lower);
    SubPart(sub', level, lower);
    Placed(n, level, branch, Sub(sub'), w, subIdx, item, weight);
  }

  lemma SubPart(m: Node, level: nat, lower: nat)
    requires Wf(m, lower) && level == lower + 1
    ensures BranchOk(Sub(m), m.sumWeight, level) && Part(Sub(m), m.sumWeight, level) == Flat(m, lower)
  {
  }

  lemma Placed(n: Node, level: nat, branch: nat, s: Slot, w: int, j: nat, item: Item, weight: int)
    requires Wf(n, level) && branch < BRANCHES && BranchOk(s, w, level) && j < Pow8(level)
    requires forall b :: 0 <= b < branch ==> AllFull(Parts(n, level)[b])
    requires w == n.weights[branch] + weight && SlotCount(s) == SlotCount(n.items[branch]) + 1
    requires var part := Part(n.items[branch], n.weights[branch], level);
             && |part| == Pow8(level) && part[j].Blank? && (forall i :: 0 <= i < j ==> part[i].Full?)
             && Part(s, w, level) == part[j := Full(item, weight)]
    ensures Inserted(n, level, Rebranched(n, branch, s, w), Index(Pow8(level), branch, j), item, weight)
  {
    BranchUpdate(n, level, branch, s, w, j, Full(item, weight));
    FlatSize(n, level);
    FullUpTo(Parts(n, level), Pow8(level), branch, j);
  }

  lemma FullUpTo(parts: seq<seq<Cell>>, c: nat, b: nat, j: nat)
    requires AllOf(parts, c) && b < |parts| && j < c && forall k :: 0 <= k < b ==> AllFull(parts[k])
    requires forall i :: 0 <= i < j ==> parts[b][i].Full?
    ensures Index(c, b, j) < |Concat(parts)| && forall i :: 0 <= i < Index(c, b, j) ==> Concat(parts)[i].Full?
  {
    FullBefore(parts, c, b);
    ConcatAt(parts, c, b);
    forall i | 0 <= i < Index(c, b, j)
      ensures Concat(parts)[i].Full?
    {
      if i >= c * b {
        assert Concat(parts)[i] == Concat(parts)[c * b..c * b + c][i - c * b];
      }
    }
  }

  function Nils(k: nat): seq<Slot> { seq(k, _ => Nil) }

  function Zeros(k: nat): seq<int> { seq(k, _ => 0) }

  function Fresh(maxItems: nat, level: nat): Node { Node(level, maxItems, Nils(BRANCHES), Zeros(BRANCHES), 0, 0) }

  lemma {:induction false} ZeroTotals(k: nat)
    ensures Total(Zeros(k)) == 0 && Counts(Nils(k)) == 0
  {
    if k > 0 {
      ZeroTotals(k - 1);
      assert Zeros(k)[1..] == Zeros(k - 1) && Nils(k)[1..] == Nils(k - 1);
    }
  }

  lemma {:induction false} ConcatBlanks(parts: seq<seq<Cell>>, c: nat)
    requires forall b :: 0 <= b < |parts| ==> parts[b] == Blanks(c)
    ensures Concat(parts) == Blanks(|parts| * c)
  {
    if parts != [] {
      ConcatBlanks(parts[1..], c);
      assert |parts| * c == c + |parts[1..]| * c;
    }
  }

  lemma FreshWf(level: nat)
    ensures Wf(Fresh(Pow8(level + 1), level), level)
    ensures Flat(Fresh(Pow8(level + 1), level), level) == Blanks(Pow8(level + 1))
  {
    var n := Fresh(Pow8(level + 1), level);
    ZeroTotals(BRANCHES);
    assert Wf(n, level);
    forall b | 0 <= b < BRANCHES
      ensures Parts(n, level)[b] == Blanks(Pow8(level))
    {
      PartCases(n, level, b);
    }
    ConcatBlanks(Parts(n, level), Pow8(level));
  }

  method FirstFree(n: Node) returns (branch: nat)
    requires Wf(n, n.level) && n.itemCnt < n.maxItems
    ensures branch < BRANCHES && !BranchFull(n.items[branch], n.level)
    ensures forall b :: 0 <= b < branch ==> AllFull(Parts(n, n.level)[b])
  {
    branch := 0;
    while BranchFull(n.items[branch], n.level)
      invariant branch < BRANCHES && forall b :: 0 <= b < branch ==> AllFull(Parts(n, n.level)[b])
      decreases BRANCHES - branch
    {
      FullBranch(n, n.level, branch);
      if branch == BRANCHES - 1 { AllBranchesFull(n, n.level); }
      branch := branch + 1;
    }
  }

  // ---- changing a weight ----

  function Reset(c: Cell, weight: int): Cell
    requires c.Full?
  {
    if weight == 0 then Blank else Full(c.item, weight)
  }

  /** The cell at idx has the new weight, or is free if that is zero. */
  ghost predicate Reweighed(n: Node, level: nat, n': Node, idx: nat, weight: int, diff: int)
    requires Wf(n, level)
  {
    && Wf(n', level) && n'.maxItems == n.maxItems
    && idx < |Flat(n, level)| && Flat(n, level)[idx].Full? && diff == weight - Flat(n, level)[idx].weight
    && Flat(n', level) == Flat(n, level)[idx := Reset(Flat(n, level)[idx], weight)]
    && n'.sumWeight == n.sumWeight + diff && n'.itemCnt == n.itemCnt - (if weight == 0 then 1 else 0)
  }

  lemma {:induction false} CountsAtLeast(items: seq<Slot>, b: nat)
    requires b < |items|
    ensures Counts(items) >= SlotCount(items[b])
  {
    if b > 0 { CountsAtLeast(items[1..], b - 1); }
  }

  /** Which branch an index falls into, and where in it. */
  lemma Locate(n: Node, level: nat, idx: nat, branch: nat, rest: nat)
    requires Wf(n, level) && idx < n.maxItems && branch == idx / Pow8(level) && rest == idx - branch * Pow8(level)
    ensures n.maxItems / BRANCHES == Pow8(level) && branch < BRANCHES && rest < Pow8(level)
    ensures idx == Index(Pow8(level), branch, rest)
    ensures |Parts(n, level)[branch]| == Pow8(level) && idx < |Flat(n, level)|
    ensures Flat(n, level)[idx] == Parts(n, level)[branch][rest]
  {
    FlatSize(n, level);
    DivFacts(idx, Pow8(level), branch);
    ConcatAt(Parts(n, level), Pow8(level), branch);
    assert Flat(n, level)[idx] == Flat(n, level)[Pow8(level) * branch..Pow8(level) * branch + Pow8(level)][rest];
  }

  lemma DivFacts(idx: nat, c: nat, branch: nat)
    requires c > 0 && idx < 8 * c && branch == idx / c
    ensures branch < 8 && 0 <= idx - branch * c < c
  {
    assert idx == c * (idx / c) + idx % c;
    assert branch >= 8 ==> c * branch >= c * 8;
  }

  /** setWeight on the tree. */
  method Reweigh(n: Node, idx: nat, weight: int) returns (n': Node, diff: int)
    requires Wf(n, n.level) && idx < |Flat(n, n.level)| && Flat(n, n.level)[idx].Full? && weight >= 0
    ensures Reweighed(n, n.level, n', idx, weight, diff)
    decreases n.level
  {
    FlatSize(n, n.level);
    if n.level == 0 {
      n', diff := SetLeaf(n, idx, weight);
    } else {
      var branch, rest, sub := BranchOf(n, idx);
      var sub', d := Reweigh(sub, rest, weight);
      diff := d;
      ReweighedBelow(n, n.level, n.level - 1, branch, sub, sub', idx, rest, weight, diff);
      n' := n.(items := n.items[branch := Sub(sub')], weights := n.weights[branch := n.weights[branch] + diff],
               sumWeight := n.sumWeight + diff, itemCnt := if weight == 0 then n.itemCnt - 1 else n.itemCnt);
      assert n' == Rebranched(n, branch, Sub(sub'), n.weights[branch] + diff);
    }
  }

  /** The branch that holds an occupied index. */
  method BranchOf(n: Node, idx: nat) returns (branch: nat, rest: nat, sub: Node)
    requires Wf(n, n.level) && n.level > 0 && idx < |Flat(n, n.level)| && Flat(n, n.level)[idx].Full?
    ensures branch < BRANCHES && n.items[branch] == Sub(sub) && BranchOk(n.items[branch], n.weights[branch], n.level)
    ensures rest < Pow8(n.level) && idx == Index(Pow8(n.level), branch, rest)
    ensures Wf(sub, n.level - 1) && rest < |Flat(sub, n.level - 1)|
    ensures Flat(sub, n.level - 1)[rest] == Flat(n, n.level)[idx]
  {
    FlatSize(n, n.level);
    var branchItems := n.maxItems / BRANCHES;
    assert branchItems == Pow8(n.level);
    branch := idx / branchItems;
    DivFacts(idx, branchItems, branch);
    rest := idx - branch * branchItems;
    Locate(n, n.level, idx, branch, rest);
    PartCases(n, n.level, branch);
    sub := n.items[branch].node;
  }

  method SetLeaf(n: Node, idx: nat, weight: int) returns (n': Node, diff: int)
    requires Wf(n, 0) && idx < |Flat(n, 0)| && Flat(n, 0)[idx].Full? && weight >= 0
    ensures Reweighed(n, 0, n', idx, weight, diff)
  {
    FlatSize(n, 0);
    Locate(n, 0, idx, idx, 0);
    PartCases(n, 0, idx);
    CountsAtLeast(n.items, idx);
    diff := weight - n.weights[idx];
    ghost var s := if weight == 0 then Nil else n.items[idx];
    BranchUpdate(n, 0, idx, s, weight, 0, Reset(Flat(n, 0)[idx], weight));
    n' := n.(weights := n.weights[idx := weight], sumWeight := n.sumWeight + diff);
    if weight == 0 {
      n' := n'.(items := n'.items[idx := Nil], itemCnt := n'.itemCnt - 1);
    }
    assert n' == Rebranched(n, idx, s, weight);
  }

  lemma ReweighedBelow(n: Node, level: nat, lower: nat, branch: nat, sub: Node, sub': Node, idx: nat, rest: nat,
                       weight: int, diff: int)
    requires Wf(n, level) && level == lower + 1 && branch < BRANCHES && n.items[branch] == Sub(sub) && Wf(sub, lower)
    requires weight >= 0
    requires BranchOk(n.items[branch], n.weights[branch], level) && Reweighed(sub, lower, sub', rest, weight, diff)
    requires rest < Pow8(level) && idx == Index(Pow8(level), branch, rest)
    ensures n.itemCnt - SlotCount(n.items[branch]) + SlotCount(Sub(sub')) >= 0
    ensures Reweighed(n, level, Rebranched(n, branch, Sub(sub'), n.weights[branch] + diff), idx, weight, diff)
  {
    CountsAtLeast(n.items, branch);
    ReweighedSub(n, branch, sub, sub', level, lower, n.weights[branch], rest, weight, diff);
    ReweighedBranch(n, level, branch, Sub(sub'), n.weights[branch] + diff, Flat(sub, lower), rest, idx, weight, diff);
  }

  /** A branch whose cells are given becomes s, in which one cell is reset. */
  ghost predicate BranchMoves(n: Node, level: nat, branch: nat, s: Slot, w: int, cells: seq<Cell>, rest: nat,
                              weight: int, diff: int)
    requires branch < |n.items| && branch < |n.weights|
  {
    && BranchOk(s, w, level) && w == n.weights[branch] + diff && rest < Pow8(level) == |cells|
    && BranchOk(n.items[branch], n.weights[branch], level)
    && Part(n.items[branch], n.weights[branch], level) == cells && cells[rest].Full?
    && diff == weight - cells[rest].weight && Part(s, w, level) == cells[rest := Reset(cells[rest], weight)]
    && SlotCount(s) == SlotCount(n.items[branch]) - if weight == 0 then 1 else 0
  }

  lemma ReweighedSub(n: Node, branch: nat, sub: Node, sub': Node, level: nat, lower: nat, w: int, rest: nat,
                     weight: int, diff: int)
    requires level == lower + 1 && Wf(sub, lower) && BranchOk(Sub(sub), w, level) && rest < Pow8(level)
    requires branch < |n.items| && branch < |n.weights| && n.items[branch] == Sub(sub) && n.weights[branch] == w
    requires Reweighed(sub, lower, sub', rest, weight, diff)
    ensures BranchMoves(n, level, branch, Sub(sub'), w + diff, Flat(sub, lower), rest, weight, diff)
  {
    FlatSize(sub, lower);
    SubPart(sub, level, lower);
    SubPart(sub', level, lower);
  }

  lemma ReweighedBranch(n: Node, level: nat, branch: nat, s: Slot, w: int, cells: seq<Cell>, rest: nat, idx: nat,
                        weight: int, diff: int)
    requires branch < |n.items| && branch < |n.weights|
    ensures Wf(n, level) && branch < BRANCHES && BranchMoves(n, level, branch, s, w, cells, rest, weight, diff) &&
            idx == Index(Pow8(level), branch, rest) &&
            n.itemCnt - SlotCount(n.items[branch]) + SlotCount(s) >= 0 ==>
              Reweighed(n, level, Rebranched(n, branch, s, w), idx, weight, diff)
  {
    if Wf(n, level) && branch < BRANCHES && BranchMoves(n, level, branch, s, w, cells, rest, weight, diff) &&
       idx == Index(Pow8(level), branch, rest) && n.itemCnt - SlotCount(n.items[branch]) + SlotCount(s) >= 0 {
      BranchUpdate(n, level, branch, s, w, rest, Reset(cells[rest], weight));
    }
  }

  // ---- adding a level ----

  function Deepened(root: Node): Node {
    Node(root.level + 1, root.maxItems * BRANCHES, Nils(BRANCHES)[0 := Sub(root)],
         Zeros(BRANCHES)[0 := root.sumWeight], root.sumWeight, root.itemCnt)
  }

  /** A new level on top leaves every item at its index. */
  lemma DeepenedFlat(root: Node, level: nat)
    requires Wf(root, level)
    ensures Wf(Deepened(root), level + 1)
    ensures Flat(Deepened(root), level + 1) == Flat(root, level) + Blanks(7 * root.maxItems)
  {
    var n, c := Deepened(root), Pow8(level + 1);
    ZeroTotals(BRANCHES);
    TotalUpdate(Zeros(BRANCHES), 0, root.sumWeight);
    CountsUpdate(Nils(BRANCHES), 0, Sub(root));
    assert Wf(n, level + 1);
    var parts := Parts(n, level + 1);
    PartCases(n, level + 1, 0);
    forall b | 1 <= b < BRANCHES
      ensures parts[b] == Blanks(c)
    {
      PartCases(n, level + 1, b);
    }
    ConcatBlanks(parts[1..], c);
  }

  // ---- choosing ----

  /** choose: the cell in whose stretch of the total weight val lies. */
  method Choose(n: Node, val: int) returns (item: Item, weight: int, ghost k: nat)
    requires Wf(n, n.level) && 0 <= val < n.sumWeight
    ensures k < |Flat(n, n.level)| && Flat(n, n.level)[k] == Full(item, weight)
    ensures Sum(Flat(n, n.level)[..k]) <= val < Sum(Flat(n, n.level)[..k]) + weight
    ensures exists j: nat :: Hits(Flat(n, n.level), val, j) && Flat(n, n.level)[j] == Full(item, weight)
    decreases n.level
  {
    var v, i := val, 0;
    assert n.weights[0..] == n.weights;
    while v >= n.weights[i]
      invariant 0 <= i < BRANCHES && 0 <= v < Total(n.weights[i..])
      invariant v == val - (Total(n.weights) - Total(n.weights[i..]))
      decreases BRANCHES - i
    {
      assert n.weights[i..][1..] == n.weights[i + 1..];
      v := v - n.weights[i];
      i := i + 1;
    }
    PartCases(n, n.level, i);
    if n.level == 0 {
      item, weight := n.items[i].item, n.weights[i];
      k := ChosenCell(n, n.level, i, v, val, 0);
    } else {
      ghost var j;
      item, weight, j := Choose(n.items[i].node, v);
      k := ChosenCell(n, n.level, i, v, val, j);
    }
    assert Hits(Flat(n, n.level), val, k);
  }

  lemma ChosenCell(n: Node, level: nat, i: nat, v: int, val: int, j: nat) returns (k: nat)
    requires Wf(n, level) && i < BRANCHES && v == val - (Total(n.weights) - Total(n.weights[i..]))
    requires j < |Parts(n, level)[i]|
    requires Sum(Parts(n, level)[i][..j]) <= v < Sum(Parts(n, level)[i][..j]) + Weight(Parts(n, level)[i][j])
    ensures k < |Flat(n, level)| && Flat(n, level)[k] == Parts(n, level)[i][j]
    ensures Sum(Flat(n, level)[..k]) <= val < Sum(Flat(n, level)[..k]) + Weight(Flat(n, level)[k])
  {
    FlatSize(n, level);
    Exact(n, level);
    var c := Pow8(level);
    k := Index(c, i, j);
    PrefixSum(Parts(n, level), c, n.weights, i, j);
  }

  /** The weight before cell j of branch b. */
  lemma {:induction false} PrefixSum(parts: seq<seq<Cell>>, c: nat, weights: seq<int>, b: nat, j: nat)
    requires AllOf(parts, c) && |weights| == |parts| && (forall i :: 0 <= i < |parts| ==> weights[i] == Sum(parts[i]))
    requires b < |parts| && j < c
    ensures Index(c, b, j) < |Concat(parts)| && Concat(parts)[Index(c, b, j)] == parts[b][j]
    ensures Sum(Concat(parts)[..Index(c, b, j)]) == Total(weights) - Total(weights[b..]) + Sum(parts[b][..j])
  {
    ConcatSize(parts[1..], c);
    if b == 0 {
      assert Index(c, 0, j) == j;
      assert Concat(parts)[..j] == parts[0][..j];
      assert weights[0..] == weights;
    } else {
      PrefixSum(parts[1..], c, weights[1..], b - 1, j);
      assert Index(c, b, j) == c + Index(c, b - 1, j);
      assert Concat(parts)[..Index(c, b, j)] == parts[0] + Concat(parts[1..])[..Index(c, b - 1, j)];
      SumAppend(parts[0], Concat(parts[1..])[..Index(c, b - 1, j)]);
      assert weights[1..][b - 1..] == weights[b..];
    }
  }

  // ---- how often a cell is chosen ----

  /** val falls into the stretch of cell k. */
  ghost predicate Hits(cells: seq<Cell>, val: int, k: nat) {
    k < |cells| && Sum(cells[..k]) <= val < Sum(cells[..k]) + Weight(cells[k])
  }

  ghost predicate Positive(cells: seq<Cell>) { forall k :: 0 <= k < |cells| && cells[k].Full? ==> cells[k].weight > 0 }

  lemma {:induction false} ConcatPositive(parts: seq<seq<Cell>>)
    requires forall b :: 0 <= b < |parts| ==> Positive(parts[b])
    ensures Positive(Concat(parts))
  {
    if parts != [] { ConcatPositive(parts[1..]); }
  }

  lemma {:induction false} FlatPositive(n: Node, level: nat)
    requires Wf(n, level)
    ensures Positive(Flat(n, level))
    decreases level
  {
    forall b | 0 <= b < BRANCHES
      ensures Positive(Parts(n, level)[b])
    {
      PartCases(n, level, b);
      if n.items[b].Sub? { FlatPositive(n.items[b].node, level - 1); }
    }
    ConcatPositive(Parts(n, level));
  }

  lemma {:induction false} PrefixGrows(cells: seq<Cell>, i: nat, k: nat)
    requires Positive(cells) && i < k <= |cells|
    ensures 0 <= Sum(cells[..i]) && Sum(cells[..i]) + Weight(cells[i]) <= Sum(cells[..k])
    decreases k
  {
    assert cells[..k] == cells[..k - 1] + [cells[k - 1]];
    SumAppend(cells[..k - 1], [cells[k - 1]]);
    OneCell(cells[k - 1]);
    if i < k - 1 {
      PrefixGrows(cells, i, k - 1);
    } else if i > 0 {
      PrefixGrows(cells, 0, i);
    }
  }

  /** The stretches do not overlap and fill [0, sum): a value hits one cell, and that only. */
  lemma HitsOnce(cells: seq<Cell>, val: int, k: nat, m: nat)
    requires Positive(cells) && Hits(cells, val, k) && Hits(cells, val, m)
    ensures k == m
  {
    if k < m { PrefixGrows(cells, k, m); }
    if m < k { PrefixGrows(cells, m, k); }
  }

  /** Each item is chosen by exactly as many of the values below the sum as its weight says. */
  lemma HitCount(cells: seq<Cell>, k: nat)
    requires Positive(cells) && k < |cells|
    ensures |set val | 0 <= val < Sum(cells) && Hits(cells, val, k)| == Weight(cells[k])
  {
    var lo, hi := Sum(cells[..k]), Sum(cells[..k]) + Weight(cells[k]);
    PrefixGrows(cells, k, |cells|);
    assert cells[..|cells|] == cells;
    assert (set val | 0 <= val < Sum(cells) && Hits(cells, val, k)) == Range(lo, hi);
  }

  function Range(lo: int, hi: int): (r: set<int>)
    requires lo <= hi
    ensures |r| == hi - lo && forall v :: v in r <==> lo <= v < hi
    decreases hi - lo
  {
    if lo == hi then {} else Range(lo, hi - 1) + {hi - 1}
  }

  // ---- the selector ----

  /** The index maps exactly the items of the tree to their cells. */
  ghost predicate IndexOk(cells: seq<Cell>, idx: map<Item, nat>) {
    && (forall item :: item in idx ==> idx[item] < |cells| && cells[idx[item]].Full? && cells[idx[item]].item == item)
    && (forall k :: 0 <= k < |cells| && cells[k].Full? ==> cells[k].item in idx && idx[cells[k].item] == k)
  }

  ghost function WeightOf(cells: seq<Cell>, idx: map<Item, nat>, item: Item): int
    requires IndexOk(cells, idx)
  {
    if item in idx then cells[idx[item]].weight else 0
  }

  /** A draw of val picks the item. */
  ghost predicate Picks(cells: seq<Cell>, idx: map<Item, nat>, val: int, item: Item) {
    item in idx && Hits(cells, val, idx[item])
  }

  /** An item is picked by exactly as many of the values below the total as its weight says; an item
      that is not listed by none. */
  lemma PickCount(cells: seq<Cell>, idx: map<Item, nat>, item: Item)
    requires Positive(cells) && IndexOk(cells, idx)
    ensures |set val | 0 <= val < Sum(cells) && Picks(cells, idx, val, item)| == WeightOf(cells, idx, item)
  {
    var drawn := set val | 0 <= val < Sum(cells) && Picks(cells, idx, val, item);
    if item in idx {
      HitCount(cells, idx[item]);
      assert drawn == set val | 0 <= val < Sum(cells) && Hits(cells, val, idx[item]);
    } else {
      assert drawn == {};
    }
  }

  lemma NothingWeighs(cells: seq<Cell>, idx: map<Item, nat>)
    requires Positive(cells) && IndexOk(cells, idx)
    ensures Sum(cells) >= 0 && (Sum(cells) == 0 <==> idx == map[])
  {
    if item :| item in idx {
      PrefixGrows(cells, idx[item], |cells|);
      assert cells[..|cells|] == cells;
    } else {
      NoneFull(cells);
    }
  }

  lemma {:induction false} NoneFull(cells: seq<Cell>)
    requires forall k :: 0 <= k < |cells| ==> !cells[k].Full?
    ensures Sum(cells) == 0
  {
    if cells != [] { NoneFull(cells[1..]); }
  }

  class WeightedRandomSelect {
    var root: Node
    var idx: map<Item, nat>

    ghost predicate Valid()
      reads this
    {
      Wf(root, root.level) && IndexOk(Cells(), idx)
    }

    ghost function Cells(): seq<Cell>
      requires Wf(root, root.level)
      reads this
    {
      Flat(root, root.level)
    }

    constructor ()
      ensures Valid() && idx == map[] && root.sumWeight == 0
    {
      root, idx := Fresh(BRANCHES, 0), map[];
      new;
      assert Pow8(1) == BRANCHES;
      FreshWf(0);
    }

    /** setWeight: the item gets the weight, all others keep theirs and their index. */
    method SetWeight(item: Item, weight: int)
      requires Valid() && weight >= 0
      modifies this
      ensures Valid() && WeightOf(Cells(), idx, item) == weight && (item in idx <==> weight > 0)
      ensures item in old(idx) && item in idx ==> idx[item] == old(idx)[item]
      ensures forall x :: x != item ==> (x in idx <==> x in old(idx)) && (x in idx ==> idx[x] == old(idx)[x])
      ensures forall x :: x != item ==> WeightOf(Cells(), idx, x) == old(WeightOf(Cells(), idx, x))
      ensures root.sumWeight == old(root.sumWeight) + weight - old(WeightOf(Cells(), idx, item))
    {
      if item in idx {
        var n', diff := Reweigh(root, idx[item], weight);
        root := n';
        if weight == 0 {
          idx := idx - {item};
        }
      } else if weight != 0 {
        AddItem(item, weight);
      }
    }

    method AddItem(item: Item, weight: int)
      requires Valid() && weight > 0 && item !in idx
      modifies this
      ensures Valid() && WeightOf(Cells(), idx, item) == weight && item in idx
      ensures forall x :: x != item ==> (x in idx <==> x in old(idx)) && (x in idx ==> idx[x] == old(idx)[x])
      ensures forall x :: x != item ==> WeightOf(Cells(), idx, x) == old(WeightOf(Cells(), idx, x))
      ensures root.sumWeight == old(root.sumWeight) + weight
    {
      FlatSize(root, root.level);
      Exact(root, root.level);
      CountAll(Cells());
      if root.itemCnt == root.maxItems {
        AddLevel();
      }
      var n', i := Insert(root, item, weight);
      root, idx := n', idx[item := i];
    }

    method AddLevel()
      requires Valid() && root.itemCnt == root.maxItems
      modifies this`root
      ensures Valid() && root.itemCnt < root.maxItems && root.sumWeight == old(root.sumWeight)
      ensures forall x :: WeightOf(Cells(), idx, x) == old(WeightOf(Cells(), idx, x))
    {
      DeepenedFlat(root, root.level);
      FlatSize(root, root.level);
      root := Deepened(root);
    }

    /** One draw of choose: the value picks this item, and no other. */
    method Pick(val: int) returns (item: Item, weight: int)
      requires Valid() && 0 <= val < root.sumWeight
      ensures item in idx && weight == WeightOf(Cells(), idx, item) && weight > 0
      ensures forall x :: Picks(Cells(), idx, val, x) <==> x == item
    {
      ghost var k;
      item, weight, k := Choose(root, val);
      FlatPositive(root, root.level);
      forall x | Picks(Cells(), idx, val, x)
        ensures x == item
      {
        HitsOnce(Cells(), val, idx[x], k);
      }
    }

    /** What every listed item weighs. */
    ghost function Weights(): map<Item, int>
      requires Valid()
      reads this
    {
      WeightsIn(Cells(), idx)
    }

    /** The total is that of the weights: it is zero exactly if nothing is listed. */
    lemma TotalWeighs()
      requires Valid()
      ensures root.sumWeight >= 0 && (root.sumWeight == 0 <==> idx == map[])
    {
      Exact(root, root.level);
      FlatPositive(root, root.level);
      NothingWeighs(Cells(), idx);
    }

    /** One round of choose: an item is drawn and gets its current weight. If that has decreased, the
        item is accepted only if the second random number is below it. */
    method Round(i: nat, current: (nat, Item) -> nat, val: int, coin: (nat, int) -> int)
      returns (item: Item, accepted: bool)
      requires Valid() && 0 <= val < root.sumWeight
      modifies this
      ensures Valid() && item in old(idx) && Picks(old(Cells()), old(idx), val, item)
      ensures forall x :: x in idx ==> x in old(idx) && idx[x] == old(idx)[x]
      ensures Weights() == Updated(old(Weights()), item, current(i, item))
      ensures var last := old(Weights())[item]; accepted <==>
              current(i, item) >= last || coin(i, last) < current(i, item)
      ensures !accepted ==> root.sumWeight < old(root.sumWeight)
    {
      var last;
      item, last := Pick(val);
      var weight := current(i, item);
      Refresh(item, last, weight);
      accepted := weight >= last || coin(i, last) < weight;
    }

    /** A listed item of weight last gets its new weight. */
    method Refresh(item: Item, last: int, weight: nat)
      requires Valid() && item in idx && last == WeightOf(Cells(), idx, item) && last > 0
      modifies this
      ensures Valid() && Weights() == Updated(old(Weights()), item, weight)
      ensures forall x :: x in idx ==> x in old(idx) && idx[x] == old(idx)[x]
      ensures root.sumWeight == old(root.sumWeight) + weight - last
    {
      if weight != last {
        SetWeight(item, weight);
      }
    }

    /** choose: draws until an item is accepted; one that is not is drawn again with its lower
        weight. current(i, x) is x's own weight in the i-th round, draw(i, n) and coin(i, n) are
        that round's random numbers below n; turns tells what each round found and drew. */
    method ChooseItem(current: (nat, Item) -> nat, draw: (nat, int) -> int, coin: (nat, int) -> int)
      returns (choice: Option<Item>, ghost turns: seq<Turn>)
      requires Valid() && forall i, n :: n > 0 ==> 0 <= draw(i, n) < n && 0 <= coin(i, n) < n
      modifies this
      ensures Valid() && Drawn(current, draw, turns, Turn(old(Cells()), old(idx), 0), Cells(), idx)
      ensures Follows(current, |turns|, old(Weights()), Weights())
      ensures forall i: nat :: i + 1 < |turns| ==> !Passes(current, coin, turns[i], i)
      ensures choice.Some? ==> turns != [] && choice.value == turns[|turns| - 1].item
      ensures choice.Some? ==> Passes(current, coin, turns[|turns| - 1], |turns| - 1)
      ensures choice.Some? ==>
              choice.value in Weights() && Weights()[choice.value] == current(|turns| - 1, choice.value)
      ensures choice.None? ==>
              Weights() == map[] && forall i: nat :: i < |turns| ==> !Passes(current, coin, turns[i], i)
      ensures old(root.sumWeight) > 0 && (forall x :: x in old(idx) ==> current(0, x) >= old(Weights())[x]) ==>
              choice.Some? && Picks(old(Cells()), old(idx), draw(0, old(root.sumWeight)), choice.value)
    {
      choice, turns := DrawAll(current, draw, coin);
      ghost var start := Turn(old(Cells()), old(idx), 0);
      Decided(current, draw, coin, turns, start, Cells(), idx);
    }

    /** The loop of choose. */
    method DrawAll(current: (nat, Item) -> nat, draw: (nat, int) -> int, coin: (nat, int) -> int)
      returns (choice: Option<Item>, ghost turns: seq<Turn>)
      requires Valid() && forall i, n :: n > 0 ==> 0 <= draw(i, n) < n && 0 <= coin(i, n) < n
      modifies this
      ensures Valid() && Drawn(current, draw, turns, Turn(old(Cells()), old(idx), 0), Cells(), idx)
      ensures forall i: nat :: i + 1 < |turns| ==> !Passes(current, coin, turns[i], i)
      ensures choice.Some? ==>
              turns != [] && choice.value == turns[|turns| - 1].item &&
                  Passes(current, coin, turns[|turns| - 1], |turns| - 1)
      ensures choice.None? ==> idx == map[] && forall i: nat :: i < |turns| ==> !Passes(current, coin, turns[i], i)
      ensures old(root.sumWeight) == Sum(old(Cells())) && (old(root.sumWeight) > 0 ==> turns != [])
    {
      ghost var start := Turn(Cells(), idx, 0);
      turns := [];
      var i := 0;
      TotalIs();
      while root.sumWeight > 0
        invariant Valid() && root.sumWeight >= 0 && |turns| == i && (i == 0 ==> root == old(root))
        invariant Drawn(current, draw, turns, start, Cells(), idx)
        invariant forall k: nat :: k < i ==> !Passes(current, coin, turns[k], k)
        decreases root.sumWeight
      {
        var item, accepted;
        item, accepted, turns := TakeNext(i, current, draw, coin, turns, start);
        i := i + 1;
        if accepted {
          return Some(item), turns;
        }
      }
      TotalIs();
      return None, turns;
    }

    /** One more round. */
    method TakeNext(i: nat, current: (nat, Item) -> nat, draw: (nat, int) -> int, coin: (nat, int) -> int,
                    ghost before: seq<Turn>, ghost start: Turn)
      returns (item: Item, accepted: bool, ghost turns: seq<Turn>)
      requires Valid() && root.sumWeight > 0 && forall n :: n > 0 ==> 0 <= draw(i, n) < n
      requires |before| == i && Drawn(current, draw, before, start, Cells(), idx)
      modifies this
      ensures Valid() && 0 <= root.sumWeight && (!accepted ==> root.sumWeight < old(root.sumWeight))
      ensures |turns| == i + 1 && (forall k: nat :: k < i ==> turns[k] == before[k]) && turns[i].item == item
      ensures Drawn(current, draw, turns, start, Cells(), idx) && (accepted <==> Passes(current, coin, turns[i], i))
    {
      ghost var t;
      item, accepted, t := Take(i, current, draw, coin);
      DrawnMore(current, draw, before, start, t, Cells(), idx);
      turns := before + [t];
    }

    /** One round as a turn. */
    method Take(i: nat, current: (nat, Item) -> nat, draw: (nat, int) -> int, coin: (nat, int) -> int)
      returns (item: Item, accepted: bool, ghost t: Turn)
      requires Valid() && root.sumWeight > 0 && forall n :: n > 0 ==> 0 <= draw(i, n) < n
      modifies this
      ensures Valid() && 0 <= root.sumWeight && (!accepted ==> root.sumWeight < old(root.sumWeight))
      ensures t == Turn(old(Cells()), old(idx), item) && TurnOk(current, draw, t, i, Cells(), idx)
      ensures accepted <==> Passes(current, coin, t, i)
    {
      t := Turn(Cells(), idx, 0);
      TotalIs();
      item, accepted := Round(i, current, draw(i, root.sumWeight), coin);
      t := t.(item := item);
      TotalIs();
    }

    lemma TotalIs()
      requires Valid()
      ensures 0 <= root.sumWeight == Sum(Cells()) && (root.sumWeight == 0 <==> idx == map[])
    {
      Exact(root, root.level);
      TotalWeighs();
    }
  }

  ghost function WeightsIn(cells: seq<Cell>, idx: map<Item, nat>): map<Item, int>
    requires IndexOk(cells, idx)
  {
    map item | item in idx :: WeightOf(cells, idx, item)
  }

  /** What a round of choose finds, and the item it draws. */
  datatype Turn = Turn(cells: seq<Cell>, idx: map<Item, nat>, item: Item)

  /** Round i draws the item its random number picks, which gets its own weight; nothing else moves. */
  ghost predicate TurnOk(current: (nat, Item) -> nat, draw: (nat, int) -> int, t: Turn, i: nat, cells: seq<Cell>,
                         idx: map<Item, nat>) {
    && IndexOk(t.cells, t.idx) && IndexOk(cells, idx) && Sum(t.cells) > 0
    && Picks(t.cells, t.idx, draw(i, Sum(t.cells)), t.item)
    && WeightsIn(cells, idx) == Updated(WeightsIn(t.cells, t.idx), t.item, current(i, t.item))
    && forall x :: x in idx ==> x in t.idx && idx[x] == t.idx[x]
  }

  /** What round i leaves to the next, or to the end. */
  function After(turns: seq<Turn>, i: nat, end: Turn): Turn { if i + 1 < |turns| then turns[i + 1] else end }

  /** The rounds lead from start to the given cells. */
  ghost predicate Drawn(current: (nat, Item) -> nat, draw: (nat, int) -> int, turns: seq<Turn>, start: Turn,
                        cells: seq<Cell>, idx: map<Item, nat>) {
    && (turns == [] ==> cells == start.cells && idx == start.idx)
    && (turns != [] ==> turns[0].cells == start.cells && turns[0].idx == start.idx)
    && forall i: nat :: i < |turns| ==> DrawnAt(current, draw, turns, i, Turn(cells, idx, 0))
  }

  ghost predicate DrawnAt(current: (nat, Item) -> nat, draw: (nat, int) -> int, turns: seq<Turn>, i: nat, end: Turn) {
    i < |turns| && TurnOk(current, draw, turns[i], i, After(turns, i, end).cells, After(turns, i, end).idx)
  }

  /** The drawn item is taken: its own weight has not fallen, or the coin lies below it. */
  ghost predicate Passes(current: (nat, Item) -> nat, coin: (nat, int) -> int, t: Turn, i: nat) {
    IndexOk(t.cells, t.idx) ==>
      var last := WeightOf(t.cells, t.idx, t.item);
      current(i, t.item) >= last || coin(i, last) < current(i, t.item)
  }

  lemma DrawnMore(current: (nat, Item) -> nat, draw: (nat, int) -> int, turns: seq<Turn>, start: Turn, t: Turn,
                  cells: seq<Cell>, idx: map<Item, nat>)
    ensures Drawn(current, draw, turns, start, t.cells, t.idx) && TurnOk(current, draw, t, |turns|, cells, idx) ==>
              Drawn(current, draw, turns + [t], start, cells, idx)
  {
    if Drawn(current, draw, turns, start, t.cells, t.idx) && TurnOk(current, draw, t, |turns|, cells, idx) {
      var more, end := turns + [t], Turn(cells, idx, 0);
      forall i: nat | i < |more|
        ensures DrawnAt(current, draw, more, i, end)
      {
        if i < |turns| { assert DrawnAt(current, draw, turns, i, Turn(t.cells, t.idx, 0)); }
      }
    }
  }

  /** If no item's own weight has fallen, the first round decides. */
  lemma FirstPicks(current: (nat, Item) -> nat, draw: (nat, int) -> int, coin: (nat, int) -> int, turns: seq<Turn>,
                   start: Turn, cells: seq<Cell>, idx: map<Item, nat>)
    requires turns != [] && Drawn(current, draw, turns, start, cells, idx) && IndexOk(start.cells, start.idx)
    requires forall k: nat :: k + 1 < |turns| ==> !Passes(current, coin, turns[k], k)
    ensures (forall x :: x in start.idx ==> current(0, x) >= WeightsIn(start.cells, start.idx)[x]) ==>
              |turns| == 1 && Passes(current, coin, turns[0], 0) &&
                  Picks(start.cells, start.idx, draw(0, Sum(start.cells)), turns[0].item)
  {
    assert DrawnAt(current, draw, turns, 0, Turn(cells, idx, 0));
    if |turns| > 1 { assert !Passes(current, coin, turns[0], 0); }
  }

  /** An item that is taken has its own weight of the last round. */
  lemma LastWeighs(current: (nat, Item) -> nat, draw: (nat, int) -> int, coin: (nat, int) -> int, turns: seq<Turn>,
                   start: Turn, cells: seq<Cell>, idx: map<Item, nat>)
    requires turns != [] && Drawn(current, draw, turns, start, cells, idx) && IndexOk(cells, idx)
    requires forall i, n :: n > 0 ==> coin(i, n) >= 0
    ensures var last := |turns| - 1;
            var item := turns[last].item;
            Passes(current, coin, turns[last], last) ==>
              item in WeightsIn(cells, idx) && WeightsIn(cells, idx)[item] == current(last, item)
  {
    var last := |turns| - 1;
    assert DrawnAt(current, draw, turns, last, Turn(cells, idx, 0));
  }

  lemma Decided(current: (nat, Item) -> nat, draw: (nat, int) -> int, coin: (nat, int) -> int, turns: seq<Turn>,
                start: Turn, cells: seq<Cell>, idx: map<Item, nat>)
    requires IndexOk(start.cells, start.idx) && IndexOk(cells, idx) && forall i, n :: n > 0 ==> coin(i, n) >= 0
    ensures Drawn(current, draw, turns, start, cells, idx) ==>
              Follows(current, |turns|, WeightsIn(start.cells, start.idx), WeightsIn(cells, idx))
    ensures Drawn(current, draw, turns, start, cells, idx) && turns != [] ==>
              var last := |turns| - 1;
              var item := turns[last].item;
              Passes(current, coin, turns[last], last) ==>
                item in WeightsIn(cells, idx) && WeightsIn(cells, idx)[item] == current(last, item)
    ensures Drawn(current, draw, turns, start, cells, idx) && turns != [] &&
            (forall k: nat :: k + 1 < |turns| ==> !Passes(current, coin, turns[k], k)) &&
            (forall x :: x in start.idx ==> current(0, x) >= WeightsIn(start.cells, start.idx)[x]) ==>
              |turns| == 1 && Passes(current, coin, turns[0], 0) &&
                  Picks(start.cells, start.idx, draw(0, Sum(start.cells)), turns[0].item)
  {
    if Drawn(current, draw, turns, start, cells, idx) {
      FollowsDrawn(current, draw, turns, start, cells, idx);
      if turns != [] {
        LastWeighs(current, draw, coin, turns, start, cells, idx);
        if forall k: nat :: k + 1 < |turns| ==> !Passes(current, coin, turns[k], k) {
          FirstPicks(current, draw, coin, turns, start, cells, idx);
        }
      }
    }
  }

  ghost function Updated(w: map<Item, int>, item: Item, weight: nat): map<Item, int> {
    if weight == 0 then w - {item} else w[item := weight]
  }

  /** Every item still has its stored weight or its own one of some round before k, and none is new. */
  ghost predicate Follows(current: (nat, Item) -> nat, k: nat, w0: map<Item, int>, w: map<Item, int>) {
    && (forall x :: x in w ==> x in w0 && (w[x] == w0[x] || WasAt(current, k, x, w[x])))
    && (forall x :: x in w0 && x !in w ==> WasAt(current, k, x, 0))
  }

  ghost predicate WasAt(current: (nat, Item) -> nat, k: nat, x: Item, weight: int) {
    exists i: nat :: i < k && current(i, x) == weight
  }

  lemma UpdateFollows(current: (nat, Item) -> nat, k: nat, w0: map<Item, int>, w: map<Item, int>, item: Item)
    requires Follows(current, k, w0, w) && item in w
    ensures Follows(current, k + 1, w0, Updated(w, item, current(k, item)))
  {
    forall x, v | WasAt(current, k, x, v)
      ensures WasAt(current, k + 1, x, v)
    {
    }
    assert WasAt(current, k + 1, item, current(k, item));
  }

  lemma {:induction false} FollowsDrawn(current: (nat, Item) -> nat, draw: (nat, int) -> int, turns: seq<Turn>,
                                        start: Turn, cells: seq<Cell>, idx: map<Item, nat>)
    requires Drawn(current, draw, turns, start, cells, idx) && IndexOk(start.cells, start.idx) && IndexOk(cells, idx)
    ensures Follows(current, |turns|, WeightsIn(start.cells, start.idx), WeightsIn(cells, idx))
  {
    if turns != [] {
      var k := |turns| - 1;
      var t := turns[k];
      assert DrawnAt(current, draw, turns, k, Turn(cells, idx, 0));
      DrawnLess(current, draw, turns, start, cells, idx);
      FollowsDrawn(current, draw, turns[..k], start, t.cells, t.idx);
      UpdateFollows(current, k, WeightsIn(start.cells, start.idx), WeightsIn(t.cells, t.idx), t.item);
    }
  }

  lemma DrawnLess(current: (nat, Item) -> nat, draw: (nat, int) -> int, turns: seq<Turn>, start: Turn,
                  cells: seq<Cell>, idx: map<Item, nat>)
    requires turns != [] && Drawn(current, draw, turns, start, cells, idx)
    ensures var k := |turns| - 1; Drawn(current, draw, turns[..k], start, turns[k].cells, turns[k].idx)
  {
    var k := |turns| - 1;
    var end := Turn(turns[k].cells, turns[k].idx, 0);
    forall i: nat | i < k
      ensures DrawnAt(current, draw, turns[..k], i, end)
    {
      assert DrawnAt(current, draw, turns, i, Turn(cells, idx, 0));
    }
  }
}
