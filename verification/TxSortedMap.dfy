/** txSortedMap of chain/core/tx_list.go: a nonce-to-transaction map with a heap of its
    nonces and an optional nonce-sorted cache of its contents. */
module TxSortedMap {
  import opened TxModel
  import Heap = BinaryHeap

  datatype Cache = NoCache | Sorted(txs: seq<Tx>)

  /** The filters txList passes down: too expensive for the limits, or behind a nonce. */
  datatype Criterion = Over(cost: nat, gas: nat) | Behind(nonce: nat)

  predicate Selects(c: Criterion, tx: Tx) {
    match c
    case Over(cost, gas) => Dear(tx, cost, gas)
    case Behind(nonce) => tx.nonce > nonce
  }

  function Self(n: nat): int { n }

  /** h enumerates ks without repetition. */
  ghost predicate Enumerates(h: seq<nat>, ks: set<nat>) { multiset(h) == multiset(ks) }

  lemma EnumeratesFacts(h: seq<nat>, ks: set<nat>)
    requires Enumerates(h, ks)
    ensures forall n :: n in h <==> n in ks
    ensures |h| == |ks|
    ensures forall i, j :: 0 <= i < j < |h| ==> h[i] != h[j]
  {
    assert forall n :: n in h <==> n in multiset(h);
    assert |multiset(h)| == |multiset(ks)|;
    forall i, j | 0 <= i < j < |h|
      ensures h[i] != h[j]
    {
      assert h == h[..j] + [h[j]] + h[j + 1..];
      assert multiset(h)[h[j]] == multiset(h[..j])[h[j]] + 1 + multiset(h[j + 1..])[h[j]];
      assert h[..j][i] == h[i];
    }
  }

  predicate Ascending(s: seq<nat>) { forall i, j :: 0 <= i < j < |s| ==> s[i] <= s[j] }

  /** sort.Sort on a slice of nonces: an ordered rearrangement. */
  method SortNonces(h: seq<nat>) returns (s: seq<nat>)
    ensures multiset(s) == multiset(h) && Ascending(s)
  {
    s := [];
    var k := 0;
    while k < |h|
      invariant 0 <= k <= |h| && multiset(s) == multiset(h[..k]) && Ascending(s)
    {
      assert h[..k + 1] == h[..k] + [h[k]];
      s := InsertSorted(s, h[k]);
      k := k + 1;
    }
    assert h[..|h|] == h;
  }

  method InsertSorted(s: seq<nat>, x: nat) returns (r: seq<nat>)
    requires Ascending(s)
    ensures Ascending(r) && multiset(r) == multiset(s) + multiset{x}
  {
    var p := 0;
    while p < |s| && s[p] <= x
      invariant 0 <= p <= |s| && forall i :: 0 <= i < p ==> s[i] <= x
    {
      p := p + 1;
    }
    r := s[..p] + [x] + s[p..];
    assert multiset(s) == multiset(s[..p]) + multiset(s[p..]) by { assert s == s[..p] + s[p..]; }
  }

  /** The linear search of Remove. */
  method Find(h: seq<nat>, nonce: nat) returns (i: nat)
    requires nonce in h
    ensures i < |h| && h[i] == nonce && nonce !in h[..i]
  {
    i := 0;
    while h[i] != nonce
      invariant 0 <= i < |h| && nonce !in h[..i]
      decreases |h| - i
    {
      assert h == h[..i + 1] + h[i + 1..];
      i := i + 1;
    }
  }

  class SortedMap {
    var items: Items
    var index: seq<nat>
    var cache: Cache

    ghost predicate Valid()
      reads this
    {
      && Filed(items)
      && Heap.IsHeap(Self, index) && Enumerates(index, items.Keys)
      && (cache.Sorted? ==> IsFlat(items, cache.txs))
    }

    constructor ()
      ensures Valid() && items == map[]
    {
      items, index, cache := map[], [], NoCache;
    }

    /** Put: inserts or overwrites. */
    method Put(tx: Tx)
      requires Valid()
      modifies this
      ensures Valid() && items == old(items)[tx.nonce := tx]
    {
      if tx.nonce !in items {
        index := Heap.Push(Self, index, tx.nonce);
        assert items[tx.nonce := tx].Keys == items.Keys + {tx.nonce};
      } else {
        assert items[tx.nonce := tx].Keys == items.Keys;
      }
      items, cache := items[tx.nonce := tx], NoCache;
    }

    /** Popping the lowest nonce off the heap and the map. */
    method PopLowest() returns (tx: Tx)
      requires Valid() && |index| > 0
      modifies this`items, this`index
      ensures Filed(items) && Heap.IsHeap(Self, index) && Enumerates(index, items.Keys)
      ensures tx.nonce == old(index)[0] && Has(old(items), tx) && items == old(items) - {tx.nonce}
      ensures forall n :: n in old(items) ==> tx.nonce <= n
      ensures |index| == |old(index)| - 1
    {
      EnumeratesFacts(index, items.Keys);
      var rest, n := Heap.Pop(Self, index);
      assert forall m :: m in items ==> m in multiset(index);
      tx := items[n];
      index := rest;
      assert (items - {n}).Keys == items.Keys - {n};
      items := items - {n};
    }

    /** Forward: drops and returns everything below the threshold, in nonce order. */
    method Forward(threshold: nat) returns (removed: seq<Tx>)
      requires Valid()
      modifies this
      ensures Valid() && items == From(old(items), threshold)
      ensures IsFlat(Below(old(items), threshold), removed)
    {
      removed := [];
      ghost var all := items;
      ghost var cut: nat := 0;
      var kept := cache;
      cache := NoCache;
      while |index| > 0 && index[0] < threshold
        invariant Valid() && cache == NoCache && cut <= threshold
        invariant items == From(all, cut) && IsFlat(Below(all, cut), removed)
        decreases |index|
      {
        var tx := PopLowest();
        TakeOne(all, cut, removed, tx);
        removed, cut := removed + [tx], tx.nonce + 1;
      }
      NoneBelow(index, items, threshold);
      CutsAgree(all, cut, threshold);
      if kept.Sorted? {
        ShiftFront(all, kept.txs, removed, threshold);
        cache := Sorted(kept.txs[|removed|..]);
      }
    }

    /** Filter: drops what the predicate selects; heap and cache are rebuilt only then. */
    method Filter(drop: Criterion) returns (removed: seq<Tx>)
      requires Valid()
      modifies this
      ensures Valid() && items == Rejected(old(items), drop)
      ensures forall tx :: tx in removed <==> Has(old(items), tx) && Selects(drop, tx)
      ensures |removed| == |old(items)| - |items|
    {
      ghost var all := items;
      items, removed := SplitBy(items, drop);
      if |removed| > 0 {
        var h := KeySeq(items.Keys);
        index := Heap.Init(Self, h);
        cache := NoCache;
      } else {
        SubsetSize(items.Keys, all.Keys);
        assert items == all;
      }
    }

    /** Cap: keeps the `threshold` lowest nonces and returns the others, highest first. */
    method Cap(threshold: nat) returns (drops: seq<Tx>)
      requires Valid()
      modifies this
      ensures Valid() && items == CapTo(old(items), threshold)
      ensures IsFlat(Beyond(old(items), threshold), Reversed(drops))
      ensures |drops| == |old(items)| - |items|
    {
      if |items| <= threshold {
        CapFacts(items, threshold);
        CapNone(items, threshold);
        return [];
      }
      items, index, cache, drops := CutBack(items, index, cache, threshold);
    }

    /** Remove: drops one nonce and tells whether it was there. */
    method Remove(nonce: nat) returns (found: bool)
      requires Valid()
      modifies this
      ensures Valid() && found == (nonce in old(items)) && items == old(items) - {nonce}
    {
      found := nonce in items;
      if !found {
        assert items - {nonce} == items;
        return;
      }
      EnumeratesFacts(index, items.Keys);
      var i := Find(index, nonce);
      index := Heap.Remove(Self, index, i);
      assert (items - {nonce}).Keys == items.Keys - {nonce};
      items := items - {nonce};
      cache := NoCache;
    }

    /** Ready: takes the leading run of consecutive nonces if it starts no later than `start`. */
    method Ready(start: nat) returns (ready: seq<Tx>)
      requires Valid()
      modifies this
      ensures Valid() && items == AfterReady(old(items), start)
      ensures IsFlat(ReadyRun(old(items), start), ready)
    {
      ghost var all := items;
      EnumeratesFacts(index, items.Keys);
      if |index| == 0 || index[0] > start {
        NotReady(index, items, start);
        return [];
      }
      var first := index[0];
      LowestKey(index, items);
      var next;
      ready, next := PopRun(first);
      RunIs(all, start, first, next, ready);
    }

    /** Pops consecutive nonces as long as the heap has them. */
    method PopRun(first: nat) returns (ready: seq<Tx>, next: nat)
      requires Valid() && forall n :: n in items ==> n >= first
      modifies this
      ensures Valid() && first <= next && next !in old(items) && items == From(old(items), next)
      ensures RunSoFar(old(items), first, next, ready)
    {
      ghost var all := items;
      assert items == From(all, first);
      ready, next := [], first;
      cache := NoCache;
      while |index| > 0 && index[0] == next
        invariant Valid() && cache == NoCache && first <= next && items == From(all, next)
        invariant RunSoFar(all, first, next, ready)
        decreases |index|
      {
        var tx := PopLowest();
        PopNext(all, first, next, ready, tx);
        ready := ready + [tx];
        next := next + 1;
      }
      StopsAtGap(index, items, all, next);
    }

    /** Flatten: the nonce-sorted contents, computed once and cached. */
    method Flatten() returns (txs: seq<Tx>)
      requires Valid()
      modifies this`cache
      ensures Valid() && IsFlat(items, txs) && cache == Sorted(txs)
    {
      if cache.NoCache? {
        EnumeratesFacts(index, items.Keys);
        var s := SortNonces(index);
        EnumeratesFacts(s, items.Keys);
        txs := seq(|s|, i requires 0 <= i < |s| && s[i] in items reads this => items[s[i]]);
        ListingIsFlat(items, s, txs);
        cache := Sorted(txs);
      }
      txs := cache.txs;
    }
  }

  /** The loop of Filter over the map, in any order. */
  method SplitBy(all: Items, drop: Criterion) returns (kept: Items, removed: seq<Tx>)
    requires Filed(all)
    ensures kept == Rejected(all, drop) && |removed| == |all| - |kept|
    ensures forall tx :: tx in removed <==> Has(all, tx) && Selects(drop, tx)
  {
    removed := [];
    var left := all.Keys;
    kept := all;
    while left != {}
      invariant left <= all.Keys && kept == LeftOr(all, left, drop)
      invariant forall tx :: tx in removed <==> Has(all, tx) && tx.nonce !in left && Selects(drop, tx)
      invariant |removed| == |all| - |kept|
      decreases left
    {
      var n :| n in left;
      LookAt(all, left, drop, n);
      if Selects(drop, all[n]) {
        removed := removed + [all[n]];
        kept := kept - {n};
      }
      left := left - {n};
    }
    assert LeftOr(all, {}, drop) == Rejected(all, drop);
  }

  lemma LookAt(all: Items, left: set<nat>, drop: Criterion, n: nat)
    requires n in left && n in all
    ensures var kept := LeftOr(all, left, drop);
            if Selects(drop, all[n])
            then LeftOr(all, left - {n}, drop) == kept - {n} && |kept - {n}| == |kept| - 1
            else LeftOr(all, left - {n}, drop) == kept
  {
    var kept := LeftOr(all, left, drop);
    assert n in kept;
    assert kept.Keys == (kept - {n}).Keys + {n};
  }

  /** What Filter's loop has kept while the keys in `left` are still to be looked at. */
  function LeftOr(all: Items, left: set<nat>, drop: Criterion): Items {
    map n | n in all && (n in left || !Selects(drop, all[n])) :: all[n]
  }

  /** The transactions at s[k..], last first. */
  function FromBack(all: Items, s: seq<nat>, k: nat): seq<Tx>
    requires k <= |s| && forall i :: 0 <= i < |s| ==> s[i] in all
    decreases |s| - k
  {
    if k == |s| then [] else FromBack(all, s, k + 1) + [all[s[k]]]
  }

  /** The loop of Cap: deletes from the back of the sorted nonces. */
  method DropHighest(all: Items, s: seq<nat>, threshold: nat) returns (items: Items, drops: seq<Tx>)
    requires Filed(all) && Increasing(s) && Elems(s) == all.Keys && threshold <= |s|
    ensures items == CapTo(all, threshold) && |drops| == |s| - threshold
    ensures IsFlat(Beyond(all, threshold), Reversed(drops))
  {
    RankBoundAll(all, s);
    items, drops := all, [];
    var size := |s|;
    while size > threshold
      invariant threshold <= size <= |s| && |drops| == |s| - size
      invariant items == CapTo(all, size) && drops == FromBack(all, s, size)
    {
      CapShrinks(all, s, size);
      drops := drops + [items[s[size - 1]]];
      items := items - {s[size - 1]};
      size := size - 1;
    }
    CutListing(all, s, threshold);
  }

  /** Cap on a map that is too long: the nonces are sorted, the tail is dropped, the heap is
      rebuilt and the cache loses its tail. */
  method CutBack(all: Items, index: seq<nat>, cache: Cache, threshold: nat)
    returns (items: Items, heap: seq<nat>, cache': Cache, drops: seq<Tx>)
    requires Filed(all) && Enumerates(index, all.Keys) && (cache.Sorted? ==> IsFlat(all, cache.txs))
    requires threshold < |all|
    ensures items == CapTo(all, threshold) && Filed(items) && Heap.IsHeap(Self, heap) && Enumerates(heap, items.Keys)
    ensures cache'.Sorted? ==> IsFlat(items, cache'.txs)
    ensures IsFlat(Beyond(all, threshold), Reversed(drops)) && |drops| == |all| - |items|
  {
    CapFacts(all, threshold);
    EnumeratesFacts(index, all.Keys);
    var s := SortNonces(index);
    EnumeratesFacts(s, all.Keys);
    assert Increasing(s) && Elems(s) == all.Keys;
    items, drops := DropHighest(all, s, threshold);
    PrefixEnumerates(all, s, threshold);
    heap := Heap.Init(Self, s[..threshold]);
    cache' := cache;
    if cache.Sorted? {
      FlatSize(all, cache.txs);
      FlatCut(all, cache.txs, threshold);
      cache' := Sorted(cache.txs[..|cache.txs| - |drops|]);
    }
  }

  // ---- what the loops rely on ----

  function Rejected(items: Items, drop: Criterion): Items {
    map n | n in items && !Selects(drop, items[n]) :: items[n]
  }

  function Reversed<T>(s: seq<T>): seq<T> {
    seq(|s|, i requires 0 <= i < |s| => s[|s| - 1 - i])
  }

  method KeySeq(ks: set<nat>) returns (h: seq<nat>)
    ensures Enumerates(h, ks)
  {
    h := [];
    var left := ks;
    while left != {}
      invariant left <= ks && multiset(h) + multiset(left) == multiset(ks)
      decreases left
    {
      var n :| n in left;
      h := h + [n];
      left := left - {n};
    }
  }

  /** The lowest entry at or above the cut moves from the map to the listing. */
  lemma TakeOne(all: Items, cut: nat, removed: seq<Tx>, tx: Tx)
    requires Filed(all) && IsFlat(Below(all, cut), removed) && Has(From(all, cut), tx)
    requires forall n :: n in From(all, cut) ==> tx.nonce <= n
    ensures From(all, cut) - {tx.nonce} == From(all, tx.nonce + 1)
    ensures IsFlat(Below(all, tx.nonce + 1), removed + [tx])
  {
    var lo := Below(all, tx.nonce + 1);
    forall n | n in lo && n != tx.nonce
      ensures n < cut
    {
      assert n >= cut ==> n in From(all, cut);
    }
    forall i | 0 <= i < |removed|
      ensures removed[i].nonce < tx.nonce
    {
      assert removed[i] in removed;
    }
    forall x
      ensures x in removed + [tx] <==> Has(lo, x)
    {
      assert x in removed + [tx] <==> x in removed || x == tx;
    }
  }

  lemma CutsAgree(all: Items, cut: nat, threshold: nat)
    requires cut <= threshold && forall n :: n in From(all, cut) ==> n >= threshold
    ensures From(all, cut) == From(all, threshold) && Below(all, cut) == Below(all, threshold)
  {
    forall n | n in all && n >= cut
      ensures n >= threshold
    {
      assert n in From(all, cut);
    }
  }

  lemma NoneBelow(index: seq<nat>, items: Items, threshold: nat)
    requires Heap.IsHeap(Self, index) && Enumerates(index, items.Keys) && (|index| > 0 ==> index[0] >= threshold)
    ensures forall n :: n in items ==> n >= threshold
  {
    EnumeratesFacts(index, items.Keys);
    forall n | n in items
      ensures n >= threshold
    {
      var i :| 0 <= i < |index| && index[i] == n;
      Heap.HeapTop(Self, index, i);
    }
  }

  lemma LowestKey(index: seq<nat>, items: Items)
    requires Heap.IsHeap(Self, index) && Enumerates(index, items.Keys) && |index| > 0
    ensures index[0] in items && forall n :: n in items ==> n >= index[0]
  {
    EnumeratesFacts(index, items.Keys);
    NoneBelow(index, items, index[0]);
  }

  /** Slicing the front off the cache leaves the cache of what remains. */
  lemma ShiftFront(all: Items, cached: seq<Tx>, removed: seq<Tx>, threshold: nat)
    requires Filed(all) && IsFlat(all, cached) && IsFlat(Below(all, threshold), removed)
    ensures |removed| <= |cached| && IsFlat(From(all, threshold), cached[|removed|..])
  {
    var hi := FlatExists(From(all, threshold));
    FlatJoin(all, threshold, removed, hi);
    FlatUnique(all, cached, removed + hi);
  }

  lemma CapNone(all: Items, k: nat)
    requires Filed(all) && |all| <= k
    ensures Beyond(all, k) == map[]
  {
    CapFacts(all, k);
    assert CapTo(all, k) == all;
  }

  /** Dropping the entry of rank k-1 from the k lowest leaves the k-1 lowest. */
  lemma CapShrinks(all: Items, s: seq<nat>, k: nat)
    requires Increasing(s) && Elems(s) == all.Keys && 0 < k <= |s|
    ensures s[k - 1] in CapTo(all, k) && CapTo(all, k) - {s[k - 1]} == CapTo(all, k - 1)
  {
    SortedRank(s, k - 1);
    forall n | n in all && Rank(all.Keys, n) == k - 1
      ensures n == s[k - 1]
    {
      var i :| 0 <= i < |s| && s[i] == n;
      SortedRank(s, i);
    }
  }

  lemma RankBoundAll(all: Items, s: seq<nat>)
    requires Increasing(s) && Elems(s) == all.Keys
    ensures CapTo(all, |s|) == all
  {
    forall n | n in all
      ensures Rank(all.Keys, n) < |s|
    {
      var i :| 0 <= i < |s| && s[i] == n;
      SortedRank(s, i);
    }
  }

  /** The transactions at an increasing list of all nonces, in that order, are the listing. */
  lemma ListingIsFlat(all: Items, s: seq<nat>, txs: seq<Tx>)
    requires Filed(all) && Enumerates(s, all.Keys) && |txs| == |s|
    requires Ascending(s)
    requires forall i :: 0 <= i < |s| ==> s[i] in all && txs[i] == all[s[i]]
    ensures IsFlat(all, txs)
  {
    EnumeratesFacts(s, all.Keys);
    forall tx
      ensures tx in txs <==> Has(all, tx)
    {
      if Has(all, tx) {
        assert tx.nonce in s;
        var i :| 0 <= i < |s| && s[i] == tx.nonce;
        assert txs[i] == tx;
      }
    }
  }

  function Listing(all: Items, s: seq<nat>): seq<Tx>
    requires forall i :: 0 <= i < |s| ==> s[i] in all
  {
    seq(|s|, i requires 0 <= i < |s| => all[s[i]])
  }

  lemma {:induction false} BackIsReversed(all: Items, s: seq<nat>, k: nat)
    requires k <= |s| && forall i :: 0 <= i < |s| ==> s[i] in all
    ensures Reversed(FromBack(all, s, k)) == Listing(all, s)[k..]
    decreases |s| - k
  {
    if k < |s| {
      BackIsReversed(all, s, k + 1);
      var b := FromBack(all, s, k + 1);
      assert Reversed(b + [all[s[k]]]) == [all[s[k]]] + Reversed(b);
      assert Listing(all, s)[k..] == [all[s[k]]] + Listing(all, s)[k + 1..];
    }
  }

  lemma CutListing(all: Items, s: seq<nat>, k: nat)
    requires Filed(all) && Increasing(s) && Elems(s) == all.Keys && k <= |s|
    ensures IsFlat(Beyond(all, k), Reversed(FromBack(all, s, k)))
  {
    IncreasingEnumerates(s);
    ListingIsFlat(all, s, Listing(all, s));
    FlatCut(all, Listing(all, s), k);
    BackIsReversed(all, s, k);
  }

  lemma PrefixEnumerates(all: Items, s: seq<nat>, k: nat)
    requires Increasing(s) && Elems(s) == all.Keys && k <= |s|
    ensures Enumerates(s[..k], CapTo(all, k).Keys)
  {
    forall n
      ensures n in s[..k] <==> n in CapTo(all, k)
    {
      if n in s {
        var i :| 0 <= i < |s| && s[i] == n;
        SortedRank(s, i);
        if i < k { assert s[..k][i] == n; }
      }
    }
    assert CapTo(all, k).Keys == Elems(s[..k]);
    IncreasingEnumerates(s[..k]);
  }

  lemma {:induction false} IncreasingEnumerates(s: seq<nat>)
    requires Increasing(s)
    ensures Enumerates(s, Elems(s))
  {
    if s != [] {
      var p, x := s[..|s| - 1], s[|s| - 1];
      assert s == p + [x];
      IncreasingEnumerates(p);
      assert Elems(s) == Elems(p) + {x};
      assert x !in p;
    }
  }

  lemma NotReady(index: seq<nat>, items: Items, start: nat)
    requires Heap.IsHeap(Self, index) && Enumerates(index, items.Keys) && (|index| == 0 || index[0] > start)
    ensures !IsReady(items, start)
  {
    EnumeratesFacts(index, items.Keys);
    if |index| > 0 { NoneBelow(index, items, index[0]); }
  }

  lemma StopsAtGap(index: seq<nat>, items: Items, all: Items, next: nat)
    requires Heap.IsHeap(Self, index) && Enumerates(index, items.Keys) && items == From(all, next)
    requires |index| == 0 || index[0] != next
    ensures next !in all
  {
    EnumeratesFacts(index, items.Keys);
    if next in all {
      assert next in items;
      LowestKey(index, items);
    }
  }

  /** The transactions first..next-1 have been popped, in that order. */
  ghost predicate RunSoFar(all: Items, first: nat, next: nat, ready: seq<Tx>) {
    && first <= next && |ready| == next - first
    && forall n :: first <= n < next ==> n in all && ready[n - first] == all[n]
  }

  lemma PopNext(all: Items, first: nat, next: nat, ready: seq<Tx>, tx: Tx)
    requires RunSoFar(all, first, next, ready) && Has(From(all, next), tx) && tx.nonce == next
    ensures RunSoFar(all, first, next + 1, ready + [tx]) && From(all, next) - {next} == From(all, next + 1)
  {
  }

  /** The popped run first..next-1 is exactly the leading run. */
  lemma RunIs(all: Items, start: nat, first: nat, next: nat, ready: seq<Tx>)
    requires Filed(all) && first in all && first <= start && forall n :: n in all ==> n >= first
    requires next !in all && RunSoFar(all, first, next, ready)
    ensures IsFlat(ReadyRun(all, start), ready) && From(all, next) == AfterReady(all, start)
  {
    assert MinKey(all.Keys) == first;
    var run := ReadyRun(all, start);
    var stop := RunStop(all, first);
    assert stop == next by {
      assert stop < next ==> stop in all;
      assert next < stop ==> next in all;
    }
    forall i | 0 <= i < |ready|
      ensures ready[i] == all[first + i] && first + i in all
    {
      assert ready[first + i - first] == all[first + i];
    }
    forall tx
      ensures tx in ready <==> Has(run, tx)
    {
      if Has(run, tx) { assert ready[tx.nonce - first] == tx; }
      if tx in ready {
        var i :| 0 <= i < |ready| && ready[i] == tx;
      }
    }
  }
}
