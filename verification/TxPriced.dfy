/** txPricedList of chain/core/tx_list.go: a price heap over the pool's transactions that is
    told of removals only by count and cleaned lazily. */
module TxPriced {
  import opened TxModel
  import Heap = BinaryHeap

  function Price(tx: Tx): int { tx.price }

  class PricedList {
    var items: seq<Tx>
    var stales: int

    predicate Valid()
      reads this
    {
      Heap.IsHeap(Price, items)
    }

    /** Every live transaction is in the heap. */
    ghost predicate Covers(all: set<Tx>)
      reads this
    {
      forall tx :: tx in all ==> tx in items
    }

    constructor ()
      ensures Valid() && Covers({}) && items == []
    {
      items, stales := [], 0;
    }

    method Put(tx: Tx)
      requires Valid()
      modifies this
      ensures Valid() && multiset(items) == multiset(old(items)) + multiset{tx} && stales == old(stales)
      ensures forall x :: x in items <==> x in old(items) || x == tx
    {
      items := Heap.Push(Price, items, tx);
      SameMembers(items, old(items) + [tx]);
    }

    /** Removed: counts, and rebuilds the heap from the live set when a quarter is stale. */
    method Removed(all: set<Tx>)
      requires Valid()
      modifies this
      ensures Valid()
      ensures forall x :: x in items ==> x in old(items) || x in all
      ensures forall x :: x in all && x in old(items) ==> x in items
      ensures old(stales) + 1 > |old(items)| / 4 ==> multiset(items) == multiset(all) && stales == 0
      ensures old(stales) + 1 <= |old(items)| / 4 ==> items == old(items) && stales == old(stales) + 1
    {
      stales := stales + 1;
      if stales <= |items| / 4 {
        return;
      }
      var reheap, left := [], all;
      while left != {}
        invariant left <= all && multiset(reheap) + multiset(left) == multiset(all)
        decreases left
      {
        var tx :| tx in left;
        reheap := reheap + [tx];
        left := left - {tx};
      }
      stales := 0;
      items := Heap.Init(Price, reheap);
      assert forall x :: x in items <==> x in multiset(items);
      assert forall x :: x in all <==> x in multiset(all);
    }

    /** Pop, with membership facts. */
    method PopCheapest() returns (tx: Tx)
      requires Valid() && |items| > 0
      modifies this`items
      ensures Valid() && |items| == |old(items)| - 1
      ensures tx == old(items)[0] && forall x :: x in old(items) ==> tx.price <= x.price
      ensures forall x :: x in old(items) <==> x in items || x == tx
    {
      ghost var was := items;
      items, tx := Heap.Pop(Price, items);
      assert forall x :: x in was <==> x in multiset(was);
      assert forall x :: x in items <==> x in multiset(items);
      assert multiset(was) == multiset(items) + multiset{tx};
    }

    method PutAll(txs: seq<Tx>)
      requires Valid()
      modifies this`items
      ensures Valid() && forall x :: x in items <==> x in old(items) || x in txs
    {
      var i := 0;
      while i < |txs|
        invariant 0 <= i <= |txs| && Valid()
        invariant forall x :: x in items <==> x in old(items) || x in txs[..i]
      {
        ghost var was := items;
        items := Heap.Push(Price, items, txs[i]);
        SameMembers(items, was + [txs[i]]);
        assert txs[..i + 1] == txs[..i] + [txs[i]];
        i := i + 1;
      }
      assert txs[..|txs|] == txs;
    }

    /** Cap: takes out exactly the live non-local transactions below the threshold. */
    method Cap(threshold: nat, all: set<Tx>, locals: set<Addr>) returns (drop: seq<Tx>)
      requires Valid() && Covers(all)
      modifies this
      ensures Valid()
      ensures forall tx :: tx in drop <==> tx in all && tx.price < threshold && tx.sender !in locals
      ensures forall tx :: tx in all && tx !in drop ==> tx in items
    {
      drop := [];
      var save := [];
      var reached := false;
      while |items| > 0 && !reached
        invariant Valid()
        invariant forall tx :: tx in all ==> tx in items || tx in save || tx in drop
        invariant forall tx :: tx in drop ==> tx in all && tx.price < threshold && tx.sender !in locals
        invariant forall tx :: tx in save ==> tx in all && (tx.price >= threshold || tx.sender in locals)
        invariant reached ==> forall tx :: tx in items ==> tx.price >= threshold
        decreases |items|, !reached
      {
        var tx := PopCheapest();
        if tx !in all {
          stales := stales - 1;
        } else if tx.price >= threshold {
          save := save + [tx];
          reached := true;
        } else if tx.sender in locals {
          save := save + [tx];
        } else {
          drop := drop + [tx];
        }
      }
      PutAll(save);
    }

    /** Underpriced: not local, and no live transaction is cheaper than tx. */
    method Underpriced(tx: Tx, all: set<Tx>, locals: set<Addr>) returns (under: bool)
      requires Valid() && Covers(all)
      modifies this
      ensures Valid() && Covers(all)
      ensures under <==> tx.sender !in locals && all != {} && forall x :: x in all ==> x.price >= tx.price
    {
      if tx.sender in locals {
        return false;
      }
      while |items| > 0 && items[0] !in all
        invariant Valid() && Covers(all)
        decreases |items|
      {
        stales := stales - 1;
        var stale := PopCheapest();
      }
      if |items| == 0 {
        assert forall x :: x in all ==> x in items;
        return false;
      }
      CheapestFirst(items);
      under := items[0].price >= tx.price;
    }

    /** Discard: up to `count` heap entries; whatever non-local transaction stays is no
        cheaper than any that goes. */
    method Discard(count: nat, all: set<Tx>, locals: set<Addr>) returns (drop: seq<Tx>)
      requires Valid() && Covers(all)
      modifies this
      ensures Valid()
      ensures forall tx :: tx in drop ==> tx in all && tx.sender !in locals
      ensures forall d, x :: d in drop && x in all && x !in drop && x.sender !in locals ==> d.price <= x.price
      ensures |drop| <= count
      ensures |drop| < count ==> forall x :: x in all && x.sender !in locals ==> x in drop
      ensures forall tx :: tx in all && tx !in drop ==> tx in items
    {
      drop := [];
      var save := [];
      var need := count;
      while |items| > 0 && need > 0
        invariant Valid()
        invariant forall tx :: tx in all ==> tx in items || tx in save || tx in drop
        invariant forall tx :: tx in drop ==> tx in all && tx.sender !in locals
        invariant forall tx :: tx in save ==> tx in all && tx.sender in locals
        invariant forall d, x :: d in drop && x in items ==> d.price <= x.price
        invariant |drop| == count - need && need >= 0
        decreases |items|
      {
        ghost var was := items;
        var tx := PopCheapest();
        assert forall x :: x in items ==> x in was;
        if tx !in all {
          stales := stales - 1;
        } else if tx.sender in locals {
          save := save + [tx];
        } else {
          drop := drop + [tx];
          need := need - 1;
        }
      }
      ghost var rest := items;
      assert forall d, x :: d in drop && x in rest ==> d.price <= x.price;
      PutAll(save);
    }
  }

  lemma SameMembers(a: seq<Tx>, b: seq<Tx>)
    requires multiset(a) == multiset(b)
    ensures forall x :: x in a <==> x in b
  {
    assert forall x :: x in a <==> x in multiset(a);
    assert forall x :: x in b <==> x in multiset(b);
  }

  lemma CheapestFirst(items: seq<Tx>)
    requires Heap.IsHeap(Price, items) && |items| > 0
    ensures forall x :: x in items ==> items[0].price <= x.price
  {
    forall x | x in items
      ensures items[0].price <= x.price
    {
      var i :| 0 <= i < |items| && items[i] == x;
      Heap.HeapTop(Price, items, i);
    }
  }
}
