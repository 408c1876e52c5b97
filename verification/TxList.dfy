/** txList of chain/core/tx_list.go: the object behind one account's list, proved against
    the value-level operations of TxModel. */
module TxList {
  import opened TxModel
  import opened TxSortedMap

  class AccountList {
    const strict: bool
    const txs: SortedMap
    var costcap: nat
    var gascap: nat

    ghost predicate Valid()
      reads this, txs
    {
      txs.Valid() && ListOk(Value())
    }

    function Value(): List
      reads this, txs
    {
      List(strict, txs.items, costcap, gascap)
    }

    constructor (strict: bool)
      ensures Valid() && fresh(txs) && Value() == List(strict, map[], 0, 0)
    {
      this.strict := strict;
      txs := new SortedMap();
      costcap, gascap := 0, 0;
    }

    /** Add: accepted exactly under the price-bump rule; returns what it replaced. */
    method Add(tx: Tx, priceBump: nat) returns (inserted: bool, replaced: seq<Tx>)
      requires Valid()
      modifies this, txs
      ensures Valid() && inserted == Accepts(old(Value()), tx, priceBump)
      ensures Value() == if inserted then Added(old(Value()), tx) else old(Value())
      ensures inserted ==> replaced == if tx.nonce in old(txs.items) then [old(txs.items)[tx.nonce]] else []
      ensures inserted <==>
              (tx.nonce in old(txs.items) ==>
                 var x := old(txs.items)[tx.nonce];
                 tx.price > x.price && 100 * (tx.price + 1) > x.price * (100 + priceBump))
    {
      replaced := [];
      AcceptsIff(Value(), tx, priceBump);
      if tx.nonce in txs.items {
        var present := txs.items[tx.nonce];
        var threshold := present.price * (100 + priceBump) / 100;
        if present.price >= tx.price || threshold > tx.price {
          return false, [];
        }
        replaced := [present];
      }
      inserted := true;
      txs.Put(tx);
      if costcap < tx.cost { costcap := tx.cost; }
      if gascap < tx.gas { gascap := tx.gas; }
    }

    method Forward(threshold: nat) returns (removed: seq<Tx>)
      requires Valid()
      modifies txs
      ensures Valid() && Value() == Forwarded(old(Value()), threshold)
      ensures IsFlat(Below(old(txs.items), threshold), removed)
    {
      removed := txs.Forward(threshold);
    }

    /** Filter, with the caps as short circuit, drops and invalidates what a full scan would. */
    method Filter(costLimit: nat, gasLimit: nat) returns (removed: seq<Tx>, invalids: seq<Tx>)
      requires Valid()
      modifies this, txs
      ensures Valid() && Value() == Filtered(old(Value()), costLimit, gasLimit)
      ensures forall tx :: tx in removed <==> Has(TooDear(old(txs.items), costLimit, gasLimit), tx)
      ensures forall tx :: tx in invalids <==> strict && Has(Stranded(old(txs.items), costLimit, gasLimit), tx)
    {
      ghost var l := Value();
      FilterIsFullScan(l, costLimit, gasLimit);
      if costcap <= costLimit && gascap <= gasLimit {
        NothingStranded(l.items, costLimit, gasLimit);
        return [], [];
      }
      costcap, gascap := costLimit, gasLimit;
      removed, invalids := DropDear(costLimit, gasLimit, l);
    }

    /** The full scan. */
    method DropDear(cost: nat, gas: nat, ghost l: List) returns (removed: seq<Tx>, invalids: seq<Tx>)
      requires txs.Valid() && l.strict == strict && l.items == txs.items
      modifies txs
      ensures txs.Valid() && txs.items == Affordable(strict, l.items, cost, gas)
      ensures forall tx :: tx in removed <==> Has(TooDear(l.items, cost, gas), tx)
      ensures forall tx :: tx in invalids <==> strict && Has(Stranded(l.items, cost, gas), tx)
    {
      removed := txs.Filter(Over(cost, gas));
      invalids := DropStranded(cost, gas, removed, l);
    }

    /** After the too expensive transactions left, a strict list gives up what stood behind the
        lowest of them. */
    method DropStranded(cost: nat, gas: nat, removed: seq<Tx>, ghost l: List) returns (invalids: seq<Tx>)
      requires txs.Valid() && l.strict == strict && Filed(l.items) && Keeps(l.items, txs.items, cost, gas)
      requires forall tx :: tx in removed <==> Has(l.items, tx) && Dear(tx, cost, gas)
      modifies txs
      ensures txs.Valid() && txs.items == Affordable(strict, l.items, cost, gas)
      ensures forall tx :: tx in invalids <==> strict && Has(Stranded(l.items, cost, gas), tx)
    {
      invalids := [];
      ghost var mid := txs.items;
      if strict && |removed| > 0 {
        var lowest := LowestNonce(removed);
        invalids := txs.Filter(Behind(lowest));
        assert forall n :: n in txs.items <==> n in mid && n <= lowest;
        StrandedBehind(l.items, mid, txs.items, cost, gas, removed, lowest);
      } else {
        NotStranded(l, mid, cost, gas, removed);
      }
    }

    method Cap(threshold: nat) returns (drops: seq<Tx>)
      requires Valid()
      modifies txs
      ensures Valid() && Value() == CappedTo(old(Value()), threshold)
      ensures IsFlat(Beyond(old(txs.items), threshold), Reversed(drops))
    {
      drops := txs.Cap(threshold);
    }

    /** Remove by nonce; a strict list also gives up everything behind it. */
    method Remove(tx: Tx) returns (found: bool, invalids: seq<Tx>)
      requires Valid()
      modifies txs
      ensures Valid() && found == (tx.nonce in old(txs.items)) && Value() == Without(old(Value()), tx.nonce)
      ensures forall x :: x in invalids <==> found && strict && Has(old(txs.items), x) && x.nonce > tx.nonce
    {
      invalids := [];
      found := txs.Remove(tx.nonce);
      if found && strict {
        ghost var mid := txs.items;
        invalids := txs.Filter(Behind(tx.nonce));
        assert forall n :: n in txs.items <==> n in mid && n <= tx.nonce;
        LeavesBelow(old(txs.items), mid, txs.items, tx.nonce);
      }
    }

    method Ready(start: nat) returns (ready: seq<Tx>)
      requires Valid()
      modifies txs
      ensures Valid() && Value() == Advanced(old(Value()), start)
      ensures IsFlat(ReadyRun(old(txs.items), start), ready)
    {
      ready := txs.Ready(start);
    }
  }

  lemma LeavesBelow(items: Items, mid: Items, kept: Items, n: nat)
    requires mid == items - {n} && (forall m :: m in kept <==> m in mid && m <= n)
    requires forall m :: m in kept ==> kept[m] == mid[m]
    ensures kept == Below(items, n)
  {
    forall m
      ensures m in kept <==> m in Below(items, n)
    {
    }
  }

  method LowestNonce(txs: seq<Tx>) returns (lowest: nat)
    requires |txs| > 0
    ensures exists i :: 0 <= i < |txs| && txs[i].nonce == lowest
    ensures forall i :: 0 <= i < |txs| ==> lowest <= txs[i].nonce
  {
    lowest := txs[0].nonce;
    var k := 1;
    while k < |txs|
      invariant 1 <= k <= |txs|
      invariant exists i :: 0 <= i < k && txs[i].nonce == lowest
      invariant forall i :: 0 <= i < k ==> lowest <= txs[i].nonce
    {
      if txs[k].nonce < lowest { lowest := txs[k].nonce; }
      k := k + 1;
    }
  }

  lemma NothingStranded(items: Items, cost: nat, gas: nat)
    requires TooDear(items, cost, gas) == map[]
    ensures Stranded(items, cost, gas) == map[]
  {
    forall n | n in items
      ensures !Dear(items[n], cost, gas)
    {
      assert n !in TooDear(items, cost, gas);
    }
  }

  /** kept is items without the too expensive transactions. */
  ghost predicate Keeps(items: Items, kept: Items, cost: nat, gas: nat) {
    (forall n :: n in kept <==> n in items && !Dear(items[n], cost, gas)) &&
        (forall n :: n in kept ==> kept[n] == items[n])
  }

  lemma NoneRemoved(items: Items, removed: seq<Tx>, cost: nat, gas: nat)
    requires Filed(items) && removed == [] && forall tx :: tx in removed <==> Has(items, tx) && Dear(tx, cost, gas)
    ensures forall n :: n in items ==> !Dear(items[n], cost, gas)
  {
    forall n | n in items
      ensures !Dear(items[n], cost, gas)
    {
      assert Has(items, items[n]);
    }
  }

  lemma NotStranded(l: List, kept: Items, cost: nat, gas: nat, removed: seq<Tx>)
    requires Filed(l.items) && Keeps(l.items, kept, cost, gas) && (!l.strict || removed == [])
    requires forall tx :: tx in removed <==> Has(l.items, tx) && Dear(tx, cost, gas)
    ensures kept == Affordable(l.strict, l.items, cost, gas)
    ensures l.strict ==> Stranded(l.items, cost, gas) == map[]
  {
    if removed == [] { NoneRemoved(l.items, removed, cost, gas); }
  }

  /** What lies above the lowest dropped nonce is exactly what the drops strand. */
  lemma StrandedBehind(items: Items, mid: Items, kept: Items, cost: nat, gas: nat, removed: seq<Tx>, lowest: nat)
    requires Filed(items) && Keeps(items, mid, cost, gas)
    requires (forall n :: n in kept <==> n in mid && n <= lowest) && (forall n :: n in kept ==> kept[n] == mid[n])
    requires forall tx :: tx in removed <==> Has(items, tx) && Dear(tx, cost, gas)
    requires exists i :: 0 <= i < |removed| && removed[i].nonce == lowest
    requires forall i :: 0 <= i < |removed| ==> lowest <= removed[i].nonce
    ensures kept == Affordable(true, items, cost, gas)
    ensures forall tx :: Has(Stranded(items, cost, gas), tx) <==> Has(mid, tx) && tx.nonce > lowest
  {
    var k :| 0 <= k < |removed| && removed[k].nonce == lowest;
    assert removed[k] in removed;
    assert lowest in items && Dear(items[lowest], cost, gas);
    forall n | n in items && Dear(items[n], cost, gas)
      ensures lowest <= n
    {
      assert items[n] in removed;
    }
    forall n
      ensures n in Stranded(items, cost, gas) <==> n in mid && n > lowest
    {
    }
  }
}
