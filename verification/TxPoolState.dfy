/** What the transaction pool keeps true of its four views: the pending and queued lists,
    the set of all known transactions, and the tracked account nonces. */
module TxPoolState {
  import opened TxModel

  datatype Config = Config(priceBump: nat, accountSlots: nat, globalSlots: nat, accountQueue: nat, globalQueue: nat)

  /** The chain state the pool works against. */
  datatype Chain = Chain(nonce: Addr -> nat, balance: Addr -> nat, maxGas: nat)

  type Lists = map<Addr, List>

  function Of(m: Lists, a: Addr): Items { if a in m then m[a].items else map[] }

  predicate EntryOk(l: List, a: Addr, strict: bool, all: set<Tx>) {
    l.strict == strict && ListOk(l) && forall n :: n in l.items ==> l.items[n].sender == a && l.items[n] in all
  }

  ghost predicate SideOk(m: Lists, strict: bool, all: set<Tx>) {
    forall a :: a in m ==> EntryOk(m[a], a, strict, all)
  }

  ghost predicate Apart(p: Lists, q: Lists) {
    forall a, n :: n in Of(p, a) ==> n !in Of(q, a)
  }

  /** Every pooled transaction is known, and filed once, under its sender and nonce. */
  ghost predicate Filing(p: Lists, q: Lists, all: set<Tx>) {
    SideOk(p, true, all) && SideOk(q, false, all) && Apart(p, q)
  }

  /** The nonce the pool tracks as the account's next one. */
  function Next(chain: Chain, tracked: map<Addr, nat>, a: Addr): nat {
    if a in tracked then tracked[a] else chain.nonce(a)
  }

  /** The account's pending nonces run without gap from the chain nonce to the tracked one. */
  ghost predicate SeamlessAt(chain: Chain, p: Lists, tracked: map<Addr, nat>, a: Addr) {
    && chain.nonce(a) <= Next(chain, tracked, a)
    && forall n :: n in Of(p, a) <==> chain.nonce(a) <= n < Next(chain, tracked, a)
  }

  ghost predicate Seamless(chain: Chain, p: Lists, tracked: map<Addr, nat>) {
    forall a :: SeamlessAt(chain, p, tracked, a)
  }

  /** m and m' list the same transactions for every account but a. */
  ghost predicate SameBut(m: Lists, m': Lists, a: Addr) {
    forall b :: b != a ==> Of(m', b) == Of(m, b)
  }

  /** Every account but a keeps its tracked nonce. */
  ghost predicate SameNext(chain: Chain, t: map<Addr, nat>, t': map<Addr, nat>, a: Addr) {
    forall b :: b != a ==> Next(chain, t', b) == Next(chain, t, b)
  }

  /** Forgetting transactions that no list holds any more keeps the lists right. */
  lemma ForgetKeeps(p: Lists, q: Lists, all: set<Tx>, gone: set<Tx>)
    requires Filing(p, q, all)
    requires forall tx :: tx in gone ==> !Has(Of(p, tx.sender), tx) && !Has(Of(q, tx.sender), tx)
    ensures Filing(p, q, all - gone)
  {
    forall a | a in p
      ensures EntryOk(p[a], a, true, all - gone)
    {
      forall n | n in p[a].items
        ensures p[a].items[n] in all - gone
      {
        assert Has(Of(p, p[a].items[n].sender), p[a].items[n]);
      }
    }
    forall a | a in q
      ensures EntryOk(q[a], a, false, all - gone)
    {
      forall n | n in q[a].items
        ensures q[a].items[n] in all - gone
      {
        assert Has(Of(q, q[a].items[n].sender), q[a].items[n]);
      }
    }
  }

  /** Replacing one account's list by part of itself keeps the lists right. */
  lemma ShrinkPending(p: Lists, q: Lists, all: set<Tx>, a: Addr, l: List)
    requires Filing(p, q, all) && a in p && l.strict && ListOk(l)
    requires l.items.Keys <= p[a].items.Keys && forall n :: n in l.items ==> l.items[n] == p[a].items[n]
    ensures Filing(p[a := l], q, all) && Filing(p - {a}, q, all)
  {
    assert EntryOk(p[a], a, true, all);
    assert Apart(p[a := l], q) by {
      forall b, n | n in Of(p[a := l], b)
        ensures n !in Of(q, b)
      {
        assert n in Of(p, b);
      }
    }
    assert Apart(p - {a}, q) by {
      forall b, n | n in Of(p - {a}, b)
        ensures n !in Of(q, b)
      {
        assert n in Of(p, b);
      }
    }
  }

  lemma ShrinkQueue(p: Lists, q: Lists, all: set<Tx>, a: Addr, l: List)
    requires Filing(p, q, all) && a in q && !l.strict && ListOk(l)
    requires l.items.Keys <= q[a].items.Keys && forall n :: n in l.items ==> l.items[n] == q[a].items[n]
    ensures Filing(p, q[a := l], all) && Filing(p, q - {a}, all)
  {
    assert EntryOk(q[a], a, false, all);
    assert Apart(p, q[a := l]) by {
      forall b, n | n in Of(p, b)
        ensures n !in Of(q[a := l], b)
      {
        assert n !in Of(q, b);
      }
    }
    assert Apart(p, q - {a}) by {
      forall b, n | n in Of(p, b)
        ensures n !in Of(q - {a}, b)
      {
        assert n !in Of(q, b);
      }
    }
  }

  /** Filing a known transaction under a nonce the account does not use on the other side. */
  lemma FileInQueue(p: Lists, q: Lists, all: set<Tx>, tx: Tx, l: List)
    requires Filing(p, q, all) && tx in all && tx.nonce !in Of(p, tx.sender)
    requires l == if tx.sender in q then q[tx.sender] else EMPTY_QUEUE
    ensures Filing(p, q[tx.sender := Added(l, tx)], all)
  {
    var q' := q[tx.sender := Added(l, tx)];
    assert EntryOk(q'[tx.sender], tx.sender, false, all);
    assert Apart(p, q') by {
      forall b, n | n in Of(p, b)
        ensures n !in Of(q', b)
      {
        assert n !in Of(q, b);
      }
    }
  }

  lemma FileInPending(p: Lists, q: Lists, all: set<Tx>, tx: Tx, l: List)
    requires Filing(p, q, all) && tx in all && tx.nonce !in Of(q, tx.sender)
    requires l == if tx.sender in p then p[tx.sender] else EMPTY_PENDING
    ensures Filing(p[tx.sender := Added(l, tx)], q, all)
  {
    var p' := p[tx.sender := Added(l, tx)];
    assert EntryOk(p'[tx.sender], tx.sender, true, all);
    assert Apart(p', q) by {
      forall b, n | n in Of(p', b)
        ensures n !in Of(q, b)
      {
        assert n in Of(p, b) || (b == tx.sender && n == tx.nonce);
      }
    }
  }

  /** More known transactions do no harm. */
  lemma KnowMore(p: Lists, q: Lists, all: set<Tx>, more: set<Tx>)
    requires Filing(p, q, all) && all <= more
    ensures Filing(p, q, more)
  {
  }

  // ---- counting ----

  function Len(m: Lists, a: Addr): nat { |Of(m, a)| }

  ghost function SumOver(m: Lists, ks: set<Addr>): nat
    decreases ks
  {
    if ks == {} then 0 else
      var k :| k in ks;
      Len(m, k) + SumOver(m, ks - {k})
  }

  /** The number of transactions in all lists. */
  ghost function Total(m: Lists): nat { SumOver(m, m.Keys) }

  lemma {:induction false} SumTakeOut(m: Lists, ks: set<Addr>, a: Addr)
    requires a in ks
    ensures SumOver(m, ks) == Len(m, a) + SumOver(m, ks - {a})
    decreases ks
  {
    var k :| k in ks && SumOver(m, ks) == Len(m, k) + SumOver(m, ks - {k});
    if k != a {
      SumTakeOut(m, ks - {k}, a);
      SumTakeOut(m, ks - {a}, k);
      assert ks - {k} - {a} == ks - {a} - {k};
    }
  }

  lemma {:induction false} SumSame(m: Lists, m': Lists, ks: set<Addr>)
    requires forall a :: a in ks ==> Len(m, a) == Len(m', a)
    ensures SumOver(m, ks) == SumOver(m', ks)
    decreases ks
  {
    if ks != {} {
      var k :| k in ks;
      SumTakeOut(m, ks, k);
      SumTakeOut(m', ks, k);
      SumSame(m, m', ks - {k});
    }
  }

  /** Changing one account's list changes the total by the difference. */
  lemma TotalChanges(m: Lists, m': Lists, a: Addr)
    requires a in m && m'.Keys == m.Keys && SameBut(m, m', a)
    ensures Total(m') == Total(m) - Len(m, a) + Len(m', a)
  {
    SumTakeOut(m, m.Keys, a);
    SumTakeOut(m', m.Keys, a);
    SumSame(m, m', m.Keys - {a});
  }

  /** Deleting an empty list changes nothing; a nonempty one takes its length away. */
  lemma TotalDeletes(m: Lists, a: Addr)
    requires a in m
    ensures Total(m - {a}) == Total(m) - Len(m, a)
  {
    SumTakeOut(m, m.Keys, a);
    assert (m - {a}).Keys == m.Keys - {a};
    SumSame(m, m - {a}, m.Keys - {a});
  }

  /** y is x without some of its highest nonces. */
  ghost predicate LowPart(x: Items, y: Items) {
    && (forall n :: n in y ==> n in x && y[n] == x[n])
    && (forall a, b :: a in y && b in x && b !in y ==> a < b)
  }

  /** Cap(len-1) takes exactly the highest nonce. */
  lemma CapLast(items: Items) returns (n: nat)
    requires Filed(items) && items != map[]
    ensures n in items && (forall m :: m in items ==> m <= n)
    ensures CapTo(items, |items| - 1) == items - {n} == Below(items, n)
    ensures Beyond(items, |items| - 1) == map[n := items[n]]
    ensures |items - {n}| == |items| - 1
  {
    n := Greatest(items.Keys);
    var k := |items| - 1;
    CapFacts(items, k);
    LastOnly(items, CapTo(items, k), Beyond(items, k), n);
  }

  lemma LastOnly(items: Items, kept: Items, gone: Items, n: nat)
    requires n in items && (forall m :: m in items ==> m <= n) && |kept| == |items| - 1
    requires forall m :: m in items <==> m in kept || m in gone
    requires forall a, b :: a in kept && b in gone ==> a < b
    requires (forall m :: m in kept ==> kept[m] == items[m]) && (forall m :: m in gone ==> gone[m] == items[m])
    ensures kept == items - {n} == Below(items, n) && gone == map[n := items[n]]
    ensures |items - {n}| == |items| - 1
  {
    var ks := items.Keys - {n};
    assert (items - {n}).Keys == ks;
    assert n in kept ==> kept.Keys == items.Keys;
    SubsetSize(kept.Keys, ks);
    assert kept.Keys == ks;
    assert forall m :: m in gone ==> m !in kept;
    assert gone.Keys == {n};
  }
}
