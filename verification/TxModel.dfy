/** Transactions, and the value of one account's nonce-indexed list of them. */
module TxModel {
  type Addr = nat

  /** Ordinary transactions, those of the base contracts, and unknown types. */
  datatype Kind = Binary | Base | Unknown

  /** A pooled transaction; `id` stands for its hash, `cost` for value plus gas purchase,
      `intrinsic` for the gas its data alone costs. */
  datatype Tx =
    Tx(id: nat, sender: Addr, nonce: nat, price: nat, gas: nat, cost: nat, kind: Kind, size: nat, intrinsic: nat)

  type Items = map<nat, Tx>

  /** Every transaction is filed under its own nonce. */
  predicate Filed(items: Items) {
    forall n :: n in items ==> items[n].nonce == n
  }

  predicate Has(items: Items, tx: Tx) { tx.nonce in items && items[tx.nonce] == tx }

  function Below(items: Items, t: nat): Items { map n | n in items && n < t :: items[n] }

  function From(items: Items, t: nat): Items { map n | n in items && n >= t :: items[n] }

  /** How many keys precede n. */
  function Rank(ks: set<nat>, n: nat): nat { |Preceding(ks, n)| }

  function Preceding(ks: set<nat>, n: nat): set<nat> { set m | m in ks && m < n }

  function Elems(s: seq<nat>): set<nat> { set m | m in s }

  /** The k entries of lowest nonce, and the others. */
  function CapTo(items: Items, k: nat): Items {
    map n | n in items && Rank(items.Keys, n) < k :: items[n]
  }

  function Beyond(items: Items, k: nat): Items {
    map n | n in items && Rank(items.Keys, n) >= k :: items[n]
  }

  function MinKey(ks: set<nat>): (n: nat)
    requires ks != {}
    ensures n in ks && forall m :: m in ks ==> n <= m
  {
    HasLeast(ks);
    var n :| n in ks && forall m | m in ks :: n <= m;
    n
  }

  function MaxKey(ks: set<nat>): (n: nat)
    requires ks != {}
    ensures n in ks && forall m :: m in ks ==> m <= n
  {
    HasGreatest(ks);
    var n :| n in ks && forall m | m in ks :: m <= n;
    n
  }

  lemma HasGreatest(ks: set<nat>)
    requires ks != {}
    ensures exists n :: n in ks && forall m | m in ks :: m <= n
  {
    var n := Greatest(ks);
  }

  lemma HasLeast(ks: set<nat>)
    requires ks != {}
    ensures exists n :: n in ks && forall m | m in ks :: n <= m
  {
    var n := Least(ks);
  }

  lemma {:induction false} Least(ks: set<nat>) returns (n: nat)
    requires ks != {}
    ensures n in ks && forall m :: m in ks ==> n <= m
    decreases |ks|
  {
    n :| n in ks;
    if ks != {n} {
      var k := n;
      var m := Least(ks - {k});
      if m < k { n := m; }
      assert forall a :: a in ks ==> a == k || a in ks - {k};
    }
  }

  /** The first number from n on that is not a key. */
  function RunStop(items: Items, n: nat): (k: nat)
    ensures n <= k && k !in items && forall m :: n <= m < k ==> m in items
    decreases |From(items, n)|
  {
    FromShrinks(items, n);
    if n in items then RunStop(items, n + 1) else n
  }

  lemma FromShrinks(items: Items, n: nat)
    ensures n in items ==> |From(items, n + 1)| < |From(items, n)|
  {
    if n in items {
      SubsetSize(From(items, n + 1).Keys, From(items, n).Keys);
      assert n in From(items, n) && n !in From(items, n + 1);
    }
  }

  function Slice(items: Items, lo: nat, hi: nat): Items { map n | n in items && lo <= n < hi :: items[n] }

  predicate IsReady(items: Items, start: nat) { items != map[] && MinKey(items.Keys) <= start }

  /** What Ready(start) takes: the longest run of consecutive nonces from the lowest one, if
      that is no later than start. */
  function ReadyRun(items: Items, start: nat): Items {
    if IsReady(items, start) then Slice(items, MinKey(items.Keys), RunStop(items, MinKey(items.Keys))) else map[]
  }

  function AfterReady(items: Items, start: nat): Items {
    if IsReady(items, start) then From(items, RunStop(items, MinKey(items.Keys))) else items
  }

  // ---- nonce-sorted sequences ----

  predicate Increasing(s: seq<nat>) { forall i, j :: 0 <= i < j < |s| ==> s[i] < s[j] }

  predicate ByNonce(s: seq<Tx>) { forall i, j :: 0 <= i < j < |s| ==> s[i].nonce < s[j].nonce }

  /** s lists exactly the contents of items, in nonce order. */
  ghost predicate IsFlat(items: Items, s: seq<Tx>) {
    ByNonce(s) && forall tx :: tx in s <==> Has(items, tx)
  }

  lemma {:induction false} FlatUnique(items: Items, s: seq<Tx>, t: seq<Tx>)
    requires Filed(items) && IsFlat(items, s) && IsFlat(items, t)
    ensures s == t
    decreases |s|
  {
    assert t != [] ==> t[0] in s;
    if s != [] {
      assert s[0] in t;
      assert s[0].nonce == t[0].nonce;
      var rest := items - {s[0].nonce};
      assert IsFlat(rest, s[1..]) by { FlatTail(items, s); }
      assert IsFlat(rest, t[1..]) by { FlatTail(items, t); }
      FlatUnique(rest, s[1..], t[1..]);
    }
  }

  lemma FlatTail(items: Items, s: seq<Tx>)
    requires Filed(items) && IsFlat(items, s) && s != []
    ensures IsFlat(items - {s[0].nonce}, s[1..])
  {
    assert s[0] in s;
    forall tx
      ensures tx in s[1..] <==> Has(items - {s[0].nonce}, tx)
    {
      if tx in s[1..] {
        var i :| 0 <= i < |s[1..]| && s[1..][i] == tx;
        assert s[i + 1] == tx;
      }
      assert tx in s <==> tx == s[0] || tx in s[1..];
    }
  }

  /** Concatenating the lower and the upper part gives the whole. */
  lemma FlatJoin(items: Items, t: nat, lo: seq<Tx>, hi: seq<Tx>)
    requires Filed(items) && IsFlat(Below(items, t), lo) && IsFlat(From(items, t), hi)
    ensures IsFlat(items, lo + hi)
  {
    var s := lo + hi;
    forall i | 0 <= i < |lo|
      ensures lo[i].nonce < t
    {
      assert lo[i] in lo;
    }
    forall i | 0 <= i < |hi|
      ensures hi[i].nonce >= t
    {
      assert hi[i] in hi;
    }
    forall tx
      ensures tx in s <==> Has(items, tx)
    {
      assert tx in s <==> tx in lo || tx in hi;
    }
  }

  lemma {:induction false} FlatExists(items: Items) returns (s: seq<Tx>)
    requires Filed(items)
    ensures IsFlat(items, s)
    decreases |items|
  {
    if items == map[] {
      s := [];
    } else {
      var n := Greatest(items.Keys);
      var rest := items - {n};
      assert rest.Keys == items.Keys - {n};
      var r := FlatExists(rest);
      s := r + [items[n]];
      forall i | 0 <= i < |r|
        ensures r[i].nonce < n
      {
        assert r[i] in r;
      }
      forall tx
        ensures tx in s <==> Has(items, tx)
      {
        assert tx in s <==> tx in r || tx == items[n];
      }
    }
  }

  lemma {:induction false} Greatest(ks: set<nat>) returns (n: nat)
    requires ks != {}
    ensures n in ks && forall m :: m in ks ==> m <= n
    decreases |ks|
  {
    n :| n in ks;
    if ks != {n} {
      var k := n;
      var m := Greatest(ks - {k});
      if m > k { n := m; }
      assert forall a :: a in ks ==> a == k || a in ks - {k};
    }
  }

  // ---- ranks ----

  /** In an increasing enumeration, the rank of an entry is its position. */
  lemma {:induction false} SortedRank(s: seq<nat>, i: nat)
    requires Increasing(s) && i < |s|
    ensures Rank(Elems(s), s[i]) == i
  {
    assert Preceding(Elems(s), s[i]) == Elems(s[..i]) by {
      forall m
        ensures m in Preceding(Elems(s), s[i]) <==> m in Elems(s[..i])
      {
        if m in s && m < s[i] {
          var j :| 0 <= j < |s| && s[j] == m;
          assert s[..i][j] == m;
        }
      }
    }
    PrefixSize(s, i);
  }

  lemma {:induction false} PrefixSize(s: seq<nat>, i: nat)
    requires Increasing(s) && i <= |s|
    ensures |Elems(s[..i])| == i
  {
    if i > 0 {
      PrefixSize(s, i - 1);
      assert s[..i] == s[..i - 1] + [s[i - 1]];
      ElemsAppend(s[..i - 1], s[i - 1]);
    }
  }

  lemma ElemsAppend(s: seq<nat>, n: nat)
    requires n !in s
    ensures |Elems(s + [n])| == |Elems(s)| + 1
  {
    assert Elems(s + [n]) == Elems(s) + {n};
  }

  /** Cutting a nonce-sorted listing at k cuts the contents at rank k. */
  lemma FlatCut(items: Items, s: seq<Tx>, k: nat)
    requires Filed(items) && IsFlat(items, s) && k <= |s|
    ensures IsFlat(CapTo(items, k), s[..k]) && IsFlat(Beyond(items, k), s[k..])
    ensures |s| == |items|
  {
    var ns := seq(|s|, i requires 0 <= i < |s| => s[i].nonce);
    assert items.Keys == Elems(ns) by {
      forall m
        ensures m in items <==> m in ns
      {
        if m in items {
          assert items[m] in s;
          var i :| 0 <= i < |s| && s[i] == items[m];
          assert ns[i] == m;
        }
        if m in ns {
          var i :| 0 <= i < |ns| && ns[i] == m;
          assert s[i] in s;
        }
      }
    }
    PrefixSize(ns, |ns|);
    assert ns[..|ns|] == ns;
    forall i | 0 <= i < |s|
      ensures s[i].nonce in items && items[s[i].nonce] == s[i] && Rank(items.Keys, s[i].nonce) == i
    {
      assert s[i] in s;
      SortedRank(ns, i);
    }
    CutMembers(items, s, k);
  }

  lemma CutMembers(items: Items, s: seq<Tx>, k: nat)
    requires Filed(items) && IsFlat(items, s) && k <= |s|
    requires forall i :: 0 <= i < |s| ==>
             s[i].nonce in items && items[s[i].nonce] == s[i] && Rank(items.Keys, s[i].nonce) == i
    ensures IsFlat(CapTo(items, k), s[..k]) && IsFlat(Beyond(items, k), s[k..])
  {
    forall tx
      ensures tx in s[..k] <==> Has(CapTo(items, k), tx)
      ensures tx in s[k..] <==> Has(Beyond(items, k), tx)
    {
      if tx in s {
        var i :| 0 <= i < |s| && s[i] == tx;
        if i < k { assert s[..k][i] == tx; } else { assert s[k..][i - k] == tx; }
      }
    }
  }

  lemma FlatSize(items: Items, s: seq<Tx>)
    requires Filed(items) && IsFlat(items, s)
    ensures |s| == |items|
  {
    FlatCut(items, s, 0);
  }

  /** Sizes and order of a cut. */
  lemma CapFacts(items: Items, k: nat)
    requires Filed(items)
    ensures |CapTo(items, k)| == if k < |items| then k else |items|
    ensures |items| <= k ==> CapTo(items, k) == items
    ensures forall a, b :: a in CapTo(items, k) && b in Beyond(items, k) ==> a < b
    ensures forall n :: n in items <==> n in CapTo(items, k) || n in Beyond(items, k)
  {
    var s := FlatExists(items);
    FlatCut(items, s, 0);
    if k <= |s| {
      FlatCut(items, s, k);
      FlatCut(CapTo(items, k), s[..k], 0);
      forall a, b | a in CapTo(items, k) && b in Beyond(items, k)
        ensures a < b
      {
        assert items[a] in s[..k] && items[b] in s[k..];
      }
      if k == |s| { assert s[..k] == s; SameFlat(items, CapTo(items, k), s); }
    } else {
      FlatCut(items, s, |s|);
      RankBound(items, s, k);
    }
  }

  lemma SameFlat(a: Items, b: Items, s: seq<Tx>)
    requires Filed(a) && Filed(b) && IsFlat(a, s) && IsFlat(b, s)
    ensures a == b
  {
    forall n
      ensures n in a <==> n in b
      ensures n in a ==> a[n] == b[n]
    {
      if n in a { assert a[n] in s; assert Has(b, a[n]); }
      if n in b { assert b[n] in s; assert Has(a, b[n]); }
    }
  }

  lemma RankBound(items: Items, s: seq<Tx>, k: nat)
    requires Filed(items) && IsFlat(items, s) && k > |s| == |items|
    ensures CapTo(items, k) == items && Beyond(items, k) == map[]
  {
    forall n | n in items
      ensures Rank(items.Keys, n) < k
    {
      SubsetSize(Preceding(items.Keys, n), items.Keys);
    }
  }

  lemma {:induction false} SubsetSize<T>(a: set<T>, b: set<T>)
    requires a <= b
    ensures |a| <= |b| && (|a| == |b| ==> a == b)
    decreases a
  {
    if a != {} {
      var x :| x in a;
      SubsetSize(a - {x}, b - {x});
    }
  }

  // ---- one account's list as a value ----

  datatype List = List(strict: bool, items: Items, costcap: nat, gascap: nat)

  const EMPTY_PENDING := List(true, map[], 0, 0)
  const EMPTY_QUEUE := List(false, map[], 0, 0)

  /** The caps bound every transaction in the list. */
  predicate Capped(l: List) {
    forall n :: n in l.items ==> l.items[n].cost <= l.costcap && l.items[n].gas <= l.gascap
  }

  predicate ListOk(l: List) { Filed(l.items) && Capped(l) }

  /** Add accepts tx if its nonce is free or it outbids the present one by the price bump. */
  predicate Accepts(l: List, tx: Tx, bump: nat) {
    tx.nonce in l.items ==>
      var present := l.items[tx.nonce];
      present.price < tx.price && present.price * (100 + bump) / 100 <= tx.price
  }

  /** tx offers more than x, and at least the bump in percent more, rounded down. */
  predicate Outbids(tx: Tx, x: Tx, bump: nat) { tx.price > x.price && 100 * (tx.price + 1) > x.price * (100 + bump) }

  /** The price-bump rule without the division. */
  lemma AcceptsIff(l: List, tx: Tx, bump: nat)
    ensures Accepts(l, tx, bump) <==> (tx.nonce in l.items ==> Outbids(tx, l.items[tx.nonce], bump))
  {
    if tx.nonce in l.items {
      var cents := l.items[tx.nonce].price * (100 + bump);
      assert cents / 100 <= tx.price <==> cents < 100 * (tx.price + 1);
    }
  }

  function Added(l: List, tx: Tx): List {
    List(l.strict, l.items[tx.nonce := tx],
         if l.costcap < tx.cost then tx.cost else l.costcap,
         if l.gascap < tx.gas then tx.gas else l.gascap)
  }

  predicate Dear(tx: Tx, cost: nat, gas: nat) { tx.cost > cost || tx.gas > gas }

  /** What a full scan for too expensive transactions finds. */
  function TooDear(items: Items, cost: nat, gas: nat): Items {
    map n | n in items && Dear(items[n], cost, gas) :: items[n]
  }

  /** Affordable transactions behind a too expensive one. */
  function Stranded(items: Items, cost: nat, gas: nat): Items {
    map n | n in items && !Dear(items[n], cost, gas) && (exists m | m in items :: m < n && Dear(items[m], cost, gas)) ::
        items[n]
  }

  function Affordable(strict: bool, items: Items, cost: nat, gas: nat): Items {
    map n | n in items && !Dear(items[n], cost, gas) && !(strict && n in Stranded(items, cost, gas)) :: items[n]
  }

  /** Filter on the list: caps fall to the limits unless nothing can exceed them. */
  function Filtered(l: List, cost: nat, gas: nat): List {
    if l.costcap <= cost && l.gascap <= gas then l
    else List(l.strict, Affordable(l.strict, l.items, cost, gas), cost, gas)
  }

  function Forwarded(l: List, t: nat): List { l.(items := From(l.items, t)) }

  function CappedTo(l: List, k: nat): List { l.(items := CapTo(l.items, k)) }

  function Advanced(l: List, start: nat): List { l.(items := AfterReady(l.items, start)) }

  /** Remove: in strict mode everything behind the removed nonce goes too. */
  function Without(l: List, nonce: nat): List {
    if nonce !in l.items then l
    else l.(items := if l.strict then Below(l.items, nonce) else l.items - {nonce})
  }

  /** The short circuit of Filter changes nothing: the kept list is what a full scan keeps. */
  lemma FilterIsFullScan(l: List, cost: nat, gas: nat)
    requires ListOk(l)
    ensures Filtered(l, cost, gas).items == Affordable(l.strict, l.items, cost, gas)
    ensures ListOk(Filtered(l, cost, gas))
    ensures l.costcap <= cost && l.gascap <= gas ==> TooDear(l.items, cost, gas) == map[]
  {
    if l.costcap <= cost && l.gascap <= gas {
      forall n | n in l.items
        ensures !Dear(l.items[n], cost, gas)
      {
      }
      assert forall n :: n in l.items <==> n in Affordable(l.strict, l.items, cost, gas);
    }
  }

  /** Filter splits the contents into dropped, invalidated and kept, without overlap. */
  lemma FilterPartitions(l: List, cost: nat, gas: nat)
    requires ListOk(l)
    ensures var d, s, k := TooDear(l.items, cost, gas), (if l.strict then Stranded(l.items, cost, gas) else map[]),
            Filtered(l, cost, gas).items;
            && (forall n :: n in l.items <==> n in d || n in s || n in k)
            && d.Keys !! s.Keys && d.Keys !! k.Keys && s.Keys !! k.Keys
            && (forall n :: n in k ==> k[n] == l.items[n])
  {
    FilterIsFullScan(l, cost, gas);
  }

  predicate GapFree(ks: set<nat>) {
    forall a, b | a in ks && b in ks :: forall m | a <= m <= b :: m in ks
  }

  /** Strict filtering cuts a gap-free list to one of its prefixes. */
  lemma FilterKeepsGapFree(items: Items, cost: nat, gas: nat)
    requires GapFree(items.Keys)
    ensures GapFree(Affordable(true, items, cost, gas).Keys)
    ensures forall a, b :: a in Affordable(true, items, cost, gas) && b in items && b <= a ==>
            b in Affordable(true, items, cost, gas)
  {
    var kept := Affordable(true, items, cost, gas);
    forall a, b | a in kept && b in items && b <= a
      ensures b in kept
    {
    }
    forall a, b, m | a in kept && b in kept && a <= m <= b
      ensures m in kept
    {
      assert m in items;
    }
  }
}
