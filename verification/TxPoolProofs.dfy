/** Facts about the pool's lists that its operations rest on. */
module TxPoolProofs {
  import opened TxCull
  import opened TxLevel
  import opened TxModel
  import opened TxPoolState

  lemma ReplaceInQueue(p: Lists, q: Lists, all: set<Tx>, tx: Tx, present: Tx)
    requires Filing(p, q, all) && tx.nonce !in Of(p, tx.sender)
    requires tx.sender in q && Has(q[tx.sender].items, present) && present.nonce == tx.nonce && present.price < tx.price
    ensures Filing(p, q[tx.sender := Added(q[tx.sender], tx)], all - {present} + {tx})
  {
    var l := q[tx.sender].(items := q[tx.sender].items - {tx.nonce});
    assert EntryOk(q[tx.sender], tx.sender, false, all);
    ShrinkQueue(p, q, all, tx.sender, l);
    var q1 := q[tx.sender := l];
    ForgetKeeps(p, q1, all, {present});
    KnowMore(p, q1, all - {present}, all - {present} + {tx});
    FileInQueue(p, q1, all - {present} + {tx}, tx, l);
    assert l.items[tx.nonce := tx] == q[tx.sender].items[tx.nonce := tx];
    assert q1[tx.sender := Added(l, tx)] == q[tx.sender := Added(q[tx.sender], tx)];
  }

  lemma ReplaceInPending(p: Lists, q: Lists, all: set<Tx>, tx: Tx, present: Tx)
    requires Filing(p, q, all) && tx in all && tx.nonce !in Of(q, tx.sender)
    requires tx.sender in p && Has(p[tx.sender].items, present) && present.nonce == tx.nonce && present.price < tx.price
    ensures Filing(p[tx.sender := Added(p[tx.sender], tx)], q, all - {present})
  {
    var l := p[tx.sender].(items := p[tx.sender].items - {tx.nonce});
    assert EntryOk(p[tx.sender], tx.sender, true, all);
    ShrinkPending(p, q, all, tx.sender, l);
    var p1 := p[tx.sender := l];
    ForgetKeeps(p1, q, all, {present});
    FileInPending(p1, q, all - {present}, tx, l);
    assert l.items[tx.nonce := tx] == p[tx.sender].items[tx.nonce := tx];
    assert p1[tx.sender := Added(l, tx)] == p[tx.sender := Added(p[tx.sender], tx)];
  }

  /** Two transactions for the same slot of the same account. */
  predicate Rivals(d: Tx, tx: Tx) { d.sender == tx.sender && d.nonce == tx.nonce }

  /** The list a new transaction would join: the pending one if it replaces, else the queue. */
  function ListFor(p: Lists, q: Lists, tx: Tx): List {
    if tx.nonce in Of(p, tx.sender) then p[tx.sender]
    else if tx.sender in q then q[tx.sender]
    else EMPTY_QUEUE
  }

  /** tx has been filed: in place of its pending rival, or in the queue, in place of a rival there. */
  ghost predicate FiledAs(p: Lists, q: Lists, all: set<Tx>, tx: Tx, p': Lists, q': Lists, all': set<Tx>,
                          replaced: bool) {
    var a, n := tx.sender, tx.nonce;
    if n in Of(p, a) then
      && replaced && Of(p', a) == Of(p, a)[n := tx] && SameBut(p, p', a) && q' == q
      && all' == all - {Of(p, a)[n]} + {tx}
    else
      && replaced == (n in Of(q, a)) && p' == p && Of(q', a) == Of(q, a)[n := tx] && SameBut(q, q', a)
      && all' == (if replaced then all - {Of(q, a)[n]} else all) + {tx}
  }

  /** A rival that is replaced was known, and is outbid by the price bump. */
  lemma RivalOutbid(p: Lists, q: Lists, all: set<Tx>, tx: Tx, p': Lists, q': Lists, all': set<Tx>, bump: nat)
    requires Filing(p, q, all) && tx !in all && FiledAs(p, q, all, tx, p', q', all', true)
    requires Accepts(ListFor(p, q, tx), tx, bump)
    ensures exists x :: x in all && x !in all' && Rivals(x, tx) && Outbids(tx, x, bump)
  {
    var l := ListFor(p, q, tx);
    AcceptsIff(l, tx, bump);
    assert tx.sender in p ==> EntryOk(p[tx.sender], tx.sender, true, all);
    assert tx.sender in q ==> EntryOk(q[tx.sender], tx.sender, false, all);
    var x := l.items[tx.nonce];
    assert Rivals(x, tx) && x in all && x !in all';
  }

  function TxSet(txs: seq<Tx>): set<Tx> { set x | x in txs }

  function Values(txs: Items): set<Tx> { set n | n in txs :: txs[n] }

  /** The books after removing a known tx. */
  ghost predicate AfterRemoval(chain: Chain, p: Lists, q: Lists, tracked: map<Addr, nat>, tx: Tx, p': Lists, q': Lists,
                               tracked': map<Addr, nat>) {
    var a, n := tx.sender, tx.nonce;
    && SameBut(p, p', a) && SameBut(q, q', a)
    && if n in Of(p, a) then
         && Of(p', a) == Below(Of(p, a), n)
         && Of(q', a) == (if Below(Of(p, a), n) == map[] then Of(q, a) else Of(q, a) + From(Of(p, a), n + 1))
         && tracked' == (if Next(chain, tracked, a) > n then tracked[a := n] else tracked)
       else
         Of(p', a) == Of(p, a) && Of(q', a) == Of(q, a) - {n} && tracked' == tracked
  }

  /** The lists, the tracked nonces and the heartbeats at one moment. */
  datatype Books = Books(pending: Lists, queue: Lists, tracked: map<Addr, nat>, beats: map<Addr, nat>)

  /** Removing tx ends the account's heartbeat exactly if that empties its pending list. */
  ghost predicate Quiets(x: Books, tx: Tx, y: Books) {
    y.beats == if tx.nonce in Of(x.pending, tx.sender) && Below(Of(x.pending, tx.sender), tx.nonce) == map[]
               then x.beats - {tx.sender} else x.beats
  }

  /** From x to y a batch has been removed, transaction by transaction along the trail. */
  ghost predicate Removes(chain: Chain, known: set<Tx>, drop: seq<Tx>, trail: seq<Books>, x: Books, y: Books) {
    && |trail| == |drop| + 1 && trail[0] == x && trail[|drop|] == y
    && forall i :: 0 <= i < |drop| ==> RemovesOne(chain, known, drop, i, trail[i], trail[i + 1])
  }

  /** The i-th removal: a transaction that is not known any more changes nothing. */
  ghost predicate RemovesOne(chain: Chain, known: set<Tx>, drop: seq<Tx>, i: nat, x: Books, y: Books)
    requires i < |drop|
  {
    if drop[i] in known && drop[i] !in drop[..i] then
      && AfterRemoval(chain, x.pending, x.queue, x.tracked, drop[i], y.pending, y.queue, y.tracked)
      && Quiets(x, drop[i], y)
    else
      y == x
  }

  lemma RemovesMore(chain: Chain, known: set<Tx>, drop: seq<Tx>, i: nat, trail: seq<Books>, x: Books, y: Books,
                    z: Books)
    requires i < |drop| && Removes(chain, known, drop[..i], trail, x, y) && RemovesOne(chain, known, drop, i, y, z)
    ensures Removes(chain, known, drop[..i + 1], trail + [z], x, z)
  {
    forall j | 0 <= j < i + 1
      ensures RemovesOne(chain, known, drop[..i + 1], j, (trail + [z])[j], (trail + [z])[j + 1])
    {
      assert drop[..i + 1][..j] == drop[..j];
      if j < i {
        assert RemovesOne(chain, known, drop[..i], j, trail[j], trail[j + 1]);
        assert drop[..i][..j] == drop[..j];
      }
    }
  }

  /** Taking tx's nonce, and all behind it, off the pending list leaves tx unlisted. */
  lemma CutPending(p: Lists, q: Lists, all: set<Tx>, tx: Tx, l: List)
    requires Filing(p, q, all) && tx.sender in p && tx.nonce in p[tx.sender].items
    requires l == Without(p[tx.sender], tx.nonce)
    ensures Filing(p[tx.sender := l], q, all - {tx}) && Filing(p - {tx.sender}, q, all - {tx})
  {
    assert EntryOk(p[tx.sender], tx.sender, true, all);
    ShrinkPending(p, q, all, tx.sender, l);
    assert tx.nonce !in Of(q, tx.sender) by { assert tx.nonce in Of(p, tx.sender); }
    ForgetKeeps(p[tx.sender := l], q, all, {tx});
    ForgetKeeps(p - {tx.sender}, q, all, {tx});
  }

  lemma CutQueue(p: Lists, q: Lists, all: set<Tx>, tx: Tx, l: List)
    requires Filing(p, q, all) && tx.sender in q && l == Without(q[tx.sender], tx.nonce)
    requires tx.nonce !in Of(p, tx.sender)
    ensures Filing(p, q[tx.sender := l], all - {tx}) && Filing(p, q - {tx.sender}, all - {tx})
  {
    assert EntryOk(q[tx.sender], tx.sender, false, all);
    ShrinkQueue(p, q, all, tx.sender, l);
    ForgetKeeps(p, q[tx.sender := l], all, {tx});
    ForgetKeeps(p, q - {tx.sender}, all, {tx});
  }

  lemma OneMore(q: Items, txs: Items, left: set<nat>, n: nat)
    requires n in left && n in txs
    ensures q + (txs - (left - {n})) == (q + (txs - left))[n := txs[n]]
    ensures Values(txs - (left - {n})) == Values(txs - left) + {txs[n]}
  {
    var one, two := txs - left, txs - (left - {n});
    assert two == one[n := txs[n]];
    forall x
      ensures x in Values(two) <==> x in Values(one) || x == txs[n]
    {
      if x in Values(one) {
        var m :| m in one && one[m] == x;
        assert m in two && two[m] == x;
      }
      assert n in two && two[n] == txs[n];
    }
  }

  /** What stands behind a pending transaction is known and not queued. */
  lemma InvalidsKnown(p: Lists, q: Lists, all: set<Tx>, tx: Tx)
    requires Filing(p, q, all) && tx.nonce in Of(p, tx.sender)
    ensures var inv := From(Of(p, tx.sender), tx.nonce + 1);
            Filed(inv) && forall n :: n in inv ==>
                inv[n].sender == tx.sender && inv[n] in all - {tx} && n !in Of(q, tx.sender)
  {
    assert EntryOk(p[tx.sender], tx.sender, true, all);
  }

  /** Removal keeps every account's pending nonces gap-free up to the tracked nonce. */
  lemma RemovalKeepsSeamless(chain: Chain, p: Lists, q: Lists, tracked: map<Addr, nat>, tx: Tx, p': Lists, q': Lists,
                             tracked': map<Addr, nat>)
    requires AfterRemoval(chain, p, q, tracked, tx, p', q', tracked')
    ensures Seamless(chain, p, tracked) ==> Seamless(chain, p', tracked')
  {
    if Seamless(chain, p, tracked) {
      forall a
        ensures SeamlessAt(chain, p', tracked', a)
      {
        assert SeamlessAt(chain, p, tracked, a);
      }
    }
  }

  /** What stood behind a removed pending transaction stays known, but it goes back to the queue
      only if something stood before it: removing the lowest one orphans all the others. */
  lemma RemovalOrphans(chain: Chain, p: Lists, q: Lists, all: set<Tx>, tracked: map<Addr, nat>, tx: Tx,
                       p': Lists, q': Lists, tracked': map<Addr, nat>, x: Tx)
    requires Filing(p, q, all) && tx.nonce in Of(p, tx.sender) && Has(Of(p, tx.sender), x) && x.nonce > tx.nonce
    requires AfterRemoval(chain, p, q, tracked, tx, p', q', tracked')
    ensures x in all - {tx} && !Has(Of(p', tx.sender), x)
    ensures Has(Of(q', tx.sender), x) <==> exists m :: m in Of(p, tx.sender) && m < tx.nonce
  {
    var a := tx.sender;
    assert EntryOk(p[a], a, true, all);
    assert x.nonce !in Of(q, a);
    if m :| m in Of(p, a) && m < tx.nonce {
      assert m in Below(Of(p, a), tx.nonce);
    }
  }

  predicate Listed(p: Lists, q: Lists, x: Tx) { Has(Of(p, x.sender), x) || Has(Of(q, x.sender), x) }

  /** The known transactions that no list holds. */
  ghost function Strays(p: Lists, q: Lists, all: set<Tx>): set<Tx> { set x | x in all && !Listed(p, q, x) }

  lemma SameStrays(p: Lists, q: Lists, p': Lists, q': Lists, all: set<Tx>)
    requires forall x :: Listed(p', q', x) <==> Listed(p, q, x)
    ensures Strays(p', q', all) == Strays(p, q, all)
  {
  }

  /** Forgetting just what leaves an account's queue makes no strays. */
  lemma QueuePartStrays(p: Lists, q: Lists, all: set<Tx>, a: Addr, l: List, gone: Items)
    requires Filing(p, q, all) && a in q && Parts(q[a].items, l.items, gone)
    ensures Strays(p, q[a := l], all - Values(gone)) == Strays(p, q, all)
  {
    assert EntryOk(q[a], a, false, all);
    forall x | x in all
      ensures x in Values(gone) <==> Listed(p, q, x) && !Listed(p, q[a := l], x)
    {
      GoneFromQueue(p, q, all, a, l, gone, x);
    }
    assert forall x :: Listed(p, q[a := l], x) ==> Listed(p, q, x);
  }

  lemma GoneFromQueue(p: Lists, q: Lists, all: set<Tx>, a: Addr, l: List, gone: Items, x: Tx)
    requires Filing(p, q, all) && a in q && Parts(q[a].items, l.items, gone)
    ensures x in Values(gone) <==> Listed(p, q, x) && !Listed(p, q[a := l], x)
  {
    assert EntryOk(q[a], a, false, all);
    if x in Values(gone) {
      var n :| n in gone && gone[n] == x;
      assert n in Of(q, a);
      assert n !in Of(p, a);
    }
    if Listed(p, q, x) && !Listed(p, q[a := l], x) {
      assert x.sender == a && x.nonce in gone && gone[x.nonce] == x;
    }
  }

  lemma PendingPartStrays(p: Lists, q: Lists, all: set<Tx>, a: Addr, l: List, gone: Items)
    requires Filing(p, q, all) && a in p && Parts(p[a].items, l.items, gone)
    ensures Strays(p[a := l], q, all - Values(gone)) == Strays(p, q, all)
  {
    assert EntryOk(p[a], a, true, all);
    forall x | x in all
      ensures x in Values(gone) <==> Listed(p, q, x) && !Listed(p[a := l], q, x)
    {
      GoneFromPending(p, q, all, a, l, gone, x);
    }
    assert forall x :: Listed(p[a := l], q, x) ==> Listed(p, q, x);
  }

  lemma GoneFromPending(p: Lists, q: Lists, all: set<Tx>, a: Addr, l: List, gone: Items, x: Tx)
    requires Filing(p, q, all) && a in p && Parts(p[a].items, l.items, gone)
    ensures x in Values(gone) <==> Listed(p, q, x) && !Listed(p[a := l], q, x)
  {
    assert EntryOk(p[a], a, true, all);
    if x in Values(gone) {
      var n :| n in gone && gone[n] == x;
      assert n in Of(p, a);
      assert n !in Of(q, a);
    }
    if Listed(p, q, x) && !Listed(p[a := l], q, x) {
      assert x.sender == a && x.nonce in gone && gone[x.nonce] == x;
    }
  }

  /** What moves from one list of an account to the other stays listed. */
  lemma MovedStrays(p: Lists, q: Lists, all: set<Tx>, p': Lists, q': Lists, a: Addr, moved: Items)
    requires SameBut(p, p', a) && SameBut(q, q', a) && (forall n :: n in moved ==> n !in Of(p', a) && n !in Of(q, a))
    requires forall n :: n in Of(p, a) <==> n in Of(p', a) || n in moved
    requires forall n :: n in moved ==> Of(p, a)[n] == moved[n]
    requires forall n :: n in Of(p', a) ==> Of(p, a)[n] == Of(p', a)[n]
    requires Of(q', a) == Of(q, a) + moved
    ensures Strays(p', q', all) == Strays(p, q, all)
  {
    forall x
      ensures Listed(p', q', x) <==> Listed(p, q, x)
    {
      if x.sender == a { assert x.nonce in moved ==> Of(p, a)[x.nonce] == moved[x.nonce]; }
    }
  }

  /** The slot tx is removed from holds tx itself and, if it is pending, something stands before it
      or nothing behind it. */
  ghost predicate SafeToRemove(p: Lists, q: Lists, tx: Tx) {
    var a, n := tx.sender, tx.nonce;
    if n in Of(p, a) then
      Of(p, a)[n] == tx && ((exists m :: m in Of(p, a) && m < n) || (forall m :: m in Of(p, a) ==> m <= n))
    else
      n in Of(q, a) ==> Of(q, a)[n] == tx
  }

  /** Removal goes by the nonce: it leaves every other transaction listed exactly if it is safe. */
  lemma NoOrphansIff(chain: Chain, p: Lists, q: Lists, all: set<Tx>, tracked: map<Addr, nat>, tx: Tx, p': Lists,
                     q': Lists, tracked': map<Addr, nat>)
    requires Filing(p, q, all) && tx in all && AfterRemoval(chain, p, q, tracked, tx, p', q', tracked')
    ensures (forall x :: x in all - {tx} && Listed(p, q, x) ==> Listed(p', q', x)) <==> SafeToRemove(p, q, tx)
  {
    if SafeToRemove(p, q, tx) {
      forall x | x in all - {tx} && Listed(p, q, x)
        ensures Listed(p', q', x)
      {
        SafeKeeps(chain, p, q, all, tracked, tx, p', q', tracked', x);
      }
    } else {
      var x := Orphan(chain, p, q, all, tracked, tx, p', q', tracked');
    }
  }

  lemma SafeKeeps(chain: Chain, p: Lists, q: Lists, all: set<Tx>, tracked: map<Addr, nat>, tx: Tx, p': Lists, q': Lists,
                  tracked': map<Addr, nat>, x: Tx)
    requires Filing(p, q, all) && tx in all && AfterRemoval(chain, p, q, tracked, tx, p', q', tracked')
    requires SafeToRemove(p, q, tx) && x in all - {tx} && Listed(p, q, x)
    ensures Listed(p', q', x)
  {
    if x.sender == tx.sender && tx.nonce in Of(p, tx.sender) && Has(Of(p, tx.sender), x) && x.nonce > tx.nonce {
      RemovalOrphans(chain, p, q, all, tracked, tx, p', q', tracked', x);
    }
  }

  /** An unsafe removal orphans this one. */
  lemma Orphan(chain: Chain, p: Lists, q: Lists, all: set<Tx>, tracked: map<Addr, nat>, tx: Tx, p': Lists, q': Lists,
               tracked': map<Addr, nat>)
    returns (x: Tx)
    requires Filing(p, q, all) && tx in all && AfterRemoval(chain, p, q, tracked, tx, p', q', tracked')
    requires !SafeToRemove(p, q, tx)
    ensures x in all - {tx} && Listed(p, q, x) && !Listed(p', q', x)
  {
    var a, n := tx.sender, tx.nonce;
    assert a in p ==> EntryOk(p[a], a, true, all);
    assert a in q ==> EntryOk(q[a], a, false, all);
    if n !in Of(p, a) {
      x := Of(q, a)[n];
    } else if Of(p, a)[n] != tx {
      x := Of(p, a)[n];
      assert n !in Of(q, a);
    } else {
      var m :| m in Of(p, a) && m > n;
      x := Of(p, a)[m];
      RemovalOrphans(chain, p, q, all, tracked, tx, p', q', tracked', x);
    }
  }

  /** Two pending transactions and an empty queue: once the first is removed, the second is in no
      list. */
  lemma OrphanExample(chain: Chain, first: Tx, second: Tx)
    requires first.sender == second.sender && first.nonce == 0 && second.nonce == 1
    ensures var a := first.sender;
            var l := List(true, map[0 := first, 1 := second], first.cost + second.cost, first.gas + second.gas);
            && Filing(map[a := l], map[], {first, second})
            && AfterRemoval(chain, map[a := l], map[], map[a := 2], first, map[], map[], map[a := 0])
            && !Has(Of(map[], a), second)
  {
    var l := List(true, map[0 := first, 1 := second], first.cost + second.cost, first.gas + second.gas);
    assert EntryOk(l, first.sender, true, {first, second});
    assert Below(l.items, 0) == map[];
  }

  /** The orphan's slot is free: a rival is queued, and once the orphan is evicted the rival is in
      no list either. */
  lemma RivalOrphaned(chain: Chain, orphan: Tx, rival: Tx)
    requires orphan != rival && Rivals(orphan, rival)
    ensures var a := rival.sender;
            var q: Lists := map[a := Added(EMPTY_QUEUE, rival)];
            && Filing(map[], map[], {orphan}) && !Listed(map[], map[], orphan)
            && FiledAs(map[], map[], {orphan}, rival, map[], q, {orphan, rival}, false) &&
               Filing(map[], q, {orphan, rival})
            && AfterRemoval(chain, map[], q, map[], orphan, map[], map[], map[]) && !Listed(map[], map[], rival)
  {
    var a := rival.sender;
    var q: Lists := map[a := Added(EMPTY_QUEUE, rival)];
    assert EntryOk(q[a], a, false, {orphan, rival});
    assert Of(q, a) - {orphan.nonce} == map[];
  }

  lemma SameNonces(chain: Chain, p: Lists, p': Lists, tracked: map<Addr, nat>)
    requires forall a :: Of(p', a).Keys == Of(p, a).Keys
    ensures Seamless(chain, p, tracked) ==> Seamless(chain, p', tracked)
  {
    if Seamless(chain, p, tracked) {
      forall a
        ensures SeamlessAt(chain, p', tracked, a)
      {
        assert SeamlessAt(chain, p, tracked, a);
      }
    }
  }

  /** cur is p with the entries of run below n merged in. */
  ghost predicate Merges(p: Items, run: Items, n: nat, cur: Items) {
    && (forall m :: m in cur <==> m in p || (m in run && m < n))
    && (forall m :: m in cur ==> cur[m] == if m in run && m < n then run[m] else p[m])
  }

  lemma MergesStep(p: Items, run: Items, n: nat, cur: Items, cur': Items)
    requires n in run && Merges(p, run, n, cur) && cur' == cur[n := run[n]]
    ensures Merges(p, run, n + 1, cur')
  {
  }

  lemma MergesAll(p: Items, run: Items, n: nat, cur: Items)
    requires Merges(p, run, n, cur) && forall m :: m in run ==> m < n
    ensures cur == p + run
  {
  }

  /** What of an account's queue the chain state still allows. */
  function Payable(chain: Chain, a: Addr, q: Items): Items {
    Affordable(false, From(q, chain.nonce(a)), chain.balance(a), chain.maxGas)
  }

  /** An account's queue after promotion from the tracked nonce `start`. */
  function QueueAfter(config: Config, chain: Chain, local: bool, a: Addr, q: Items, start: nat): Items {
    var rest := AfterReady(Payable(chain, a, q), start);
    if local then rest else CapTo(rest, config.accountQueue)
  }

  /** Nothing that could be executed next is left in the queue. */
  lemma NoneReady(config: Config, chain: Chain, local: bool, a: Addr, q: Items, start: nat)
    ensures NextAfter(Payable(chain, a, q), start) !in QueueAfter(config, chain, local, a, q, start)
  {
  }

  lemma NothingQueued(config: Config, chain: Chain, local: bool, a: Addr, start: nat, p: Items)
    ensures QueueAfter(config, chain, local, a, map[], start) == map[]
    ensures p + ReadyRun(Payable(chain, a, map[]), start) == p && NextAfter(Payable(chain, a, map[]), start) == start
  {
  }

  lemma QueueAfterIs(config: Config, chain: Chain, local: bool, a: Addr, q0: Items, q2: Items, q3: Items, q4: Items,
                     start: nat)
    requires q2 == Payable(chain, a, q0) && q3 == AfterReady(q2, start)
    requires q4 == if local then q3 else CapTo(q3, config.accountQueue)
    ensures q4 == QueueAfter(config, chain, local, a, q0, start)
  {
  }

  lemma PayableFree(chain: Chain, p: Lists, q: Lists, all: set<Tx>, a: Addr, q0: Items)
    requires Filing(p, q, all) && Of(q, a) == Payable(chain, a, q0)
    ensures forall n :: n in Of(q, a) ==> n >= chain.nonce(a) && n !in Of(p, a)
  {
  }

  lemma PromotedStrays(p: Lists, q: Lists, all: set<Tx>, p': Lists, q': Lists, a: Addr, start: nat)
    requires SameBut(p, p', a) && SameBut(q, q', a) && (forall n :: n in Of(q, a) ==> n !in Of(p, a))
    requires Of(q', a) == AfterReady(Of(q, a), start) && Of(p', a) == Of(p, a) + ReadyRun(Of(q, a), start)
    ensures Strays(p', q', all) == Strays(p, q, all)
  {
    forall x
      ensures Listed(p', q', x) <==> Listed(p, q, x)
    {
    }
  }

  lemma OneForgotten(p: Lists, q: Lists, all: set<Tx>, q': Lists, a: Addr, n: nat)
    requires Filing(p, q, all) && n in Of(q, a) && SameBut(q, q', a) && Of(q', a) == Of(q, a) - {n}
    ensures Strays(p, q', all - {Of(q, a)[n]}) == Strays(p, q, all)
  {
    assert EntryOk(q[a], a, false, all);
    assert n !in Of(p, a);
    forall x
      ensures Listed(p, q', x) <==> Listed(p, q, x) && x != Of(q, a)[n]
    {
    }
  }

  /** Where the tracked nonce stands after promotion from `start`. */
  function NextAfter(q: Items, start: nat): nat {
    if IsReady(q, start) then RunStop(q, MinKey(q.Keys)) else start
  }

  /** What is ready: with some nonce no later than start, all that have no gap below them. */
  lemma RunIff(items: Items, start: nat, n: nat)
    ensures n in ReadyRun(items, start) <==>
            && n in items && (exists k :: k in items && k <= start)
            && (forall k, m :: k in items && k <= m <= n ==> m in items)
    ensures n in ReadyRun(items, start) ==> ReadyRun(items, start)[n] == items[n]
    ensures n in AfterReady(items, start) <==> n in items && n !in ReadyRun(items, start)
    ensures n in AfterReady(items, start) ==> AfterReady(items, start)[n] == items[n]
    ensures n in ReadyRun(items, start) ==> n + 1 in ReadyRun(items, start) || NextAfter(items, start) == n + 1
    ensures ReadyRun(items, start) == map[] ==> NextAfter(items, start) == start
  {
    if items != map[] {
      var first := MinKey(items.Keys);
      if first <= start {
        var stop := RunStop(items, first);
        assert n in items && n >= stop ==> first <= stop <= n && stop !in items;
        assert first in ReadyRun(items, start) by { assert stop != first; }
      } else {
        assert forall k :: k in items ==> k > start;
      }
    }
  }

  /** What becomes of a queued transaction when its account is promoted from `start`: too old or too
      dear, it is dropped; ready, it becomes pending; else it stays queued, a remote account's only
      among the lowest nonces it is granted. */
  lemma PromotionIff(config: Config, chain: Chain, local: bool, a: Addr, q: Items, start: nat, n: nat)
    requires n in q
    ensures var ready := Payable(chain, a, q);
            && (n in ready <==> chain.nonce(a) <= n && q[n].cost <= chain.balance(a) && q[n].gas <= chain.maxGas)
            && (n in ready ==> ready[n] == q[n])
            && (n in QueueAfter(config, chain, local, a, q, start) <==>
                  && n in ready && n !in ReadyRun(ready, start)
                  && (local || Rank(AfterReady(ready, start).Keys, n) < config.accountQueue))
  {
    RunIff(Payable(chain, a, q), start, n);
  }

  lemma RunIs(items: Items, start: nat)
    requires IsReady(items, start)
    ensures forall n :: n in ReadyRun(items, start) <==> MinKey(items.Keys) <= n < RunStop(items, MinKey(items.Keys))
  {
  }

  /** Promotion extends a gap-free pending list at its end. */
  lemma PromotionKeepsSeamless(chain: Chain, p: Lists, tracked: map<Addr, nat>, a: Addr, q: Items, start: nat,
                               run: Items, after: nat, p': Lists, tracked': map<Addr, nat>)
    requires start == Next(chain, tracked, a) && SameBut(p, p', a) && SameNext(chain, tracked, tracked', a)
    requires forall n :: n in q ==> n >= chain.nonce(a) && n !in Of(p, a)
    requires run == ReadyRun(q, start) && after == NextAfter(q, start)
    requires Of(p', a) == Of(p, a) + run && Next(chain, tracked', a) == after
    ensures Seamless(chain, p, tracked) ==> Seamless(chain, p', tracked')
  {
    if Seamless(chain, p, tracked) {
      assert SeamlessAt(chain, p, tracked, a);
      forall b
        ensures SeamlessAt(chain, p', tracked', b)
      {
        assert SeamlessAt(chain, p, tracked, b);
      }
    }
  }

  /** whole is split into kept and gone. */
  ghost predicate Parts(whole: Items, kept: Items, gone: Items) {
    && (forall n :: n in whole <==> n in kept || n in gone)
    && (forall n :: n in kept ==> n !in gone && kept[n] == whole[n])
    && (forall n :: n in gone ==> gone[n] == whole[n])
  }

  lemma ForwardParts(l: List, c: nat)
    requires ListOk(l)
    ensures Parts(l.items, Forwarded(l, c).items, Below(l.items, c)) && ListOk(Forwarded(l, c))
  {
  }

  lemma FilterParts(l: List, cost: nat, gas: nat)
    requires ListOk(l) && !l.strict
    ensures Parts(l.items, Filtered(l, cost, gas).items, TooDear(l.items, cost, gas)) && ListOk(Filtered(l, cost, gas))
    ensures Filtered(l, cost, gas).items == Affordable(false, l.items, cost, gas) && !Filtered(l, cost, gas).strict
  {
    FilterIsFullScan(l, cost, gas);
    FilterPartitions(l, cost, gas);
  }

  lemma CapParts(l: List, k: nat)
    requires ListOk(l)
    ensures Parts(l.items, CappedTo(l, k).items, Beyond(l.items, k)) && ListOk(CappedTo(l, k))
    ensures |CappedTo(l, k).items| <= k
  {
    CapFacts(l.items, k);
  }

  /** What leaves an account's queue is in no list any more. */
  lemma PartUnlisted(p: Lists, q: Lists, all: set<Tx>, a: Addr, l: List, gone: Items)
    requires Filing(p, q, all) && a in q && !l.strict && ListOk(l) && Parts(q[a].items, l.items, gone)
    ensures Filing(p, q[a := l], all) && Filed(gone)
    ensures forall n :: n in gone ==>
            !Has(Of(p, gone[n].sender), gone[n]) && !Has(Of(q[a := l], gone[n].sender), gone[n])
  {
    assert EntryOk(q[a], a, false, all);
    ShrinkQueue(p, q, all, a, l);
    forall n | n in gone
      ensures gone[n].sender == a && n !in Of(p, a)
    {
      assert n in Of(q, a);
    }
  }

  /** The ready run leaves the queue and is free to be filed as pending. */
  lemma ReadyParts(p: Lists, q: Lists, all: set<Tx>, a: Addr, start: nat)
    requires Filing(p, q, all) && a in q
    ensures Filing(p, q[a := Advanced(q[a], start)], all)
    ensures var run := ReadyRun(q[a].items, start);
            && Filed(run)
            && (forall n :: n in run ==>
                run[n].sender == a && run[n] in all && n !in Of(p, a) && n !in AfterReady(q[a].items, start))
            && (!IsReady(q[a].items, start) ==> Of(p, a) + run == Of(p, a))
  {
    assert EntryOk(q[a], a, false, all);
    ShrinkQueue(p, q, all, a, Advanced(q[a], start));
    forall n | n in q[a].items
      ensures n !in Of(p, a)
    {
      assert n in Of(q, a);
    }
  }

  lemma PendingPart(p: Lists, q: Lists, all: set<Tx>, a: Addr, l: List, gone: Items)
    requires Filing(p, q, all) && a in p && l.strict && ListOk(l) && Parts(p[a].items, l.items, gone)
    ensures Filing(p[a := l], q, all) && Filed(gone)
    ensures forall n :: n in gone ==>
            !Has(Of(p[a := l], gone[n].sender), gone[n]) && !Has(Of(q, gone[n].sender), gone[n])
    ensures forall n :: n in gone ==> gone[n].sender == a && gone[n] in all && n !in Of(q, a) && n !in Of(p[a := l], a)
  {
    assert EntryOk(p[a], a, true, all);
    ShrinkPending(p, q, all, a, l);
    forall n | n in gone
      ensures gone[n].sender == a && n !in Of(q, a)
    {
      assert n in Of(p, a);
    }
  }

  /** A strict list after the too expensive transactions left it, before the stranded ones do. */
  function Unfilled(l: List, cost: nat, gas: nat): List {
    Filtered(l, cost, gas).(items := map n | n in l.items && !Dear(l.items[n], cost, gas) :: l.items[n])
  }

  lemma StrictFilterParts(l: List, cost: nat, gas: nat)
    requires ListOk(l) && l.strict
    ensures Filtered(l, cost, gas).items == Affordable(true, l.items, cost, gas)
    ensures ListOk(Unfilled(l, cost, gas)) && ListOk(Filtered(l, cost, gas)) && Filtered(l, cost, gas).strict
    ensures Parts(l.items, Unfilled(l, cost, gas).items, TooDear(l.items, cost, gas))
    ensures Parts(Unfilled(l, cost, gas).items, Filtered(l, cost, gas).items, Stranded(l.items, cost, gas))
  {
    FilterIsFullScan(l, cost, gas);
  }

  lemma CapZero(l: List)
    requires ListOk(l)
    ensures CappedTo(l, 0).items == map[] && ListOk(CappedTo(l, 0)) && Parts(l.items, CappedTo(l, 0).items, l.items)
  {
  }

  /** What survives of an account's pending list: the affordable prefix, if it starts at the
      chain nonce. */
  function Staying(chain: Chain, a: Addr, p: Items): Items {
    var kept := Affordable(true, From(p, chain.nonce(a)), chain.balance(a), chain.maxGas);
    if kept != map[] && chain.nonce(a) !in kept then map[] else kept
  }

  /** What goes back to the queue: all that is affordable but no longer pending. */
  function Demoted(chain: Chain, a: Addr, p: Items): Items {
    map n | n in p && n >= chain.nonce(a) && !Dear(p[n], chain.balance(a), chain.maxGas)
            && n !in Staying(chain, a, p) :: p[n]
  }

  /** A pending transaction stays pending exactly if the chain nonce is pending and it and all pending
      ones from there on are affordable; it goes back to the queue exactly if it is affordable and
      not below the chain nonce, but does not stay. The others are dropped. */
  lemma DemotionIff(chain: Chain, a: Addr, p: Items, n: nat)
    requires n in p
    ensures var c := chain.nonce(a);
            n in Staying(chain, a, p) <==>
              && c in p && c <= n
              && forall m :: m in p && c <= m <= n ==> p[m].cost <= chain.balance(a) && p[m].gas <= chain.maxGas
    ensures n in Demoted(chain, a, p) <==>
              && n !in Staying(chain, a, p) && chain.nonce(a) <= n
              && p[n].cost <= chain.balance(a) && p[n].gas <= chain.maxGas
    ensures n in Staying(chain, a, p) ==> Staying(chain, a, p)[n] == p[n]
    ensures n in Demoted(chain, a, p) ==> Demoted(chain, a, p)[n] == p[n]
  {
    var c := chain.nonce(a);
    var above := From(p, c);
    var kept := Affordable(true, above, chain.balance(a), chain.maxGas);
    forall m | m in p && c <= m
      ensures m in kept <==> forall k :: k in p && c <= k <= m ==> !Dear(p[k], chain.balance(a), chain.maxGas)
    {
      assert m in above;
      assert forall k :: k in p && c <= k <= m ==> k in above;
    }
  }

  lemma DemotedIs(chain: Chain, a: Addr, p: Items, l1: List, l2: List, q: Items)
    requires l1.items == From(p, chain.nonce(a))
    requires l2.items == Affordable(true, l1.items, chain.balance(a), chain.maxGas)
    ensures var gapped := l2.items != map[] && chain.nonce(a) !in l2.items;
            var s := q + Stranded(l1.items, chain.balance(a), chain.maxGas);
            && Staying(chain, a, p) == (if gapped then map[] else l2.items)
            && q + Demoted(chain, a, p) == (if gapped then s + l2.items else s)
  {
    var d, s := Demoted(chain, a, p), Stranded(l1.items, chain.balance(a), chain.maxGas);
    var gapped := l2.items != map[] && chain.nonce(a) !in l2.items;
    assert Staying(chain, a, p) == if gapped then map[] else l2.items;
    forall n
      ensures n in d <==> n in s || (gapped && n in l2.items)
      ensures n in d ==> d[n] == p[n]
    {
      assert n in l1.items && !Dear(p[n], chain.balance(a), chain.maxGas) ==> (n in s <==> n !in l2.items);
    }
    MergeTwo(q, s, l2.items, d, gapped);
  }

  lemma MergeTwo(q: Items, s: Items, l: Items, d: Items, both: bool)
    requires forall n :: n in d <==> n in s || (both && n in l)
    requires (forall n :: n in s ==> n in d && s[n] == d[n]) && (both ==> forall n :: n in l ==> n in d && l[n] == d[n])
    ensures (if both then q + s + l else q + s) == q + d
  {
    var x, y := if both then q + s + l else q + s, q + d;
    forall n
      ensures n in x <==> n in y
      ensures n in x ==> x[n] == y[n]
    {
    }
  }

  /** Demotion has dealt with account a. */
  ghost predicate Settled(chain: Chain, p0: Lists, q0: Lists, p: Lists, q: Lists, a: Addr) {
    Of(p, a) == Staying(chain, a, Of(p0, a)) && Of(q, a) == Of(q0, a) + Demoted(chain, a, Of(p0, a))
  }

  /** Demotion has dealt with all accounts but those left. */
  ghost predicate Settling(chain: Chain, p0: Lists, q0: Lists, p: Lists, q: Lists, left: set<Addr>) {
    && (forall a :: a in left ==> Of(p, a) == Of(p0, a) && Of(q, a) == Of(q0, a))
    && (forall a :: a !in left ==> Settled(chain, p0, q0, p, q, a))
  }

  lemma Unsettled(chain: Chain, p: Lists, q: Lists)
    ensures Settling(chain, p, q, p, q, p.Keys)
  {
    forall a | a !in p
      ensures Settled(chain, p, q, p, q, a)
    {
      assert Staying(chain, a, map[]) == map[];
      assert Demoted(chain, a, map[]) == map[];
      assert Of(q, a) + map[] == Of(q, a);
    }
  }

  lemma SettleOne(chain: Chain, p0: Lists, q0: Lists, p: Lists, q: Lists, p': Lists, q': Lists, left: set<Addr>,
                  a: Addr)
    requires Settling(chain, p0, q0, p, q, left) && a in left && SameBut(p, p', a) && SameBut(q, q', a)
    requires Of(p', a) == Staying(chain, a, Of(p, a)) && Of(q', a) == Of(q, a) + Demoted(chain, a, Of(p, a))
    ensures Settling(chain, p0, q0, p', q', left - {a})
  {
    forall b | b !in left - {a}
      ensures Settled(chain, p0, q0, p', q', b)
    {
      assert b != a ==> Settled(chain, p0, q0, p, q, b);
    }
  }

  /** No list is empty but those of the accounts left. */
  ghost predicate Filled(m: Lists, left: set<Addr>) {
    forall a :: a in m && a !in left ==> Of(m, a) != map[]
  }

  lemma FilledOne(m: Lists, m': Lists, left: set<Addr>, a: Addr)
    requires Filled(m, left) && SameBut(m, m', a) && m'.Keys <= m.Keys && (a in m' ==> Of(m', a) != map[])
    ensures Filled(m', left - {a})
  {
  }

  /** Dropping the highest pending nonce and going back to it leaves no gap. */
  lemma CutKeepsSeamless(chain: Chain, p: Lists, tracked: map<Addr, nat>, a: Addr, n: nat, p': Lists,
                         tracked': map<Addr, nat>)
    requires n in Of(p, a) && SameBut(p, p', a) && Of(p', a) == Below(Of(p, a), n)
    requires tracked' == if Next(chain, tracked, a) > n then tracked[a := n] else tracked
    ensures Seamless(chain, p, tracked) ==> Seamless(chain, p', tracked')
  {
    if Seamless(chain, p, tracked) {
      forall b
        ensures SeamlessAt(chain, p', tracked', b)
      {
        assert SeamlessAt(chain, p, tracked, b);
      }
    }
  }

  lemma OneLess(items: Items, n: nat)
    requires n in items
    ensures |items - {n}| == |items| - 1
  {
    assert (items - {n}).Keys == items.Keys - {n};
  }

  /** Replacing or deleting one account's list changes the total by the difference. */
  lemma TotalAfter(m: Lists, m': Lists, a: Addr)
    requires a in m && m.Keys - {a} <= m'.Keys <= m.Keys && SameBut(m, m', a)
    ensures Total(m') == Total(m) - Len(m, a) + Len(m', a)
  {
    if a in m' {
      TotalChanges(m, m', a);
    } else {
      TotalDeletes(m, a);
      assert m'.Keys == (m - {a}).Keys;
      SumSame(m - {a}, m', m'.Keys);
    }
  }

  /** Taking the highest nonce off the k lowest leaves the k-1 lowest. */
  lemma TailStep(q0: Items, q: Items, k: nat, less: nat)
    requires Filed(q0) && q == CapTo(q0, k) && less + 1 == k <= |q0|
    ensures q != map[] && q - {MaxKey(q.Keys)} == CapTo(q0, less)
  {
    CapFacts(q0, k);
    assert |q| - 1 == less;
    TopOff(q, less);
    CapTwice(q0, k, less);
  }

  lemma TopOff(q: Items, less: nat)
    requires Filed(q) && |q| == less + 1
    ensures q - {MaxKey(q.Keys)} == CapTo(q, less)
  {
    var n := CapLast(q);
  }

  /** Account a has been promoted from x to y. */
  ghost predicate Promoted(config: Config, chain: Chain, locals: set<Addr>, x: Books, y: Books, a: Addr) {
    var start := Next(chain, x.tracked, a);
    var ready := Payable(chain, a, Of(x.queue, a));
    && Of(y.queue, a) == QueueAfter(config, chain, a in locals, a, Of(x.queue, a), start)
    && Of(y.pending, a) == Of(x.pending, a) + ReadyRun(ready, start)
    && Next(chain, y.tracked, a) == NextAfter(ready, start)
    && (a !in locals ==> Len(y.queue, a) <= config.accountQueue)
  }

  ghost predicate Untouched(chain: Chain, x: Books, y: Books, a: Addr) {
    Of(y.pending, a) == Of(x.pending, a) && Of(y.queue, a) == Of(x.queue, a) &&
        Next(chain, y.tracked, a) == Next(chain, x.tracked, a)
  }

  /** Something of account a's queue can be promoted. */
  ghost predicate Runs(chain: Chain, x: Books, a: Addr) {
    ReadyRun(Payable(chain, a, Of(x.queue, a)), Next(chain, x.tracked, a)) != map[]
  }

  /** The heartbeats of the accounts done that had something promoted are now, the others as before. */
  ghost predicate Beaten(chain: Chain, now: nat, x: Books, y: Books, done: set<Addr>) {
    forall a :: Beat(y.beats, a) == if a in done && Runs(chain, x, a) then now else Beat(x.beats, a)
  }

  lemma BeatOne(chain: Chain, now: nat, x: Books, y: Books, z: Books, done: set<Addr>, a: Addr)
    requires Beaten(chain, now, x, y, done) && a !in done && Untouched(chain, x, y, a)
    requires BeatsAt(y.beats, z.beats, a, if Runs(chain, y, a) then now else Beat(y.beats, a))
    ensures Beaten(chain, now, x, z, done + {a})
  {
  }

  /** The accounts done are promoted, the others untouched. */
  ghost predicate Promoting(config: Config, chain: Chain, locals: set<Addr>, x: Books, y: Books, done: set<Addr>) {
    && (forall a :: a in done ==> Promoted(config, chain, locals, x, y, a))
    && (forall a :: a !in done ==> Untouched(chain, x, y, a))
  }

  lemma PromoteOne(config: Config, chain: Chain, locals: set<Addr>, x: Books, y: Books, z: Books, done: set<Addr>,
                   a: Addr)
    requires Promoting(config, chain, locals, x, y, done) && a !in done
    requires SameBut(y.pending, z.pending, a) && SameBut(y.queue, z.queue, a)
    requires SameNext(chain, y.tracked, z.tracked, a)
    requires Promoted(config, chain, locals, y, z, a)
    ensures Promoting(config, chain, locals, x, z, done + {a})
  {
    forall b | b in done + {a}
      ensures Promoted(config, chain, locals, x, z, b)
    {
      if b == a {
        assert Untouched(chain, x, y, a);
        PromotedFrom(config, chain, locals, x, y, z, a);
      } else {
        assert Promoted(config, chain, locals, x, y, b);
        PromotedTo(config, chain, locals, x, y, z, b);
      }
    }
    forall b | b !in done + {a}
      ensures Untouched(chain, x, z, b)
    {
      assert Untouched(chain, x, y, b);
    }
  }

  lemma PromotedFrom(config: Config, chain: Chain, locals: set<Addr>, x: Books, y: Books, z: Books, a: Addr)
    requires Untouched(chain, x, y, a) && Promoted(config, chain, locals, y, z, a)
    ensures Promoted(config, chain, locals, x, z, a)
  {
  }

  lemma PromotedTo(config: Config, chain: Chain, locals: set<Addr>, x: Books, y: Books, z: Books, a: Addr)
    requires Promoted(config, chain, locals, x, y, a) && Untouched(chain, y, z, a)
    ensures Promoted(config, chain, locals, x, z, a)
  {
  }

  /** The pool is within its two global limits, as far as remote accounts are concerned. */
  ghost predicate Within(config: Config, locals: set<Addr>, p: Lists, q: Lists) {
    && (Total(p) <= config.globalSlots || NoneAbove(p, locals, config.accountSlots))
    && (Total(q) <= config.globalQueue || forall a :: a !in locals ==> Of(q, a) == map[])
  }

  lemma LowPartSize(x: Items, y: Items)
    requires LowPart(x, y)
    ensures |y| <= |x|
  {
    SubsetSize(y.Keys, x.Keys);
  }

  lemma LimitsMet(config: Config, chain: Chain, locals: set<Addr>, x: Books, mid: Books, accounts: set<Addr>,
                  y: Books, level: nat)
    requires Promoting(config, chain, locals, x, mid, accounts)
    requires Levelled(config, locals, mid.pending, y.pending, level)
    requires Culled(config, locals, mid.beats, mid.queue, y.queue)
    ensures Within(config, locals, y.pending, y.queue)
    ensures forall a :: a in accounts && a !in locals ==> Len(y.queue, a) <= config.accountQueue
  {
    forall a | a in accounts && a !in locals
      ensures Len(y.queue, a) <= config.accountQueue
    {
      assert Promoted(config, chain, locals, x, mid, a);
      LowPartSize(Of(mid.queue, a), Of(y.queue, a));
    }
  }

  // ---- the tracked nonces while pending lists are cut ----

  /** Account a's pending list has lost some of its highest nonces, and the tracked nonce has gone
      back to the lowest of them, if it stood higher. */
  ghost predicate CutAt(chain: Chain, p0: Lists, t0: map<Addr, nat>, p: Lists, t: map<Addr, nat>, a: Addr) {
    && LowPart(Of(p0, a), Of(p, a))
    && Next(chain, t, a) <= Next(chain, t0, a)
    && (forall n :: n in Of(p0, a) && n !in Of(p, a) ==> Next(chain, t, a) <= n)
    && (Next(chain, t, a) == Next(chain, t0, a) || (Next(chain, t, a) in Of(p0, a) && Next(chain, t, a) !in Of(p, a)))
  }

  ghost predicate Cuts(chain: Chain, p0: Lists, t0: map<Addr, nat>, p: Lists, t: map<Addr, nat>) {
    forall a :: CutAt(chain, p0, t0, p, t, a)
  }

  lemma CutMore(chain: Chain, p0: Lists, t0: map<Addr, nat>, p: Lists, t: map<Addr, nat>, a: Addr, n: nat, p': Lists,
                t': map<Addr, nat>)
    requires Cuts(chain, p0, t0, p, t) && n in Of(p, a) && (forall m :: m in Of(p, a) ==> m <= n)
    requires SameBut(p, p', a) && Of(p', a) == Below(Of(p, a), n)
    requires t' == if Next(chain, t, a) > n then t[a := n] else t
    ensures Cuts(chain, p0, t0, p', t')
  {
    forall b
      ensures CutAt(chain, p0, t0, p', t', b)
    {
      assert CutAt(chain, p0, t0, p, t, b);
    }
  }

  /** Dropping the highest pending nonce is one more cut, and keeps the accounts in step. */
  lemma LastDropped(chain: Chain, p0: Lists, t0: map<Addr, nat>, p: Lists, t: map<Addr, nat>, a: Addr, n: nat,
                    p': Lists, t': map<Addr, nat>)
    requires Cuts(chain, p0, t0, p, t) && n in Of(p, a) && (forall m :: m in Of(p, a) ==> m <= n)
    requires SameBut(p, p', a) && Of(p', a) == Below(Of(p, a), n)
    requires t' == if Next(chain, t, a) > n then t[a := n] else t
    ensures Cuts(chain, p0, t0, p', t') && (Seamless(chain, p, t) ==> Seamless(chain, p', t'))
  {
    CutMore(chain, p0, t0, p, t, a, n, p', t');
    CutKeepsSeamless(chain, p, t, a, n, p', t');
  }

  /** Cutting keeps an account in step. */
  lemma CutsSeamless(chain: Chain, p0: Lists, t0: map<Addr, nat>, p: Lists, t: map<Addr, nat>, a: Addr)
    requires CutAt(chain, p0, t0, p, t, a)
    ensures SeamlessAt(chain, p0, t0, a) ==> SeamlessAt(chain, p, t, a)
  {
  }

  /** The tracked nonces of all pending accounts but those left stand behind their lists. */
  ghost predicate Tracks(chain: Chain, p: Lists, t0: map<Addr, nat>, t: map<Addr, nat>, left: set<Addr>) {
    && (forall a :: a in p && a !in left && Of(p, a) != map[] ==> Next(chain, t, a) == MaxKey(Of(p, a).Keys) + 1)
    && (forall a :: a !in p ==> Next(chain, t, a) == Next(chain, t0, a))
  }

  /** The nonces run without gap from c. */
  ghost predicate RunsFrom(items: Items, c: nat) {
    && (forall n :: n in items ==> c <= n)
    && (forall n, m :: n in items && c <= m <= n ==> m in items)
  }

  /** Demotion leaves an account's pending nonces without gap from the chain nonce exactly if the
      part of the list that is affordable had no gap, or starts elsewhere. */
  lemma StayingRuns(chain: Chain, a: Addr, p: Items)
    ensures var c := chain.nonce(a);
            var kept := Affordable(true, From(p, c), chain.balance(a), chain.maxGas);
            RunsFrom(Staying(chain, a, p), c) <==> (c in kept ==> forall n, m :: n in kept && c <= m <= n ==> m in p)
  {
    var c := chain.nonce(a);
    var kept := Affordable(true, From(p, c), chain.balance(a), chain.maxGas);
    forall n, m | n in kept && c <= m <= n && m in p
      ensures m in kept
    {
      assert m in From(p, c);
      assert n !in Stranded(From(p, c), chain.balance(a), chain.maxGas);
    }
    assert c in kept ==> Staying(chain, a, p) == kept;
    if RunsFrom(Staying(chain, a, p), c) && c in kept {
      forall n, m | n in kept && c <= m <= n
        ensures m in p
      {
        assert m in Staying(chain, a, p);
      }
    }
  }

  /** A list that runs without gap from anywhere stays so, or goes back to the queue. */
  lemma RunStaysRun(chain: Chain, a: Addr, p: Items, low: nat)
    requires RunsFrom(p, low)
    ensures RunsFrom(Staying(chain, a, p), chain.nonce(a))
  {
    StayingRuns(chain, a, p);
  }

  /** The check for a gap looks only at the first nonce: a list with a later gap stays pending. */
  lemma GapSurvives(chain: Chain, three: Tx, five: Tx, a: Addr)
    requires three.nonce == 3 && five.nonce == 5 && chain.nonce(a) == 3
    requires !Dear(three, chain.balance(a), chain.maxGas) && !Dear(five, chain.balance(a), chain.maxGas)
    ensures var p: Items := map[3 := three, 5 := five];
            Filed(p) && Staying(chain, a, p) == p && Demoted(chain, a, p) == map[] && !RunsFrom(p, 3)
  {
    var p: Items := map[3 := three, 5 := five];
    assert 5 in p && 4 !in p;
    assert From(p, 3) == p;
    assert Affordable(true, p, chain.balance(a), chain.maxGas) == p;
  }

  /** What account a's books must meet when demotion starts, for them to be in step afterwards: the
      part that stays pending runs from the chain nonce, and if nothing stays, the tracked nonce is
      the chain's. */
  ghost predicate Settles(chain: Chain, p: Lists, t: map<Addr, nat>, a: Addr) {
    var stay := Staying(chain, a, Of(p, a));
    RunsFrom(stay, chain.nonce(a)) && (stay == map[] ==> Next(chain, t, a) == chain.nonce(a))
  }

  /** Demoting and tracking puts an account's books in step exactly if they settle. */
  lemma ResetSeamlessAt(chain: Chain, p1: Lists, q1: Lists, t1: map<Addr, nat>, p: Lists, q: Lists, t: map<Addr, nat>,
                        a: Addr)
    requires Settled(chain, p1, q1, p, q, a) && Filled(p, {}) && Tracks(chain, p, t1, t, {})
    ensures SeamlessAt(chain, p, t, a) <==> Settles(chain, p1, t1, a)
  {
    var c, items := chain.nonce(a), Of(p, a);
    if items != map[] {
      assert a in p;
      var top := MaxKey(items.Keys);
      assert SeamlessAt(chain, p, t, a) ==> RunsFrom(items, c);
      assert RunsFrom(items, c) ==> forall n :: c <= n <= top ==> n in items;
    } else {
      assert a !in p;
      assert SeamlessAt(chain, p, t, a) ==> !(c <= c < Next(chain, t, a)) by { assert c !in items; }
    }
  }

  lemma ResetSeamless(chain: Chain, p1: Lists, q1: Lists, t1: map<Addr, nat>, p: Lists, q: Lists, t: map<Addr, nat>)
    requires forall a :: Settled(chain, p1, q1, p, q, a)
    requires Filled(p, {}) && Tracks(chain, p, t1, t, {})
    ensures Seamless(chain, p, t) <==> forall a :: Settles(chain, p1, t1, a)
  {
    forall a
      ensures SeamlessAt(chain, p, t, a) <==> Settles(chain, p1, t1, a)
    {
      assert Settled(chain, p1, q1, p, q, a);
      ResetSeamlessAt(chain, p1, q1, t1, p, q, t, a);
    }
  }

  /** Books that were in step with the old chain state settle on any new one. */
  lemma InStepSettles(c0: Chain, p0: Lists, t0: map<Addr, nat>, chain: Chain)
    requires Seamless(c0, p0, t0)
    ensures forall a :: Settles(chain, p0, map[], a)
  {
    forall a
      ensures Settles(chain, p0, map[], a)
    {
      assert SeamlessAt(c0, p0, t0, a);
      assert RunsFrom(Of(p0, a), c0.nonce(a));
      RunStaysRun(chain, a, Of(p0, a), c0.nonce(a));
    }
  }
}
