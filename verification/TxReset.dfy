/** Whether an account is still in step after the chain has moved on and dropped transactions have
    been reinjected: reset of chain/core/tx_pool.go. */
module TxReset {
  import opened TxCull
  import opened TxLevel
  import opened TxModel
  import opened TxPoolProofs
  import opened TxPoolState
  import opened TxRun

  /** While transactions are reinjected, an account that will be in step tracks the chain nonce, and
      its pending nonces from there on have no gap. */
  ghost predicate OnTrack(chain: Chain, b: Books, a: Addr) {
    Next(chain, b.tracked, a) == chain.nonce(a) && RunsFrom(From(Of(b.pending, a), chain.nonce(a)), chain.nonce(a))
  }

  /** An account that will not be tracks a lower nonce, and all it has pending is lower still. */
  ghost predicate Astray(chain: Chain, b: Books, a: Addr) {
    Next(chain, b.tracked, a) < chain.nonce(a) && forall n :: n in Of(b.pending, a) ==> n < Next(chain, b.tracked, a)
  }

  /** The removal of tx from b takes a pending nonce of account a that the chain has passed. */
  predicate Hits(chain: Chain, b: Books, tx: Tx, a: Addr) {
    tx.sender == a && tx.nonce in Of(b.pending, a) && tx.nonce < chain.nonce(a)
  }

  lemma RemovalTracks(chain: Chain, x: Books, tx: Tx, y: Books, a: Addr)
    requires AfterRemoval(chain, x.pending, x.queue, x.tracked, tx, y.pending, y.queue, y.tracked)
    ensures OnTrack(chain, x, a) && !Hits(chain, x, tx, a) ==> OnTrack(chain, y, a)
    ensures OnTrack(chain, x, a) && Hits(chain, x, tx, a) ==> Astray(chain, y, a)
    ensures Astray(chain, x, a) ==> Astray(chain, y, a)
  {
    var c := chain.nonce(a);
    if OnTrack(chain, x, a) && !Hits(chain, x, tx, a) {
      forall n, m | n in From(Of(y.pending, a), c) && c <= m <= n
        ensures m in From(Of(y.pending, a), c)
      {
        assert n in From(Of(x.pending, a), c);
        assert m in From(Of(x.pending, a), c);
      }
    }
  }

  /** The i-th removal of a move takes a pending nonce of account a that the chain has passed. */
  ghost predicate HitAt(chain: Chain, known: set<Tx>, drop: seq<Tx>, trail: seq<Books>, i: nat, a: Addr) {
    i < |drop| && i < |trail| && drop[i] in known && drop[i] !in drop[..i] && Hits(chain, trail[i], drop[i], a)
  }

  ghost predicate Spares(chain: Chain, known: set<Tx>, m: Move, a: Addr) {
    forall i: nat :: i < |m.drop| ==> !HitAt(chain, known, m.drop, m.trail, i, a)
  }

  lemma {:induction false} TrailTracks(chain: Chain, known: set<Tx>, drop: seq<Tx>, trail: seq<Books>, x: Books, k: nat,
                                       a: Addr)
    requires k <= |drop| && |trail| == |drop| + 1 && Removes(chain, known, drop, trail, x, trail[|drop|])
    ensures OnTrack(chain, x, a) && (forall i: nat :: i < k ==> !HitAt(chain, known, drop, trail, i, a)) ==>
            OnTrack(chain, trail[k], a)
    ensures OnTrack(chain, x, a) && (exists i: nat :: i < k && HitAt(chain, known, drop, trail, i, a)) ==>
            Astray(chain, trail[k], a)
    ensures Astray(chain, x, a) ==> Astray(chain, trail[k], a)
  {
    if k > 0 {
      TrailTracks(chain, known, drop, trail, x, k - 1, a);
      assert RemovesOne(chain, known, drop, k - 1, trail[k - 1], trail[k - 1 + 1]);
      if drop[k - 1] in known && drop[k - 1] !in drop[..k - 1] {
        RemovalTracks(chain, trail[k - 1], drop[k - 1], trail[k], a);
        assert HitAt(chain, known, drop, trail, k - 1, a) <==> Hits(chain, trail[k - 1], drop[k - 1], a);
      } else {
        assert !HitAt(chain, known, drop, trail, k - 1, a);
      }
    }
  }

  lemma SameKeysTrack(chain: Chain, x: Books, y: Books, a: Addr)
    requires Of(y.pending, a).Keys == Of(x.pending, a).Keys && y.tracked == x.tracked
    ensures (OnTrack(chain, x, a) ==> OnTrack(chain, y, a)) && (Astray(chain, x, a) ==> Astray(chain, y, a))
  {
    var c := chain.nonce(a);
    assert From(Of(y.pending, a), c).Keys == From(Of(x.pending, a), c).Keys;
  }

  /** Adding a transaction leaves an account on track exactly if it spares it. */
  lemma AddTracks(config: Config, chain: Chain, minPrice: nat, local: bool, s: Stage, tx: Tx, m: Move, s': Stage,
                  a: Addr)
    requires Adds(config, chain, minPrice, local, s, tx, m, s')
    ensures OnTrack(chain, s.books, a) && Spares(chain, s.known, m, a) ==> OnTrack(chain, s'.books, a)
    ensures OnTrack(chain, s.books, a) && !Spares(chain, s.known, m, a) ==> Astray(chain, s'.books, a)
    ensures Astray(chain, s.books, a) ==> Astray(chain, s'.books, a)
  {
    if tx !in s.known && Faults(chain, minPrice, s.locals, tx, local) == [] {
      TrailTracks(chain, s.known, m.drop, m.trail, s.books, |m.drop|, a);
      var b := m.trail[|m.drop|];
      FilingTracks(config, chain, local, s, tx, m, s', b, a);
    }
  }

  lemma FilingTracks(config: Config, chain: Chain, local: bool, s: Stage, tx: Tx, m: Move, s': Stage, b: Books, a: Addr)
    requires Enters(config, local, s, tx, m, s') && b == m.trail[|m.drop|]
    ensures OnTrack(chain, b, a) ==> OnTrack(chain, s'.books, a)
    ensures Astray(chain, b, a) ==> Astray(chain, s'.books, a)
  {
    assert Of(s'.books.pending, a).Keys == Of(b.pending, a).Keys;
    SameKeysTrack(chain, b, s'.books, a);
  }

  /** No removal up to transaction k takes a pending nonce of account a that the chain has passed. */
  ghost predicate SparedUpTo(chain: Chain, stages: seq<Stage>, moves: seq<Move>, k: nat, a: Addr)
    requires k <= |moves| && k <= |stages|
  {
    forall i: nat :: i < k ==> Spares(chain, stages[i].known, moves[i], a)
  }

  lemma {:induction false} StepsTrack(config: Config, chain: Chain, minPrice: nat, local: bool, txs: seq<Tx>,
                                      stages: seq<Stage>, moves: seq<Move>, k: nat, a: Addr)
    requires Steps(config, chain, minPrice, local, txs, stages, moves) && k <= |txs|
    requires OnTrack(chain, stages[0].books, a)
    ensures SparedUpTo(chain, stages, moves, k, a) ==> OnTrack(chain, stages[k].books, a)
    ensures !SparedUpTo(chain, stages, moves, k, a) ==> Astray(chain, stages[k].books, a)
  {
    if k > 0 {
      StepsTrack(config, chain, minPrice, local, txs, stages, moves, k - 1, a);
      assert Step(config, chain, minPrice, local, txs, stages, moves, k - 1);
      AddTracks(config, chain, minPrice, local, stages[k - 1], txs[k - 1], moves[k - 1], stages[k - 1 + 1], a);
      assert SparedUpTo(chain, stages, moves, k, a) <==>
             SparedUpTo(chain, stages, moves, k - 1, a) && Spares(chain, stages[k - 1].known, moves[k - 1], a);
    }
  }

  // ---- promotion and the limits ----

  /** The pending limit takes no nonce of account a that the chain has passed. */
  ghost predicate CutSpares(chain: Chain, mid: Books, y: Books, a: Addr) {
    forall n :: n in Of(mid.pending, a) && n !in Of(y.pending, a) ==> n >= chain.nonce(a)
  }

  /** After promotion: the pending nonces from the chain nonce on run up to the tracked nonce, or
      the tracked nonce is the chain's. */
  ghost predicate Promising(chain: Chain, b: Books, a: Addr) {
    var c := chain.nonce(a);
    && RunsFrom(From(Of(b.pending, a), c), c) && c <= Next(chain, b.tracked, a)
    && (c < Next(chain, b.tracked, a) ==> forall n :: c <= n < Next(chain, b.tracked, a) <==>
        n in Of(b.pending, a) && c <= n)
    && (c < Next(chain, b.tracked, a) ==> forall n :: n in Of(b.pending, a) && c <= n ==>
        !Dear(Of(b.pending, a)[n], chain.balance(a), chain.maxGas))
  }

  lemma PromotionTracks(config: Config, chain: Chain, locals: set<Addr>, x: Books, y: Books, known: set<Tx>,
                        done: set<Addr>, a: Addr)
    requires Promoting(config, chain, locals, x, y, done) && Filing(x.pending, x.queue, known)
    ensures OnTrack(chain, x, a) ==> Promising(chain, y, a)
    ensures Astray(chain, x, a) ==> Astray(chain, y, a)
  {
    if a in done {
      assert Promoted(config, chain, locals, x, y, a);
      PromotedTracks(config, chain, locals, x, y, a);
    } else {
      assert Untouched(chain, x, y, a);
    }
  }

  lemma PromotedTracks(config: Config, chain: Chain, locals: set<Addr>, x: Books, y: Books, a: Addr)
    requires Promoted(config, chain, locals, x, y, a) && Apart(x.pending, x.queue)
    ensures OnTrack(chain, x, a) ==> Promising(chain, y, a)
    ensures Astray(chain, x, a) ==> Astray(chain, y, a)
  {
    ReadyAbove(chain, x, a);
    RunTracks(chain, x, y, Payable(chain, a, Of(x.queue, a)), a);
  }

  lemma RunTracks(chain: Chain, x: Books, y: Books, ready: Items, a: Addr)
    requires forall n :: n in ready ==> Fresh(chain, a, Of(x.pending, a), ready, n)
    requires Of(y.pending, a) == Of(x.pending, a) + ReadyRun(ready, Next(chain, x.tracked, a))
    requires Next(chain, y.tracked, a) == NextAfter(ready, Next(chain, x.tracked, a))
    ensures OnTrack(chain, x, a) ==> Promising(chain, y, a)
    ensures Astray(chain, x, a) ==> Astray(chain, y, a)
  {
    if IsReady(ready, Next(chain, x.tracked, a)) {
      assert Fresh(chain, a, Of(x.pending, a), ready, MinKey(ready.Keys));
      if OnTrack(chain, x, a) { RunExtends(chain, Of(x.pending, a), ready, Of(y.pending, a), a); }
    } else {
      assert Of(y.pending, a) == Of(x.pending, a);
    }
  }

  lemma ReadyAbove(chain: Chain, x: Books, a: Addr)
    requires Apart(x.pending, x.queue)
    ensures forall n :: n in Payable(chain, a, Of(x.queue, a)) ==>
            Fresh(chain, a, Of(x.pending, a), Payable(chain, a, Of(x.queue, a)), n)
  {
  }

  /** What can be promoted is above the chain nonce, affordable and not pending yet. */
  predicate Fresh(chain: Chain, a: Addr, p: Items, q: Items, n: nat) {
    n in q && n >= chain.nonce(a) && n !in p && !Dear(q[n], chain.balance(a), chain.maxGas)
  }

  /** What is promoted runs from the chain nonce and can be paid for. */
  lemma RunInFront(chain: Chain, p: Items, q: Items, p': Items, a: Addr)
    requires IsReady(q, chain.nonce(a)) && (forall n :: n in q ==> Fresh(chain, a, p, q, n))
    requires p' == p + ReadyRun(q, chain.nonce(a))
    ensures var c, stop := chain.nonce(a), NextAfter(q, chain.nonce(a));
            && c < stop && (forall n :: n in p' <==> n in p || c <= n < stop)
            && (forall n :: c <= n < stop ==> !Dear(p'[n], chain.balance(a), chain.maxGas))
  {
    var c := chain.nonce(a);
    assert Fresh(chain, a, p, q, MinKey(q.Keys));
    assert MinKey(q.Keys) == c;
    var run := ReadyRun(q, c);
    assert forall n :: n in run <==> c <= n < RunStop(q, c);
    forall n | n in run
      ensures p'[n] == q[n] && Fresh(chain, a, p, q, n)
    {
    }
  }

  /** A run that starts at the chain nonce replaces an empty one. */
  lemma RunExtends(chain: Chain, p: Items, q: Items, p': Items, a: Addr)
    requires IsReady(q, chain.nonce(a)) && (forall n :: n in q ==> Fresh(chain, a, p, q, n))
    requires RunsFrom(From(p, chain.nonce(a)), chain.nonce(a)) && p' == p + ReadyRun(q, chain.nonce(a))
    ensures var c, stop := chain.nonce(a), NextAfter(q, chain.nonce(a));
            && c < stop
            && (forall n :: n in p' && c <= n <==> c <= n < stop)
            && (forall n :: c <= n < stop ==> !Dear(p'[n], chain.balance(a), chain.maxGas))
  {
    var c := chain.nonce(a);
    RunInFront(chain, p, q, p', a);
    assert c !in p by { assert Fresh(chain, a, p, q, MinKey(q.Keys)); }
    var above := From(p, c);
    assert forall n :: n in above ==> c in above;
    assert forall n :: n in p && n >= c ==> n in above;
  }

  lemma CutsTrack(chain: Chain, x: Books, y: Books, a: Addr)
    requires CutAt(chain, x.pending, x.tracked, y.pending, y.tracked, a)
    ensures Promising(chain, x, a) && CutSpares(chain, x, y, a) ==> Promising(chain, y, a)
    ensures Promising(chain, x, a) && !CutSpares(chain, x, y, a) ==> Astray(chain, y, a)
    ensures Astray(chain, x, a) ==> Astray(chain, y, a)
  {
    if Promising(chain, x, a) && CutSpares(chain, x, y, a) { CutPromising(chain, x, y, a); }
  }

  lemma CutPromising(chain: Chain, x: Books, y: Books, a: Addr)
    requires CutAt(chain, x.pending, x.tracked, y.pending, y.tracked, a)
    requires Promising(chain, x, a) && CutSpares(chain, x, y, a)
    ensures Promising(chain, y, a)
  {
    var c, p, p', k := chain.nonce(a), Of(x.pending, a), Of(y.pending, a), Next(chain, y.tracked, a);
    forall n, m | n in From(p', c) && c <= m <= n
      ensures m in From(p', c)
    {
      assert n in From(p, c);
      assert m in From(p, c);
    }
    if c < k {
      forall n
        ensures c <= n < k <==> n in p' && c <= n
      {
        assert c < Next(chain, x.tracked, a);
      }
    }
  }

  lemma PromisingSettles(chain: Chain, b: Books, a: Addr)
    requires Promising(chain, b, a)
    ensures Settles(chain, b.pending, b.tracked, a)
  {
    var c, p := chain.nonce(a), Of(b.pending, a);
    var kept := Affordable(true, From(p, c), chain.balance(a), chain.maxGas);
    StayingRuns(chain, a, p);
    forall n, m | n in kept && c <= m <= n
      ensures m in p
    {
      assert n in From(p, c);
      assert m in From(p, c);
    }
    if c < Next(chain, b.tracked, a) {
      assert c in p;
      assert c in kept;
      assert c in Staying(chain, a, p);
    }
  }

  lemma AstrayUnsettled(chain: Chain, b: Books, a: Addr)
    requires Astray(chain, b, a)
    ensures !Settles(chain, b.pending, b.tracked, a)
  {
    assert Staying(chain, a, Of(b.pending, a)) == map[];
  }

  // ---- the whole reset ----

  /** The batch takes no pending nonce of account a that the chain has passed. */
  ghost predicate Spared(chain: Chain, run: Run, y: Books, a: Addr)
    requires |run.stages| == |run.moves| + 1
  {
    SparedUpTo(chain, run.stages, run.moves, |run.moves|, a) && CutSpares(chain, run.mid, y, a)
  }

  /** After the batch an account that was on track settles exactly if it was spared. */
  lemma BatchTracks(config: Config, chain: Chain, minPrice: nat, local: bool, txs: seq<Tx>, run: Run,
                    now: nat, y: Books, a: Addr)
    requires Batch(config, chain, minPrice, local, txs, run, now, y) && OnTrack(chain, run.stages[0].books, a)
    requires Filing(run.stages[|txs|].books.pending, run.stages[|txs|].books.queue, run.stages[|txs|].known)
    ensures Settles(chain, y.pending, y.tracked, a) <==> Spared(chain, run, y, a)
    ensures !Spared(chain, run, y, a) ==> Astray(chain, y, a)
  {
    var last := run.stages[|txs|];
    StepsTrack(config, chain, minPrice, local, txs, run.stages, run.moves, |txs|, a);
    if Dirty(txs, run.moves) != {} {
      PromotionTracks(config, chain, last.locals, last.books, run.mid, last.known, Dirty(txs, run.moves), a);
      assert CutAt(chain, run.mid.pending, run.mid.tracked, y.pending, y.tracked, a);
      CutsTrack(chain, run.mid, y, a);
    }
    if Promising(chain, y, a) { PromisingSettles(chain, y, a); }
    if Astray(chain, y, a) { AstrayUnsettled(chain, y, a); }
  }

  /** Books in step with the old chain state are on track on a new one that has not gone back. */
  lemma InStepOnTrack(c0: Chain, p: Lists, q: Lists, t: map<Addr, nat>, beats: map<Addr, nat>, chain: Chain, a: Addr)
    requires SeamlessAt(c0, p, t, a) && c0.nonce(a) <= chain.nonce(a)
    ensures OnTrack(chain, Books(p, q, map[], beats), a)
  {
  }

  /** Demotion does not bring back an account that has gone astray. */
  lemma SettlingAstray(chain: Chain, x: Books, y: Books, a: Addr)
    requires Astray(chain, x, a) && Settled(chain, x.pending, x.queue, y.pending, y.queue, a)
    requires Filled(y.pending, {}) && Tracks(chain, y.pending, x.tracked, y.tracked, {})
    ensures Astray(chain, y, a)
  {
    assert Staying(chain, a, Of(x.pending, a)) == map[];
    assert a !in y.pending;
  }

  /** Promotion and the limits keep an account in step, and keep one astray that is. */
  lemma PromotesTracks(config: Config, chain: Chain, locals: set<Addr>, known: set<Tx>, accounts: set<Addr>,
                       now: nat, x: Books, mid: Books, level: nat, y: Books, a: Addr)
    requires Promotes(config, chain, locals, known, accounts, now, x, mid, level, y) && Apart(x.pending, x.queue)
    ensures SeamlessAt(chain, x.pending, x.tracked, a) ==> SeamlessAt(chain, y.pending, y.tracked, a)
    ensures Astray(chain, x, a) ==> Astray(chain, y, a)
  {
    if a in accounts {
      assert Promoted(config, chain, locals, x, mid, a);
      PromotedSeamless(config, chain, locals, x, mid, a);
      PromotedTracks(config, chain, locals, x, mid, a);
    } else {
      assert Untouched(chain, x, mid, a);
    }
    assert CutAt(chain, mid.pending, mid.tracked, y.pending, y.tracked, a);
    CutsSeamless(chain, mid.pending, mid.tracked, y.pending, y.tracked, a);
    CutsTrack(chain, mid, y, a);
  }

  lemma PromotedSeamless(config: Config, chain: Chain, locals: set<Addr>, x: Books, y: Books, a: Addr)
    requires Promoted(config, chain, locals, x, y, a) && Apart(x.pending, x.queue)
    ensures SeamlessAt(chain, x.pending, x.tracked, a) ==> SeamlessAt(chain, y.pending, y.tracked, a)
  {
    ReadyAbove(chain, x, a);
    RunSeamless(chain, x, y, Payable(chain, a, Of(x.queue, a)), a);
  }

  lemma RunSeamless(chain: Chain, x: Books, y: Books, ready: Items, a: Addr)
    requires forall n :: n in ready ==> Fresh(chain, a, Of(x.pending, a), ready, n)
    requires Of(y.pending, a) == Of(x.pending, a) + ReadyRun(ready, Next(chain, x.tracked, a))
    requires Next(chain, y.tracked, a) == NextAfter(ready, Next(chain, x.tracked, a))
    ensures SeamlessAt(chain, x.pending, x.tracked, a) ==> SeamlessAt(chain, y.pending, y.tracked, a)
  {
    var start := Next(chain, x.tracked, a);
    if IsReady(ready, start) && SeamlessAt(chain, x.pending, x.tracked, a) {
      assert Fresh(chain, a, Of(x.pending, a), ready, MinKey(ready.Keys));
      assert MinKey(ready.Keys) == start;
      assert forall n :: n in ReadyRun(ready, start) <==> start <= n < RunStop(ready, start);
    }
  }

  lemma AstrayNotSeamless(chain: Chain, b: Books, a: Addr)
    requires Astray(chain, b, a)
    ensures !SeamlessAt(chain, b.pending, b.tracked, a)
  {
  }

  // ---- who is spared ----

  lemma {:induction false} LocalsGrow(config: Config, chain: Chain, minPrice: nat, local: bool, txs: seq<Tx>,
                                      stages: seq<Stage>, moves: seq<Move>, k: nat)
    requires Steps(config, chain, minPrice, local, txs, stages, moves) && k <= |txs|
    ensures stages[0].locals <= stages[k].locals
  {
    if k > 0 {
      LocalsGrow(config, chain, minPrice, local, txs, stages, moves, k - 1);
      assert Step(config, chain, minPrice, local, txs, stages, moves, k - 1);
      assert stages[k - 1].locals <= stages[k - 1 + 1].locals;
    }
  }

  lemma RemotesOnly(config: Config, chain: Chain, minPrice: nat, local: bool, s: Stage, tx: Tx, m: Move, s': Stage,
                    a: Addr)
    requires Adds(config, chain, minPrice, local, s, tx, m, s') && a in s.locals
    ensures Spares(chain, s.known, m, a)
  {
    forall i: nat | i < |m.drop|
      ensures !HitAt(chain, s.known, m.drop, m.trail, i, a)
    {
      assert m.drop[i] in m.drop;
    }
  }

  /** A local account is spared whatever is added. */
  lemma LocalSpared(config: Config, chain: Chain, minPrice: nat, local: bool, txs: seq<Tx>, run: Run,
                    now: nat, y: Books, a: Addr)
    requires Batch(config, chain, minPrice, local, txs, run, now, y) && a in run.stages[0].locals
    ensures Spared(chain, run, y, a)
  {
    forall i: nat | i < |txs|
      ensures Spares(chain, run.stages[i].known, run.moves[i], a)
    {
      LocalsGrow(config, chain, minPrice, local, txs, run.stages, run.moves, i);
      assert Step(config, chain, minPrice, local, txs, run.stages, run.moves, i);
      RemotesOnly(config, chain, minPrice, local, run.stages[i], txs[i], run.moves[i], run.stages[i + 1], a);
    }
    LocalsGrow(config, chain, minPrice, local, txs, run.stages, run.moves, |txs|);
    assert Of(y.pending, a) == Of(run.mid.pending, a);
  }

  lemma OneMoreKnown(config: Config, chain: Chain, minPrice: nat, local: bool, s: Stage, tx: Tx, m: Move, s': Stage)
    requires Adds(config, chain, minPrice, local, s, tx, m, s')
    ensures |s'.known| <= |s.known| + 1
  {
    SubsetCount(s'.known, s.known + {tx});
  }

  lemma SubsetCount(x: set<Tx>, y: set<Tx>)
    requires x <= y
    ensures |x| <= |y|
  {
    assert y == x + (y - x);
  }

  lemma {:induction false} KnownGrows(config: Config, chain: Chain, minPrice: nat, local: bool, txs: seq<Tx>,
                                      stages: seq<Stage>, moves: seq<Move>, k: nat)
    requires Steps(config, chain, minPrice, local, txs, stages, moves) && k <= |txs|
    ensures |stages[k].known| <= |stages[0].known| + k
  {
    if k > 0 {
      KnownGrows(config, chain, minPrice, local, txs, stages, moves, k - 1);
      assert Step(config, chain, minPrice, local, txs, stages, moves, k - 1);
      OneMoreKnown(config, chain, minPrice, local, stages[k - 1], txs[k - 1], moves[k - 1], stages[k - 1 + 1]);
    }
  }

  lemma {:induction false} ValuesCount(items: Items)
    requires Filed(items)
    ensures |Values(items)| == |items|
    decreases |items|
  {
    if items != map[] {
      var n :| n in items;
      var rest := items - {n};
      assert rest.Keys == items.Keys - {n};
      ValuesCount(rest);
      OneMore(map[], items, {n}, n);
      assert items - ({n} - {n}) == items;
      assert items[n] !in Values(rest);
    }
  }

  /** The transactions the given accounts have pending. */
  function PendingOf(p: Lists, known: set<Tx>, ks: set<Addr>): set<Tx> {
    set x | x in known && x.sender in ks && Has(Of(p, x.sender), x)
  }

  lemma {:induction false} SumAtMost(p: Lists, known: set<Tx>, ks: set<Addr>)
    requires SideOk(p, true, known)
    ensures SumOver(p, ks) <= |PendingOf(p, known, ks)|
    decreases ks
  {
    if ks != {} {
      var k :| k in ks;
      SumTakeOut(p, ks, k);
      SumAtMost(p, known, ks - {k});
      assert k in p ==> EntryOk(p[k], k, true, known);
      ValuesCount(Of(p, k));
      var mine, rest := Values(Of(p, k)), PendingOf(p, known, ks - {k});
      assert mine !! rest;
      SubsetCount(mine + rest, PendingOf(p, known, ks));
    }
  }

  /** No more are pending than are known. */
  lemma PendingAtMostKnown(p: Lists, known: set<Tx>)
    requires SideOk(p, true, known)
    ensures Total(p) <= |known|
  {
    SumAtMost(p, known, p.Keys);
    SubsetCount(PendingOf(p, known, p.Keys), known);
  }

  /** With room for the whole batch every account is spared. */
  lemma RoomSpared(config: Config, chain: Chain, minPrice: nat, local: bool, txs: seq<Tx>, run: Run,
                   now: nat, y: Books, a: Addr)
    requires Batch(config, chain, minPrice, local, txs, run, now, y)
    requires |run.stages[0].known| + |txs| <= config.globalSlots
    ensures Spared(chain, run, y, a)
  {
    forall i: nat | i < |txs|
      ensures Spares(chain, run.stages[i].known, run.moves[i], a)
    {
      KnownGrows(config, chain, minPrice, local, txs, run.stages, run.moves, i);
      assert Step(config, chain, minPrice, local, txs, run.stages, run.moves, i);
      assert run.moves[i].drop == [];
    }
    if Dirty(txs, run.moves) != {} {
      var last := run.stages[|txs|];
      KnownGrows(config, chain, minPrice, local, txs, run.stages, run.moves, |txs|);
      PendingAtMostKnown(run.mid.pending, last.known);
      AreFiled(run.mid.pending, true, last.known);
      assert a in last.locals || Len(run.mid.pending, a) <= run.level;
      SharesSame(run.mid.pending, last.locals, a, run.level, run.level);
    }
  }

  // ---- reset as a whole ----

  /** The last part of reset: the books after demotion and tracking, the accounts and the known
      transactions promotion starts from, and where the books stand between it and the limits. */
  datatype Fit = Fit(books: Books, accounts: set<Addr>, known: set<Tx>, mid: Books, level: nat)

  /** Demotion, but for the accounts left, ends the heartbeats of those whose pending lists it empties. */
  ghost predicate Rests(x: Books, y: Books, left: set<Addr>) {
    forall a :: Beat(y.beats, a) ==
                if a in x.pending && a !in left && Of(y.pending, a) == map[] then 0 else Beat(x.beats, a)
  }

  lemma RestOne(x: Books, y: Books, z: Books, left: set<Addr>, a: Addr)
    requires Rests(x, y, left) && a in left && a in x.pending && SameBut(y.pending, z.pending, a)
    requires z.beats == (if a in z.pending then y.beats else y.beats - {a})
    requires a in z.pending <==> Of(z.pending, a) != map[]
    ensures Rests(x, z, left - {a})
  {
  }

  /** The last part of reset, from the books b1 to y: what the chain does not allow is demoted, the
      tracked nonces follow, and of all queued accounts what can be is promoted. */
  ghost predicate Realigns(config: Config, chain: Chain, locals: set<Addr>, now: nat, b1: Books, fit: Fit,
                           y: Books) {
    var b2 := fit.books;
    && (forall a :: Settled(chain, b1.pending, b1.queue, b2.pending, b2.queue, a))
    && Rests(b1, b2, {}) && Filled(b2.pending, {}) && Tracks(chain, b2.pending, b1.tracked, b2.tracked, {})
    && Apart(b2.pending, b2.queue)
    && fit.accounts == b2.queue.Keys
    && Promotes(config, chain, locals, fit.known, fit.accounts, now, b2, fit.mid, fit.level, y)
  }

  /** After a reset no account has in its queue what it could execute next. */
  lemma AllNoneReady(config: Config, chain: Chain, locals: set<Addr>, now: nat, b1: Books, fit: Fit, y: Books)
    requires Realigns(config, chain, locals, now, b1, fit, y)
    ensures forall a :: Next(chain, y.tracked, a) !in Of(y.queue, a)
  {
    forall a
      ensures Next(chain, y.tracked, a) !in Of(y.queue, a)
    {
      NoneLeftReady(config, chain, locals, fit.known, fit.accounts, now, fit.books, fit.mid, fit.level, y, a);
    }
  }

  lemma RealignedAt(config: Config, chain: Chain, locals: set<Addr>, now: nat, b1: Books, fit: Fit,
                    y: Books, a: Addr)
    requires Realigns(config, chain, locals, now, b1, fit, y)
    ensures Settles(chain, b1.pending, b1.tracked, a) ==> SeamlessAt(chain, y.pending, y.tracked, a)
    ensures Astray(chain, b1, a) ==> !SeamlessAt(chain, y.pending, y.tracked, a)
  {
    var b2 := fit.books;
    assert Settled(chain, b1.pending, b1.queue, b2.pending, b2.queue, a);
    ResetSeamlessAt(chain, b1.pending, b1.queue, b1.tracked, b2.pending, b2.queue, b2.tracked, a);
    PromotesTracks(config, chain, locals, fit.known, fit.accounts, now, b2, fit.mid, fit.level, y, a);
    if Astray(chain, b1, a) {
      SettlingAstray(chain, b1, b2, a);
      AstrayNotSeamless(chain, y, a);
    }
  }

  /** An account that was in step and whose nonce has not gone back is in step after the reset
      exactly if the reinjection spared it. */
  lemma ResetIff(config: Config, c0: Chain, t0: map<Addr, nat>, chain: Chain, minPrice: nat, txs: seq<Tx>, run: Run,
                 now: nat, b1: Books, locals: set<Addr>, fit: Fit, y: Books,
                 a: Addr)
    requires Batch(config, chain, minPrice, false, txs, run, now, b1) && run.stages[0].books.tracked == map[]
    requires Filing(run.stages[|txs|].books.pending, run.stages[|txs|].books.queue, run.stages[|txs|].known)
    requires Realigns(config, chain, locals, now, b1, fit, y)
    requires Steady(c0, run.stages[0].books.pending, t0, chain, a)
    ensures SeamlessAt(chain, y.pending, y.tracked, a) <==> Spared(chain, run, b1, a)
  {
    var s := run.stages[0].books;
    InStepOnTrack(c0, s.pending, s.queue, t0, s.beats, chain, a);
    assert s == Books(s.pending, s.queue, map[], s.beats);
    BatchTracks(config, chain, minPrice, false, txs, run, now, b1, a);
    RealignedAt(config, chain, locals, now, b1, fit, y, a);
  }

  /** The accounts that were in step and whose nonce has not gone back. */
  ghost predicate Steady(c0: Chain, p0: Lists, t0: map<Addr, nat>, chain: Chain, a: Addr) {
    SeamlessAt(c0, p0, t0, a) && c0.nonce(a) <= chain.nonce(a)
  }

  lemma ResetAll(config: Config, c0: Chain, t0: map<Addr, nat>, chain: Chain, minPrice: nat, txs: seq<Tx>, run: Run,
                 now: nat, b1: Books, locals: set<Addr>, fit: Fit, y: Books)
    requires Batch(config, chain, minPrice, false, txs, run, now, b1) && run.stages[0].books.tracked == map[]
    requires Filing(run.stages[|txs|].books.pending, run.stages[|txs|].books.queue, run.stages[|txs|].known)
    requires Realigns(config, chain, locals, now, b1, fit, y)
    ensures var p0 := run.stages[0].books.pending;
            && (forall a :: Settles(chain, b1.pending, b1.tracked, a) ==> SeamlessAt(chain, y.pending, y.tracked, a))
            && (forall a :: Steady(c0, p0, t0, chain, a) ==>
                (SeamlessAt(chain, y.pending, y.tracked, a) <==> Spared(chain, run, b1, a)))
            && (forall a :: Steady(c0, p0, t0, chain, a) && a in run.stages[0].locals ==>
                SeamlessAt(chain, y.pending, y.tracked, a))
            && ((forall a :: Steady(c0, p0, t0, chain, a)) && |run.stages[0].known| + |txs| <= config.globalSlots ==>
                  Seamless(chain, y.pending, y.tracked))
            && (txs == [] && Seamless(c0, p0, t0) ==> Seamless(chain, y.pending, y.tracked))
  {
    var p0 := run.stages[0].books.pending;
    forall a
      ensures Settles(chain, b1.pending, b1.tracked, a) ==> SeamlessAt(chain, y.pending, y.tracked, a)
    {
      RealignedAt(config, chain, locals, now, b1, fit, y, a);
    }
    forall a | Steady(c0, p0, t0, chain, a)
      ensures SeamlessAt(chain, y.pending, y.tracked, a) <==> Spared(chain, run, b1, a)
      ensures a in run.stages[0].locals ==> Spared(chain, run, b1, a)
      ensures |run.stages[0].known| + |txs| <= config.globalSlots ==> Spared(chain, run, b1, a)
    {
      ResetIff(config, c0, t0, chain, minPrice, txs, run, now, b1, locals, fit, y, a);
      if a in run.stages[0].locals { LocalSpared(config, chain, minPrice, false, txs, run, now, b1, a); }
      if |run.stages[0].known| + |txs| <= config.globalSlots { RoomSpared(config, chain, minPrice, false, txs, run,
                                                                          now, b1, a); }
    }
    if txs == [] && Seamless(c0, p0, t0) {
      InStepSettles(c0, p0, t0, chain);
      assert b1 == run.stages[0].books by { assert Dirty(txs, run.moves) == {}; }
    }
  }
}
