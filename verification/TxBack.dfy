/** When an account whose chain nonce has gone back is in step after a reset: chain/core/tx_pool.go. */
module TxBack {
  import opened TxCull
  import opened TxLevel
  import opened TxModel
  import opened TxPoolProofs
  import opened TxPoolState
  import opened TxReset
  import opened TxRun

  // ---- while transactions are reinjected ----

  /** The account tracks the chain nonce, and what it has pending runs from the nonce it was at. */
  ghost predicate Behind(chain: Chain, was: nat, b: Books, a: Addr) {
    Next(chain, b.tracked, a) == chain.nonce(a) < was && RunsFrom(Of(b.pending, a), was)
  }

  lemma RemovalBehind(chain: Chain, was: nat, x: Books, tx: Tx, y: Books, a: Addr)
    requires AfterRemoval(chain, x.pending, x.queue, x.tracked, tx, y.pending, y.queue, y.tracked)
    requires Behind(chain, was, x, a)
    ensures Behind(chain, was, y, a)
  {
  }

  lemma {:induction false} TrailBehind(chain: Chain, was: nat, known: set<Tx>, drop: seq<Tx>, trail: seq<Books>,
                                       x: Books, k: nat, a: Addr)
    requires k <= |drop| && |trail| == |drop| + 1 && Removes(chain, known, drop, trail, x, trail[|drop|])
    requires Behind(chain, was, x, a)
    ensures Behind(chain, was, trail[k], a)
  {
    if k > 0 {
      TrailBehind(chain, was, known, drop, trail, x, k - 1, a);
      assert RemovesOne(chain, known, drop, k - 1, trail[k - 1], trail[k - 1 + 1]);
      if drop[k - 1] in known && drop[k - 1] !in drop[..k - 1] {
        RemovalBehind(chain, was, trail[k - 1], drop[k - 1], trail[k], a);
      }
    }
  }

  lemma FilingBehind(config: Config, chain: Chain, was: nat, local: bool, s: Stage, tx: Tx, m: Move, s': Stage,
                     b: Books, a: Addr)
    requires Enters(config, local, s, tx, m, s') && b == m.trail[|m.drop|] && Behind(chain, was, b, a)
    ensures Behind(chain, was, s'.books, a)
  {
    assert Of(s'.books.pending, a).Keys == Of(b.pending, a).Keys;
  }

  lemma AddBehind(config: Config, chain: Chain, was: nat, minPrice: nat, local: bool, s: Stage, tx: Tx, m: Move,
                  s': Stage, a: Addr)
    requires Adds(config, chain, minPrice, local, s, tx, m, s') && Behind(chain, was, s.books, a)
    ensures Behind(chain, was, s'.books, a)
  {
    if tx !in s.known && Faults(chain, minPrice, s.locals, tx, local) == [] {
      TrailBehind(chain, was, s.known, m.drop, m.trail, s.books, |m.drop|, a);
      FilingBehind(config, chain, was, local, s, tx, m, s', m.trail[|m.drop|], a);
    }
  }

  lemma {:induction false} StepsBehind(config: Config, chain: Chain, was: nat, minPrice: nat, local: bool, txs: seq<Tx>,
                                       stages: seq<Stage>, moves: seq<Move>, k: nat, a: Addr)
    requires Steps(config, chain, minPrice, local, txs, stages, moves) && k <= |txs|
    requires Behind(chain, was, stages[0].books, a)
    ensures Behind(chain, was, stages[k].books, a)
  {
    if k > 0 {
      StepsBehind(config, chain, was, minPrice, local, txs, stages, moves, k - 1, a);
      assert Step(config, chain, minPrice, local, txs, stages, moves, k - 1);
      AddBehind(config, chain, was, minPrice, local, stages[k - 1], txs[k - 1], moves[k - 1], stages[k - 1 + 1], a);
    }
  }

  // ---- after promotion and the limits ----

  /** What is pending is a run from the chain nonce, which the account can pay for, and one from the
      nonce it was at; with nothing at the chain nonce, that is the tracked one. */
  ghost predicate Split(chain: Chain, was: nat, b: Books, a: Addr) {
    var c, p := chain.nonce(a), Of(b.pending, a);
    && c < was && c <= Next(chain, b.tracked, a) && (c !in p ==> Next(chain, b.tracked, a) == c)
    && (forall n :: n in p && n < was ==> c <= n && !Dear(p[n], chain.balance(a), chain.maxGas))
    && (forall n, m :: n in p && n < was && c <= m <= n ==> m in p)
    && (forall n, m :: n in p && was <= m <= n ==> m in p)
  }

  lemma BehindSplit(chain: Chain, was: nat, b: Books, a: Addr)
    requires Behind(chain, was, b, a)
    ensures Split(chain, was, b, a)
  {
  }

  lemma RunSplits(chain: Chain, was: nat, x: Books, y: Books, ready: Items, a: Addr)
    requires Behind(chain, was, x, a) && forall n :: n in ready ==> Fresh(chain, a, Of(x.pending, a), ready, n)
    requires Of(y.pending, a) == Of(x.pending, a) + ReadyRun(ready, chain.nonce(a))
    requires Next(chain, y.tracked, a) == NextAfter(ready, chain.nonce(a))
    ensures Split(chain, was, y, a)
  {
    if IsReady(ready, chain.nonce(a)) {
      RunInFront(chain, Of(x.pending, a), ready, Of(y.pending, a), a);
    } else {
      assert Of(y.pending, a) == Of(x.pending, a);
      BehindSplit(chain, was, y, a);
    }
  }

  lemma PromotionSplits(config: Config, chain: Chain, was: nat, locals: set<Addr>, x: Books, y: Books, done: set<Addr>,
                        a: Addr)
    requires Promoting(config, chain, locals, x, y, done) && Apart(x.pending, x.queue) && Behind(chain, was, x, a)
    ensures Split(chain, was, y, a)
  {
    if a in done {
      assert Promoted(config, chain, locals, x, y, a);
      ReadyAbove(chain, x, a);
      RunSplits(chain, was, x, y, Payable(chain, a, Of(x.queue, a)), a);
    } else {
      assert Untouched(chain, x, y, a);
      BehindSplit(chain, was, y, a);
    }
  }

  lemma CutSplits(chain: Chain, was: nat, x: Books, y: Books, a: Addr)
    requires CutAt(chain, x.pending, x.tracked, y.pending, y.tracked, a) && Split(chain, was, x, a)
    ensures Split(chain, was, y, a)
  {
    var c, p, p' := chain.nonce(a), Of(x.pending, a), Of(y.pending, a);
    forall n, m | n in p' && (c <= m <= n < was || was <= m <= n)
      ensures m in p'
    {
      assert n in p && m in p;
    }
  }

  lemma BatchSplits(config: Config, chain: Chain, was: nat, minPrice: nat, local: bool, txs: seq<Tx>, run: Run,
                    now: nat, y: Books, a: Addr)
    requires Batch(config, chain, minPrice, local, txs, run, now, y) && Behind(chain, was, run.stages[0].books, a)
    requires Filing(run.stages[|txs|].books.pending, run.stages[|txs|].books.queue, run.stages[|txs|].known)
    ensures Split(chain, was, y, a)
  {
    var last := run.stages[|txs|];
    StepsBehind(config, chain, was, minPrice, local, txs, run.stages, run.moves, |txs|, a);
    if Dirty(txs, run.moves) == {} {
      BehindSplit(chain, was, y, a);
    } else {
      PromotionSplits(config, chain, was, last.locals, last.books, run.mid, Dirty(txs, run.moves), a);
      assert CutAt(chain, run.mid.pending, run.mid.tracked, y.pending, y.tracked, a);
      CutSplits(chain, was, run.mid, y, a);
    }
  }

  // ---- in step or not ----

  /** If the nonce the chain has gone back to is pending, and so is the one it was at and can still
      be paid for, then so are all in between. */
  ghost predicate Bridged(chain: Chain, was: nat, b: Books, a: Addr) {
    var c, p := chain.nonce(a), Of(b.pending, a);
    c in p && was in p && !Dear(p[was], chain.balance(a), chain.maxGas) ==> forall n :: c <= n < was ==> n in p
  }

  /** Demotion and tracking put such an account in step exactly if it is bridged. */
  lemma SplitSettlesIff(chain: Chain, was: nat, b: Books, a: Addr)
    requires Split(chain, was, b, a)
    ensures Settles(chain, b.pending, b.tracked, a) <==> Bridged(chain, was, b, a)
  {
    var c, p := chain.nonce(a), Of(b.pending, a);
    var kept := Affordable(true, From(p, c), chain.balance(a), chain.maxGas);
    StayingRuns(chain, a, p);
    SplitKept(chain, was, b, a, kept);
    if c in p && Bridged(chain, was, b, a) {
      forall n, m | n in kept && c <= m <= n
        ensures m in p
      {
        if n >= was { assert was in p; }
      }
    }
    if c in p && RunsFrom(Staying(chain, a, p), c) && was in kept {
      assert forall n :: c <= n < was ==> n in p;
    }
    assert c !in p ==> Staying(chain, a, p) == map[];
    assert c in p ==> c in Staying(chain, a, p);
  }

  /** What demotion keeps of two runs: all of the first, and of the second if its first can be paid for. */
  lemma SplitKept(chain: Chain, was: nat, b: Books, a: Addr, kept: Items)
    requires Split(chain, was, b, a)
    requires kept == Affordable(true, From(Of(b.pending, a), chain.nonce(a)), chain.balance(a), chain.maxGas)
    ensures var c, p := chain.nonce(a), Of(b.pending, a);
            && (forall n :: n in p && n < was ==> n in kept)
            && (was in kept <==> was in p && !Dear(p[was], chain.balance(a), chain.maxGas))
            && (forall n :: n in kept ==> n in p && (n >= was ==> was in kept))
  {
    var c, p := chain.nonce(a), Of(b.pending, a);
    var above := From(p, c);
    forall n | n in kept && n >= was
      ensures was in kept
    {
      assert was in above;
      assert n !in Stranded(above, chain.balance(a), chain.maxGas);
    }
  }

  /** Pending up to top, with g missing on the way. */
  ghost predicate Torn(chain: Chain, b: Books, g: nat, top: nat, a: Addr) {
    var p := Of(b.pending, a);
    && chain.nonce(a) <= g < top && g !in p && top in p && (forall n :: n in p ==> n <= top)
    && Next(chain, b.tracked, a) == top + 1
  }

  lemma UnbridgedTorn(chain: Chain, was: nat, b1: Books, b2: Books, a: Addr) returns (g: nat, top: nat)
    requires Split(chain, was, b1, a) && !Bridged(chain, was, b1, a)
    requires Settled(chain, b1.pending, b1.queue, b2.pending, b2.queue, a)
    requires Filled(b2.pending, {}) && Tracks(chain, b2.pending, b1.tracked, b2.tracked, {})
    ensures Torn(chain, b2, g, top, a)
  {
    var c, p := chain.nonce(a), Of(b1.pending, a);
    var kept := Affordable(true, From(p, c), chain.balance(a), chain.maxGas);
    SplitKept(chain, was, b1, a, kept);
    g :| c <= g < was && g !in p;
    assert c in kept && was in kept;
    assert Of(b2.pending, a) == kept;
    assert a in b2.pending;
    top := MaxKey(kept.Keys);
  }

  /** Promotion does not mend a torn list. */
  lemma RunKeepsTear(chain: Chain, x: Books, y: Books, ready: Items, g: nat, top: nat, a: Addr)
    requires Torn(chain, x, g, top, a) && forall n :: n in ready ==> Fresh(chain, a, Of(x.pending, a), ready, n)
    requires Of(y.pending, a) == Of(x.pending, a) + ReadyRun(ready, top + 1)
    requires Next(chain, y.tracked, a) == NextAfter(ready, top + 1)
    ensures !SeamlessAt(chain, y.pending, y.tracked, a)
  {
    var p, p' := Of(x.pending, a), Of(y.pending, a);
    if IsReady(ready, top + 1) {
      var first, stop := MinKey(ready.Keys), NextAfter(ready, top + 1);
      var run := ReadyRun(ready, top + 1);
      assert forall n :: n in run <==> first <= n < stop;
      assert top !in ready by { assert top in ready ==> Fresh(chain, a, p, ready, top); }
      assert top in p';
      assert g < first ==> g !in p';
    } else {
      assert p' == p;
    }
  }

  lemma TornStays(config: Config, chain: Chain, locals: set<Addr>, x: Books, y: Books, done: set<Addr>, g: nat,
                  top: nat, a: Addr)
    requires Promoting(config, chain, locals, x, y, done) && Apart(x.pending, x.queue) && Torn(chain, x, g, top, a)
    ensures !SeamlessAt(chain, y.pending, y.tracked, a)
  {
    if a in done {
      assert Promoted(config, chain, locals, x, y, a);
      ReadyAbove(chain, x, a);
      RunKeepsTear(chain, x, y, Payable(chain, a, Of(x.queue, a)), g, top, a);
    } else {
      assert Untouched(chain, x, y, a);
    }
  }

  // ---- the whole reset ----

  /** The accounts that were in step and whose nonce has gone back. */
  ghost predicate GoneBack(c0: Chain, p0: Lists, t0: map<Addr, nat>, chain: Chain, a: Addr) {
    SeamlessAt(c0, p0, t0, a) && chain.nonce(a) < c0.nonce(a)
  }

  lemma InStepBehind(c0: Chain, b: Books, t0: map<Addr, nat>, chain: Chain, a: Addr)
    requires GoneBack(c0, b.pending, t0, chain, a) && b.tracked == map[]
    ensures Behind(chain, c0.nonce(a), b, a)
  {
  }

  /** The last limits cut nothing of account a. */
  ghost predicate Uncut(fit: Fit, y: Books, a: Addr) { Of(y.pending, a) == Of(fit.mid.pending, a) }

  /** Of the books b, the k lowest pending nonces run from the chain nonce, and the tracked nonce is
      the next, or beyond with the next one pending too. */
  ghost predicate RunsFor(chain: Chain, b: Books, k: nat, a: Addr) {
    var c, p, next := chain.nonce(a), Of(b.pending, a), Next(chain, b.tracked, a);
    (forall n :: c <= n < c + k ==> n in p) && c + k <= next && (next == c + k || c + k in p)
  }

  ghost function Interval(c: nat, hi: nat): (s: set<nat>)
    requires c <= hi
    ensures |s| == hi - c && forall n :: n in s <==> c <= n < hi
    decreases hi
  {
    if c == hi then {} else Interval(c, hi - 1) + {hi - 1}
  }

  lemma RunCount(items: Items, c: nat, hi: nat)
    requires c <= hi && forall n :: n in items ==> c <= n < hi
    ensures |items| <= hi - c && ((forall n :: c <= n < hi ==> n in items) ==> |items| == hi - c)
  {
    var all := Interval(c, hi);
    SubsetSize(items.Keys, all);
    if forall n :: c <= n < hi ==> n in items { assert items.Keys == all; }
  }

  /** Cut to k nonces, an account is in step exactly if its k lowest run from the chain nonce. */
  lemma CutIff(chain: Chain, x: Books, y: Books, a: Addr)
    requires CutAt(chain, x.pending, x.tracked, y.pending, y.tracked, a)
    requires forall n :: n in Of(x.pending, a) ==> chain.nonce(a) <= n
    ensures SeamlessAt(chain, y.pending, y.tracked, a) <==> RunsFor(chain, x, |Of(y.pending, a)|, a)
  {
    var c, p, p', next := chain.nonce(a), Of(x.pending, a), Of(y.pending, a), Next(chain, y.tracked, a);
    var k := |p'|;
    if SeamlessAt(chain, y.pending, y.tracked, a) { RunCount(p', c, next); }
    if RunsFor(chain, x, k, a) { LowestRun(p, p', c, k); }
  }

  lemma LowestRun(p: Items, p': Items, c: nat, k: nat)
    requires LowPart(p, p') && |p'| == k && (forall n :: n in p ==> c <= n) && forall n :: c <= n < c + k ==> n in p
    ensures forall n :: n in p' <==> c <= n < c + k
  {
    forall n | c <= n < c + k
      ensures n in p'
    {
      if n !in p' { RunCount(p', c, n); }
    }
    var all := Interval(c, c + k);
    SubsetSize(all, p'.Keys);
    assert forall n :: n in p' ==> n in all;
  }

  lemma RealignedBack(config: Config, chain: Chain, was: nat, locals: set<Addr>, now: nat, b1: Books,
                      fit: Fit, y: Books, a: Addr)
    requires Realigns(config, chain, locals, now, b1, fit, y) && Split(chain, was, b1, a)
    ensures SeamlessAt(chain, fit.books.pending, fit.books.tracked, a) <==> Bridged(chain, was, b1, a)
    ensures Bridged(chain, was, b1, a) ==> SeamlessAt(chain, y.pending, y.tracked, a)
    ensures SeamlessAt(chain, y.pending, y.tracked, a) <==>
            Bridged(chain, was, b1, a) || (!Uncut(fit, y, a) && RunsFor(chain, fit.mid, |Of(y.pending, a)|, a))
  {
    var b2 := fit.books;
    assert Settled(chain, b1.pending, b1.queue, b2.pending, b2.queue, a);
    SplitSettlesIff(chain, was, b1, a);
    ResetSeamlessAt(chain, b1.pending, b1.queue, b1.tracked, b2.pending, b2.queue, b2.tracked, a);
    RealignedAt(config, chain, locals, now, b1, fit, y, a);
    if Uncut(fit, y, a) {
      if !Bridged(chain, was, b1, a) { TornAtEnd(config, chain, was, locals, now, b1, fit, y, a); }
    } else {
      MidAbove(config, chain, locals, now, b1, fit, y, a);
      assert CutAt(chain, fit.mid.pending, fit.mid.tracked, y.pending, y.tracked, a);
      CutIff(chain, fit.mid, y, a);
    }
  }

  /** Nothing below the chain nonce is pending after demotion. */
  lemma MidAbove(config: Config, chain: Chain, locals: set<Addr>, now: nat, b1: Books, fit: Fit, y: Books,
                 a: Addr)
    requires Realigns(config, chain, locals, now, b1, fit, y)
    ensures forall n :: n in Of(fit.mid.pending, a) ==> chain.nonce(a) <= n
  {
    var b2 := fit.books;
    assert Settled(chain, b1.pending, b1.queue, b2.pending, b2.queue, a);
    PromotionAbove(config, chain, locals, b2, fit.mid, fit.accounts, a);
  }

  lemma PromotionAbove(config: Config, chain: Chain, locals: set<Addr>, x: Books, y: Books, done: set<Addr>, a: Addr)
    requires Promoting(config, chain, locals, x, y, done) && Apart(x.pending, x.queue)
    requires forall n :: n in Of(x.pending, a) ==> chain.nonce(a) <= n
    ensures forall n :: n in Of(y.pending, a) ==> chain.nonce(a) <= n
  {
    if a in done {
      assert Promoted(config, chain, locals, x, y, a);
      ReadyAbove(chain, x, a);
      RunAbove(chain, x, y, Payable(chain, a, Of(x.queue, a)), a);
    } else {
      assert Untouched(chain, x, y, a);
    }
  }

  lemma RunAbove(chain: Chain, x: Books, y: Books, ready: Items, a: Addr)
    requires forall n :: n in ready ==> Fresh(chain, a, Of(x.pending, a), ready, n)
    requires forall n :: n in Of(x.pending, a) ==> chain.nonce(a) <= n
    requires Of(y.pending, a) == Of(x.pending, a) + ReadyRun(ready, Next(chain, x.tracked, a))
    ensures forall n :: n in Of(y.pending, a) ==> chain.nonce(a) <= n
  {
    forall n | n in Of(y.pending, a)
      ensures chain.nonce(a) <= n
    {
      assert n in Of(x.pending, a) || n in ready;
      assert n in ready ==> Fresh(chain, a, Of(x.pending, a), ready, n);
    }
  }

  lemma TornAtEnd(config: Config, chain: Chain, was: nat, locals: set<Addr>, now: nat, b1: Books, fit: Fit,
                  y: Books, a: Addr)
    requires Realigns(config, chain, locals, now, b1, fit, y) && Split(chain, was, b1, a)
    requires !Bridged(chain, was, b1, a) && Uncut(fit, y, a)
    ensures !SeamlessAt(chain, y.pending, y.tracked, a)
  {
    var b2 := fit.books;
    assert Settled(chain, b1.pending, b1.queue, b2.pending, b2.queue, a);
    var g, top := UnbridgedTorn(chain, was, b1, b2, a);
    TornStays(config, chain, locals, b2, fit.mid, fit.accounts, g, top, a);
    assert CutAt(chain, fit.mid.pending, fit.mid.tracked, y.pending, y.tracked, a);
    UncutSame(chain, fit.mid, y, a);
  }

  lemma UncutSame(chain: Chain, x: Books, y: Books, a: Addr)
    requires CutAt(chain, x.pending, x.tracked, y.pending, y.tracked, a) && Of(y.pending, a) == Of(x.pending, a)
    ensures SeamlessAt(chain, y.pending, y.tracked, a) <==> SeamlessAt(chain, x.pending, x.tracked, a)
  {
  }

  /** An account that was in step and whose nonce has gone back is in step, after the reset has
      demoted and tracked, exactly if the reinjection bridged the nonces between; at the end exactly
      if so, or if the last limits cut it back to its first nonces in a row. */
  lemma BackIff(config: Config, c0: Chain, t0: map<Addr, nat>, chain: Chain, minPrice: nat, txs: seq<Tx>, run: Run,
                now: nat, b1: Books, locals: set<Addr>, fit: Fit, y: Books)
    requires Batch(config, chain, minPrice, false, txs, run, now, b1) && run.stages[0].books.tracked == map[]
    requires Filing(run.stages[|txs|].books.pending, run.stages[|txs|].books.queue, run.stages[|txs|].known)
    requires Realigns(config, chain, locals, now, b1, fit, y)
    ensures forall a :: GoneBack(c0, run.stages[0].books.pending, t0, chain, a) ==>
              && (SeamlessAt(chain, fit.books.pending, fit.books.tracked, a) <==> Bridged(chain, c0.nonce(a), b1, a))
              && (SeamlessAt(chain, y.pending, y.tracked, a) <==>
                    Bridged(chain, c0.nonce(a), b1, a) ||
                        (!Uncut(fit, y, a) && RunsFor(chain, fit.mid, |Of(y.pending, a)|, a)))
              && (a in locals ==> Uncut(fit, y, a))
  {
    forall a | GoneBack(c0, run.stages[0].books.pending, t0, chain, a)
      ensures SeamlessAt(chain, fit.books.pending, fit.books.tracked, a) <==> Bridged(chain, c0.nonce(a), b1, a)
      ensures SeamlessAt(chain, y.pending, y.tracked, a) <==>
                Bridged(chain, c0.nonce(a), b1, a) ||
                    (!Uncut(fit, y, a) && RunsFor(chain, fit.mid, |Of(y.pending, a)|, a))
      ensures a in locals ==> Uncut(fit, y, a)
    {
      InStepBehind(c0, run.stages[0].books, t0, chain, a);
      BatchSplits(config, chain, c0.nonce(a), minPrice, false, txs, run, now, b1, a);
      RealignedBack(config, chain, c0.nonce(a), locals, now, b1, fit, y, a);
    }
  }
}
