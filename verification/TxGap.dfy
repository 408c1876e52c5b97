/** Two resets that leave an account out of step although the pool was in step before. */
module TxGap {
  import opened TxCull
  import opened TxLevel
  import opened TxModel
  import opened TxPoolProofs
  import opened TxPoolState
  import opened TxReset
  import opened TxRun

  function One(tx: Tx, empty: List): Lists { map[tx.sender := Added(empty, tx)] }

  /** tx is valid at the chain nonce or above, whatever its price. */
  predicate Plain(tx: Tx, chain: Chain) {
    && tx.kind.Binary? && tx.size <= MAX_OVERSIZE && tx.gas <= chain.maxGas && tx.cost <= chain.balance(tx.sender)
    && tx.intrinsic <= tx.gas && chain.nonce(tx.sender) <= tx.nonce
  }

  /** Books within all limits are left alone by the limits. */
  lemma LimitsIdle(config: Config, chain: Chain, locals: set<Addr>, known: set<Tx>, beats: map<Addr, nat>, b: Books)
    returns (level: nat)
    requires Filing(b.pending, b.queue, known) && Total(b.pending) <= config.globalSlots
    requires Total(b.queue) <= config.globalQueue
    ensures Levelled(config, locals, b.pending, b.pending, level)
    ensures Cuts(chain, b.pending, b.tracked, b.pending, b.tracked)
    ensures Culled(config, locals, beats, b.queue, b.queue)
  {
    AreFiled(b.pending, true, known);
    level := HuntStarts(config, locals, b.pending, Total(b.pending));
    CullStarts(config, locals, beats, b.queue);
  }

  lemma TotalOne(tx: Tx, empty: List)
    requires empty.items == map[]
    ensures Total(One(tx, empty)) == 1 && Total(map[]) == 0
  {
    var m := One(tx, empty);
    SumTakeOut(m, m.Keys, tx.sender);
    assert m.Keys - {tx.sender} == {};
    assert m[tx.sender].items == map[tx.nonce := tx];
    var none: Lists := map[];
    assert none.Keys == {};
  }

  lemma SingleReady(tx: Tx, n: nat)
    requires tx.nonce == n
    ensures ReadyRun(map[n := tx], n) == map[n := tx] && AfterReady(map[n := tx], n) == map[]
    ensures NextAfter(map[n := tx], n) == n + 1
  {
    var q: Items := map[n := tx];
    assert n in q.Keys;
    assert MinKey(q.Keys) == n;
    assert RunStop(q, n) == n + 1;
  }

  /** A new transaction at the tracked nonce leaves an otherwise empty queue. */
  lemma SingleLeaves(config: Config, chain: Chain, tx: Tx)
    requires Plain(tx, chain)
    ensures var q: Items := map[tx.nonce := tx];
            Payable(chain, tx.sender, q) == q && QueueAfter(config, chain, false, tx.sender, q, tx.nonce) == map[]
  {
    var q: Items := map[tx.nonce := tx];
    assert Payable(chain, tx.sender, q) == q;
    SingleReady(tx, tx.nonce);
    var none: Items := map[];
    assert CapTo(none, config.accountQueue) == none;
  }

  lemma SinglePromoted(config: Config, chain: Chain, x: Books, y: Books, tx: Tx)
    requires Plain(tx, chain) && tx.nonce == Next(chain, x.tracked, tx.sender)
    requires Of(x.queue, tx.sender) == map[tx.nonce := tx] && Of(y.queue, tx.sender) == map[]
    requires Of(y.pending, tx.sender) == Of(x.pending, tx.sender)[tx.nonce := tx]
    requires Next(chain, y.tracked, tx.sender) == tx.nonce + 1
    ensures Promoted(config, chain, {}, x, y, tx.sender)
  {
    var a, n := tx.sender, tx.nonce;
    var q: Items := map[n := tx];
    SingleLeaves(config, chain, tx);
    SingleReady(tx, n);
    assert Of(x.pending, a) + q == Of(x.pending, a)[n := tx];
  }

  /** A new transaction at the tracked nonce is promoted from an otherwise empty queue. */
  lemma PromoteSingle(config: Config, chain: Chain, p: Lists, t: map<Addr, nat>, tx: Tx, p': Lists)
    requires Plain(tx, chain) && tx.nonce == Next(chain, t, tx.sender)
    requires SameBut(p, p', tx.sender) && Of(p', tx.sender) == Of(p, tx.sender)[tx.nonce := tx]
    ensures Promoting(config, chain, {}, Books(p, One(tx, EMPTY_QUEUE), t, map[]),
                      Books(p', map[], t[tx.sender := tx.nonce + 1], map[]), {tx.sender})
  {
    var x, y := Books(p, One(tx, EMPTY_QUEUE), t, map[]), Books(p', map[], t[tx.sender := tx.nonce + 1], map[]);
    assert Of(x.queue, tx.sender) == map[tx.nonce := tx];
    SinglePromoted(config, chain, x, y, tx);
    OthersUntouched(chain, x, y, tx);
  }

  lemma OthersUntouched(chain: Chain, x: Books, y: Books, tx: Tx)
    requires SameBut(x.pending, y.pending, tx.sender) && x.queue == One(tx, EMPTY_QUEUE) && y.queue == map[]
    requires y.tracked == x.tracked[tx.sender := tx.nonce + 1]
    ensures forall a :: a != tx.sender ==> Untouched(chain, x, y, a)
  {
  }

  /** A batch whose last transaction alone is new and is promoted at once. */
  lemma BatchEnds(config: Config, chain: Chain, txs: seq<Tx>, stages: seq<Stage>, moves: seq<Move>, tx: Tx, s: Stage,
                  b1: Books) returns (run: Run)
    requires Steps(config, chain, 0, false, txs, stages, moves) && stages[|txs|] == s && s.locals == {}
    requires Dirty(txs, moves) == {tx.sender} && s.books.beats == b1.beats == map[]
    requires Promoting(config, chain, {}, s.books, b1, {tx.sender}) && Filing(b1.pending, b1.queue, s.known)
    requires Total(b1.pending) <= config.globalSlots && Total(b1.queue) <= config.globalQueue
    ensures Batch(config, chain, 0, false, txs, run, 0, b1)
    ensures run.stages == stages && run.moves == moves && run.mid == b1
    ensures Levelled(config, {}, b1.pending, b1.pending, run.level)
  {
    var level := LimitsIdle(config, chain, {}, s.known, map[], b1);
    run := Run(stages, moves, b1, level);
  }

  // ---- the chain nonce goes back ----

  const ROOMY := Config(10, 16, 4096, 64, 1024)

  function Reinjected(five: Tx, three: Tx): Lists { map[five.sender := Added(Added(EMPTY_PENDING, five), three)] }

  /** Nonce 5 is pending. The chain goes back to nonce 3, and transactions 4 and 3 are reinjected, but
      the account can no longer pay for 4: only 3 is promoted, in front of 5, and demotion only looks
      whether the list starts at 3. */
  lemma GapAfterReset(c0: Chain, chain: Chain, three: Tx, four: Tx, five: Tx) returns (run: Run)
    requires Plain(three, chain) && Plain(five, chain) && three.sender == four.sender == five.sender
    requires three.nonce == 3 && four.nonce == 4 && five.nonce == 5 && four.kind.Binary?
    requires four.cost > chain.balance(four.sender)
    requires c0.nonce(five.sender) == 5 && chain.nonce(five.sender) == 3
    ensures var p, a := One(five, EMPTY_PENDING), five.sender;
            var b1 := Books(Reinjected(five, three), map[], map[a := 4], map[]);
            var y := Books(Reinjected(five, three), map[], map[a := 6], map[]);
            && Seamless(c0, p, map[a := 6]) && Filing(p, map[], {five})
            && Batch(ROOMY, chain, 0, false, [four, three], run, 0, b1) &&
               run.stages[0] == Stage(Books(p, map[], map[], map[]), {five}, {})
            && Realigns(ROOMY, chain, {}, 0, b1, Fit(y, {}, {five, three}, y, run.level), y)
            && !SeamlessAt(chain, y.pending, y.tracked, a)
  {
    var p, a := One(five, EMPTY_PENDING), five.sender;
    var s0 := Stage(Books(p, map[], map[], map[]), {five}, {});
    var s1 := Stage(Books(p, One(three, EMPTY_QUEUE), map[], map[]), {five, three}, {});
    var b1 := Books(Reinjected(five, three), map[], map[a := 4], map[]);
    FiveInStep(c0, five);
    var moves := FourAndThree(chain, three, four, five, s0, s1);
    ThreeFiled(three, five);
    PromoteSingle(ROOMY, chain, p, map[], three, b1.pending);
    PendingAtMostKnown(b1.pending, s1.known);
    TotalOne(three, EMPTY_QUEUE);
    run := BatchEnds(ROOMY, chain, [four, three], [s0, s0, s1], moves, three, s1, b1);
    RealignsGap(chain, three, five, run.level);
  }

  lemma FourAndThree(chain: Chain, three: Tx, four: Tx, five: Tx, s0: Stage, s1: Stage) returns (moves: seq<Move>)
    requires Plain(three, chain) && three.sender == four.sender == five.sender
    requires three.nonce == 3 && four.nonce == 4 && five.nonce == 5 && four.kind.Binary?
    requires four.cost > chain.balance(four.sender)
    requires s0 == Stage(Books(One(five, EMPTY_PENDING), map[], map[], map[]), {five}, {})
    requires s1 == Stage(Books(One(five, EMPTY_PENDING), One(three, EMPTY_QUEUE), map[], map[]), {five, three}, {})
    ensures Steps(ROOMY, chain, 0, false, [four, three], [s0, s0, s1], moves)
    ensures Dirty([four, three], moves) == {three.sender}
  {
    var m0, m1 := Move(Rejected(Faults(chain, 0, {}, four, false)[0]), [], [s0.books]),
        Move(Pooled(false), [], [s0.books]);
    ThreeAdded(chain, three, five, s0, m1, s1);
    StepsOne(ROOMY, chain, 0, false, s0, four, m0, s0);
    StepsTwo(ROOMY, chain, [s0, s0], four, m0, three, m1, s1);
    assert [s0, s0] + [s1] == [s0, s0, s1];
    moves := [m0, m1];
  }

  /** A batch of two: the first is refused, the second is new. */
  lemma StepsTwo(config: Config, chain: Chain, front: seq<Stage>, tx0: Tx, m0: Move, tx1: Tx, m1: Move, s: Stage)
    requires Steps(config, chain, 0, false, [tx0], front, [m0]) && m0.answer.Rejected? && m1.answer == Pooled(false)
    requires Adds(config, chain, 0, false, front[1], tx1, m1, s)
    ensures Steps(config, chain, 0, false, [tx0, tx1], front + [s], [m0, m1])
    ensures Dirty([tx0, tx1], [m0, m1]) == {tx1.sender}
  {
    var txs := [tx0, tx1];
    assert txs[..1] == [tx0] && txs[..2] == txs && [m0] + [m1] == [m0, m1];
    StepsMore(config, chain, 0, false, txs, 1, front, [m0], m1, s);
  }

  lemma FiveInStep(c0: Chain, five: Tx)
    requires c0.nonce(five.sender) == five.nonce == 5
    ensures Seamless(c0, One(five, EMPTY_PENDING), map[five.sender := 6])
    ensures Filing(One(five, EMPTY_PENDING), map[], {five})
  {
    var p := One(five, EMPTY_PENDING);
    assert EntryOk(p[five.sender], five.sender, true, {five});
  }

  lemma ThreeAdded(chain: Chain, three: Tx, five: Tx, s0: Stage, m: Move, s1: Stage)
    requires Plain(three, chain) && three.sender == five.sender && three.nonce == 3 && five.nonce == 5
    requires s0 == Stage(Books(One(five, EMPTY_PENDING), map[], map[], map[]), {five}, {})
    requires m == Move(Pooled(false), [], [s0.books])
    requires s1 == Stage(Books(One(five, EMPTY_PENDING), One(three, EMPTY_QUEUE), map[], map[]), {five, three}, {})
    ensures Adds(ROOMY, chain, 0, false, s0, three, m, s1) && |s1.known| == 2
  {
  }

  lemma ThreeFiled(three: Tx, five: Tx)
    requires three.sender == five.sender && three.nonce == 3 && five.nonce == 5
    ensures Filing(Reinjected(five, three), map[], {five, three})
    ensures Of(Reinjected(five, three), five.sender) == map[3 := three, 5 := five]
  {
    assert EntryOk(Reinjected(five, three)[five.sender], five.sender, true, {five, three});
  }

  lemma RealignsGap(chain: Chain, three: Tx, five: Tx, level: nat)
    requires Plain(three, chain) && Plain(five, chain) && three.sender == five.sender && three.nonce == 3
    requires five.nonce == 5
    requires chain.nonce(five.sender) == 3
    requires Levelled(ROOMY, {}, Reinjected(five, three), Reinjected(five, three), level)
    ensures var b1 := Books(Reinjected(five, three), map[], map[five.sender := 4], map[]);
            var y := Books(Reinjected(five, three), map[], map[five.sender := 6], map[]);
            && Realigns(ROOMY, chain, {}, 0, b1, Fit(y, {}, {five, three}, y, level), y)
            && !SeamlessAt(chain, y.pending, y.tracked, five.sender)
  {
    var a, p := five.sender, Reinjected(five, three);
    var y := Books(p, map[], map[a := 6], map[]);
    ThreeFiled(three, five);
    assert 4 !in Of(p, a);
    GapTracks(chain, three, five);
    TotalOne(three, EMPTY_QUEUE);
    IdlePromotes(ROOMY, chain, {five, three}, y, level);
    GapSettled(chain, three, five);
  }

  lemma IdlePromotes(config: Config, chain: Chain, known: set<Tx>, b: Books, level: nat)
    requires Filing(b.pending, b.queue, known) && Levelled(config, {}, b.pending, b.pending, level)
    requires Total(b.queue) <= config.globalQueue
    ensures Promotes(config, chain, {}, known, {}, 0, b, b, level, b)
  {
    CullStarts(config, {}, map[], b.queue);
  }

  lemma GapTracks(chain: Chain, three: Tx, five: Tx)
    requires three.sender == five.sender && three.nonce == 3 && five.nonce == 5
    ensures Tracks(chain, Reinjected(five, three), map[five.sender := 4], map[five.sender := 6], {})
    ensures Filled(Reinjected(five, three), {})
  {
    var items := Of(Reinjected(five, three), five.sender);
    ThreeFiled(three, five);
    assert 5 in items.Keys;
    assert MaxKey(items.Keys) == 5;
  }

  lemma GapSettled(chain: Chain, three: Tx, five: Tx)
    requires Plain(three, chain) && Plain(five, chain) && three.sender == five.sender && three.nonce == 3
    requires five.nonce == 5
    requires chain.nonce(five.sender) == 3
    ensures forall b :: Settled(chain, Reinjected(five, three), map[], Reinjected(five, three), map[], b)
  {
    var p := Reinjected(five, three);
    ThreeFiled(three, five);
    forall b
      ensures Settled(chain, p, map[], p, map[], b)
    {
      if b == five.sender { GapSurvives(chain, three, five, b); } else { NothingStays(chain, b); }
    }
  }

  lemma NothingStays(chain: Chain, b: Addr)
    ensures Staying(chain, b, map[]) == map[] && Demoted(chain, b, map[]) == map[]
  {
  }

  // ---- eviction below the chain nonce ----

  const TINY := Config(10, 16, 1, 64, 0)

  /** The chain has taken the pool's only transaction, nonce 0 of account a. While another account's
      transaction is reinjected the pool is full, and evicting nonce 0 takes the tracked nonce of a
      back to it, below the chain's, where the rest of the reset leaves it. */
  lemma EvictedBelowChain(c0: Chain, chain: Chain, low: Tx, tx: Tx) returns (run: Run)
    requires Plain(tx, chain) && low.sender != tx.sender && low.nonce == 0 && chain.nonce(tx.sender) == tx.nonce
    requires low.price < tx.price
    requires c0.nonce(low.sender) == 0 && chain.nonce(low.sender) == 1
    ensures var p, a := One(low, EMPTY_PENDING), low.sender;
            var b1 := Books(One(tx, EMPTY_PENDING), map[], map[a := 0][tx.sender := tx.nonce + 1], map[]);
            && Seamless(c0, p, map[a := 1]) && Filing(p, map[], {low})
            && Batch(TINY, chain, 0, false, [tx], run, 0, b1) &&
               run.stages[0] == Stage(Books(p, map[], map[], map[]), {low}, {})
            && !Spared(chain, run, b1, a)
            && Realigns(TINY, chain, {}, 0, b1, Fit(b1, {}, {tx}, b1, run.level), b1)
            && !SeamlessAt(chain, b1.pending, b1.tracked, a)
  {
    var p, a := One(low, EMPTY_PENDING), low.sender;
    var s0 := Stage(Books(p, map[], map[], map[]), {low}, {});
    var b1 := Books(One(tx, EMPTY_PENDING), map[], map[a := 0][tx.sender := tx.nonce + 1], map[]);
    var m := Move(Pooled(false), [low], [s0.books, Books(map[], map[], map[a := 0], map[])]);
    LowInStep(c0, low);
    run := LowBatch(chain, low, tx, s0, m, b1);
    LowHit(chain, low, run, m, b1);
    LowRealigns(chain, tx, b1, run.level);
  }

  lemma LowHit(chain: Chain, low: Tx, run: Run, m: Move, y: Books)
    requires low.nonce == 0 && chain.nonce(low.sender) == 1 && |run.stages| == 2 && run.moves == [m]
    requires low in run.stages[0].known && m.drop == [low] && |m.trail| == 2
    requires m.trail[0].pending == One(low, EMPTY_PENDING)
    ensures !Spared(chain, run, y, low.sender)
  {
    assert HitAt(chain, run.stages[0].known, m.drop, m.trail, 0, low.sender);
    assert !Spares(chain, run.stages[0].known, run.moves[0], low.sender);
  }

  lemma LowInStep(c0: Chain, low: Tx)
    requires c0.nonce(low.sender) == low.nonce == 0
    ensures Seamless(c0, One(low, EMPTY_PENDING), map[low.sender := 1]) && Filing(One(low, EMPTY_PENDING), map[], {low})
  {
    assert EntryOk(One(low, EMPTY_PENDING)[low.sender], low.sender, true, {low});
  }

  lemma LowBatch(chain: Chain, low: Tx, tx: Tx, s0: Stage, m: Move, b1: Books) returns (run: Run)
    requires Plain(tx, chain) && low.sender != tx.sender && low.nonce == 0 && chain.nonce(tx.sender) == tx.nonce
    requires low.price < tx.price
    requires chain.nonce(low.sender) == 1 && s0 == Stage(Books(One(low, EMPTY_PENDING), map[], map[], map[]), {low}, {})
    requires m == Move(Pooled(false), [low], [s0.books, Books(map[], map[], map[low.sender := 0], map[])])
    requires b1 == Books(One(tx, EMPTY_PENDING), map[], map[low.sender := 0][tx.sender := tx.nonce + 1], map[])
    ensures Batch(TINY, chain, 0, false, [tx], run, 0, b1) && run.stages[0] == s0 && run.moves == [m]
    ensures |run.stages| == 2
    ensures Levelled(TINY, {}, b1.pending, b1.pending, run.level)
  {
    var s1 := Stage(Books(map[], One(tx, EMPTY_QUEUE), map[low.sender := 0], map[]), {tx}, {});
    LowStep(chain, low, tx, s0, m, s1);
    PromoteSingle(TINY, chain, map[], map[low.sender := 0], tx, b1.pending);
    OnePending(tx);
    run := BatchEnds(TINY, chain, [tx], [s0, s1], [m], tx, s1, b1);
  }

  lemma LowStep(chain: Chain, low: Tx, tx: Tx, s0: Stage, m: Move, s1: Stage)
    requires Plain(tx, chain) && low.nonce == 0 && low.price < tx.price && low.sender != tx.sender
    requires chain.nonce(low.sender) == 1
    requires s0 == Stage(Books(One(low, EMPTY_PENDING), map[], map[], map[]), {low}, {})
    requires m == Move(Pooled(false), [low], [s0.books, Books(map[], map[], map[low.sender := 0], map[])])
    requires s1 == Stage(Books(map[], One(tx, EMPTY_QUEUE), map[low.sender := 0], map[]), {tx}, {})
    ensures Steps(TINY, chain, 0, false, [tx], [s0, s1], [m]) && Dirty([tx], [m]) == {tx.sender}
  {
    LowEvicted(chain, low, tx, s0, m, s1);
    StepsOne(TINY, chain, 0, false, s0, tx, m, s1);
  }

  lemma OnePending(tx: Tx)
    ensures Filing(One(tx, EMPTY_PENDING), map[], {tx}) && Total(One(tx, EMPTY_PENDING)) == 1 && Total(map[]) == 0
  {
    TotalOne(tx, EMPTY_PENDING);
    assert EntryOk(One(tx, EMPTY_PENDING)[tx.sender], tx.sender, true, {tx});
  }

  /** Nothing is demoted, and no account with nothing pending is tracked anew. */
  lemma LowRealigns(chain: Chain, tx: Tx, b1: Books, level: nat)
    requires Plain(tx, chain) && chain.nonce(tx.sender) == tx.nonce && b1.pending == One(tx, EMPTY_PENDING)
    requires b1.queue == map[]
    requires Next(chain, b1.tracked, tx.sender) == tx.nonce + 1 && Levelled(TINY, {}, b1.pending, b1.pending, level)
    ensures Realigns(TINY, chain, {}, 0, b1, Fit(b1, {}, {tx}, b1, level), b1)
  {
    OnePending(tx);
    LowSettled(chain, tx, b1);
    assert Tracks(chain, b1.pending, b1.tracked, b1.tracked, {}) && Filled(b1.pending, {}) by {
      var items := Of(b1.pending, tx.sender);
      assert items == map[tx.nonce := tx];
      assert tx.nonce in items.Keys;
    }
    IdlePromotes(TINY, chain, {tx}, b1, level);
  }

  lemma LowSettled(chain: Chain, tx: Tx, b1: Books)
    requires Plain(tx, chain) && chain.nonce(tx.sender) == tx.nonce && b1.pending == One(tx, EMPTY_PENDING)
    requires b1.queue == map[]
    ensures forall b :: Settled(chain, b1.pending, b1.queue, b1.pending, b1.queue, b)
  {
    forall b
      ensures Settled(chain, b1.pending, b1.queue, b1.pending, b1.queue, b)
    {
      if b == tx.sender {
        var items := Of(b1.pending, b);
        assert items == map[tx.nonce := tx];
        assert From(items, tx.nonce) == items;
        assert Affordable(true, items, chain.balance(b), chain.maxGas) == items;
        assert Demoted(chain, b, items) == map[];
      } else {
        NothingStays(chain, b);
      }
    }
  }

  lemma LowEvicted(chain: Chain, low: Tx, tx: Tx, s0: Stage, m: Move, s1: Stage)
    requires Plain(tx, chain) && low.nonce == 0 && low.price < tx.price && low.sender != tx.sender
    requires chain.nonce(low.sender) == 1
    requires s0 == Stage(Books(One(low, EMPTY_PENDING), map[], map[], map[]), {low}, {})
    requires m == Move(Pooled(false), [low], [s0.books, Books(map[], map[], map[low.sender := 0], map[])])
    requires s1 == Stage(Books(map[], One(tx, EMPTY_QUEUE), map[low.sender := 0], map[]), {tx}, {})
    ensures Adds(TINY, chain, 0, false, s0, tx, m, s1)
  {
    LowCleared(chain, low, tx, s0, m.drop, m.trail);
    assert s0.known - TxSet(m.drop) == {};
    assert low in s0.known;
  }

  lemma LowCleared(chain: Chain, low: Tx, tx: Tx, s0: Stage, drop: seq<Tx>, trail: seq<Books>)
    requires low.nonce == 0 && low.price < tx.price && chain.nonce(low.sender) == 1
    requires s0 == Stage(Books(One(low, EMPTY_PENDING), map[], map[], map[]), {low}, {})
    requires drop == [low] && trail == [s0.books, Books(map[], map[], map[low.sender := 0], map[])]
    ensures Clears(TINY, chain, s0, tx, drop, trail)
  {
    var items := Of(s0.books.pending, low.sender);
    assert items == map[0 := low];
    assert Below(items, 0) == map[];
    assert low in s0.known;
    assert RemovesOne(chain, s0.known, drop, 0, trail[0], trail[1]);
  }
}
