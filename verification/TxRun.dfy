/** What adding a batch of transactions does to the pool's books, step by step, and what that means
    for the accounts when the chain has moved on: chain/core/tx_pool.go. */
module TxRun {
  import opened TxCull
  import opened TxLevel
  import opened TxModel
  import opened TxPoolProofs
  import opened TxPoolState

  datatype Error =
    | Known | Oversized | GasLimit | Underpriced | NonceTooLow | InsufficientFunds | IntrinsicGas
    | InvalidType | ReplaceUnderpriced

  datatype Answer = Pooled(replaced: bool) | Rejected(error: Error)

  const MAX_OVERSIZE := 32 * 1024

  /** normalValidateTx, baseValidateTx and validateTx. */
  function Faults(chain: Chain, minPrice: nat, locals: set<Addr>, tx: Tx, local: bool): seq<Error> {
    if tx.kind.Unknown? then [InvalidType]
    else if tx.kind.Base? then (if chain.nonce(tx.sender) > tx.nonce then [NonceTooLow] else [])
    else if tx.size > MAX_OVERSIZE then [Oversized]
    else if chain.maxGas < tx.gas then [GasLimit]
    else if !(local || tx.sender in locals) && minPrice > tx.price then [Underpriced]
    else if chain.nonce(tx.sender) > tx.nonce then [NonceTooLow]
    else if chain.balance(tx.sender) < tx.cost then [InsufficientFunds]
    else if tx.gas < tx.intrinsic then [IntrinsicGas]
    else []
  }

  /** Exactly these transactions are valid: base ones not below the chain nonce, and ordinary ones
      that are also small enough, fit the block, pay the floor unless local, are covered by the balance
      and pay for their data. */
  lemma FaultsIff(chain: Chain, minPrice: nat, locals: set<Addr>, tx: Tx, local: bool)
    ensures Faults(chain, minPrice, locals, tx, local) == [] <==>
            && chain.nonce(tx.sender) <= tx.nonce && (tx.kind.Base? || tx.kind.Binary?)
            && (tx.kind.Binary? ==>
                  && tx.size <= 32768 && tx.gas <= chain.maxGas && tx.cost <= chain.balance(tx.sender)
                  && tx.intrinsic <= tx.gas && (local || tx.sender in locals || minPrice <= tx.price))
    ensures forall e :: e in Faults(chain, minPrice, locals, tx, local) ==> Applies(chain, minPrice, e, tx)
  {
  }

  /** What an error says of a transaction is so. */
  predicate Applies(chain: Chain, minPrice: nat, e: Error, tx: Tx) {
    match e
    case InvalidType => tx.kind.Unknown?
    case NonceTooLow => tx.nonce < chain.nonce(tx.sender)
    case Oversized => tx.size > 32768
    case GasLimit => tx.gas > chain.maxGas
    case Underpriced => tx.price < minPrice
    case InsufficientFunds => tx.cost > chain.balance(tx.sender)
    case IntrinsicGas => tx.gas < tx.intrinsic
    case _ => false
  }

  // ---- one transaction ----

  /** The pool at one moment. */
  datatype Stage = Stage(books: Books, known: set<Tx>, locals: set<Addr>) {
    /** The known transactions that no list holds. */
    ghost function Stray(): set<Tx> { Strays(books.pending, books.queue, known) }
  }

  /** How a transaction was added: the answer, and what was removed to make room, along a trail. */
  datatype Move = Move(answer: Answer, drop: seq<Tx>, trail: seq<Books>)

  predicate IsFull(config: Config, known: set<Tx>) { |known| >= config.globalSlots + config.globalQueue }

  predicate IsCheap(s: Stage, tx: Tx) {
    tx.sender !in s.locals && s.known != {} && forall x :: x in s.known ==> x.price >= tx.price
  }

  /** The cheapest remote transactions go, as many as it takes to have one less than the limit;
      fewer only if no remote one stays. */
  ghost predicate Evicts(config: Config, locals: set<Addr>, known: set<Tx>, drop: seq<Tx>) {
    var over := |known| - (config.globalSlots + config.globalQueue - 1);
    && |drop| <= over && (|drop| < over ==> forall x :: x in known && x.sender !in locals ==> x in drop)
    && (forall d :: d in drop ==> d in known && d.sender !in locals)
    && (forall d, x :: d in drop && x in known && x !in drop && x.sender !in locals ==> d.price <= x.price)
  }

  /** Room is made: the trail removes drop. */
  ghost predicate Clears(config: Config, chain: Chain, s: Stage, tx: Tx, drop: seq<Tx>, trail: seq<Books>) {
    && |trail| == |drop| + 1 && Removes(chain, s.known, drop, trail, s.books, trail[|drop|])
    && if IsFull(config, s.known) && !IsCheap(s, tx) then Evicts(config, s.locals, s.known, drop) else drop == []
  }

  /** From the end of the trail on: the transaction is filed or refused. */
  ghost predicate Enters(config: Config, local: bool, s: Stage, tx: Tx, m: Move, s': Stage) {
    && |m.trail| == |m.drop| + 1
    && var b, known := m.trail[|m.drop|], s.known - TxSet(m.drop);
       if IsFull(config, s.known) && IsCheap(s, tx) then
         m.answer == Rejected(Underpriced) && s' == Stage(b, known, s.locals)
       else if !Accepts(ListFor(b.pending, b.queue, tx), tx, config.priceBump) then
         m.answer == Rejected(ReplaceUnderpriced) && s' == Stage(b, known, s.locals)
       else
         && m.answer.Pooled?
         && FiledAs(b.pending, b.queue, known, tx, s'.books.pending, s'.books.queue, s'.known, m.answer.replaced)
         && s'.books.tracked == b.tracked && s'.books.beats == b.beats
         && s'.locals == if local && tx.nonce !in Of(b.pending, tx.sender) then s.locals + {tx.sender} else s.locals
  }

  /** Adding tx takes the pool from s to s'. */
  ghost predicate Adds(config: Config, chain: Chain, minPrice: nat, local: bool, s: Stage, tx: Tx, m: Move, s': Stage) {
    var faults := Faults(chain, minPrice, s.locals, tx, local);
    if tx in s.known then
      s' == s && m == Move(Rejected(Known), [], [s.books])
    else if faults != [] then
      s' == s && m == Move(Rejected(faults[0]), [], [s.books])
    else
      Clears(config, chain, s, tx, m.drop, m.trail) && Enters(config, local, s, tx, m, s')
  }

  /** Of what s knew and is not known any more, but for a rival of tx: it was remote, and no dearer
      than a remote one that is still known. */
  ghost predicate Fair(s: Stage, tx: Tx, known: set<Tx>) {
    && (forall d :: d in s.known && d !in known && !Rivals(d, tx) ==> d.sender !in s.locals)
    && (forall d, x :: d in s.known && d !in known && !Rivals(d, tx) && Remains(s, x, known) ==> d.price <= x.price)
  }

  predicate Remains(s: Stage, x: Tx, known: set<Tx>) { x in s.known && x in known && x.sender !in s.locals }

  /** Some transaction that is not known any more was a rival of tx and is outbid by it. */
  ghost predicate Ousts(before: set<Tx>, tx: Tx, known: set<Tx>, bump: nat) {
    exists x :: x in before && x !in known && Rivals(x, tx) && Outbids(tx, x, bump)
  }

  /** Local transactions are never evicted, nor a dearer one before a cheaper. */
  lemma CheapestGo(config: Config, chain: Chain, s: Stage, tx: Tx, m: Move, known: set<Tx>)
    requires Clears(config, chain, s, tx, m.drop, m.trail) && known <= s.known - TxSet(m.drop) + {tx} && tx !in s.known
    requires forall d :: d in s.known && d !in known && !Rivals(d, tx) ==> d in m.drop
    ensures Fair(s, tx, known)
  {
  }

  /** What an answer says about the transaction and the pool. */
  ghost predicate Says(config: Config, chain: Chain, minPrice: nat, local: bool, s: Stage, tx: Tx, answer: Answer,
                       s': Stage) {
    && (answer == Rejected(Known) <==> tx in s.known)
    && (tx !in s.known ==> (answer.Pooled? <==> tx in s'.known))
    && (answer.Pooled? ==> chain.nonce(tx.sender) <= tx.nonce && (tx.kind.Base? || tx.kind.Binary?))
    && (answer.Pooled? && tx.kind.Binary? ==>
          && tx.size <= 32768 && tx.gas <= chain.maxGas && tx.cost <= chain.balance(tx.sender)
          && tx.intrinsic <= tx.gas && (local || tx.sender in s.locals || minPrice <= tx.price))
    && (tx !in s.known && Faults(chain, minPrice, s.locals, tx, local) == [] && !IsFull(config, s.known) &&
        tx.nonce !in Of(s.books.pending, tx.sender) && tx.nonce !in Of(s.books.queue, tx.sender) ==>
          answer == Pooled(false))
  }

  lemma AddSays(config: Config, chain: Chain, minPrice: nat, local: bool, s: Stage, tx: Tx, m: Move, s': Stage)
    ensures Adds(config, chain, minPrice, local, s, tx, m, s') ==>
              Says(config, chain, minPrice, local, s, tx, m.answer, s')
    ensures Adds(config, chain, minPrice, local, s, tx, m, s') && Bounded(config, s.known, s.locals) ==>
              Bounded(config, s'.known, s'.locals)
  {
    if Adds(config, chain, minPrice, local, s, tx, m, s') {
      if Bounded(config, s.known, s.locals) { AddBounded(config, chain, minPrice, local, s, tx, m, s'); }
      assert m.answer.Rejected? ==> s'.known <= s.known;
    }
  }

  // ---- promotion ----

  /** promoteExecutables takes the books from x to y: mid is where they stand before the limits. */
  ghost predicate Promotes(config: Config, chain: Chain, locals: set<Addr>, known: set<Tx>, accounts: set<Addr>,
                           now: nat, x: Books, mid: Books, level: nat, y: Books) {
    && Promoting(config, chain, locals, x, mid, accounts) && Filing(mid.pending, mid.queue, known)
    && Levelled(config, locals, mid.pending, y.pending, level) &&
       Cuts(chain, mid.pending, mid.tracked, y.pending, y.tracked)
    && Beaten(chain, now, x, mid, accounts) && y.beats == mid.beats &&
       Culled(config, locals, y.beats, mid.queue, y.queue)
  }

  /** Promotion leaves nothing in the queue that its account could have executed next. */
  lemma NoneLeftReady(config: Config, chain: Chain, locals: set<Addr>, known: set<Tx>, accounts: set<Addr>, now: nat,
                      x: Books, mid: Books, level: nat, y: Books, a: Addr)
    requires Promotes(config, chain, locals, known, accounts, now, x, mid, level, y)
    requires a in accounts || Of(x.queue, a) == map[]
    ensures Next(chain, y.tracked, a) !in Of(y.queue, a)
  {
    if a in accounts {
      assert Promoted(config, chain, locals, x, mid, a);
      NoneReady(config, chain, a in locals, a, Of(x.queue, a), Next(chain, x.tracked, a));
    } else {
      assert Untouched(chain, x, mid, a);
    }
    assert CutAt(chain, mid.pending, mid.tracked, y.pending, y.tracked, a);
    assert LowPart(Of(mid.queue, a), Of(y.queue, a));
    assert Next(chain, y.tracked, a) in Of(mid.pending, a) ==> Next(chain, y.tracked, a) !in Of(mid.queue, a);
  }

  // ---- a batch ----

  /** A batch: the pool before each transaction and after the last, how each was added, and where
      the books stood between promotion and the limits. */
  datatype Run = Run(stages: seq<Stage>, moves: seq<Move>, mid: Books, level: nat)

  ghost predicate Step(config: Config, chain: Chain, minPrice: nat, local: bool, txs: seq<Tx>, stages: seq<Stage>,
                       moves: seq<Move>, i: nat) {
    && i < |txs| && i < |moves| && i + 1 < |stages|
    && Adds(config, chain, minPrice, local, stages[i], txs[i], moves[i], stages[i + 1])
  }

  ghost predicate Steps(config: Config, chain: Chain, minPrice: nat, local: bool, txs: seq<Tx>, stages: seq<Stage>,
                        moves: seq<Move>) {
    && |moves| == |txs| && |stages| == |txs| + 1
    && forall i: nat :: i < |txs| ==> Step(config, chain, minPrice, local, txs, stages, moves, i)
  }

  /** The accounts that got a new transaction. */
  function Dirty(txs: seq<Tx>, moves: seq<Move>): set<Addr>
    requires |moves| == |txs|
  {
    set i | 0 <= i < |txs| && moves[i].answer == Pooled(false) :: txs[i].sender
  }

  /** The whole batch: one transaction after the other, then promotion if any is new. */
  ghost predicate Batch(config: Config, chain: Chain, minPrice: nat, local: bool, txs: seq<Tx>, run: Run,
                        now: nat, y: Books) {
    && Steps(config, chain, minPrice, local, txs, run.stages, run.moves)
    && var last := run.stages[|txs|];
       if Dirty(txs, run.moves) == {} then
         last.books == run.mid == y
       else
         Promotes(config, chain, last.locals, last.known, Dirty(txs, run.moves), now, last.books, run.mid, run.level,
                  y)
  }

  lemma StepsMore(config: Config, chain: Chain, minPrice: nat, local: bool, txs: seq<Tx>, i: nat, stages: seq<Stage>,
                  moves: seq<Move>, m: Move, s: Stage)
    requires i < |txs| && Steps(config, chain, minPrice, local, txs[..i], stages, moves)
    requires Adds(config, chain, minPrice, local, stages[i], txs[i], m, s)
    ensures Steps(config, chain, minPrice, local, txs[..i + 1], stages + [s], moves + [m])
    ensures Dirty(txs[..i + 1], moves + [m]) == Dirty(txs[..i], moves) + if m.answer == Pooled(false)
            then {txs[i].sender} else {}
  {
    var more, all, ms := txs[..i + 1], stages + [s], moves + [m];
    forall j: nat | j < |more|
      ensures Step(config, chain, minPrice, local, more, all, ms, j)
    {
      if j < i { assert Step(config, chain, minPrice, local, txs[..i], stages, moves, j); }
    }
    DirtyMore(txs, i, moves, m);
  }

  /** A batch of one. */
  lemma StepsOne(config: Config, chain: Chain, minPrice: nat, local: bool, s: Stage, tx: Tx, m: Move, s': Stage)
    requires Adds(config, chain, minPrice, local, s, tx, m, s')
    ensures Steps(config, chain, minPrice, local, [tx], [s, s'], [m])
    ensures Dirty([tx], [m]) == if m.answer == Pooled(false) then {tx.sender} else {}
  {
    var txs := [tx];
    assert txs[..0] == [] && txs[..1] == txs;
    StepsMore(config, chain, minPrice, local, txs, 0, [s], [], m, s');
  }

  lemma DirtyMore(txs: seq<Tx>, i: nat, moves: seq<Move>, m: Move)
    requires i < |txs| && |moves| == i
    ensures Dirty(txs[..i + 1], moves + [m]) == Dirty(txs[..i], moves) + if m.answer == Pooled(false)
            then {txs[i].sender} else {}
  {
    var more, ms := txs[..i + 1], moves + [m];
    var d, d' := Dirty(txs[..i], moves), Dirty(more, ms);
    forall a
      ensures a in d' <==> a in d || (m.answer == Pooled(false) && a == txs[i].sender)
    {
      if a in d {
        var j :| 0 <= j < i && moves[j].answer == Pooled(false) && txs[..i][j].sender == a;
        assert ms[j].answer == Pooled(false) && more[j].sender == a;
      }
      if a in d' {
        var j :| 0 <= j <= i && ms[j].answer == Pooled(false) && more[j].sender == a;
        assert j < i ==> moves[j].answer == Pooled(false) && txs[..i][j].sender == a;
      }
      if m.answer == Pooled(false) &&
          a == txs[i].sender { assert ms[i].answer == Pooled(false) && more[i].sender == a; }
    }
  }

  // ---- the size of the pool ----

  /** The pool is within its limits, or at most one of its transactions is remote. */
  ghost predicate Bounded(config: Config, known: set<Tx>, locals: set<Addr>) {
    |known| <= config.globalSlots + config.globalQueue || AtMostOne(known, locals)
  }

  ghost predicate AtMostOne(known: set<Tx>, locals: set<Addr>) {
    forall x, y :: x in known && y in known && x.sender !in locals && y.sender !in locals ==> x == y
  }

  ghost predicate NoRemote(known: set<Tx>, locals: set<Addr>) { forall x :: x in known ==> x.sender in locals }

  lemma BoundedShrinks(config: Config, known: set<Tx>, locals: set<Addr>, less: set<Tx>)
    requires Bounded(config, known, locals) && less <= known
    ensures Bounded(config, less, locals)
  {
    SubsetSize(less, known);
  }

  /** One over the limit drops one or leaves no remote one; further over there was at most one
      remote, and it goes. */
  lemma EvictionMakesRoom(config: Config, locals: set<Addr>, known: set<Tx>, drop: seq<Tx>)
    requires Evicts(config, locals, known, drop) && IsFull(config, known) && Bounded(config, known, locals)
    ensures var left := known - TxSet(drop);
            |left| < config.globalSlots + config.globalQueue || NoRemote(left, locals)
  {
    var over, left := |known| - (config.globalSlots + config.globalQueue - 1), known - TxSet(drop);
    if |drop| == over {
      var d := drop[0];
      assert d in drop;
      if over == 1 {
        assert left == known - {d};
      } else {
        assert AtMostOne(known, locals);
        assert forall x :: x in left && x.sender !in locals ==> x == d;
      }
    }
  }

  /** Adding a transaction keeps the pool bounded. */
  lemma AddBounded(config: Config, chain: Chain, minPrice: nat, local: bool, s: Stage, tx: Tx, m: Move, s': Stage)
    requires Adds(config, chain, minPrice, local, s, tx, m, s') && Bounded(config, s.known, s.locals)
    ensures Bounded(config, s'.known, s'.locals)
  {
    if tx !in s.known && Faults(chain, minPrice, s.locals, tx, local) == [] {
      var left := s.known - TxSet(m.drop);
      if IsFull(config, s.known) && IsCheap(s, tx) {
        BoundedShrinks(config, s.known, s.locals, s'.known);
      } else {
        if IsFull(config, s.known) { EvictionMakesRoom(config, s.locals, s.known, m.drop); }
        SubsetSize(left, s.known);
        EntryBounded(config, left, tx, s.locals, s'.known, s'.locals);
      }
    }
  }

  lemma EntryBounded(config: Config, left: set<Tx>, tx: Tx, locals: set<Addr>, known: set<Tx>, locals': set<Addr>)
    requires |left| < config.globalSlots + config.globalQueue || NoRemote(left, locals)
    requires known <= left + {tx} && locals <= locals'
    ensures Bounded(config, known, locals')
  {
    SubsetSize(known, left + {tx});
  }

  lemma {:induction false} StepsBounded(config: Config, chain: Chain, minPrice: nat, local: bool, txs: seq<Tx>,
                                        stages: seq<Stage>, moves: seq<Move>, k: nat)
    requires Steps(config, chain, minPrice, local, txs, stages, moves) && k <= |txs|
    requires Bounded(config, stages[0].known, stages[0].locals)
    ensures Bounded(config, stages[k].known, stages[k].locals)
  {
    if k > 0 {
      StepsBounded(config, chain, minPrice, local, txs, stages, moves, k - 1);
      assert Step(config, chain, minPrice, local, txs, stages, moves, k - 1);
      AddBounded(config, chain, minPrice, local, stages[k - 1], txs[k - 1], moves[k - 1], stages[k - 1 + 1]);
    }
  }

  /** A whole batch keeps the pool bounded. */
  lemma BatchBounded(config: Config, chain: Chain, minPrice: nat, local: bool, txs: seq<Tx>, run: Run, known: set<Tx>)
    requires Steps(config, chain, minPrice, local, txs, run.stages, run.moves) && known <= run.stages[|txs|].known
    ensures Bounded(config, run.stages[0].known, run.stages[0].locals) ==>
            Bounded(config, known, run.stages[|txs|].locals)
  {
    if Bounded(config, run.stages[0].known, run.stages[0].locals) {
      StepsBounded(config, chain, minPrice, local, txs, run.stages, run.moves, |txs|);
      BoundedShrinks(config, run.stages[|txs|].known, run.stages[|txs|].locals, known);
    }
  }
}
