/** The transaction pool of chain/core/tx_pool.go. */
module TxPool {
  import opened TxBack
  import opened TxCull
  import opened TxLevel
  import opened TxModel
  import opened TxPoolState
  import opened TxPoolProofs
  import opened TxPriced
  import opened TxReset
  import opened TxRun

  class Pool {
    const config: Config
    const priced: PricedList
    var chain: Chain
    var minPrice: nat
    var locals: set<Addr>
    var pending: Lists
    var queue: Lists
    var all: set<Tx>
    var tracked: map<Addr, nat>
    var beats: map<Addr, nat>

    /** The lists are right, and the price heap holds every known transaction outside `gap`. */
    ghost predicate Sound(gap: set<Tx>)
      reads this, priced
    {
      Filing(pending, queue, all) && Priced(gap)
    }

    ghost predicate Priced(gap: set<Tx>)
      reads this, priced
    {
      priced.Valid() && forall tx :: tx in all && tx !in gap ==> tx in priced.items
    }

    /** What holds between operations. */
    ghost predicate Valid()
      reads this, priced
    {
      Sound({})
    }

    ghost predicate InStep()
      reads this
    {
      Seamless(chain, pending, tracked)
    }

    /** Within the global limits, but for at most one remote transaction. */
    ghost predicate InBounds()
      reads this
    {
      Bounded(config, all, locals)
    }

    constructor (config: Config, chain: Chain, minPrice: nat)
      ensures Valid() && InStep() && InBounds() && fresh(priced)
      ensures this.config == config && this.chain == chain && this.minPrice == minPrice && locals == {} && all == {}
      ensures pending == map[] && queue == map[] && tracked == map[] && beats == map[]
    {
      this.config, this.chain, this.minPrice := config, chain, minPrice;
      priced := new PricedList();
      locals, pending, queue, all, tracked, beats := {}, map[], map[], {}, map[], map[];
    }

    /** The known transactions and the price heap lose tx. */
    method Unlist(tx: Tx, ghost gap: set<Tx>)
      requires Priced(gap)
      modifies this`all, priced
      ensures Priced(gap) && all == old(all) - {tx}
    {
      all := all - {tx};
      priced.Removed(all);
    }

    /** The known transactions and the price heap gain tx. */
    method Learn(tx: Tx, ghost gap: set<Tx>)
      requires Priced(gap)
      modifies this`all, priced
      ensures Priced(gap) && all == old(all) + {tx}
    {
      all := all + {tx};
      priced.Put(tx);
    }

    /** enqueueTx: files tx in its sender's queue if the price-bump rule lets it. */
    method EnqueueTx(tx: Tx, ghost gap: set<Tx>) returns (inserted: bool, replaced: bool)
      requires Sound(gap) && tx.nonce !in Of(pending, tx.sender)
      modifies this`queue, this`all, priced
      ensures Sound(gap)
      ensures inserted ==
              Accepts(if tx.sender in old(queue) then old(queue)[tx.sender] else EMPTY_QUEUE, tx, config.priceBump)
      ensures !inserted ==> queue == old(queue) && all == old(all)
      ensures replaced == (inserted && tx.nonce in Of(old(queue), tx.sender))
      ensures inserted ==> Of(queue, tx.sender) == Of(old(queue), tx.sender)[tx.nonce := tx]
      ensures inserted ==>
              all == (if replaced then old(all) - {Of(old(queue), tx.sender)[tx.nonce]} else old(all)) + {tx}
      ensures SameBut(old(queue), queue, tx.sender) && queue.Keys <= old(queue).Keys + {tx.sender}
    {
      var from := tx.sender;
      var l := if from in queue then queue[from] else EMPTY_QUEUE;
      replaced := false;
      inserted := Accepts(l, tx, config.priceBump);
      if !inserted {
        return;
      }
      if tx.nonce in l.items {
        ghost var p, q, a := pending, queue, all;
        var present := l.items[tx.nonce];
        replaced := true;
        Unlist(present, gap);
        ReplaceInQueue(p, q, a, tx, present);
      } else {
        KnowMore(pending, queue, all, all + {tx});
        FileInQueue(pending, queue, all + {tx}, tx, l);
      }
      queue := queue[from := Added(l, tx)];
      Learn(tx, gap);
    }

    /** promoteTx: files tx in its sender's pending list and advances the tracked nonce. */
    method PromoteTx(tx: Tx, now: nat, ghost gap: set<Tx>)
      requires Sound(gap) && tx.nonce !in Of(queue, tx.sender) && !Has(Of(pending, tx.sender), tx)
      modifies this`pending, this`all, this`tracked, this`beats, priced
      ensures Sound(gap)
      ensures SameBut(old(pending), pending, tx.sender)
      ensures var l := if tx.sender in old(pending) then old(pending)[tx.sender] else EMPTY_PENDING;
              if Accepts(l, tx, config.priceBump) then
                && Of(pending, tx.sender) == l.items[tx.nonce := tx]
                && all == (if tx.nonce in l.items then old(all) - {l.items[tx.nonce]} else old(all)) + {tx}
                && tracked == old(tracked)[tx.sender := tx.nonce + 1] && beats == old(beats)[tx.sender := now]
              else
                pending == old(pending) && all == old(all) - {tx} && tracked == old(tracked) && beats == old(beats)
    {
      var l := if tx.sender in pending then pending[tx.sender] else EMPTY_PENDING;
      if !Accepts(l, tx, config.priceBump) {
        ghost var p, q, a := pending, queue, all;
        Unlist(tx, gap);
        ForgetKeeps(p, q, a, {tx});
        return;
      }
      FilePending(tx, l, gap);
      beats := beats[tx.sender := now];
      tracked := tracked[tx.sender := tx.nonce + 1];
    }

    /** The insertion of promoteTx: a replaced transaction is forgotten, an unknown one gets known. */
    method FilePending(tx: Tx, l: List, ghost gap: set<Tx>)
      requires Sound(gap) && tx.nonce !in Of(queue, tx.sender) && !Has(Of(pending, tx.sender), tx)
      requires l == (if tx.sender in pending then pending[tx.sender] else EMPTY_PENDING)
      requires Accepts(l, tx, config.priceBump)
      modifies this`pending, this`all, priced
      ensures Sound(gap) && pending == old(pending)[tx.sender := Added(l, tx)]
      ensures all == (if tx.nonce in l.items then old(all) - {l.items[tx.nonce]} else old(all)) + {tx}
    {
      ghost var p, q, a := pending, queue, all;
      KnowMore(p, q, a, a + {tx});
      if tx.nonce in l.items {
        var present := l.items[tx.nonce];
        ReplaceInPending(p, q, a + {tx}, tx, present);
        assert a + {tx} - {present} == a - {present} + {tx};
        Unlist(present, gap);
      } else {
        FileInPending(p, q, a + {tx}, tx, l);
      }
      if tx !in all {
        Learn(tx, gap);
      }
      pending := pending[tx.sender := Added(l, tx)];
    }

    /** enqueueTx on a known transaction whose nonce is free: it always goes in. */
    method Requeue(tx: Tx, ghost gap: set<Tx>)
      requires Sound(gap) && tx in all && tx.nonce !in Of(pending, tx.sender) && tx.nonce !in Of(queue, tx.sender)
      modifies this`queue, this`all, priced
      ensures Sound(gap) && all == old(all)
      ensures Of(queue, tx.sender) == Of(old(queue), tx.sender)[tx.nonce := tx]
      ensures SameBut(old(queue), queue, tx.sender) && queue.Keys <= old(queue).Keys + {tx.sender}
    {
      var inserted, replaced := EnqueueTx(tx, gap);
    }

    /** Requeues an account's transactions one by one, in any order. */
    method EnqueueItems(a: Addr, txs: Items, ghost gap: set<Tx>)
      requires Sound(gap) && Filed(txs)
      requires forall n :: n in txs ==>
               txs[n].sender == a && txs[n] in all && n !in Of(pending, a) && n !in Of(queue, a)
      modifies this`queue, this`all, priced
      ensures Sound(gap) && all == old(all)
      ensures Of(queue, a) == Of(old(queue), a) + txs && SameBut(old(queue), queue, a)
      ensures queue.Keys <= old(queue).Keys + {a}
    {
      var left := txs.Keys;
      ghost var q := Of(queue, a);
      while left != {}
        invariant left <= txs.Keys && Sound(gap) && all == old(all)
        invariant Of(queue, a) == q + (txs - left) && SameBut(old(queue), queue, a)
        invariant queue.Keys <= old(queue).Keys + {a}
        decreases left
      {
        var n :| n in left;
        OneMore(q, txs, left, n);
        Requeue(txs[n], gap);
        left := left - {n};
      }
      assert txs - {} == txs;
    }

    /** Deletes transactions no list holds any more, one by one, in any order. */
    method Forget(txs: Items, ghost gap: set<Tx>)
      requires Sound(gap) && Filed(txs)
      requires forall n :: n in txs ==>
               !Has(Of(pending, txs[n].sender), txs[n]) && !Has(Of(queue, txs[n].sender), txs[n])
      modifies this`all, priced
      ensures Sound(gap) && all == old(all) - Values(txs)
    {
      var left := txs.Keys;
      while left != {}
        invariant left <= txs.Keys && Sound(gap) && all == old(all) - Values(txs - left)
        decreases left
      {
        var n :| n in left;
        ForgetKeeps(pending, queue, all, {txs[n]});
        Unlist(txs[n], gap);
        OneMore(map[], txs, left, n);
        left := left - {n};
      }
      assert txs - {} == txs;
    }

    /** removeTx: forgets tx; a pending list also gives up what stood behind it, which goes
        back to the queue unless the list became empty. */
    method RemoveTx(tx: Tx, ghost gap: set<Tx>)
      requires Sound(gap)
      modifies this`pending, this`queue, this`all, this`tracked, this`beats, priced
      ensures Sound(gap) && all == old(all) - {tx}
      ensures tx !in old(all) ==> pending == old(pending) && queue == old(queue) && tracked == old(tracked)
      ensures tx in old(all) ==>
              AfterRemoval(chain, old(pending), old(queue), old(tracked), tx, pending, queue, tracked)
      ensures pending.Keys <= old(pending).Keys
      ensures beats == if tx in old(all) && tx.nonce in Of(old(pending), tx.sender) &&
              Below(Of(old(pending), tx.sender), tx.nonce) == map[]
                       then old(beats) - {tx.sender} else old(beats)
    {
      if tx !in all {
        return;
      }
      if tx.nonce in Of(pending, tx.sender) {
        RemovePending(tx, gap);
      } else {
        RemoveQueued(tx, gap);
      }
    }

    method RemovePending(tx: Tx, ghost gap: set<Tx>)
      requires Sound(gap) && tx in all && tx.nonce in Of(pending, tx.sender)
      modifies this`pending, this`queue, this`all, this`tracked, this`beats, priced
      ensures Sound(gap) && all == old(all) - {tx}
      ensures AfterRemoval(chain, old(pending), old(queue), old(tracked), tx, pending, queue, tracked)
      ensures pending.Keys <= old(pending).Keys
      ensures beats == if Below(Of(old(pending), tx.sender), tx.nonce) == map[] then old(beats) - {tx.sender}
              else old(beats)
    {
      var a := tx.sender;
      var l := Without(pending[a], tx.nonce);
      var invalids := From(pending[a].items, tx.nonce + 1);
      CutPending(pending, queue, all, tx, l);
      InvalidsKnown(pending, queue, all, tx);
      Unlist(tx, gap);
      if l.items == map[] {
        pending := pending - {a};
        beats := beats - {a};
      } else {
        pending := pending[a := l];
        EnqueueItems(a, invalids, gap);
      }
      if Next(chain, tracked, a) > tx.nonce {
        tracked := tracked[a := tx.nonce];
      }
    }

    method RemoveQueued(tx: Tx, ghost gap: set<Tx>)
      requires Sound(gap) && tx in all && tx.nonce !in Of(pending, tx.sender)
      modifies this`queue, this`all, priced
      ensures Sound(gap) && all == old(all) - {tx}
      ensures AfterRemoval(chain, pending, old(queue), tracked, tx, pending, queue, tracked)
      ensures old(queue).Keys - {tx.sender} <= queue.Keys <= old(queue).Keys
    {
      var a := tx.sender;
      if a in queue {
        var l := Without(queue[a], tx.nonce);
        CutQueue(pending, queue, all, tx, l);
        assert l.items == queue[a].items - {tx.nonce};
        queue := if l.items == map[] then queue - {a} else queue[a := l];
      } else {
        ForgetKeeps(pending, queue, all, {tx});
        assert Of(queue, a) - {tx.nonce} == Of(queue, a);
      }
      Unlist(tx, gap);
    }

    /** Removes a batch that the price heap has already let go of. */
    method RemoveAll(drop: seq<Tx>) returns (ghost trail: seq<Books>)
      requires Sound(TxSet(drop))
      modifies this`pending, this`queue, this`all, this`tracked, this`beats, priced
      ensures Valid() && all == old(all) - TxSet(drop)
      ensures old(InStep()) ==> InStep()
      ensures pending.Keys <= old(pending).Keys
      ensures Removes(chain, old(all), drop, trail, old(Here()), Here())
    {
      trail := [Here()];
      var i := 0;
      while i < |drop|
        invariant 0 <= i <= |drop| && Sound(TxSet(drop[i..])) && all == old(all) - TxSet(drop[..i])
        invariant old(InStep()) ==> InStep()
        invariant pending.Keys <= old(pending).Keys
        invariant Removes(chain, old(all), drop[..i], trail, old(Here()), Here())
      {
        ghost var before := Here();
        RemoveNext(drop, i, old(all));
        RemovesMore(chain, old(all), drop, i, trail, old(Here()), before, Here());
        trail := trail + [Here()];
        i := i + 1;
      }
      assert drop[..|drop|] == drop;
    }

    /** One removal of a batch. */
    method RemoveNext(drop: seq<Tx>, i: nat, ghost known: set<Tx>)
      requires i < |drop| && Sound(TxSet(drop[i..])) && all == known - TxSet(drop[..i])
      modifies this`pending, this`queue, this`all, this`tracked, this`beats, priced
      ensures Sound(TxSet(drop[i + 1..])) && all == known - TxSet(drop[..i + 1])
      ensures (old(InStep()) ==> InStep()) && pending.Keys <= old(pending).Keys
      ensures RemovesOne(chain, known, drop, i, old(Here()), Here())
    {
      ghost var p, q, t, now := pending, queue, tracked, all;
      RemoveTx(drop[i], TxSet(drop[i..]));
      if drop[i] in now { RemovalKeepsSeamless(chain, p, q, t, drop[i], pending, queue, tracked); }
      assert drop[i..] == [drop[i]] + drop[i + 1..];
      assert drop[..i + 1] == drop[..i] + [drop[i]];
    }

    /** What validateTx finds wrong with tx. */
    function Invalid(tx: Tx, local: bool): seq<Error>
      reads this
    {
      Faults(chain, minPrice, locals, tx, local)
    }

    predicate Full()
      reads this
    {
      IsFull(config, all)
    }

    function Here(): Books
      reads this
    {
      Books(pending, queue, tracked, beats)
    }

    /** The known transactions that no list holds. */
    ghost function Stray(): set<Tx>
      reads this
    {
      Strays(pending, queue, all)
    }

    function Now(): Stage
      reads this
    {
      Stage(Here(), all, locals)
    }

    /** add: validates tx, makes room for it when the pool is full by removing m.drop, one by one
        along the trail, and files it. */
    method Add(tx: Tx, local: bool) returns (answer: Answer, ghost m: Move)
      requires Valid()
      modifies this`locals, this`pending, this`queue, this`all, this`tracked, this`beats, priced
      ensures Valid() && (old(InStep()) ==> InStep()) && (old(InBounds()) ==> InBounds())
      ensures answer == m.answer && Adds(config, chain, minPrice, local, old(Now()), tx, m, Now())
      ensures answer == Rejected(Known) <==> tx in old(all)
      ensures tx !in old(all) ==> (answer.Pooled? <==> tx in all)
      ensures answer.Pooled? ==> chain.nonce(tx.sender) <= tx.nonce && (tx.kind.Base? || tx.kind.Binary?)
      ensures answer.Pooled? && tx.kind.Binary? ==>
              && tx.size <= 32768 && tx.gas <= chain.maxGas && tx.cost <= chain.balance(tx.sender)
              && tx.intrinsic <= tx.gas && (local || tx.sender in old(locals) || minPrice <= tx.price)
      ensures answer == Pooled(true) ==> Ousts(old(all), tx, all, config.priceBump)
      ensures tx !in old(all) && Faults(chain, minPrice, old(locals), tx, local) == [] &&
              |old(all)| < config.globalSlots + config.globalQueue &&
              tx.nonce !in Of(old(pending), tx.sender) && tx.nonce !in Of(old(queue), tx.sender) ==>
                answer == Pooled(false)
      ensures Fair(old(Now()), tx, all)
    {
      ghost var s := Now();
      answer, m := AddStep(tx, local);
      AddSays(config, chain, minPrice, local, s, tx, m, Now());
    }

    /** The body of add. */
    method AddStep(tx: Tx, local: bool) returns (answer: Answer, ghost m: Move)
      requires Valid()
      modifies this`locals, this`pending, this`queue, this`all, this`tracked, this`beats, priced
      ensures Valid() && (old(InStep()) ==> InStep())
      ensures answer == m.answer && Adds(config, chain, minPrice, local, old(Now()), tx, m, Now())
      ensures Fair(old(Now()), tx, all) && (answer == Pooled(true) ==> Ousts(old(all), tx, all, config.priceBump))
    {
      if tx in all {
        return Rejected(Known), Move(Rejected(Known), [], [Here()]);
      }
      var e := Invalid(tx, local);
      if e != [] {
        return Rejected(e[0]), Move(Rejected(e[0]), [], [Here()]);
      }
      answer, m := AddValid(tx, local);
    }

    /** add, once tx is found to be new and valid. */
    method AddValid(tx: Tx, local: bool) returns (answer: Answer, ghost m: Move)
      requires Valid() && tx !in all
      modifies this`locals, this`pending, this`queue, this`all, this`tracked, this`beats, priced
      ensures Valid() && (old(InStep()) ==> InStep())
      ensures answer == m.answer
      ensures Clears(config, chain, old(Now()), tx, m.drop, m.trail) && Enters(config, local, old(Now()), tx, m, Now())
      ensures Fair(old(Now()), tx, all)
      ensures answer == Pooled(true) ==> Ousts(old(all), tx, all, config.priceBump)
    {
      ghost var s, drop, trail := Now(), [], [];
      var under;
      under, drop, trail := Clear(tx);
      if under {
        m := Move(Rejected(Underpriced), drop, trail);
        CheapestGo(config, chain, s, tx, m, all);
        return Rejected(Underpriced), m;
      }
      answer, m := FileStep(tx, local, s, drop, trail);
      CheapestGo(config, chain, s, tx, m, all);
    }

    /** Filing, as the end of a step that started at s. */
    method FileStep(tx: Tx, local: bool, ghost s: Stage, ghost drop: seq<Tx>, ghost trail: seq<Books>)
      returns (answer: Answer, ghost m: Move)
      requires Valid() && tx !in s.known && |trail| == |drop| + 1 && trail[|drop|] == Here()
      requires all == s.known - TxSet(drop) && locals == s.locals && !(IsFull(config, s.known) && IsCheap(s, tx))
      modifies this`locals, this`pending, this`queue, this`all, priced
      ensures Valid() && (old(InStep()) ==> InStep()) && m == Move(answer, drop, trail)
      ensures Enters(config, local, s, tx, m, Now()) && all <= s.known - TxSet(drop) + {tx}
      ensures forall d :: d in s.known && d !in all && !Rivals(d, tx) ==> d in drop
      ensures answer == Pooled(true) ==> Ousts(s.known, tx, all, config.priceBump)
    {
      ghost var p, q, known := pending, queue, all;
      answer := File(tx, local);
      m := Move(answer, drop, trail);
      if answer == Pooled(true) { RivalOutbid(p, q, known, tx, pending, queue, all, config.priceBump); }
    }

    /** The first half of add: a full pool makes room. */
    method Clear(tx: Tx) returns (under: bool, ghost drop: seq<Tx>, ghost trail: seq<Books>)
      requires Valid()
      modifies this`pending, this`queue, this`all, this`tracked, this`beats, priced
      ensures Valid() && (old(InStep()) ==> InStep())
      ensures under <==> IsFull(config, old(all)) && IsCheap(old(Now()), tx)
      ensures Clears(config, chain, old(Now()), tx, drop, trail) && all == old(all) - TxSet(drop)
      ensures trail[|drop|] == Here()
    {
      under, drop, trail := false, [], [Here()];
      if Full() {
        under, drop, trail := MakeRoom(tx);
      }
    }

    /** A full pool refuses an underpriced transaction or drops the cheapest remote ones. */
    method MakeRoom(tx: Tx) returns (under: bool, ghost drop: seq<Tx>, ghost trail: seq<Books>)
      requires Valid() && Full()
      modifies this`pending, this`queue, this`all, this`tracked, this`beats, priced
      ensures Valid() && (old(InStep()) ==> InStep())
      ensures under <==> IsCheap(old(Now()), tx)
      ensures under ==> drop == []
      ensures !under ==> Evicts(config, locals, old(all), drop)
      ensures all == old(all) - TxSet(drop)
      ensures Removes(chain, old(all), drop, trail, old(Here()), Here())
    {
      drop, trail := [], [Here()];
      under := priced.Underpriced(tx, all, locals);
      if !under {
        var dropped := priced.Discard(|all| - (config.globalSlots + config.globalQueue - 1), all, locals);
        drop := dropped;
        trail := RemoveAll(dropped);
      }
    }

    /** The second half of add: replace a pending transaction, or queue the new one. */
    method File(tx: Tx, local: bool) returns (answer: Answer)
      requires Valid() && tx !in all
      modifies this`locals, this`pending, this`queue, this`all, priced
      ensures Valid() && (old(InStep()) ==> InStep())
      ensures answer.Rejected? <==> !Accepts(ListFor(old(pending), old(queue), tx), tx, config.priceBump)
      ensures answer.Pooled? ==> FiledAs(old(pending), old(queue), old(all), tx, pending, queue, all, answer.replaced)
      ensures answer.Rejected? ==>
              answer == Rejected(ReplaceUnderpriced) && pending == old(pending) && queue == old(queue) &&
                  all == old(all)
      ensures locals == if answer.Pooled? && local && tx.nonce !in Of(old(pending), tx.sender)
              then old(locals) + {tx.sender} else old(locals)
      ensures (forall d :: d in old(all) && d !in all ==> Rivals(d, tx)) && all <= old(all) + {tx}
    {
      var from := tx.sender;
      if tx.nonce in Of(pending, from) {
        var inserted := ReplacePending(tx);
        return if inserted then Pooled(true) else Rejected(ReplaceUnderpriced);
      }
      assert from in queue ==> EntryOk(queue[from], from, false, all);
      var inserted, replaced := EnqueueTx(tx, {});
      if !inserted {
        return Rejected(ReplaceUnderpriced);
      }
      if local { locals := locals + {from}; }
      answer := Pooled(replaced);
    }

    method ReplacePending(tx: Tx) returns (inserted: bool)
      requires Valid() && tx !in all && tx.nonce in Of(pending, tx.sender)
      modifies this`pending, this`all, priced
      ensures Valid() && (old(InStep()) ==> InStep())
      ensures inserted == Accepts(old(pending)[tx.sender], tx, config.priceBump)
      ensures inserted ==> FiledAs(old(pending), queue, old(all), tx, pending, queue, all, true)
      ensures !inserted ==> pending == old(pending) && all == old(all)
      ensures (forall d :: d in old(all) && d !in all ==> Rivals(d, tx)) && all <= old(all) + {tx}
    {
      var from := tx.sender;
      var l := pending[from];
      inserted := Accepts(l, tx, config.priceBump);
      if !inserted {
        return;
      }
      var present := l.items[tx.nonce];
      ghost var p, q, a := pending, queue, all;
      assert EntryOk(p[from], from, true, a);
      KnowMore(p, q, a, a + {tx});
      ReplaceInPending(p, q, a + {tx}, tx, present);
      assert a + {tx} - {present} == a - {present} + {tx};
      pending := pending[from := Added(l, tx)];
      Unlist(present, {});
      Learn(tx, {});
      SameNonces(chain, p, pending, tracked);
    }

    /** SetGasPrice: raises the floor and throws out exactly the remote transactions below it. */
    method SetGasPrice(price: nat) returns (ghost drop: seq<Tx>, ghost trail: seq<Books>)
      requires Valid()
      modifies this`minPrice, this`pending, this`queue, this`all, this`tracked, this`beats, priced
      ensures Valid() && (old(InStep()) ==> InStep()) && (old(InBounds()) ==> InBounds()) && minPrice == price
      ensures forall tx :: tx in all <==> tx in old(all) && !(tx.price < price && tx.sender !in locals)
      ensures all == old(all) - TxSet(drop)
      ensures Removes(chain, old(all), drop, trail, old(Here()), Here())
    {
      minPrice := price;
      var dropped := priced.Cap(price, all, locals);
      drop := dropped;
      trail := RemoveAll(dropped);
      if old(InBounds()) { BoundedShrinks(config, old(all), locals, all); }
    }

    /** promoteTx on a known transaction whose nonce is free: nothing collides. */
    method Promote(tx: Tx, now: nat)
      requires Valid() && tx in all && tx.nonce !in Of(pending, tx.sender) && tx.nonce !in Of(queue, tx.sender)
      modifies this`pending, this`all, this`tracked, this`beats, priced
      ensures Valid() && all == old(all)
      ensures Next(chain, tracked, tx.sender) == tx.nonce + 1 && SameNext(chain, old(tracked), tracked, tx.sender)
      ensures Of(pending, tx.sender) == Of(old(pending), tx.sender)[tx.nonce := tx]
      ensures SameBut(old(pending), pending, tx.sender)
      ensures beats == old(beats)[tx.sender := now]
    {
      PromoteTx(tx, now, {});
    }

    /** Promotes the consecutive nonces first..next-1, lowest first. */
    method PromoteRun(a: Addr, run: Items, first: nat, next: nat, now: nat)
      requires Valid() && Filed(run) && first <= next && forall n :: n in run <==> first <= n < next
      requires forall n :: n in run ==>
               run[n].sender == a && run[n] in all && n !in Of(pending, a) && n !in Of(queue, a)
      modifies this`pending, this`all, this`tracked, this`beats, priced
      ensures Valid() && all == old(all)
      ensures Of(pending, a) == Of(old(pending), a) + run && SameBut(old(pending), pending, a)
      ensures first < next ==> Next(chain, tracked, a) == next
      ensures first == next ==> Next(chain, tracked, a) == Next(chain, old(tracked), a)
      ensures SameNext(chain, old(tracked), tracked, a)
      ensures BeatsAt(old(beats), beats, a, if first < next then now else Beat(old(beats), a))
    {
      var n := first;
      ghost var p := Of(pending, a);
      while n < next
        invariant first <= n <= next && Valid() && all == old(all) && SameBut(old(pending), pending, a)
        invariant Merges(p, run, n, Of(pending, a))
        invariant Next(chain, tracked, a) == if first < n then n else Next(chain, old(tracked), a)
        invariant SameNext(chain, old(tracked), tracked, a)
        invariant BeatsAt(old(beats), beats, a, if first < n then now else Beat(old(beats), a))
      {
        ghost var cur := Of(pending, a);
        Promote(run[n], now);
        MergesStep(p, run, n, cur, Of(pending, a));
        n := n + 1;
      }
      MergesAll(p, run, next, Of(pending, a));
    }

    /** Replaces an account's queue by part of itself and forgets the rest. */
    method ReduceQueue(a: Addr, l: List, gone: Items)
      requires Valid() && a in queue && !l.strict && ListOk(l)
      requires Parts(queue[a].items, l.items, gone)
      modifies this`queue, this`all, priced
      ensures Valid() && queue == old(queue)[a := l] && SameBut(old(queue), queue, a) && all == old(all) - Values(gone)
      ensures Stray() == old(Stray())
    {
      PartUnlisted(pending, queue, all, a, l, gone);
      QueuePartStrays(pending, queue, all, a, l, gone);
      queue := queue[a := l];
      Forget(gone, {});
    }

    /** The first two steps on a queue: too low and too expensive transactions go. */
    method CleanQueue(a: Addr)
      requires Valid() && a in queue
      modifies this`queue, this`all, priced
      ensures Valid() && SameBut(old(queue), queue, a) && queue.Keys == old(queue).Keys
      ensures Of(queue, a) == Payable(chain, a, Of(old(queue), a))
      ensures all == old(all) - Values(Below(Of(old(queue), a), chain.nonce(a)))
                     - Values(TooDear(From(Of(old(queue), a), chain.nonce(a)), chain.balance(a), chain.maxGas))
      ensures Stray() == old(Stray())
    {
      var c := chain.nonce(a);
      var l0 := queue[a];
      assert EntryOk(l0, a, false, all);
      ForwardParts(l0, c);
      ReduceQueue(a, Forwarded(l0, c), Below(l0.items, c));
      var l1 := Forwarded(l0, c);
      FilterParts(l1, chain.balance(a), chain.maxGas);
      ReduceQueue(a, Filtered(l1, chain.balance(a), chain.maxGas), TooDear(l1.items, chain.balance(a), chain.maxGas));
    }

    /** The third step: the leading run, if it joins the pending nonces, leaves the queue. */
    method TakeReady(a: Addr, start: nat) returns (run: Items, first: nat, next: nat)
      requires Valid() && a in queue
      modifies this`queue
      ensures Valid() && SameBut(old(queue), queue, a) && queue.Keys == old(queue).Keys
      ensures Of(queue, a) == AfterReady(Of(old(queue), a), start) && run == ReadyRun(Of(old(queue), a), start)
      ensures Filed(run) && first <= next && forall n :: n in run <==> first <= n < next
      ensures forall n :: n in run ==> run[n].sender == a && run[n] in all && n !in Of(pending, a) && n !in Of(queue, a)
      ensures (if first < next then next else start) == NextAfter(Of(old(queue), a), start)
    {
      var l := queue[a];
      ReadyParts(pending, queue, all, a, start);
      run := ReadyRun(l.items, start);
      if !IsReady(l.items, start) {
        return run, 0, 0;
      }
      first := MinKey(l.items.Keys);
      next := RunStop(l.items, first);
      RunIs(l.items, start);
      queue := queue[a := Advanced(l, start)];
      assert Of(queue, a) == AfterReady(l.items, start);
    }

    /** The last step: remote accounts are capped, empty lists deleted. */
    method TrimQueue(a: Addr)
      requires Valid() && a in queue
      modifies this`queue, this`all, priced
      ensures Valid() && SameBut(old(queue), queue, a) && queue.Keys <= old(queue).Keys && all <= old(all)
      ensures Of(queue, a) == if a in locals then Of(old(queue), a) else CapTo(Of(old(queue), a), config.accountQueue)
      ensures a !in locals ==> |Of(queue, a)| <= config.accountQueue
      ensures a in queue ==> Of(queue, a) != map[]
      ensures Stray() == old(Stray())
    {
      if a !in locals {
        CapQueue(a);
      }
      DropIfEmpty(a);
    }

    method CapQueue(a: Addr)
      requires Valid() && a in queue
      modifies this`queue, this`all, priced
      ensures Valid() && SameBut(old(queue), queue, a) && queue.Keys == old(queue).Keys && all <= old(all)
      ensures Of(queue, a) == CapTo(Of(old(queue), a), config.accountQueue) && |Of(queue, a)| <= config.accountQueue
      ensures Stray() == old(Stray())
    {
      var l := queue[a];
      assert EntryOk(l, a, false, all);
      CapParts(l, config.accountQueue);
      ReduceQueue(a, CappedTo(l, config.accountQueue), Beyond(l.items, config.accountQueue));
    }

    method DropIfEmpty(a: Addr)
      requires Valid() && a in queue
      modifies this`queue
      ensures Valid() && queue.Keys <= old(queue).Keys && (forall b :: Of(queue, b) == Of(old(queue), b))
      ensures a in queue ==> Of(queue, a) != map[]
      ensures Stray() == old(Stray())
    {
      if queue[a].items == map[] {
        assert EntryOk(queue[a], a, false, all);
        ShrinkQueue(pending, queue, all, a, queue[a]);
        queue := queue - {a};
      }
      SameStrays(pending, old(queue), pending, queue, all);
    }

    /** One round of promoteExecutables' first loop. */
    method PromoteAccount(a: Addr, now: nat)
      requires Valid()
      modifies this`pending, this`queue, this`all, this`tracked, this`beats, priced
      ensures Valid() && (old(InStep()) ==> InStep())
      ensures SameBut(old(queue), queue, a) && SameBut(old(pending), pending, a) && queue.Keys <= old(queue).Keys
      ensures all <= old(all)
      ensures Of(queue, a) == QueueAfter(config, chain, a in locals, a, Of(old(queue), a), Next(chain, old(tracked), a))
      ensures Of(pending, a) ==
              Of(old(pending), a) + ReadyRun(Payable(chain, a, Of(old(queue), a)), Next(chain, old(tracked), a))
      ensures SameNext(chain, old(tracked), tracked, a)
      ensures Next(chain, tracked, a) == NextAfter(Payable(chain, a, Of(old(queue), a)), Next(chain, old(tracked), a))
      ensures a !in locals ==> Len(queue, a) <= config.accountQueue
      ensures a in queue ==> Of(queue, a) != map[]
      ensures Next(chain, tracked, a) !in Of(queue, a)
      ensures BeatsAt(old(beats), beats, a,
                      if ReadyRun(Payable(chain, a, Of(old(queue), a)), Next(chain, old(tracked), a)) == map[]
                          then Beat(old(beats), a) else now)
      ensures Stray() == old(Stray())
    {
      var start := Next(chain, tracked, a);
      if a in queue {
        PromoteQueued(a, start, now);
        NoneReady(config, chain, a in locals, a, Of(old(queue), a), start);
      } else {
        NothingQueued(config, chain, a in locals, a, start, Of(pending, a));
      }
    }

    /** The same for an account that has a queue, from the tracked nonce `start`. */
    method PromoteQueued(a: Addr, start: nat, now: nat)
      requires Valid() && a in queue && start == Next(chain, tracked, a)
      modifies this`pending, this`queue, this`all, this`tracked, this`beats, priced
      ensures Valid() && (old(InStep()) ==> InStep()) && SameNext(chain, old(tracked), tracked, a)
      ensures SameBut(old(queue), queue, a) && SameBut(old(pending), pending, a) && queue.Keys <= old(queue).Keys
      ensures all <= old(all)
      ensures Of(queue, a) == QueueAfter(config, chain, a in locals, a, Of(old(queue), a), start)
      ensures Of(pending, a) == Of(old(pending), a) + ReadyRun(Payable(chain, a, Of(old(queue), a)), start)
      ensures Next(chain, tracked, a) == NextAfter(Payable(chain, a, Of(old(queue), a)), start)
      ensures a !in locals ==> Len(queue, a) <= config.accountQueue
      ensures a in queue ==> Of(queue, a) != map[]
      ensures BeatsAt(old(beats), beats, a, if ReadyRun(Payable(chain, a, Of(old(queue), a)), start) == map[]
              then Beat(old(beats), a) else now)
      ensures Stray() == old(Stray())
    {
      ghost var q0 := Of(queue, a);
      CleanForRun(a);
      ghost var q2 := Of(queue, a);
      ghost var rest := AfterReady(q2, start);
      PromoteAndTrim(a, start, ReadyRun(q2, start), rest, NextAfter(q2, start), now);
      QueueAfterIs(config, chain, a in locals, a, q0, q2, rest, Of(queue, a), start);
    }

    /** The ready run becomes pending, and the rest of the queue is trimmed. */
    method CleanForRun(a: Addr)
      requires Valid() && a in queue
      modifies this`queue, this`all, priced
      ensures Valid() && SameBut(old(queue), queue, a) && queue.Keys == old(queue).Keys && all <= old(all)
      ensures Of(queue, a) == Payable(chain, a, Of(old(queue), a))
      ensures forall n :: n in Of(queue, a) ==> n >= chain.nonce(a) && n !in Of(pending, a)
      ensures Stray() == old(Stray())
    {
      ghost var q0 := Of(queue, a);
      CleanQueue(a);
      PayableFree(chain, pending, queue, all, a, q0);
    }

    method PromoteAndTrim(a: Addr, start: nat, ghost ready: Items, ghost rest: Items, ghost after: nat, now: nat)
      requires Valid() && a in queue && start == Next(chain, tracked, a)
      requires ready == ReadyRun(Of(queue, a), start) && rest == AfterReady(Of(queue, a), start)
      requires after == NextAfter(Of(queue, a), start)
      requires forall n :: n in Of(queue, a) ==> n >= chain.nonce(a) && n !in Of(pending, a)
      modifies this`pending, this`queue, this`all, this`tracked, this`beats, priced
      ensures Valid() && (old(InStep()) ==> InStep()) && SameNext(chain, old(tracked), tracked, a)
      ensures SameBut(old(queue), queue, a) && SameBut(old(pending), pending, a) && queue.Keys <= old(queue).Keys
      ensures all <= old(all)
      ensures Of(queue, a) == (if a in locals then rest else CapTo(rest, config.accountQueue))
      ensures Of(pending, a) == Of(old(pending), a) + ready
      ensures (a !in locals ==> Len(queue, a) <= config.accountQueue) && (a in queue ==> Of(queue, a) != map[])
      ensures Next(chain, tracked, a) == after
      ensures BeatsAt(old(beats), beats, a, if ready == map[] then Beat(old(beats), a) else now)
      ensures Stray() == old(Stray())
    {
      PromoteReady(a, start, ready, after, now);
      assert SameBut(old(queue), queue, a) && Of(queue, a) == rest;
      TrimQueue(a);
    }

    /** The ready run of an account's queue becomes pending. */
    method PromoteReady(a: Addr, start: nat, ghost ready: Items, ghost after: nat, now: nat)
      requires Valid() && a in queue && start == Next(chain, tracked, a) && ready == ReadyRun(Of(queue, a), start)
      requires after == NextAfter(Of(queue, a), start)
      requires forall n :: n in Of(queue, a) ==> n >= chain.nonce(a) && n !in Of(pending, a)
      modifies this`pending, this`queue, this`all, this`tracked, this`beats, priced
      ensures Valid() && all == old(all) && queue.Keys == old(queue).Keys && (old(InStep()) ==> InStep())
      ensures SameBut(old(queue), queue, a) && SameBut(old(pending), pending, a)
      ensures SameNext(chain, old(tracked), tracked, a)
      ensures Of(queue, a) == AfterReady(Of(old(queue), a), start) && Of(pending, a) == Of(old(pending), a) + ready
      ensures Next(chain, tracked, a) == after
      ensures BeatsAt(old(beats), beats, a, if ready == map[] then Beat(old(beats), a) else now)
      ensures Stray() == old(Stray())
    {
      ghost var q := Of(queue, a);
      var run, first, next := TakeReady(a, start);
      assert run == ready && after == if first < next then next else start;
      PromoteFree(a, run, first, next, now, q, start, after);
      PromotedStrays(old(pending), old(queue), all, pending, queue, a, start);
    }

    /** Promotes a run and keeps the account in step. */
    method PromoteFree(a: Addr, run: Items, first: nat, next: nat, now: nat, ghost q: Items, ghost start: nat,
                       ghost after: nat)
      requires Valid() && Filed(run) && first <= next && forall n :: n in run <==> first <= n < next
      requires forall n :: n in run ==>
               run[n].sender == a && run[n] in all && n !in Of(pending, a) && n !in Of(queue, a)
      requires start == Next(chain, tracked, a) && run == ReadyRun(q, start) && after == NextAfter(q, start)
      requires after == (if first < next then next else start)
      requires forall n :: n in q ==> n >= chain.nonce(a) && n !in Of(pending, a)
      modifies this`pending, this`all, this`tracked, this`beats, priced
      ensures Valid() && all == old(all) && (old(InStep()) ==> InStep()) && Next(chain, tracked, a) == after
      ensures Of(pending, a) == Of(old(pending), a) + run && SameBut(old(pending), pending, a)
      ensures SameNext(chain, old(tracked), tracked, a)
      ensures BeatsAt(old(beats), beats, a, if run == map[] then Beat(old(beats), a) else now)
    {
      ghost var p, t := pending, tracked;
      assert first < next <==> run != map[] by { assert first < next ==> first in run; }
      PromoteRun(a, run, first, next, now);
      PromotionKeepsSeamless(chain, p, t, a, q, start, run, after, pending, tracked);
    }

    // ---- demotion ----

    /** Replaces an account's pending list by part of itself and forgets the rest. */
    method ReducePending(a: Addr, l: List, gone: Items)
      requires Valid() && a in pending && l.strict && ListOk(l) && Parts(pending[a].items, l.items, gone)
      modifies this`pending, this`all, priced
      ensures Valid() && pending == old(pending)[a := l] && SameBut(old(pending), pending, a)
      ensures all == old(all) - Values(gone)
      ensures Stray() == old(Stray())
    {
      PendingPart(pending, queue, all, a, l, gone);
      PendingPartStrays(pending, queue, all, a, l, gone);
      pending := pending[a := l];
      Forget(gone, {});
    }

    /** Moves part of an account's pending list back to its queue. */
    method MoveBack(a: Addr, l: List, moved: Items)
      requires Valid() && a in pending && l.strict && ListOk(l) && Parts(pending[a].items, l.items, moved)
      modifies this`pending, this`queue, this`all, priced
      ensures Valid() && pending == old(pending)[a := l] && SameBut(old(pending), pending, a) && all == old(all)
      ensures Of(queue, a) == Of(old(queue), a) + moved && SameBut(old(queue), queue, a)
      ensures Stray() == old(Stray())
    {
      PendingPart(pending, queue, all, a, l, moved);
      ghost var p, q := pending, queue;
      pending := pending[a := l];
      assert SameBut(old(pending), pending, a);
      EnqueueItems(a, moved, {});
      MovedStrays(p, q, all, pending, queue, a, moved);
    }

    /** One round of demoteUnexecutables. */
    method DemoteAccount(a: Addr)
      requires Valid() && a in pending
      modifies this`pending, this`queue, this`all, this`beats, priced
      ensures Valid() && old(pending).Keys - {a} <= pending.Keys <= old(pending).Keys && all <= old(all)
      ensures SameBut(old(pending), pending, a) && SameBut(old(queue), queue, a)
      ensures Of(pending, a) == Staying(chain, a, Of(old(pending), a))
      ensures Of(queue, a) == Of(old(queue), a) + Demoted(chain, a, Of(old(pending), a))
      ensures a in pending <==> Of(pending, a) != map[]
      ensures beats == if a in pending then old(beats) else old(beats) - {a}
      ensures Stray() == old(Stray())
    {
      ghost var p0 := Of(pending, a);
      var l1 := DropDead(a);
      assert l1.items == From(p0, chain.nonce(a));
      assert SameBut(old(pending), pending, a);
      DemoteStranded(a, l1, p0);
      ghost var stay := Of(pending, a);
      assert SameBut(old(pending), pending, a) && beats == old(beats);
      CloseIfEmpty(a, stay);
    }

    /** The stranded transactions, and the rest if it starts too high, go back to the queue. */
    method DemoteStranded(a: Addr, l1: List, ghost p0: Items)
      requires Valid() && a in pending && l1.strict && ListOk(l1) && l1.items == From(p0, chain.nonce(a))
      requires pending[a] == Unfilled(l1, chain.balance(a), chain.maxGas)
      modifies this`pending, this`queue, this`all, priced
      ensures Valid() && all == old(all) && pending.Keys == old(pending).Keys
      ensures SameBut(old(pending), pending, a) && SameBut(old(queue), queue, a)
      ensures Of(pending, a) == Staying(chain, a, p0)
      ensures Of(queue, a) == Of(old(queue), a) + Demoted(chain, a, p0)
      ensures Stray() == old(Stray())
    {
      var l2 := Filtered(l1, chain.balance(a), chain.maxGas);
      StrictFilterParts(l1, chain.balance(a), chain.maxGas);
      DemotedIs(chain, a, p0, l1, l2, Of(queue, a));
      MoveAndClose(a, l2, Stranded(l1.items, chain.balance(a), chain.maxGas), Staying(chain, a, p0),
                   Of(queue, a) + Demoted(chain, a, p0));
    }

    method MoveAndClose(a: Addr, l: List, moved: Items, ghost stay: Items, ghost back: Items)
      requires Valid() && a in pending && l.strict && ListOk(l) && Parts(pending[a].items, l.items, moved)
      requires var gapped := l.items != map[] && chain.nonce(a) !in l.items;
               && stay == (if gapped then map[] else l.items)
               && back == (if gapped then Of(queue, a) + moved + l.items else Of(queue, a) + moved)
      modifies this`pending, this`queue, this`all, priced
      ensures Valid() && all == old(all) && pending.Keys == old(pending).Keys
      ensures SameBut(old(pending), pending, a) && SameBut(old(queue), queue, a)
      ensures Of(pending, a) == stay && Of(queue, a) == back
      ensures Stray() == old(Stray())
    {
      MoveBack(a, l, moved);
      DemoteGapped(a, l, stay, back);
    }

    /** Too low and too expensive transactions leave the pending list for good. */
    method DropDead(a: Addr) returns (l1: List)
      requires Valid() && a in pending
      modifies this`pending, this`all, priced
      ensures Valid() && all <= old(all)
      ensures l1 == Forwarded(old(pending)[a], chain.nonce(a)) && l1.strict && ListOk(l1)
      ensures pending.Keys == old(pending).Keys && SameBut(old(pending), pending, a)
      ensures pending[a] == Unfilled(l1, chain.balance(a), chain.maxGas)
      ensures Stray() == old(Stray())
    {
      var l0 := pending[a];
      assert EntryOk(l0, a, true, all);
      ForwardParts(l0, chain.nonce(a));
      l1 := Forwarded(l0, chain.nonce(a));
      ReducePending(a, l1, Below(l0.items, chain.nonce(a)));
      assert SameBut(old(pending), pending, a);
      StrictFilterParts(l1, chain.balance(a), chain.maxGas);
      ReducePending(a, Unfilled(l1, chain.balance(a), chain.maxGas), TooDear(l1.items, chain.balance(a), chain.maxGas));
    }

    /** If the list no longer starts at the chain nonce, all of it goes back to the queue. */
    method DemoteGapped(a: Addr, l: List, ghost stay: Items, ghost back: Items)
      requires Valid() && a in pending && pending[a] == l
      requires var gapped := l.items != map[] && chain.nonce(a) !in l.items;
               stay == (if gapped then map[] else l.items) &&
                   back == (if gapped then Of(queue, a) + l.items else Of(queue, a))
      modifies this`pending, this`queue, this`all, priced
      ensures Valid() && all == old(all) && pending.Keys == old(pending).Keys
      ensures SameBut(old(pending), pending, a) && SameBut(old(queue), queue, a)
      ensures Of(pending, a) == stay && Of(queue, a) == back
      ensures Stray() == old(Stray())
    {
      if l.items != map[] && chain.nonce(a) !in l.items {
        assert EntryOk(l, a, true, all);
        CapZero(l);
        MoveBack(a, CappedTo(l, 0), l.items);
      }
    }

    /** An empty pending list is deleted, and the account's heartbeat with it. */
    method CloseIfEmpty(a: Addr, ghost stay: Items)
      requires Valid() && a in pending && Of(pending, a) == stay
      modifies this`pending, this`beats
      ensures Valid() && old(pending).Keys - {a} <= pending.Keys <= old(pending).Keys
      ensures SameBut(old(pending), pending, a) && Of(pending, a) == stay && (a in pending <==> stay != map[])
      ensures beats == if a in pending then old(beats) else old(beats) - {a}
      ensures Stray() == old(Stray())
    {
      if pending[a].items == map[] {
        assert EntryOk(pending[a], a, true, all);
        ShrinkPending(pending, queue, all, a, pending[a]);
        pending := pending - {a};
        beats := beats - {a};
      }
      SameStrays(old(pending), queue, pending, queue, all);
    }

    /** demoteUnexecutables. */
    method DemoteUnexecutables()
      requires Valid()
      modifies this`pending, this`queue, this`all, this`beats, priced
      ensures Valid() && all <= old(all)
      ensures forall a :: Settled(chain, old(pending), old(queue), pending, queue, a)
      ensures Filled(pending, {}) && Rests(old(Here()), Here(), {})
      ensures Stray() == old(Stray())
    {
      var left := pending.Keys;
      Unsettled(chain, pending, queue);
      while left != {}
        invariant Stray() == old(Stray())
        invariant Valid() && left <= pending.Keys && all <= old(all)
        invariant Settling(chain, old(pending), old(queue), pending, queue, left)
        invariant Filled(pending, left) && left <= old(pending).Keys && Rests(old(Here()), Here(), left)
      {
        var a :| a in left;
        ghost var p, q, before := pending, queue, Here();
        DemoteAccount(a);
        RestOne(old(Here()), before, Here(), left, a);
        SettleOne(chain, old(pending), old(queue), p, q, pending, queue, left, a);
        FilledOne(p, pending, left, a);
        left := left - {a};
      }
    }

    // ---- the pending limit ----

    /** Drops the highest nonce of a pending list and takes the tracked nonce back to it. */
    method DropLast(a: Addr, ghost p0: Lists, ghost t0: map<Addr, nat>)
      requires Valid() && a in pending && Of(pending, a) != map[] && Cuts(chain, p0, t0, pending, tracked)
      modifies this`pending, this`all, this`tracked, priced
      ensures Valid() && (old(InStep()) ==> InStep()) && all <= old(all) && Cuts(chain, p0, t0, pending, tracked)
      ensures pending.Keys == old(pending).Keys && SameBut(old(pending), pending, a)
      ensures Of(pending, a) == CapTo(Of(old(pending), a), Len(old(pending), a) - 1)
      ensures Total(pending) == Total(old(pending)) - 1
      ensures Stray() == old(Stray())
    {
      ghost var p := pending;
      var n := CutLast(a);
      GoBack(a, n, p0, t0, p);
    }

    /** The tracked nonce goes back to a nonce just cut. */
    method GoBack(a: Addr, n: nat, ghost p0: Lists, ghost t0: map<Addr, nat>, ghost p: Lists)
      requires n in Of(p, a) && (forall m :: m in Of(p, a) ==> m <= n) && SameBut(p, pending, a)
      requires Of(pending, a) == Below(Of(p, a), n)
      requires Cuts(chain, p0, t0, p, tracked)
      modifies this`tracked
      ensures Cuts(chain, p0, t0, pending, tracked) && (Seamless(chain, p, old(tracked)) ==> InStep())
    {
      ghost var t := tracked;
      if Next(chain, tracked, a) > n {
        tracked := tracked[a := n];
      }
      LastDropped(chain, p0, t0, p, t, a, n, pending, tracked);
    }

    method CutLast(a: Addr) returns (n: nat)
      requires Valid() && a in pending && Of(pending, a) != map[]
      modifies this`pending, this`all, priced
      ensures Valid() && all <= old(all)
      ensures pending.Keys == old(pending).Keys && SameBut(old(pending), pending, a)
      ensures n in Of(old(pending), a) && Of(pending, a) == Below(Of(old(pending), a), n)
      ensures forall m :: m in Of(old(pending), a) ==> m <= n
      ensures Of(pending, a) == CapTo(Of(old(pending), a), Len(old(pending), a) - 1)
      ensures Total(pending) == Total(old(pending)) - 1
      ensures Stray() == old(Stray())
    {
      var l := pending[a];
      assert EntryOk(l, a, true, all);
      ghost var p := pending;
      ghost var last := CapLast(l.items);
      CapParts(l, |l.items| - 1);
      var gone := Beyond(l.items, |l.items| - 1);
      n :| n in gone;
      ReducePending(a, CappedTo(l, |l.items| - 1), gone);
      TotalChanges(p, pending, a);
    }

    /** One round: every account of the front gives up its last transaction. */
    method CutRound(front: seq<Addr>, ghost p0: Lists, ghost t0: map<Addr, nat>, ghost level: nat, ghost lower: nat)
      requires Cuts(chain, p0, t0, pending, tracked)
      requires Valid() && AllFiled(p0) && AtLevel(p0, locals, pending, level) && level == lower + 1
      requires Distinct(front) && Above(p0, locals, front, level) && Covers(p0, locals, front, lower)
      modifies this`pending, this`all, this`tracked, priced
      ensures Valid() && (old(InStep()) ==> InStep()) && all <= old(all)
      ensures AtLevel(p0, locals, pending, lower) && Total(pending) == Total(old(pending)) - |front|
      ensures Cuts(chain, p0, t0, pending, tracked)
      ensures Stray() == old(Stray())
    {
      RoundStarts(p0, locals, pending, level, lower);
      assert front[..0] == [];
      var i := 0;
      while i < |front|
        invariant Stray() == old(Stray())
        invariant 0 <= i <= |front| && Valid() && (old(InStep()) ==> InStep()) && all <= old(all)
        invariant MidRound(p0, locals, pending, lower, Members(front[..i]))
        invariant Total(pending) == Total(old(pending)) - i && Cuts(chain, p0, t0, pending, tracked)
      {
        CutNext(front, i, p0, t0, level, lower);
        i := i + 1;
      }
      assert front[..i] == front;
      RoundDone(p0, locals, pending, lower, Members(front));
    }

    /** The next account of the round. */
    method CutNext(front: seq<Addr>, i: nat, ghost p0: Lists, ghost t0: map<Addr, nat>, ghost level: nat,
                   ghost lower: nat)
      requires Valid() && AllFiled(p0) && level == lower + 1 && i < |front|
      requires Distinct(front) && Above(p0, locals, front, level)
      requires MidRound(p0, locals, pending, lower, Members(front[..i])) && Cuts(chain, p0, t0, pending, tracked)
      modifies this`pending, this`all, this`tracked, priced
      ensures Valid() && (old(InStep()) ==> InStep()) && all <= old(all) && Stray() == old(Stray())
      ensures MidRound(p0, locals, pending, lower, Members(front[..i + 1]))
      ensures Total(pending) == Total(old(pending)) - 1 && Cuts(chain, p0, t0, pending, tracked)
    {
      ghost var p := pending;
      NextInRound(p0, locals, p, level, lower, front, i);
      DropLast(front[i], p0, t0);
      RoundStep(p0, locals, p, pending, lower, Members(front[..i]), front[i]);
      MembersGrow(front, i);
    }

    /** Rounds until the pool is small enough or the front is down to the floor. */
    method CutTo(front: seq<Addr>, floor: nat, count0: nat, ghost p0: Lists, ghost t0: map<Addr, nat>,
                 ghost level0: nat)
      returns (count: nat, ghost level: nat)
      requires Cuts(chain, p0, t0, pending, tracked)
      requires Valid() && AllFiled(p0) && AtLevel(p0, locals, pending, level0) && count0 == Total(pending)
      requires floor <= level0 && Tight(p0, locals, level0, config.globalSlots)
      requires front != [] && Distinct(front) && Above(p0, locals, front, level0) && Covers(p0, locals, front, floor)
      modifies this`pending, this`all, this`tracked, priced
      ensures Valid() && (old(InStep()) ==> InStep()) && all <= old(all)
      ensures AtLevel(p0, locals, pending, level) && count == Total(pending)
      ensures Tight(p0, locals, level, config.globalSlots)
      ensures floor <= level <= level0 && (count <= config.globalSlots || level == floor) && count <= count0
      ensures Cuts(chain, p0, t0, pending, tracked)
      ensures Stray() == old(Stray())
    {
      count, level := count0, level0;
      var last := front[|front| - 1];
      assert last in front;
      StandsAt(p0, locals, pending, level, last);
      while count > config.globalSlots && Len(pending, last) > floor
        invariant Stray() == old(Stray())
        invariant Valid() && (old(InStep()) ==> InStep()) && all <= old(all)
        invariant AtLevel(p0, locals, pending, level) && count == Total(pending)
        invariant Tight(p0, locals, level, config.globalSlots)
        invariant floor <= level <= level0 && Len(pending, last) == level && count <= count0
        invariant Cuts(chain, p0, t0, pending, tracked)
        decreases level
      {
        ghost var lower: nat := level - 1;
        CutOnce(front, floor, p0, t0, level0, level, lower);
        count := count - |front|;
        level := lower;
      }
    }

    /** A round that is due leaves the level tight. */
    method CutOnce(front: seq<Addr>, ghost floor: nat, ghost p0: Lists, ghost t0: map<Addr, nat>, ghost level0: nat,
                   ghost level: nat, ghost lower: nat)
      requires Valid() && AllFiled(p0) && AtLevel(p0, locals, pending, level) && Total(pending) > config.globalSlots
      requires Cuts(chain, p0, t0, pending, tracked)
      requires level == lower + 1 && floor <= lower && level <= level0
      requires front != [] && Distinct(front) && Above(p0, locals, front, level0) && Covers(p0, locals, front, floor)
      modifies this`pending, this`all, this`tracked, priced
      ensures Valid() && (old(InStep()) ==> InStep()) && all <= old(all)
      ensures AtLevel(p0, locals, pending, lower) && Total(pending) == Total(old(pending)) - |front|
      ensures Tight(p0, locals, lower, config.globalSlots) && Len(pending, front[|front| - 1]) == lower
      ensures Cuts(chain, p0, t0, pending, tracked)
      ensures Stray() == old(Stray())
    {
      RoundReady(p0, locals, pending, front, floor, level0, level, lower, config.globalSlots);
      CutRound(front, p0, t0, level, lower);
      LastStands(p0, locals, pending, lower, level0, front);
    }

    /** The pending limit of promoteExecutables: the largest remote accounts are cut back until
        the pool is small enough or no remote account exceeds its own allowance. */
    method LimitPending() returns (ghost level: nat)
      requires Valid()
      modifies this`pending, this`all, this`tracked, priced
      ensures Valid() && (old(InStep()) ==> InStep()) && all <= old(all)
      ensures AllFiled(old(pending)) && Levelled(config, locals, old(pending), pending, level)
      ensures Cuts(chain, old(pending), old(tracked), pending, tracked)
      ensures Stray() == old(Stray())
    {
      var count := Count(pending);
      AreFiled(pending, true, all);
      level := HuntStarts(config, locals, pending, count);
      if count > config.globalSlots {
        count, level := Equalize(count, level);
      }
    }

    method Equalize(count0: nat, ghost level0: nat) returns (count: nat, ghost level: nat)
      requires Valid() && AllFiled(pending) && count0 > config.globalSlots
      requires Hunt(config, locals, pending, pending, Spammers(config, locals, pending), [], level0, count0)
      modifies this`pending, this`all, this`tracked, priced
      ensures Valid() && (old(InStep()) ==> InStep()) && all <= old(all)
      ensures Levelled(config, locals, old(pending), pending, level)
      ensures Cuts(chain, old(pending), old(tracked), pending, tracked)
      ensures Stray() == old(Stray())
    {
      count, level := count0, level0;
      ghost var p0, t0 := pending, tracked;
      var spammers := Spammers(config, locals, pending);
      var offenders := [];
      while count > config.globalSlots && spammers != {}
        invariant Stray() == old(Stray())
        invariant Valid() && (old(InStep()) ==> InStep()) && all <= old(all)
        invariant Hunt(config, locals, p0, pending, spammers, offenders, level, count)
        invariant Cuts(chain, p0, t0, pending, tracked)
        decreases spammers
      {
        HasLongest(pending, spammers);
        var offender :| offender in spammers && forall b :: b in spammers ==> Len(pending, b) <= Len(pending, offender);
        count, level := Offend(offender, spammers, offenders, count, p0, t0, level);
        spammers := spammers - {offender};
        offenders := offenders + [offender];
      }
      if count > config.globalSlots && offenders != [] {
        HuntEnds(config, locals, p0, pending, offenders, level, count);
        count, level := CutTo(offenders, config.accountSlots, count, p0, t0, level);
        CutEnds(config, locals, p0, pending, level);
      } else {
        HuntOver(config, locals, p0, pending, spammers, offenders, level, count);
      }
    }

    /** The next offender sets the threshold to which the earlier ones are cut back. */
    method Offend(offender: Addr, ghost spammers: set<Addr>, offenders: seq<Addr>, count0: nat, ghost p0: Lists,
                  ghost t0: map<Addr, nat>, ghost level0: nat)
      returns (count: nat, ghost level: nat)
      requires Cuts(chain, p0, t0, pending, tracked)
      requires Valid() && AllFiled(p0) && Hunt(config, locals, p0, pending, spammers, offenders, level0, count0)
      requires count0 > config.globalSlots
      requires offender in spammers && forall b :: b in spammers ==> Len(pending, b) <= Len(pending, offender)
      modifies this`pending, this`all, this`tracked, priced
      ensures Valid() && (old(InStep()) ==> InStep()) && all <= old(all)
      ensures Hunt(config, locals, p0, pending, spammers - {offender}, offenders + [offender], level, count)
      ensures Cuts(chain, p0, t0, pending, tracked)
      ensures Stray() == old(Stray())
    {
      var threshold := Len(pending, offender);
      if offenders == [] {
        count, level := count0, threshold;
        FirstOffender(config, locals, p0, pending, spammers, level0, count, offender);
      } else {
        NextOffender(config, locals, p0, pending, spammers, offenders, level0, count0, offender);
        count, level := CutBack(offender, threshold, spammers, offenders, count0, p0, t0, level0);
      }
    }

    method CutBack(ghost offender: Addr, threshold: nat, ghost spammers: set<Addr>, offenders: seq<Addr>, count0: nat,
                   ghost p0: Lists, ghost t0: map<Addr, nat>, ghost level0: nat)
      returns (count: nat, ghost level: nat)
      requires Cuts(chain, p0, t0, pending, tracked)
      requires Valid() && AllFiled(p0) && AtLevel(p0, locals, pending, level0) && count0 == Total(pending) <= Total(p0)
      requires Tight(p0, locals, level0, config.globalSlots) && offenders != [] && threshold == Len(p0, offender)
      requires Caught(config, locals, p0, spammers, offenders, level0, offender)
      requires Covers(p0, locals, offenders, threshold)
      modifies this`pending, this`all, this`tracked, priced
      ensures Valid() && (old(InStep()) ==> InStep()) && all <= old(all)
      ensures Hunt(config, locals, p0, pending, spammers - {offender}, offenders + [offender], level, count)
      ensures Cuts(chain, p0, t0, pending, tracked)
      ensures Stray() == old(Stray())
    {
      count, level := CutTo(offenders, threshold, count0, p0, t0, level0);
      NextCaught(config, locals, p0, pending, spammers, offenders, level0, level, count, offender);
    }

    // ---- the queue limit ----

    /** removeTx on the queued transaction of account a with nonce n. */
    method RemoveAt(a: Addr, n: nat)
      requires Valid() && n in Of(queue, a)
      modifies this`queue, this`all, priced
      ensures Valid() && all <= old(all) && Of(queue, a) == Of(old(queue), a) - {n} && SameBut(old(queue), queue, a)
      ensures old(queue).Keys - {a} <= queue.Keys <= old(queue).Keys && Total(queue) == Total(old(queue)) - 1
      ensures Stray() == old(Stray())
    {
      ghost var q := queue;
      assert EntryOk(queue[a], a, false, all);
      assert n !in Of(pending, a);
      ghost var known := all;
      RemoveQueued(queue[a].items[n], {});
      OneForgotten(pending, q, known, queue, a, n);
      TotalAfter(q, queue, a);
      OneLess(Of(q, a), n);
    }

    /** Drops all of an account's queue, lowest nonce first. */
    method DropQueue(a: Addr)
      requires Valid()
      modifies this`queue, this`all, priced
      ensures Valid() && all <= old(all) && Of(queue, a) == map[] && SameBut(old(queue), queue, a)
      ensures old(queue).Keys - {a} <= queue.Keys <= old(queue).Keys
      ensures Total(queue) == Total(old(queue)) - Len(old(queue), a)
      ensures Stray() == old(Stray())
    {
      while Of(queue, a) != map[]
        invariant Stray() == old(Stray())
        invariant Valid() && all <= old(all) && SameBut(old(queue), queue, a)
        invariant old(queue).Keys - {a} <= queue.Keys <= old(queue).Keys
        invariant Total(queue) - Len(queue, a) == Total(old(queue)) - Len(old(queue), a)
        decreases Len(queue, a)
      {
        var items := Of(queue, a);
        var n := MinKey(items.Keys);
        OneLess(items, n);
        RemoveAt(a, n);
      }
    }

    /** Drops the k highest nonces of an account's queue, highest first. */
    method DropTail(a: Addr, k: nat, ghost stay: nat)
      requires Valid() && k + stay == Len(queue, a)
      modifies this`queue, this`all, priced
      ensures Valid() && all <= old(all) && Of(queue, a) == CapTo(Of(old(queue), a), stay)
      ensures SameBut(old(queue), queue, a)
      ensures Total(queue) == Total(old(queue)) - k
      ensures Stray() == old(Stray())
    {
      ghost var q0, size: nat := Of(queue, a), Len(queue, a);
      AreFiled(queue, false, all);
      CapFacts(q0, size);
      var i := k;
      while i > 0
        invariant Stray() == old(Stray())
        invariant 0 <= i <= k && Valid() && all <= old(all) && SameBut(old(queue), queue, a)
        invariant size == stay + i && Of(queue, a) == CapTo(q0, size) && Total(queue) == Total(old(queue)) - (k - i)
      {
        ghost var less: nat := size - 1;
        TailStep(q0, Of(queue, a), size, less);
        RemoveAt(a, MaxKey(Of(queue, a).Keys));
        size := less;
        i := i - 1;
      }
    }

    /** The queue limit of promoteExecutables. */
    method LimitQueue()
      requires Valid()
      modifies this`queue, this`all, priced
      ensures Valid() && all <= old(all) && Culled(config, locals, beats, old(queue), queue)
      ensures Stray() == old(Stray())
    {
      var queued := Count(queue);
      CullStarts(config, locals, beats, queue);
      if queued > config.globalQueue {
        Cull(queued - config.globalQueue);
      }
    }

    method Cull(drop0: nat)
      requires Valid() && drop0 > 0 && drop0 + config.globalQueue == Total(queue)
      requires Culling(locals, beats, queue, queue, queue.Keys - locals)
      modifies this`queue, this`all, priced
      ensures Valid() && all <= old(all) && Culled(config, locals, beats, old(queue), queue)
      ensures Stray() == old(Stray())
    {
      ghost var q0 := queue;
      var drop: nat, rest := drop0, queue.Keys - locals;
      while drop > 0 && rest != {}
        invariant Stray() == old(Stray())
        invariant Valid() && all <= old(all) && drop + config.globalQueue == Total(queue)
        invariant Culling(locals, beats, q0, queue, rest)
        decreases rest
      {
        HasLatest(beats, rest);
        var a :| a in rest && forall b :: b in rest ==> Beat(beats, b) <= Beat(beats, a);
        var size := Len(queue, a);
        if size > drop {
          CutTail(a, drop, size, q0, rest);
          return;
        }
        CullAccount(a, q0, rest);
        drop := drop - size;
        rest := rest - {a};
      }
      CullEnds(config, locals, beats, q0, queue, rest);
    }

    method CullAccount(a: Addr, ghost q0: Lists, ghost rest: set<Addr>)
      requires Valid() && Culling(locals, beats, q0, queue, rest) && a in rest
      requires forall b :: b in rest ==> Beat(beats, b) <= Beat(beats, a)
      modifies this`queue, this`all, priced
      ensures Valid() && all <= old(all) && Total(queue) == Total(old(queue)) - Len(old(queue), a)
      ensures Culling(locals, beats, q0, queue, rest - {a})
      ensures Stray() == old(Stray())
    {
      ghost var q := queue;
      DropQueue(a);
      CullOne(locals, beats, q0, q, queue, rest, a);
    }

    method CutTail(a: Addr, drop: nat, ghost size: nat, ghost q0: Lists, ghost rest: set<Addr>)
      requires Valid() && drop + config.globalQueue == Total(queue) && size == Len(queue, a) > drop
      requires Total(q0) > config.globalQueue
      requires Culling(locals, beats, q0, queue, rest)
      requires a in rest && forall b :: b in rest ==> Beat(beats, b) <= Beat(beats, a)
      modifies this`queue, this`all, priced
      ensures Valid() && all <= old(all) && Culled(config, locals, beats, q0, queue)
      ensures Stray() == old(Stray())
    {
      ghost var q, stay: nat := queue, size - drop;
      AreFiled(queue, false, all);
      CapIsLow(Of(q, a), stay);
      DropTail(a, drop, stay);
      CullTail(config, locals, beats, q0, q, queue, rest, a);
    }

    // ---- the operations on the whole pool ----

    /** promoteExecutables: mid is where the books stand before the two limits are enforced. */
    method PromoteExecutables(accounts: set<Addr>, now: nat) returns (ghost mid: Books, ghost level: nat)
      requires Valid()
      modifies this`pending, this`queue, this`all, this`tracked, this`beats, priced
      ensures Valid() && (old(InStep()) ==> InStep()) && (old(InBounds()) ==> InBounds()) && all <= old(all)
      ensures Promotes(config, chain, locals, old(all), accounts, now, old(Here()), mid, level, Here())
      ensures Within(config, locals, pending, queue)
      ensures forall a :: a in accounts && a !in locals ==> Len(queue, a) <= config.accountQueue
      ensures forall a :: a in accounts ==> Next(chain, tracked, a) !in Of(queue, a)
      ensures Stray() == old(Stray())
    {
      mid, level := PromoteAndLimit(accounts, now);
      forall a | a in accounts
        ensures Next(chain, tracked, a) !in Of(queue, a)
      {
        NoneLeftReady(config, chain, locals, old(all), accounts, now, old(Here()), mid, level, Here(), a);
      }
    }

    method PromoteAndLimit(accounts: set<Addr>, now: nat) returns (ghost mid: Books, ghost level: nat)
      requires Valid()
      modifies this`pending, this`queue, this`all, this`tracked, this`beats, priced
      ensures Valid() && (old(InStep()) ==> InStep()) && (old(InBounds()) ==> InBounds()) && all <= old(all)
      ensures Promotes(config, chain, locals, old(all), accounts, now, old(Here()), mid, level, Here())
      ensures Within(config, locals, pending, queue)
      ensures forall a :: a in accounts && a !in locals ==> Len(queue, a) <= config.accountQueue
      ensures Stray() == old(Stray())
    {
      PromoteAccounts(accounts, now);
      mid := Here();
      KnowMore(pending, queue, all, old(all));
      level := Limit();
      LimitsMet(config, chain, locals, old(Here()), mid, accounts, Here(), level);
      if old(InBounds()) { BoundedShrinks(config, old(all), locals, all); }
    }

    /** The two limits, one after the other. */
    method Limit() returns (ghost level: nat)
      requires Valid()
      modifies this`pending, this`queue, this`all, this`tracked, priced
      ensures Valid() && (old(InStep()) ==> InStep()) && all <= old(all)
      ensures Levelled(config, locals, old(pending), pending, level)
      ensures Cuts(chain, old(pending), old(tracked), pending, tracked)
      ensures Culled(config, locals, beats, old(queue), queue)
      ensures Stray() == old(Stray())
    {
      level := LimitPending();
      LimitQueue();
    }

    method PromoteAccounts(accounts: set<Addr>, now: nat)
      requires Valid()
      modifies this`pending, this`queue, this`all, this`tracked, this`beats, priced
      ensures Valid() && (old(InStep()) ==> InStep()) && all <= old(all)
      ensures Promoting(config, chain, locals, old(Here()), Here(), accounts)
      ensures Beaten(chain, now, old(Here()), Here(), accounts)
      ensures Stray() == old(Stray())
    {
      var done: set<Addr> := {};
      while accounts - done != {}
        invariant Stray() == old(Stray())
        invariant Valid() && (old(InStep()) ==> InStep()) && all <= old(all) && done <= accounts
        invariant Promoting(config, chain, locals, old(Here()), Here(), done)
        invariant Beaten(chain, now, old(Here()), Here(), done)
        decreases accounts - done
      {
        var a :| a in accounts - done;
        PromoteNext(a, now, old(Here()), done);
        done := done + {a};
      }
      assert forall a :: a in accounts ==> a in accounts - done || a in done;
      assert done == accounts;
    }

    method PromoteNext(a: Addr, now: nat, ghost x: Books, ghost done: set<Addr>)
      requires Valid() && a !in done && Promoting(config, chain, locals, x, Here(), done)
      requires Beaten(chain, now, x, Here(), done)
      modifies this`pending, this`queue, this`all, this`tracked, this`beats, priced
      ensures Valid() && (old(InStep()) ==> InStep()) && all <= old(all)
      ensures Promoting(config, chain, locals, x, Here(), done + {a}) && Beaten(chain, now, x, Here(), done + {a})
      ensures Stray() == old(Stray())
    {
      ghost var before := Here();
      PromoteAccount(a, now);
      assert Untouched(chain, x, before, a);
      BeatOne(chain, now, x, before, Here(), done, a);
      PromoteOne(config, chain, locals, x, before, Here(), done, a);
    }

    /** addTx. */
    method AddTx(tx: Tx, local: bool, now: nat) returns (answer: Answer, ghost run: Run)
      requires Valid()
      modifies this`locals, this`pending, this`queue, this`all, this`tracked, this`beats, priced
      ensures Valid() && (old(InStep()) ==> InStep()) && (old(InBounds()) ==> InBounds())
      ensures Batch(config, chain, minPrice, local, [tx], run, now, Here()) && run.stages[0] == old(Now())
      ensures run.moves[0].answer == answer
      ensures all <= run.stages[1].known && locals == run.stages[1].locals && Stray() == run.stages[1].Stray()
      ensures answer == Rejected(Known) <==> tx in old(all)
      ensures answer == Pooled(false) ==> Within(config, locals, pending, queue)
      ensures answer.Rejected? && answer.error != Known ==> tx !in all
    {
      ghost var stages, moves;
      answer, stages, moves := AddOne(tx, local);
      ghost var mid, level := Here(), 0;
      if answer == Pooled(false) {
        mid, level := PromoteExecutables({tx.sender}, now);
      }
      run := Run(stages, moves, mid, level);
      BatchBounded(config, chain, minPrice, local, [tx], run, all);
    }

    /** A batch of one transaction, before promotion. */
    method AddOne(tx: Tx, local: bool) returns (answer: Answer, ghost stages: seq<Stage>, ghost moves: seq<Move>)
      requires Valid()
      modifies this`locals, this`pending, this`queue, this`all, this`tracked, this`beats, priced
      ensures Valid() && (old(InStep()) ==> InStep())
      ensures Steps(config, chain, minPrice, local, [tx], stages, moves) && stages[0] == old(Now())
      ensures stages[1] == Now() && moves[0].answer == answer
      ensures Dirty([tx], moves) == if answer == Pooled(false) then {tx.sender} else {}
      ensures answer == Rejected(Known) <==> tx in old(all)
      ensures answer.Rejected? && answer.error != Known ==> tx !in all
    {
      ghost var s := Now();
      ghost var m;
      answer, m := AddStep(tx, local);
      AddSays(config, chain, minPrice, local, s, tx, m, Now());
      StepsOne(config, chain, minPrice, local, s, tx, m, Now());
      stages, moves := [s, Now()], [m];
    }

    /** addTxsLocked. */
    method AddTxs(txs: seq<Tx>, local: bool, now: nat) returns (answers: seq<Answer>, ghost run: Run)
      requires Valid()
      modifies this`locals, this`pending, this`queue, this`all, this`tracked, this`beats, priced
      ensures Valid() && (old(InStep()) ==> InStep()) && (old(InBounds()) ==> InBounds())
      ensures Batch(config, chain, minPrice, local, txs, run, now, Here()) && run.stages[0] == old(Now())
      ensures Answered(run.moves, answers)
      ensures all <= run.stages[|txs|].known && locals == run.stages[|txs|].locals
      ensures Stray() == run.stages[|txs|].Stray()
      ensures Filing(run.stages[|txs|].books.pending, run.stages[|txs|].books.queue, run.stages[|txs|].known)
      ensures Pooled(false) in answers ==> Within(config, locals, pending, queue)
      ensures Pooled(false) !in answers ==> all == run.stages[|txs|].known
    {
      var dirty;
      ghost var stages, moves;
      answers, dirty, stages, moves := AddEach(txs, local);
      ghost var mid, level := Here(), 0;
      if dirty != {} {
        mid, level := PromoteExecutables(dirty, now);
      }
      run := Run(stages, moves, mid, level);
      BatchBounded(config, chain, minPrice, local, txs, run, all);
    }

    /** The loop of addTxsLocked: dirty collects the accounts that got a new transaction. */
    method AddEach(txs: seq<Tx>, local: bool)
      returns (answers: seq<Answer>, dirty: set<Addr>, ghost stages: seq<Stage>, ghost moves: seq<Move>)
      requires Valid()
      modifies this`locals, this`pending, this`queue, this`all, this`tracked, this`beats, priced
      ensures Valid() && (old(InStep()) ==> InStep())
      ensures Steps(config, chain, minPrice, local, txs, stages, moves) && stages[0] == old(Now())
      ensures stages[|txs|] == Now()
      ensures Answered(moves, answers) && dirty == Dirty(txs, moves) && (Pooled(false) in answers <==> dirty != {})
    {
      answers, dirty, stages, moves := [], {}, [Now()], [];
      var i := 0;
      while i < |txs|
        invariant 0 <= i <= |txs| && Valid() && (old(InStep()) ==> InStep())
        invariant Steps(config, chain, minPrice, local, txs[..i], stages, moves) && stages[0] == old(Now())
        invariant stages[i] == Now()
        invariant Answered(moves, answers) && dirty == Dirty(txs[..i], moves)
        invariant Pooled(false) in answers <==> dirty != {}
      {
        var answer;
        ghost var m;
        answer, m := AddNext(txs, i, local, stages, moves);
        if answer == Pooled(false) {
          dirty := dirty + {txs[i].sender};
        }
        answers, stages, moves := answers + [answer], stages + [Now()], moves + [m];
        i := i + 1;
      }
      assert txs[..|txs|] == txs;
    }

    method AddNext(txs: seq<Tx>, i: nat, local: bool, ghost stages: seq<Stage>, ghost moves: seq<Move>)
      returns (answer: Answer, ghost m: Move)
      requires Valid() && i < |txs| && Steps(config, chain, minPrice, local, txs[..i], stages, moves)
      requires stages[i] == Now()
      modifies this`locals, this`pending, this`queue, this`all, this`tracked, this`beats, priced
      ensures Valid() && (old(InStep()) ==> InStep()) && answer == m.answer
      ensures Steps(config, chain, minPrice, local, txs[..i + 1], stages + [Now()], moves + [m])
      ensures Dirty(txs[..i + 1], moves + [m]) == Dirty(txs[..i], moves) + if answer == Pooled(false)
              then {txs[i].sender} else {}
    {
      answer, m := AddStep(txs[i], local);
      StepsMore(config, chain, minPrice, local, txs, i, stages, moves, m, Now());
    }

    /** The tracked nonces follow the pending lists. */
    method TrackPending()
      requires Filled(pending, {})
      modifies this`tracked
      ensures Tracks(chain, pending, old(tracked), tracked, {})
    {
      var left := pending.Keys;
      while left != {}
        invariant left <= pending.Keys && Tracks(chain, pending, old(tracked), tracked, left)
      {
        var a :| a in left;
        tracked := tracked[a := MaxKey(Of(pending, a).Keys) + 1];
        left := left - {a};
      }
    }

    /** reset: the chain has moved on to a new state, and the transactions that it dropped on
        the way are reinjected. b1 is where the books stand after that. */
    method Reset(next: Chain, reinject: seq<Tx>, now: nat) 
      returns (ghost run: Run, ghost b1: Books, ghost fit: Fit)
      requires Valid()
      modifies this`chain, this`locals, this`pending, this`queue, this`all, this`tracked, this`beats, priced
      ensures Valid() && chain == next && Within(config, locals, pending, queue) && (old(InBounds()) ==> InBounds())
      ensures Batch(config, next, minPrice, false, reinject, run, now, b1)
      ensures run.stages[0] == Stage(Books(old(pending), old(queue), map[], old(beats)), old(all), old(locals))
      ensures all <= run.stages[|reinject|].known && locals == run.stages[|reinject|].locals
      ensures Stray() == run.stages[|reinject|].Stray()
      ensures Realigns(config, next, locals, now, b1, fit, Here())
      ensures forall a :: Settles(next, b1.pending, b1.tracked, a) ==> SeamlessAt(next, pending, tracked, a)
      ensures forall a :: Steady(old(chain), old(pending), old(tracked), next, a) ==>
                (SeamlessAt(next, pending, tracked, a) <==> Spared(next, run, b1, a))
      ensures forall a :: Steady(old(chain), old(pending), old(tracked), next, a) && a in old(locals) ==>
              SeamlessAt(next, pending, tracked, a)
      ensures |old(all)| + |reinject| <= config.globalSlots ==>
              (forall a :: Steady(old(chain), old(pending), old(tracked), next, a)) ==> InStep()
      ensures reinject == [] && old(InStep()) ==> InStep()
      ensures forall a :: Next(next, tracked, a) !in Of(queue, a)
      ensures forall a :: GoneBack(old(chain), old(pending), old(tracked), next, a) ==>
                && (SeamlessAt(next, fit.books.pending, fit.books.tracked, a) <==>
                    Bridged(next, old(chain).nonce(a), b1, a))
                && (SeamlessAt(next, pending, tracked, a) <==>
                      Bridged(next, old(chain).nonce(a), b1, a) ||
                          (!Uncut(fit, Here(), a) && RunsFor(next, fit.mid, |Of(pending, a)|, a)))
                && (a in locals ==> Uncut(fit, Here(), a))
    {
      chain, tracked := next, map[];
      var answers;
      answers, run := AddTxs(reinject, false, now);
      b1 := Here();
      fit := Refit(now);
      AllNoneReady(config, next, locals, now, b1, fit, Here());
      BatchBounded(config, next, minPrice, false, reinject, run, all);
      ResetAll(config, old(chain), old(tracked), next, minPrice, reinject, run, now, b1, locals, fit, Here());
      BackIff(config, old(chain), old(tracked), next, minPrice, reinject, run, now, b1, locals, fit, Here());
    }

    /** The last part of reset: demotion, tracking and promotion. */
    method Refit(now: nat) returns (ghost fit: Fit)
      requires Valid()
      modifies this`pending, this`queue, this`all, this`tracked, this`beats, priced
      ensures Valid() && Within(config, locals, pending, queue) && all <= old(all) && Stray() == old(Stray())
      ensures Realigns(config, chain, locals, now, old(Here()), fit, Here())
    {
      Realign();
      ghost var books, accounts, known := Here(), queue.Keys, all;
      ghost var mid, level := PromoteExecutables(queue.Keys, now);
      fit := Fit(books, accounts, known, mid, level);
    }

    /** Demotes what the chain state does not allow any more, and lets the tracked nonces follow. */
    method Realign()
      requires Valid()
      modifies this`pending, this`queue, this`all, this`tracked, this`beats, priced
      ensures Valid() && all <= old(all)
      ensures Stray() == old(Stray())
      ensures forall a :: Settled(chain, old(pending), old(queue), pending, queue, a)
      ensures Filled(pending, {}) && Tracks(chain, pending, old(tracked), tracked, {})
      ensures Rests(old(Here()), Here(), {})
      ensures InStep() <==> forall a :: Settles(chain, old(pending), old(tracked), a)
    {
      DemoteUnexecutables();
      TrackPending();
      ResetSeamless(chain, old(pending), old(queue), old(tracked), pending, queue, tracked);
    }
  }

  /** The answers are those of the moves. */
  ghost predicate Answered(moves: seq<Move>, answers: seq<Answer>) {
    |answers| == |moves| && forall i :: 0 <= i < |moves| ==> answers[i] == moves[i].answer
  }
}
