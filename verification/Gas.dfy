/** Gas accounting of ordinary transactions over a block: chain/core/state_transition.go,
    chain/core/state_processor.go and chain/core/gaspool.go. */
module Gas {
  type Addr = nat

  type Balances = map<Addr, int>

  const TX_GAS: nat := 21000
  const TX_GAS_CONTRACT_CREATION: nat := 53000
  const TX_DATA_ZERO_GAS: nat := 4
  const TX_DATA_NON_ZERO_GAS: nat := 68
  const MAX_UINT64: nat := 0xFFFF_FFFF_FFFF_FFFF

  datatype Msg = Msg(from: Addr, creation: bool, gas: nat, price: nat, nonce: nat, checkNonce: bool, data: seq<bv8>)

  datatype Error =
    | NonceTooHigh | NonceTooLow | OutOfGas | InsufficientBalanceForGas | GasLimitReached | InsufficientBalance

  datatype Result<T> = Ok(value: T) | Err(error: Error)

  /** What the virtual machine did with a message: gas left over, refund counter, balances and
      nonces afterwards. */
  datatype Outcome =
    Outcome(gasLeft: nat, refund: nat, balances: Balances, nonces: map<Addr, nat>, failed: bool, insufficient: bool)

  /** The virtual machine, given the position of the transaction in the block, the message, the
      gas it may use and the balances. */
  type Evm = (nat, Msg, nat, Balances) -> Outcome

  ghost predicate Frugal(evm: Evm) { forall i, m, g, b :: evm(i, m, g, b).gasLeft <= g }

  datatype Receipt = Receipt(gasUsed: nat, cumulative: nat, failed: bool)

  // ---- money ----

  function BalanceOf(b: Balances, a: Addr): int { if a in b then b[a] else 0 }

  ghost function SumOver(b: Balances, ks: set<Addr>): int
    decreases ks
  {
    if ks == {} then 0 else
      var k :| k in ks;
      BalanceOf(b, k) + SumOver(b, ks - {k})
  }

  /** All the money there is. */
  ghost function Wealth(b: Balances): int { SumOver(b, b.Keys) }

  lemma {:induction false} SumTakeOut(b: Balances, ks: set<Addr>, a: Addr)
    requires a in ks
    ensures SumOver(b, ks) == BalanceOf(b, a) + SumOver(b, ks - {a})
    decreases ks
  {
    var k :| k in ks && SumOver(b, ks) == BalanceOf(b, k) + SumOver(b, ks - {k});
    if k != a {
      SumTakeOut(b, ks - {k}, a);
      SumTakeOut(b, ks - {a}, k);
      assert ks - {k} - {a} == ks - {a} - {k};
    }
  }

  lemma {:induction false} SumSame(b: Balances, b': Balances, ks: set<Addr>)
    requires forall a :: a in ks ==> BalanceOf(b, a) == BalanceOf(b', a)
    ensures SumOver(b, ks) == SumOver(b', ks)
    decreases ks
  {
    if ks != {} {
      var k :| k in ks;
      SumTakeOut(b, ks, k);
      SumTakeOut(b', ks, k);
      SumSame(b, b', ks - {k});
    }
  }

  function Paid(b: Balances, a: Addr, amount: int): Balances { b[a := BalanceOf(b, a) + amount] }

  lemma PaidWealth(b: Balances, a: Addr, amount: int)
    ensures Wealth(Paid(b, a, amount)) == Wealth(b) + amount
  {
    var b' := Paid(b, a, amount);
    SumTakeOut(b', b'.Keys, a);
    SumSame(b, b', b'.Keys - {a});
    if a in b {
      assert b'.Keys == b.Keys;
      SumTakeOut(b, b.Keys, a);
    } else {
      assert b'.Keys - {a} == b.Keys;
    }
  }

  lemma Distribute(a: nat, b: nat, c: nat, price: nat)
    ensures (a + b + c) * price == a * price + b * price + c * price
  {
  }

  // ---- the price of data ----

  /** Byte by byte. */
  function DataGas(data: seq<bv8>): nat {
    if data == [] then 0
    else (if data[|data| - 1] != 0 then TX_DATA_NON_ZERO_GAS else TX_DATA_ZERO_GAS) + DataGas(data[..|data| - 1])
  }

  /** IntrinsicGas, which counts the nonzero bytes first. */
  method IntrinsicGas(data: seq<bv8>, creation: bool) returns (gas: nat)
    ensures gas == (if creation then TX_GAS_CONTRACT_CREATION else TX_GAS) + DataGas(data)
    ensures gas == (if creation then 53000 else 21000) + 4 * |data| + 64 * |Nonzero(data)|
  {
    gas := if creation then TX_GAS_CONTRACT_CREATION else TX_GAS;
    var nz: nat := 0;
    for i := 0 to |data|
      invariant nz <= i && nz * TX_DATA_NON_ZERO_GAS + (i - nz) * TX_DATA_ZERO_GAS == DataGas(data[..i])
    {
      assert data[..i + 1][..i] == data[..i];
      if data[i] != 0 { nz := nz + 1; }
    }
    assert data[..|data|] == data;
    gas := gas + nz * TX_DATA_NON_ZERO_GAS + (|data| - nz) * TX_DATA_ZERO_GAS;
    DataGasIs(data);
  }

  // ---- one transaction ----

  function Intrinsic(msg: Msg): nat {
    (if msg.creation then TX_GAS_CONTRACT_CREATION else TX_GAS) + DataGas(msg.data)
  }

  /** Where data has a byte other than zero. */
  function Nonzero(data: seq<bv8>): set<nat> { set i: nat | i < |data| && data[i] != 0 }

  lemma {:induction false} DataGasIs(data: seq<bv8>)
    ensures |Nonzero(data)| <= |data| && DataGas(data) == 4 * |data| + 64 * |Nonzero(data)|
  {
    if data != [] {
      var n := |data| - 1;
      DataGasIs(data[..n]);
      var rest := Nonzero(data[..n]);
      assert Nonzero(data) == if data[n] != 0 then rest + {n} else rest;
    }
  }

  /** 21000, or 53000 for a creation, and 4 for each zero and 68 for each other byte. */
  lemma IntrinsicIs(msg: Msg)
    ensures Intrinsic(msg) == (if msg.creation then 53000 else 21000) + 4 * |msg.data| + 64 * |Nonzero(msg.data)|
  {
    DataGasIs(msg.data);
  }

  function NonceOf(nonces: map<Addr, nat>, a: Addr): nat { if a in nonces then nonces[a] else 0 }

  /** The refund for the gas spent: the counter, but at most half of it. */
  function Refund(spent: nat, counter: nat): nat { if spent / 2 < counter then spent / 2 else counter }

  /** The balances once the sender has bought the gas. */
  function Bought(b: Balances, msg: Msg): Balances { Paid(b, msg.from, -(msg.gas * msg.price)) }

  /** What the message did, given what the virtual machine did: the gas used, and the balances
      after the sender got back the price of the rest and the coinbase its fee. */
  function Settled(o: Outcome, msg: Msg, coinbase: Addr): (nat, Balances)
    requires o.gasLeft <= msg.gas
  {
    var refund := Refund(msg.gas - o.gasLeft, o.refund);
    var used := msg.gas - o.gasLeft - refund;
    (used, Paid(Paid(Paid(o.balances, msg.from, o.gasLeft * msg.price), msg.from, refund * msg.price), coinbase,
                used * msg.price))
  }

  /** Why a message cannot be applied, in the order of the checks, or Ok with the outcome. */
  function Tried(i: nat, msg: Msg, pool: nat, b: Balances, nonces: map<Addr, nat>, evm: Evm): Result<Outcome> {
    if msg.checkNonce && NonceOf(nonces, msg.from) < msg.nonce then Err(NonceTooHigh)
    else if msg.checkNonce && NonceOf(nonces, msg.from) > msg.nonce then Err(NonceTooLow)
    else if msg.gas > MAX_UINT64 then Err(OutOfGas)
    else if BalanceOf(b, msg.from) < msg.gas * msg.price then Err(InsufficientBalanceForGas)
    else if pool < msg.gas then Err(GasLimitReached)
    else if Intrinsic(msg) > MAX_UINT64 || msg.gas < Intrinsic(msg) then Err(OutOfGas)
    else
      var o := evm(i, msg, msg.gas - Intrinsic(msg), Bought(b, msg));
      if o.insufficient then Err(InsufficientBalance) else Ok(o)
  }

  /** A message is applied exactly if its nonce fits, the sender can buy the gas, the block has it
      left, it covers the data, and the machine can make the transfer; the machine then starts from
      the gas left after the data and the balances after the purchase. */
  lemma TriedIff(i: nat, msg: Msg, pool: nat, b: Balances, nonces: map<Addr, nat>, evm: Evm)
    ensures var t := Tried(i, msg, pool, b, nonces, evm);
            && (t.Ok? <==>
                  && (msg.checkNonce ==> NonceOf(nonces, msg.from) == msg.nonce)
                  && msg.gas * msg.price <= BalanceOf(b, msg.from) && Intrinsic(msg) <= msg.gas <= pool
                  && msg.gas <= MAX_UINT64 && !evm(i, msg, msg.gas - Intrinsic(msg), Bought(b, msg)).insufficient)
            && (t.Ok? ==> t.value == evm(i, msg, msg.gas - Intrinsic(msg), Bought(b, msg)))
    ensures var t := Tried(i, msg, pool, b, nonces, evm);
            && (t == Err(NonceTooHigh) ==> msg.checkNonce && NonceOf(nonces, msg.from) < msg.nonce)
            && (t == Err(NonceTooLow) ==> msg.checkNonce && NonceOf(nonces, msg.from) > msg.nonce)
            && (t == Err(InsufficientBalanceForGas) ==> BalanceOf(b, msg.from) < msg.gas * msg.price)
            && (t == Err(GasLimitReached) ==> pool < msg.gas)
            && (t == Err(OutOfGas) ==> msg.gas > MAX_UINT64 || msg.gas < Intrinsic(msg))
            && (t == Err(InsufficientBalance) ==>
                  Intrinsic(msg) <= msg.gas && evm(i, msg, msg.gas - Intrinsic(msg), Bought(b, msg)).insufficient)
  {
  }

  /** What account a gets when a message that used the given gas is settled: the sender the price of
      the gas it did not use, the coinbase the price of the rest. */
  function Due(msg: Msg, used: nat, coinbase: Addr, a: Addr): int {
    (if a == msg.from then (msg.gas - used) * msg.price else 0) + (if a == coinbase then used * msg.price else 0)
  }

  /** Every account's balance after settling; the refund is the counter, or half the gas spent. */
  lemma SettledAt(o: Outcome, msg: Msg, coinbase: Addr, a: Addr)
    requires o.gasLeft <= msg.gas
    ensures var (used, b) := Settled(o, msg, coinbase);
            && BalanceOf(b, a) == BalanceOf(o.balances, a) + Due(msg, used, coinbase, a)
            && used + o.gasLeft + o.refund >= msg.gas && 2 * used >= msg.gas - o.gasLeft && used + o.gasLeft <= msg.gas
            && (used + o.gasLeft + o.refund == msg.gas || used == (msg.gas - o.gasLeft + 1) / 2)
  {
    var refund := Refund(msg.gas - o.gasLeft, o.refund);
    var used := msg.gas - o.gasLeft - refund;
    assert o.gasLeft * msg.price + refund * msg.price == (msg.gas - used) * msg.price by {
      Distribute(o.gasLeft, refund, 0, msg.price);
    }
  }

  /** What one transaction leaves to the next: the gas still in the pool, the balances and the nonces. */
  datatype Book = Book(pool: nat, balances: Balances, nonces: map<Addr, nat>)

  /** The message is applied to b, gives b' and uses the given gas. */
  ghost predicate Advances(i: nat, msg: Msg, evm: Evm, coinbase: Addr, b: Book, b': Book, used: nat) {
    var t := Tried(i, msg, b.pool, b.balances, b.nonces, evm);
    && t.Ok? && t.value.gasLeft <= msg.gas
    && (used, b'.balances) == Settled(t.value, msg, coinbase)
    && b'.nonces == t.value.nonces && b'.pool + used == b.pool
  }

  /** Buying, refunding and paying the coinbase together only move money: what there is more
      afterwards, the virtual machine made. */
  lemma OnlyEvmMakesMoney(b: Balances, o: Outcome, msg: Msg, coinbase: Addr)
    requires o.gasLeft <= msg.gas
    ensures Wealth(Settled(o, msg, coinbase).1) == Wealth(b) + (Wealth(o.balances) - Wealth(Bought(b, msg)))
  {
    var refund := Refund(msg.gas - o.gasLeft, o.refund);
    var used := msg.gas - o.gasLeft - refund;
    var b1 := Paid(o.balances, msg.from, o.gasLeft * msg.price);
    var b2 := Paid(b1, msg.from, refund * msg.price);
    PaidWealth(b, msg.from, -(msg.gas * msg.price));
    PaidWealth(o.balances, msg.from, o.gasLeft * msg.price);
    PaidWealth(b1, msg.from, refund * msg.price);
    PaidWealth(b2, coinbase, used * msg.price);
    Distribute(o.gasLeft, refund, used, msg.price);
  }

  class Transition {
    var pool: nat
    var balances: Balances
    var nonces: map<Addr, nat>
    var gas: nat
    var initialGas: nat

    constructor (limit: nat, balances: Balances, nonces: map<Addr, nat>)
      ensures pool == limit && this.balances == balances && this.nonces == nonces && gas == 0
    {
      pool, this.balances, this.nonces, gas, initialGas := limit, balances, nonces, 0, 0;
    }

    function Books(): Book
      reads this
    {
      Book(pool, balances, nonces)
    }

    function GasUsed(): int
      reads this
    {
      initialGas - gas
    }

    /** preCheck and buyGas. */
    method BuyGas(msg: Msg) returns (r: Result<()>)
      requires gas == 0
      modifies this
      ensures nonces == old(nonces)
      ensures r.Err? ==> pool == old(pool) && balances == old(balances) && gas == 0
      ensures r.Err? ==> forall i, evm :: Tried(i, msg, old(pool), old(balances), nonces, evm) == Err(r.error)
      ensures r.Ok? ==>
              gas == initialGas == msg.gas <= MAX_UINT64 && pool + msg.gas == old(pool) &&
                  balances == Bought(old(balances), msg)
      ensures r.Ok? ==> forall a ::
                BalanceOf(balances, a) == BalanceOf(old(balances), a) - if a == msg.from then msg.gas * msg.price else 0
      ensures r.Ok? ==>
              BalanceOf(old(balances), msg.from) >= msg.gas * msg.price &&
                  (msg.checkNonce ==> NonceOf(nonces, msg.from) == msg.nonce)
    {
      if msg.checkNonce {
        var nonce := NonceOf(nonces, msg.from);
        if nonce < msg.nonce { return Err(NonceTooHigh); }
        if nonce > msg.nonce { return Err(NonceTooLow); }
      }
      if msg.gas > MAX_UINT64 { return Err(OutOfGas); }
      var cost := msg.gas * msg.price;
      if BalanceOf(balances, msg.from) < cost { return Err(InsufficientBalanceForGas); }
      if pool < msg.gas { return Err(GasLimitReached); }
      pool, gas, initialGas := pool - msg.gas, gas + msg.gas, msg.gas;
      balances := Paid(balances, msg.from, -cost);
      return Ok(());
    }

    /** refundGas. */
    method RefundGas(msg: Msg, counter: nat)
      requires gas <= initialGas <= MAX_UINT64
      modifies this
      ensures initialGas == old(initialGas) && nonces == old(nonces)
      ensures var refund := Refund(initialGas - old(gas), counter);
              && refund <= (initialGas - old(gas)) / 2
              && gas == old(gas) + refund <= initialGas && pool == old(pool) + gas
              && balances == Paid(Paid(old(balances), msg.from, old(gas) * msg.price), msg.from, refund * msg.price)
    {
      balances := Paid(balances, msg.from, gas * msg.price);
      var half: nat := GasUsed() / 2;
      var refund := if half < counter then half else counter;
      gas := gas + refund;
      balances := Paid(balances, msg.from, refund * msg.price);
      pool := pool + gas;
    }

    /** TransitionDb. */
    method TransitionDb(i: nat, msg: Msg, evm: Evm, coinbase: Addr) returns (r: Result<(nat, bool)>)
      requires gas == 0 && Frugal(evm)
      modifies this
      ensures var t := Tried(i, msg, old(pool), old(balances), old(nonces), evm);
              && (t.Err? ==> r == Err(t.error))
              && (t.Ok? ==>
                    && t.value.gasLeft <= msg.gas
                    && r == Ok((Settled(t.value, msg, coinbase).0, t.value.failed))
                    && balances == Settled(t.value, msg, coinbase).1 && nonces == t.value.nonces
                    && pool + Settled(t.value, msg, coinbase).0 == old(pool)
                    && forall a :: BalanceOf(balances, a) ==
                                   BalanceOf(t.value.balances, a) + Due(msg, r.value.0, coinbase, a))
    {
      var bought := BuyGas(msg);
      if bought.Err? { return Err(bought.error); }
      var intrinsic := IntrinsicGas(msg.data, msg.creation);
      if intrinsic > MAX_UINT64 || gas < intrinsic { return Err(OutOfGas); }
      gas := gas - intrinsic;
      var outcome := evm(i, msg, gas, balances);
      assert evm(i, msg, gas, balances).gasLeft <= gas;
      if outcome.insufficient { return Err(InsufficientBalance); }
      var used := Settle(outcome, msg, coinbase);
      return Ok((used, outcome.failed));
    }

    /** One transaction of a block, on a fresh gas counter. */
    method Apply(i: nat, msg: Msg, evm: Evm, coinbase: Addr) returns (r: Result<(nat, bool)>)
      requires Frugal(evm)
      modifies this
      ensures var t := Tried(i, msg, old(pool), old(balances), old(nonces), evm);
              && (t.Err? ==> r == Err(t.error))
              && (t.Ok? ==>
                  r.Ok? && r.value.1 == t.value.failed &&
                      Advances(i, msg, evm, coinbase, old(Books()), Books(), r.value.0))
    {
      gas, initialGas := 0, 0;
      r := TransitionDb(i, msg, evm, coinbase);
    }

    /** The last part of TransitionDb: refund the sender and pay the coinbase. */
    method Settle(o: Outcome, msg: Msg, coinbase: Addr) returns (used: nat)
      requires o.gasLeft <= initialGas == msg.gas <= MAX_UINT64
      modifies this
      ensures (used, balances) == Settled(o, msg, coinbase) && nonces == o.nonces && pool + used == old(pool) + msg.gas
      ensures forall a :: BalanceOf(balances, a) == BalanceOf(o.balances, a) + Due(msg, used, coinbase, a)
    {
      gas, balances, nonces := o.gasLeft, o.balances, o.nonces;
      RefundGas(msg, o.refund);
      used := GasUsed();
      balances := Paid(balances, coinbase, used * msg.price);
      forall a
        ensures BalanceOf(balances, a) == BalanceOf(o.balances, a) + Due(msg, used, coinbase, a)
      {
        SettledAt(o, msg, coinbase, a);
      }
    }
  }

  // ---- a block ----

  function GasOf(receipts: seq<Receipt>): nat {
    if receipts == [] then 0 else GasOf(receipts[..|receipts| - 1]) + receipts[|receipts| - 1].gasUsed
  }

  /** Each receipt carries the gas used up to and including its transaction. */
  ghost predicate Cumulative(receipts: seq<Receipt>) {
    forall i :: 0 <= i < |receipts| ==> receipts[i].cumulative == GasOf(receipts[..i + 1])
  }

  function Sum(made: seq<int>): int { if made == [] then 0 else Sum(made[..|made| - 1]) + made[|made| - 1] }

  lemma ReceiptAppended(receipts: seq<Receipt>, x: Receipt)
    requires Cumulative(receipts) && x.cumulative == GasOf(receipts) + x.gasUsed
    ensures Cumulative(receipts + [x]) && GasOf(receipts + [x]) == GasOf(receipts) + x.gasUsed
  {
    var s := receipts + [x];
    assert s[..|s| - 1] == receipts;
    forall i | 0 <= i < |s|
      ensures s[i].cumulative == GasOf(s[..i + 1])
    {
      if i < |receipts| { assert s[..i + 1] == receipts[..i + 1]; } else { assert s[..i + 1] == s; }
    }
  }

  /** The receipt tells the gas the message used, which is at most what it bought, and whether it
      failed; m is what the virtual machine added to the money. */
  ghost predicate Told(i: nat, msg: Msg, evm: Evm, coinbase: Addr, b: Book, b': Book, receipt: Receipt, m: int) {
    && Advances(i, msg, evm, coinbase, b, b', receipt.gasUsed) && receipt.gasUsed <= msg.gas
    && receipt.failed == Tried(i, msg, b.pool, b.balances, b.nonces, evm).value.failed
    && MadeIn(evm, i, msg, Bought(b.balances, msg), m)
  }

  /** The virtual machine, given balances b, added m to the money there is. */
  ghost predicate MadeIn(evm: Evm, i: nat, msg: Msg, b: Balances, m: int) {
    msg.gas >= Intrinsic(msg) && m == Wealth(evm(i, msg, msg.gas - Intrinsic(msg), b).balances) - Wealth(b)
  }

  ghost predicate ToldAt(msgs: seq<Msg>, evm: Evm, coinbase: Addr, books: seq<Book>, receipts: seq<Receipt>,
                         made: seq<int>, i: nat) {
    && i < |msgs| && i + 1 < |books| && i < |receipts| && i < |made|
    && Told(i, msgs[i], evm, coinbase, books[i], books[i + 1], receipts[i], made[i])
  }

  /** The first transactions of a block, one after the other: books[i] is what transaction i finds. */
  ghost predicate History(msgs: seq<Msg>, evm: Evm, coinbase: Addr, books: seq<Book>, receipts: seq<Receipt>,
                          made: seq<int>) {
    && |receipts| == |made| <= |msgs| && |books| == |made| + 1
    && forall i: nat :: i < |made| ==> ToldAt(msgs, evm, coinbase, books, receipts, made, i)
  }

  /** Gas and money both add up. */
  ghost predicate Accounts(first: Book, last: Book, receipts: seq<Receipt>, made: seq<int>) {
    last.pool + GasOf(receipts) == first.pool && Cumulative(receipts) &&
        Wealth(last.balances) == Wealth(first.balances) + Sum(made)
  }

  ghost predicate Fails(i: nat, msg: Msg, evm: Evm, b: Book, error: Error) {
    Tried(i, msg, b.pool, b.balances, b.nonces, evm) == Err(error)
  }

  lemma ToldOf(i: nat, msg: Msg, evm: Evm, coinbase: Addr, b: Book, b': Book, receipt: Receipt) returns (m: int)
    requires Advances(i, msg, evm, coinbase, b, b', receipt.gasUsed)
    requires receipt.failed == Tried(i, msg, b.pool, b.balances, b.nonces, evm).value.failed
    ensures Told(i, msg, evm, coinbase, b, b', receipt, m) && Wealth(b'.balances) == Wealth(b.balances) + m
  {
    var o := Tried(i, msg, b.pool, b.balances, b.nonces, evm).value;
    m := Wealth(o.balances) - Wealth(Bought(b.balances, msg));
    OnlyEvmMakesMoney(b.balances, o, msg, coinbase);
  }

  lemma HistoryMore(msgs: seq<Msg>, evm: Evm, coinbase: Addr, books: seq<Book>, receipts: seq<Receipt>, made: seq<int>,
                    b': Book, receipt: Receipt, m: int)
    requires History(msgs, evm, coinbase, books, receipts, made) && |made| < |msgs|
    requires Told(|made|, msgs[|made|], evm, coinbase, books[|made|], b', receipt, m)
    ensures History(msgs, evm, coinbase, books + [b'], receipts + [receipt], made + [m])
  {
    var bs, rs, ms := books + [b'], receipts + [receipt], made + [m];
    forall i: nat | i < |ms|
      ensures ToldAt(msgs, evm, coinbase, bs, rs, ms, i)
    {
      if i < |made| { assert ToldAt(msgs, evm, coinbase, books, receipts, made, i); }
    }
  }

  lemma AccountsMore(first: Book, last: Book, receipts: seq<Receipt>, made: seq<int>, b': Book, receipt: Receipt,
                     m: int)
    requires Accounts(first, last, receipts, made) && receipt.cumulative == GasOf(receipts) + receipt.gasUsed
    requires b'.pool + receipt.gasUsed == last.pool && Wealth(b'.balances) == Wealth(last.balances) + m
    ensures Accounts(first, b', receipts + [receipt], made + [m])
  {
    ReceiptAppended(receipts, receipt);
    assert (made + [m])[..|made|] == made;
  }

  // ---- every account over a block ----

  /** What the virtual machine, given balances b, added to account a. */
  ghost function Given(evm: Evm, i: nat, msg: Msg, b: Balances, a: Addr): int
    requires Intrinsic(msg) <= msg.gas
  {
    BalanceOf(evm(i, msg, msg.gas - Intrinsic(msg), b).balances, a) - BalanceOf(b, a)
  }

  /** The fees of the first k messages that account a gets as coinbase, less those it pays as sender. */
  function Fees(msgs: seq<Msg>, receipts: seq<Receipt>, coinbase: Addr, k: nat, a: Addr): int
    requires k <= |msgs| && k <= |receipts|
  {
    if k == 0 then 0 else
      var fee := receipts[k - 1].gasUsed * msgs[k - 1].price;
      Fees(msgs, receipts, coinbase, k - 1, a) +
          (if a == coinbase then fee else 0) - (if a == msgs[k - 1].from then fee else 0)
  }

  /** What the virtual machine gave account a during the first k messages. */
  ghost function AllGiven(msgs: seq<Msg>, evm: Evm, books: seq<Book>, k: nat, a: Addr): int
    requires k <= |msgs| && k <= |books| && forall i :: 0 <= i < k ==> Intrinsic(msgs[i]) <= msgs[i].gas
  {
    if k == 0 then 0 else
      AllGiven(msgs, evm, books, k - 1, a)
      + Given(evm, k - 1, msgs[k - 1], Bought(books[k - 1].balances, msgs[k - 1]), a)
  }

  lemma AdvancesAt(i: nat, msg: Msg, evm: Evm, coinbase: Addr, b: Book, b': Book, used: nat, a: Addr)
    requires Advances(i, msg, evm, coinbase, b, b', used)
    ensures Intrinsic(msg) <= msg.gas
    ensures BalanceOf(b'.balances, a) ==
            BalanceOf(b.balances, a) + Given(evm, i, msg, Bought(b.balances, msg), a)
            + (if a == coinbase then used * msg.price else 0) - (if a == msg.from then used * msg.price else 0)
  {
    var o := Tried(i, msg, b.pool, b.balances, b.nonces, evm).value;
    SettledAt(o, msg, coinbase, a);
    DueAt(b.balances, msg, used, coinbase, a);
  }

  /** Buying the gas and being settled leaves the sender without the fee. */
  lemma DueAt(b: Balances, msg: Msg, used: nat, coinbase: Addr, a: Addr)
    ensures BalanceOf(Bought(b, msg), a) + Due(msg, used, coinbase, a) ==
            BalanceOf(b, a) + (if a == coinbase then used * msg.price else 0)
            - (if a == msg.from then used * msg.price else 0)
  {
    if a == msg.from { assert msg.gas * msg.price == (msg.gas - used) * msg.price + used * msg.price; }
  }

  /** Over a block every account has what it had, what the virtual machine gave it, and as coinbase
      the fee of every message; the senders pay their own. */
  lemma {:induction false} EveryBalance(msgs: seq<Msg>, evm: Evm, coinbase: Addr, books: seq<Book>,
                                        receipts: seq<Receipt>, made: seq<int>, k: nat, a: Addr)
    requires History(msgs, evm, coinbase, books, receipts, made) && k <= |made|
    ensures forall i :: 0 <= i < k ==> Intrinsic(msgs[i]) <= msgs[i].gas
    ensures BalanceOf(books[k].balances, a) ==
            BalanceOf(books[0].balances, a) + AllGiven(msgs, evm, books, k, a) + Fees(msgs, receipts, coinbase, k, a)
  {
    if k > 0 {
      EveryBalance(msgs, evm, coinbase, books, receipts, made, k - 1, a);
      assert ToldAt(msgs, evm, coinbase, books, receipts, made, k - 1);
      AdvancesAt(k - 1, msgs[k - 1], evm, coinbase, books[k - 1], books[k - 1 + 1], receipts[k - 1].gasUsed, a);
    }
  }

  /** Where a block stands before transaction |made|. */
  ghost predicate Underway(msgs: seq<Msg>, evm: Evm, coinbase: Addr, books: seq<Book>, receipts: seq<Receipt>,
                           made: seq<int>, total: nat) {
    && History(msgs, evm, coinbase, books, receipts, made)
    && Accounts(books[0], books[|made|], receipts, made) && total == GasOf(receipts)
  }

  lemma OneMore(msgs: seq<Msg>, evm: Evm, coinbase: Addr, books: seq<Book>, receipts: seq<Receipt>, made: seq<int>,
                total: nat, b': Book, receipt: Receipt)
    returns (m: int)
    requires Underway(msgs, evm, coinbase, books, receipts, made, total) && |made| < |msgs|
    requires Advances(|made|, msgs[|made|], evm, coinbase, books[|made|], b', receipt.gasUsed)
    requires receipt.failed ==
             Tried(|made|, msgs[|made|], books[|made|].pool, books[|made|].balances, books[|made|].nonces,
                   evm).value.failed
    requires receipt.cumulative == total + receipt.gasUsed
    ensures Underway(msgs, evm, coinbase, books + [b'], receipts + [receipt], made + [m], receipt.cumulative)
  {
    var i := |made|;
    m := ToldOf(i, msgs[i], evm, coinbase, books[i], b', receipt);
    HistoryMore(msgs, evm, coinbase, books, receipts, made, b', receipt, m);
    AccountsMore(books[0], books[i], receipts, made, b', receipt, m);
    ReceiptAppended(receipts, receipt);
  }

  lemma EveryBalances(msgs: seq<Msg>, evm: Evm, coinbase: Addr, books: seq<Book>, receipts: seq<Receipt>,
                      made: seq<int>, k: nat)
    requires History(msgs, evm, coinbase, books, receipts, made) && k == |made|
    ensures forall i :: 0 <= i < k ==> Intrinsic(msgs[i]) <= msgs[i].gas
    ensures forall a :: BalanceOf(books[k].balances, a) ==
                        BalanceOf(books[0].balances, a) + AllGiven(msgs, evm, books, k, a)
                        + Fees(msgs, receipts, coinbase, k, a)
  {
    EveryBalance(msgs, evm, coinbase, books, receipts, made, k, 0);
    forall a
      ensures BalanceOf(books[k].balances, a) ==
              BalanceOf(books[0].balances, a) + AllGiven(msgs, evm, books, k, a)
              + Fees(msgs, receipts, coinbase, k, a)
    {
      EveryBalance(msgs, evm, coinbase, books, receipts, made, k, a);
    }
  }

  /** Process, for a block of ordinary transactions. */
  method Process(msgs: seq<Msg>, limit: nat, balances: Balances, nonces: map<Addr, nat>, evm: Evm, coinbase: Addr)
    returns (r: Result<(seq<Receipt>, nat)>, end: Book, ghost books: seq<Book>, ghost receipts: seq<Receipt>,
             ghost made: seq<int>)
    requires Frugal(evm)
    ensures History(msgs, evm, coinbase, books, receipts, made) && books[0] == Book(limit, balances, nonces)
    ensures Accounts(books[0], books[|made|], receipts, made)
    ensures forall i :: 0 <= i < |made| ==> Intrinsic(msgs[i]) <= msgs[i].gas
    ensures forall a :: BalanceOf(books[|made|].balances, a) ==
                        BalanceOf(balances, a) + AllGiven(msgs, evm, books, |made|, a)
                        + Fees(msgs, receipts, coinbase, |made|, a)
    ensures r.Err? ==> |made| < |msgs| && Fails(|made|, msgs[|made|], evm, books[|made|], r.error)
    ensures r.Ok? ==> |made| == |msgs| && end == books[|msgs|] && r.value == (receipts, GasOf(receipts))
  {
    r, end, books, receipts, made := ApplyAll(msgs, limit, balances, nonces, evm, coinbase);
    EveryBalances(msgs, evm, coinbase, books, receipts, made, |made|);
  }

  /** The loop of Process. */
  method ApplyAll(msgs: seq<Msg>, limit: nat, balances: Balances, nonces: map<Addr, nat>, evm: Evm, coinbase: Addr)
    returns (r: Result<(seq<Receipt>, nat)>, end: Book, ghost books: seq<Book>, ghost receipts: seq<Receipt>,
             ghost made: seq<int>)
    requires Frugal(evm)
    ensures History(msgs, evm, coinbase, books, receipts, made) && books[0] == Book(limit, balances, nonces)
    ensures Accounts(books[0], books[|made|], receipts, made)
    ensures r.Err? ==> |made| < |msgs| && Fails(|made|, msgs[|made|], evm, books[|made|], r.error)
    ensures r.Ok? ==> |made| == |msgs| && end == books[|msgs|] && r.value == (receipts, GasOf(receipts))
  {
    var st := new Transition(limit, balances, nonces);
    var total: nat, rs: seq<Receipt> := 0, [];
    made, books := [], [st.Books()];
    for i := 0 to |msgs|
      invariant Underway(msgs, evm, coinbase, books, rs, made, total) && |made| == i && fresh(st)
      invariant books[0] == Book(limit, balances, nonces) && books[i] == st.Books()
    {
      var t := st.Apply(i, msgs[i], evm, coinbase);
      if t.Err? { return Err(t.error), st.Books(), books, rs, made; }
      var receipt := Receipt(t.value.0, total + t.value.0, t.value.1);
      ghost var m := OneMore(msgs, evm, coinbase, books, rs, made, total, st.Books(), receipt);
      total, rs, made, books := total + t.value.0, rs + [receipt], made + [m], books + [st.Books()];
    }
    return Ok((rs, total)), st.Books(), books, rs, made;
  }
}
