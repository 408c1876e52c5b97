/** The request distributor of chain/les/distributor.go: a queue of requests in creation order, a
    loop that hands them to peers, and the single wake-up signal that drives it. */
module Distributor {
  import opened PeerScan

  // ---- the queue ----

  ghost predicate Sorted(q: seq<Req>) { forall i, j :: 0 <= i < j < |q| ==> q[i].order <= q[j].order }

  /** No order has been given out beyond the last one. */
  ghost predicate Given(q: seq<Req>, last: nat) { forall x :: x in q ==> x.order <= last }

  /** The queue without its first occurrence of r. */
  function Without(q: seq<Req>, r: Req): seq<Req> {
    if q == [] then [] else if q[0] == r then q[1..] else [q[0]] + Without(q[1..], r)
  }

  lemma {:induction false} WithoutAt(q: seq<Req>, r: Req) returns (k: nat)
    requires r in q
    ensures k < |q| && q[k] == r && Without(q, r) == q[..k] + q[k + 1..]
  {
    if q[0] == r {
      k := 0;
    } else {
      var m := WithoutAt(q[1..], r);
      k := m + 1;
      assert q[..k] == [q[0]] + q[1..][..m] && q[k + 1..] == q[1..][m + 1..];
    }
  }

  lemma WithoutFacts(q: seq<Req>, r: Req)
    requires r in q
    ensures multiset(q) == multiset(Without(q, r)) + multiset{r} && |Without(q, r)| == |q| - 1
    ensures Sorted(q) ==> Sorted(Without(q, r))
    ensures forall x :: x in Without(q, r) ==> x in q
  {
    var k := WithoutAt(q, r);
    CutOne(q, k);
    CutSorted(q, k);
  }

  lemma CutOne(q: seq<Req>, k: nat)
    requires k < |q|
    ensures multiset(q) == multiset(q[..k] + q[k + 1..]) + multiset{q[k]}
  {
    assert q == q[..k] + [q[k]] + q[k + 1..];
  }

  lemma CutSorted(q: seq<Req>, k: nat)
    requires k < |q|
    ensures Sorted(q) ==> Sorted(q[..k] + q[k + 1..])
  {
    var s := q[..k] + q[k + 1..];
    assert forall i :: 0 <= i < |s| ==> s[i] == if i < k then q[i] else q[i + 1];
  }

  /** Where queue puts a request: behind all of lower order. */
  method InsertPoint(q: seq<Req>, r: Req) returns (k: nat)
    requires Sorted(q)
    ensures k <= |q| && Sorted(q[..k] + [r] + q[k..])
    ensures (forall i :: 0 <= i < k ==> q[i].order < r.order) && (forall i :: k <= i < |q| ==> r.order <= q[i].order)
  {
    if |q| == 0 || r.order > q[|q| - 1].order {
      k := |q|;
    } else {
      k := 0;
      while q[k].order < r.order
        invariant k < |q| && forall i :: 0 <= i < k ==> q[i].order < r.order
        decreases |q| - k
      {
        k := k + 1;
      }
    }
    InsertSorted(q, r, k);
  }

  lemma InsertSorted(q: seq<Req>, r: Req, k: nat)
    requires Sorted(q) && k <= |q|
    requires (forall i :: 0 <= i < k ==> q[i].order <= r.order) && (forall i :: k <= i < |q| ==> r.order <= q[i].order)
    ensures Sorted(q[..k] + [r] + q[k..])
  {
    var s := q[..k] + [r] + q[k..];
    assert forall i :: 0 <= i < |s| ==> s[i] == if i < k then q[i] else if i == k then r else q[i - 1];
  }

  /** q' is q with r put behind all requests of lower order and before all others. */
  ghost predicate Queued(q: seq<Req>, r: Req, q': seq<Req>) {
    exists k :: 0 <= k <= |q| && Splits(q, r.order, k) && q' == q[..k] + [r] + q[k..]
  }

  ghost predicate Splits(q: seq<Req>, order: nat, k: nat)
    requires k <= |q|
  {
    (forall i :: 0 <= i < k ==> q[i].order < order) && (forall i :: k <= i < |q| ==> order <= q[i].order)
  }

  const CAPACITY: nat := 2

  /** distMaxWait, in nanoseconds. */
  const MAX_WAIT: nat := 10_000_000

  class RequestDistributor {
    var queue: seq<Req>
    var lastOrder: nat
    var nextSent: bool
    var signals: nat     // in the channel
    var timers: nat      // goroutines that will send one after a while
    var received: bool   // taken from the channel by the loop, which does not have the lock yet

    /** The wake-ups under way. */
    function Outstanding(): nat
      reads this
    {
      signals + timers + if received then 1 else 0
    }

    /** What holds whenever the lock is free. */
    ghost predicate Valid()
      reads this
    {
      && Sorted(queue) && Given(queue, lastOrder)
      && Outstanding() == (if nextSent then 1 else 0)
      && (queue != [] ==> Outstanding() == 1)
    }

    constructor ()
      ensures Valid() && queue == [] && lastOrder == 0 && Outstanding() == 0
    {
      queue, lastOrder, nextSent, signals, timers, received := [], 0, false, 0, 0, false;
    }

    /** queue: a new request gets the next order and goes to the back, a request sent before keeps
        the order it was given then and goes before all later ones. */
    method Queue(r0: Req) returns (r: Req)
      requires Valid() && r0.order <= lastOrder
      modifies this
      ensures Valid() && r.id == r0.id
      ensures r0.order == 0 ==> r.order == old(lastOrder) + 1 == lastOrder && queue == old(queue) + [r]
      ensures r0.order > 0 ==> r == r0 && lastOrder == old(lastOrder) && Queued(old(queue), r, queue)
      ensures Outstanding() == 1 && timers == old(timers) && received == old(received)
    {
      r := r0;
      if r.order == 0 {
        lastOrder := lastOrder + 1;
        r := r.(order := lastOrder);
      }
      var k := InsertPoint(queue, r);
      assert Splits(queue, r.order, k);
      assert k < |queue| ==> queue[k] in queue;
      queue := queue[..k] + [r] + queue[k..];
      if !nextSent {
        nextSent := true;
        assert signals < CAPACITY;
        signals := signals + 1;
      }
    }

    /** cancel. */
    method Cancel(r: Req) returns (ok: bool)
      requires Valid()
      modifies this`queue
      ensures Valid() && (ok <==> r in old(queue)) && queue == Without(old(queue), r)
    {
      ok := r in queue;
      if ok {
        WithoutFacts(queue, r);
      } else {
        WithoutNone(queue, r);
      }
      queue := Without(queue, r);
    }

    /** A timer runs out and sends its signal, which never blocks. */
    method Fire()
      requires Valid() && timers > 0
      modifies this`timers, this`signals
      ensures Valid() && queue == old(queue) && signals == old(signals) + 1 <= CAPACITY
    {
      timers := timers - 1;
      signals := signals + 1;
    }

    /** The loop takes a signal. */
    method Receive()
      requires Valid() && signals > 0 && !received
      modifies this`signals, this`received
      ensures Valid() && received
    {
      signals, received := signals - 1, true;
    }

    /** The body of loop, under the lock: sends what can be sent at once and, if anything is left,
        sets a timer that runs for delay. nets(i) is what the peers answer to the i-th scan, scans[i] what that scan
        dropped and left. */
    method Wake(nets: nat -> Net)
      returns (sent: seq<Offer>, dropped: seq<Req>, delay: nat, ghost scans: seq<ScanOf>)
      requires Valid() && received
      modifies this
      ensures Valid() && !received && (queue == [] <==> !nextSent)
      ensures Ledger(old(queue), queue, sent, dropped) && AllWait(nets(|sent|), queue)
      ensures Rounds(nets, old(queue), scans, sent) && |scans| == |sent| + 1 && scans[|sent|].left == queue
      ensures dropped == AllGone(scans)
      ensures queue != [] ==>
              exists o :: Soonest(nets(|sent|), queue, o) && delay == if o.wait > 10_000_000 then 10_000_000 else o.wait
    {
      received, nextSent, delay := false, false, 0;
      var soonest;
      ghost var before := queue;
      queue, sent, dropped, soonest, scans := Drain(nets, queue);
      LedgerKeeps(before, queue, sent, dropped, lastOrder);
      if soonest.Some? {
        delay := if soonest.value.wait > MAX_WAIT then MAX_WAIT else soonest.value.wait;
        nextSent, timers := true, 1;
      }
    }
  }

  /** Every request of q0 is still queued, sent or dropped, and just one of these. */
  ghost predicate Ledger(q0: seq<Req>, q: seq<Req>, sent: seq<Offer>, dropped: seq<Req>) {
    multiset(q0) == multiset(q) + multiset(Reqs(sent)) + multiset(dropped)
  }

  /** What one scan did to the queue: the requests it dropped from the front, and the rest. */
  datatype ScanOf = ScanOf(gone: seq<Req>, left: seq<Req>)

  /** The scan drops just the requests at the front that no peer can serve. */
  ghost predicate Scanned(net: Net, q: seq<Req>, s: ScanOf) {
    q == s.gone + s.left && (forall r :: r in s.gone ==> !Servable(net, r)) &&
        (s.left == [] || Servable(net, s.left[0]))
  }

  /** The queue scan i meets: the one at the start, or what scan i - 1 left without what was sent. */
  ghost function Met(q0: seq<Req>, scans: seq<ScanOf>, sent: seq<Offer>, i: nat): seq<Req>
    requires i <= |scans| && i <= |sent|
  {
    if i == 0 then q0 else Without(scans[i - 1].left, sent[i - 1].req)
  }

  ghost predicate ScanAt(nets: nat -> Net, q0: seq<Req>, scans: seq<ScanOf>, sent: seq<Offer>, i: nat) {
    i < |scans| && i <= |sent| && Scanned(nets(i), Met(q0, scans, sent, i), scans[i])
  }

  ghost predicate SendAt(nets: nat -> Net, scans: seq<ScanOf>, sent: seq<Offer>, i: nat) {
    i < |scans| && i < |sent| && sent[i].wait == 0 && IsOffer(nets(i), scans[i].left, sent[i])
  }

  /** The scans one after the other. Each send is an immediate offer of the scan before it. */
  ghost predicate Rounds(nets: nat -> Net, q0: seq<Req>, scans: seq<ScanOf>, sent: seq<Offer>) {
    && |sent| <= |scans| <= |sent| + 1
    && (forall i: nat :: i < |scans| ==> ScanAt(nets, q0, scans, sent, i))
    && (forall i: nat :: i < |sent| ==> SendAt(nets, scans, sent, i))
  }

  function AllGone(scans: seq<ScanOf>): seq<Req> {
    if scans == [] then [] else AllGone(scans[..|scans| - 1]) + scans[|scans| - 1].gone
  }

  lemma RoundsScan(nets: nat -> Net, q0: seq<Req>, scans: seq<ScanOf>, sent: seq<Offer>, s: ScanOf)
    requires Rounds(nets, q0, scans, sent) && |scans| == |sent|
    requires Scanned(nets(|sent|), Met(q0, scans, sent, |sent|), s)
    ensures Rounds(nets, q0, scans + [s], sent) && AllGone(scans + [s]) == AllGone(scans) + s.gone
  {
    var all := scans + [s];
    assert all[..|all| - 1] == scans;
    forall i: nat | i < |all|
      ensures ScanAt(nets, q0, all, sent, i)
    {
      assert i < |scans| ==> ScanAt(nets, q0, scans, sent, i);
    }
    forall i: nat | i < |sent|
      ensures SendAt(nets, all, sent, i)
    {
      assert SendAt(nets, scans, sent, i);
    }
  }

  lemma RoundsSend(nets: nat -> Net, q0: seq<Req>, scans: seq<ScanOf>, sent: seq<Offer>, o: Offer)
    requires Rounds(nets, q0, scans, sent) && |scans| == |sent| + 1 && o.wait == 0
    requires IsOffer(nets(|sent|), scans[|sent|].left, o)
    ensures Rounds(nets, q0, scans, sent + [o])
  {
    forall i: nat | i < |scans|
      ensures ScanAt(nets, q0, scans, sent + [o], i)
    {
      assert ScanAt(nets, q0, scans, sent, i);
    }
    forall i: nat | i < |sent + [o]|
      ensures SendAt(nets, scans, sent + [o], i)
    {
      assert i < |sent| ==> SendAt(nets, scans, sent, i);
    }
  }

  /** Nothing queued can be sent at once. */
  ghost predicate AllWait(net: Net, q: seq<Req>) { forall o :: IsOffer(net, q, o) ==> o.wait > 0 }

  /** No offer has to wait less. */
  ghost predicate Soonest(net: Net, q: seq<Req>, o: Offer) {
    IsOffer(net, q, o) && forall x :: IsOffer(net, q, x) ==> o.wait <= x.wait
  }

  /** Sends as long as some peer can take a request at once; soonest is the offer to wait for. */
  method Drain(nets: nat -> Net, q0: seq<Req>)
    returns (q: seq<Req>, sent: seq<Offer>, dropped: seq<Req>, soonest: Option<Offer>, ghost scans: seq<ScanOf>)
    requires Sorted(q0)
    ensures (soonest.Some? <==> q != []) && (soonest.Some? ==> Soonest(nets(|sent|), q, soonest.value))
    ensures Sorted(q) && Ledger(q0, q, sent, dropped) && AllWait(nets(|sent|), q)
    ensures Rounds(nets, q0, scans, sent) && |scans| == |sent| + 1 && scans[|sent|].left == q
    ensures dropped == AllGone(scans)
  {
    q, sent, dropped, scans := q0, [], [], [];
    while true
      invariant Sorted(q) && Ledger(q0, q, sent, dropped)
      invariant Rounds(nets, q0, scans, sent) && |scans| == |sent| && q == Met(q0, scans, sent, |sent|)
      invariant dropped == AllGone(scans)
      decreases |q|
    {
      ghost var before := q;
      var gone, offer;
      q, gone, offer := NextRequest(nets(|sent|), q);
      LedgerDrops(q0, before, sent, dropped, gone, q);
      RoundsScan(nets, q0, scans, sent, ScanOf(gone, q));
      dropped, scans := dropped + gone, scans + [ScanOf(gone, q)];
      if offer.None? || offer.value.wait > 0 {
        return q, sent, dropped, offer, scans;
      }
      LedgerSends(q0, q, sent, dropped, offer.value);
      RoundsSend(nets, q0, scans, sent, offer.value);
      q, sent := Without(q, offer.value.req), sent + [offer.value];
    }
  }

  lemma LedgerKeeps(q0: seq<Req>, q: seq<Req>, sent: seq<Offer>, dropped: seq<Req>, last: nat)
    requires Ledger(q0, q, sent, dropped) && Given(q0, last)
    ensures Given(q, last)
  {
    forall x | x in q
      ensures x in q0
    {
      assert x in multiset(q);
      assert x in multiset(q0);
    }
  }

  lemma LedgerDrops(q0: seq<Req>, before: seq<Req>, sent: seq<Offer>, dropped: seq<Req>, gone: seq<Req>, q: seq<Req>)
    requires Ledger(q0, before, sent, dropped) && before == gone + q && Sorted(before)
    ensures Ledger(q0, q, sent, dropped + gone) && Sorted(q)
  {
    assert q == before[|gone|..];
  }

  lemma LedgerSends(q0: seq<Req>, q: seq<Req>, sent: seq<Offer>, dropped: seq<Req>, o: Offer)
    requires Ledger(q0, q, sent, dropped) && o.req in q && Sorted(q)
    ensures Ledger(q0, Without(q, o.req), sent + [o], dropped) && Sorted(Without(q, o.req)) && |Without(q, o.req)| < |q|
  {
    WithoutFacts(q, o.req);
    assert Reqs(sent + [o]) == Reqs(sent) + [o.req];
  }

  function Reqs(offers: seq<Offer>): seq<Req> { seq(|offers|, i requires 0 <= i < |offers| => offers[i].req) }

  lemma {:induction false} WithoutNone(q: seq<Req>, r: Req)
    requires r !in q
    ensures Without(q, r) == q
  {
    if q != [] { WithoutNone(q[1..], r); }
  }
}
