/** nextRequest of chain/les/distributor.go: the scan of the request queue for something to send. */
module PeerScan {
  type Peer = nat

  datatype Option<T> = None | Some(value: T)

  /** A request; order 0 means that it has not been queued before. */
  datatype Req = Req(id: nat, order: nat)

  /** What the peers answer while one scan of the queue is under way. */
  datatype Net = Net(peers: set<Peer>, canQueue: Peer -> bool, canSend: (Req, Peer) -> bool, wait: (Req, Peer) -> nat)

  predicate Suits(net: Net, r: Req, p: Peer) { net.canQueue(p) && net.canSend(r, p) }

  ghost predicate Servable(net: Net, r: Req) { exists p :: p in net.peers && Suits(net, r, p) }

  /** The first of the first n requests that suits the peer, or n. */
  function First(net: Net, q: seq<Req>, p: Peer, n: nat): (i: nat)
    requires n <= |q|
    ensures i <= n && (i < n ==> Suits(net, q[i], p)) && forall j :: 0 <= j < i ==> !Suits(net, q[j], p)
  {
    if n == 0 then 0 else
      var i := First(net, q, p, n - 1);
      if i < n - 1 || Suits(net, q[n - 1], p) then i else n
  }

  /** A peer with the request it would get and the time it would have to wait. */
  datatype Offer = Offer(peer: Peer, req: Req, wait: nat)

  ghost predicate IsOffer(net: Net, q: seq<Req>, o: Offer) {
    var i := First(net, q, o.peer, |q|);
    o.peer in net.peers && i < |q| && o.req == q[i] && o.wait == net.wait(o.req, o.peer)
  }

  /** An offer is the earliest request the peer can be sent, if it can queue at all. */
  lemma OfferIff(net: Net, q: seq<Req>, o: Offer)
    ensures IsOffer(net, q, o) <==>
            && o.peer in net.peers && net.canQueue(o.peer) && o.wait == net.wait(o.req, o.peer)
            && exists i :: 0 <= i < |q| && q[i] == o.req && net.canSend(q[i], o.peer) &&
                           forall j :: 0 <= j < i ==> !net.canSend(q[j], o.peer)
  {
    var i := First(net, q, o.peer, |q|);
    if o.peer in net.peers && net.canQueue(o.peer) {
      if k :| 0 <= k < |q| && q[k] == o.req && net.canSend(q[k], o.peer) &&
              forall j :: 0 <= j < k ==> !net.canSend(q[j], o.peer) {
        assert Suits(net, q[k], o.peer);
        assert i == k;
      }
      if i < |q| { assert forall j :: 0 <= j < i ==> !Suits(net, q[j], o.peer); }
    }
  }

  lemma ServableIff(net: Net, r: Req)
    ensures Servable(net, r) <==> exists p :: p in net.peers && net.canQueue(p) && net.canSend(r, p)
  {
  }

  /** The scan, at request e, with the peers in left still to be asked about it. */
  ghost predicate Scan(net: Net, q: seq<Req>, e: nat, left: set<Peer>, checked: set<Peer>, ready: map<Peer, Req>,
                       best: Option<Offer>)
    requires e < |q|
  {
    && (forall p :: p in net.peers ==> (p in checked <==> Seen(net, q, e, left, p) < Upto(e, left, p)))
    && (forall p :: p in checked ==> p in net.peers)
    && Books(net, q, e, left, checked, ready, best)
  }

  function Upto(e: nat, left: set<Peer>, p: Peer): nat { if p in left then e else e + 1 }

  ghost function Seen(net: Net, q: seq<Req>, e: nat, left: set<Peer>, p: Peer): nat
    requires e < |q|
  {
    First(net, q, p, Upto(e, left, p))
  }

  /** Every checked peer is ready, or waits at least as long as the best offer. */
  ghost predicate Books(net: Net, q: seq<Req>, e: nat, left: set<Peer>, checked: set<Peer>, ready: map<Peer, Req>,
                        best: Option<Offer>)
    requires e < |q|
  {
    && (forall p :: p in ready ==> p in checked)
    && (forall p :: p in checked ==> Entry(net, q, Seen(net, q, e, left, p), p, ready, best))
    && (best.Some? ==>
        best.value.peer in checked && best.value.peer !in ready &&
            Holds(net, q, Seen(net, q, e, left, best.value.peer), best.value))
  }

  ghost predicate Entry(net: Net, q: seq<Req>, i: nat, p: Peer, ready: map<Peer, Req>, best: Option<Offer>) {
    && i < |q|
    && (p in ready <==> net.wait(q[i], p) == 0)
    && (p in ready ==> ready[p] == q[i])
    && (p !in ready ==> best.Some? && best.value.wait <= net.wait(q[i], p))
  }

  ghost predicate Holds(net: Net, q: seq<Req>, i: nat, o: Offer) {
    i < |q| && o.req == q[i] && o.wait == net.wait(q[i], o.peer) && o.wait > 0
  }

  /** One peer is asked about one request. */
  method Ask(net: Net, q: seq<Req>, e: nat, ghost left: set<Peer>, p: Peer, checked: set<Peer>, ready: map<Peer, Req>,
             best: Option<Offer>)
    returns (checked': set<Peer>, ready': map<Peer, Req>, best': Option<Offer>, fits: bool)
    requires e < |q| && p in left && p in net.peers && Scan(net, q, e, left, checked, ready, best)
    ensures Scan(net, q, e, left - {p}, checked', ready', best')
    ensures fits <==> p !in checked && Suits(net, q[e], p)
    ensures checked' == if fits then checked + {p} else checked
  {
    checked', ready', best', fits := checked, ready, best, false;
    if p !in checked && Suits(net, q[e], p) {
      fits := true;
      var wait := net.wait(q[e], p);
      if wait == 0 {
        ready' := ready[p := q[e]];
      } else if best.None? || wait < best.value.wait {
        best' := Some(Offer(p, q[e], wait));
      }
      checked' := checked + {p};
    }
    Asked(net, q, e, left, p, checked, ready, best, checked', ready', best');
  }

  lemma Asked(net: Net, q: seq<Req>, e: nat, left: set<Peer>, p: Peer, checked: set<Peer>, ready: map<Peer, Req>,
              best: Option<Offer>, checked': set<Peer>, ready': map<Peer, Req>, best': Option<Offer>)
    requires e < |q| && p in left && p in net.peers && Scan(net, q, e, left, checked, ready, best)
    requires var fits := p !in checked && Suits(net, q[e], p); var w := net.wait(q[e], p);
             && checked' == (if fits then checked + {p} else checked)
             && ready' == (if fits && w == 0 then ready[p := q[e]] else ready)
             && best' == (if fits && w > 0 && (best.None? || w < best.value.wait) then Some(Offer(p, q[e], w))
                else best)
    ensures Scan(net, q, e, left - {p}, checked', ready', best')
  {
    SeenMoves(net, q, e, left, p, checked, ready, best);
    AskedEntries(net, q, e, left, p, checked, ready, best, checked', ready', best');
    assert best' != best ==> best'.value.peer == p && Seen(net, q, e, left - {p}, p) == e;
  }

  /** Asking p moves only p's mark. */
  lemma SeenMoves(net: Net, q: seq<Req>, e: nat, left: set<Peer>, p: Peer, checked: set<Peer>, ready: map<Peer, Req>,
                  best: Option<Offer>)
    requires e < |q| && p in left && p in net.peers && Scan(net, q, e, left, checked, ready, best)
    ensures forall x :: x != p ==> Upto(e, left - {p}, x) == Upto(e, left, x)
    ensures forall x :: x != p ==> Seen(net, q, e, left - {p}, x) == Seen(net, q, e, left, x)
    ensures p in checked ==> Seen(net, q, e, left - {p}, p) == Seen(net, q, e, left, p) < e
    ensures p !in checked ==> Seen(net, q, e, left - {p}, p) == if Suits(net, q[e], p) then e else e + 1
  {
    assert Seen(net, q, e, left - {p}, p) == First(net, q, p, e + 1) && Seen(net, q, e, left, p) == First(net, q, p, e);
  }

  lemma AskedEntries(net: Net, q: seq<Req>, e: nat, left: set<Peer>, p: Peer, checked: set<Peer>, ready: map<Peer, Req>,
                     best: Option<Offer>, checked': set<Peer>, ready': map<Peer, Req>, best': Option<Offer>)
    requires e < |q| && p in left && p in net.peers && Scan(net, q, e, left, checked, ready, best)
    requires var fits := p !in checked && Suits(net, q[e], p); var w := net.wait(q[e], p);
             && checked' == (if fits then checked + {p} else checked)
             && ready' == (if fits && w == 0 then ready[p := q[e]] else ready)
             && best' == (if fits && w > 0 && (best.None? || w < best.value.wait) then Some(Offer(p, q[e], w))
                else best)
    ensures forall x :: x in checked' ==> Entry(net, q, Seen(net, q, e, left - {p}, x), x, ready', best')
  {
    SeenMoves(net, q, e, left, p, checked, ready, best);
    forall x | x in checked'
      ensures Entry(net, q, Seen(net, q, e, left - {p}, x), x, ready', best')
    {
      if x in checked { EntryKept(net, q, Seen(net, q, e, left, x), x, ready, best, ready', best'); }
    }
  }

  lemma EntryKept(net: Net, q: seq<Req>, i: nat, x: Peer, ready: map<Peer, Req>, best: Option<Offer>,
                  ready': map<Peer, Req>, best': Option<Offer>)
    requires Entry(net, q, i, x, ready, best) && (x in ready' <==> x in ready) && (x in ready ==> ready'[x] == ready[x])
    requires best.Some? ==> best'.Some? && best'.value.wait <= best.value.wait
    ensures Entry(net, q, i, x, ready', best')
  {
  }

  /** The scan between requests: the first n have been looked at. */
  ghost predicate Row(net: Net, q: seq<Req>, n: nat, checked: set<Peer>, ready: map<Peer, Req>, best: Option<Offer>)
    requires n <= |q|
  {
    && (forall p :: p in net.peers ==> (p in checked <==> First(net, q, p, n) < n))
    && (forall p :: p in checked ==> p in net.peers)
    && (forall p :: p in ready ==> p in checked)
    && (forall p :: p in checked ==> Entry(net, q, First(net, q, p, n), p, ready, best))
    && (best.Some? ==>
        best.value.peer in checked && best.value.peer !in ready &&
            Holds(net, q, First(net, q, best.value.peer, n), best.value))
  }

  lemma RowBegins(net: Net, q: seq<Req>, e: nat, checked: set<Peer>, ready: map<Peer, Req>, best: Option<Offer>)
    requires e < |q| && Row(net, q, e, checked, ready, best)
    ensures Scan(net, q, e, net.peers, checked, ready, best)
  {
    forall p | p in net.peers
      ensures Seen(net, q, e, net.peers, p) == First(net, q, p, e)
    {
    }
  }

  lemma RowEnds(net: Net, q: seq<Req>, e: nat, checked: set<Peer>, ready: map<Peer, Req>, best: Option<Offer>)
    requires e < |q| && Scan(net, q, e, {}, checked, ready, best)
    ensures Row(net, q, e + 1, checked, ready, best)
  {
    forall p
      ensures Seen(net, q, e, {}, p) == First(net, q, p, e + 1)
    {
    }
  }

  /** All peers are asked about one request. */
  method AskAll(net: Net, q: seq<Req>, e: nat, checked: set<Peer>, ready: map<Peer, Req>, best: Option<Offer>)
    returns (checked': set<Peer>, ready': map<Peer, Req>, best': Option<Offer>, canSend: bool)
    requires e < |q| && Row(net, q, e, checked, ready, best)
    ensures Row(net, q, e + 1, checked', ready', best')
    ensures checked == {} ==> (canSend <==> Servable(net, q[e]))
    ensures !canSend ==> checked' == checked
  {
    checked', ready', best', canSend := checked, ready, best, false;
    RowBegins(net, q, e, checked, ready, best);
    var left := net.peers;
    while left != {}
      invariant left <= net.peers && Scan(net, q, e, left, checked', ready', best')
      invariant !canSend ==> checked' == checked
      invariant canSend ==> Servable(net, q[e])
      invariant !canSend && checked == {} ==> forall p :: p in net.peers && p !in left ==> !Suits(net, q[e], p)
    {
      var p :| p in left;
      var fits;
      checked', ready', best', fits := Ask(net, q, e, left, p, checked', ready', best');
      canSend := canSend || fits;
      left := left - {p};
    }
    RowEnds(net, q, e, checked', ready', best');
  }

  /** nextRequest: requests at the front that no peer can serve are dropped; of the others, each
      peer is offered the earliest it can serve, and an immediate or else the soonest offer wins. */
  method NextRequest(net: Net, q0: seq<Req>) returns (q: seq<Req>, dropped: seq<Req>, offer: Option<Offer>)
    ensures dropped + q == q0 && (forall r :: r in dropped ==> !Servable(net, r)) && (q == [] || Servable(net, q[0]))
    ensures offer.None? <==> q == []
    ensures offer.Some? ==> IsOffer(net, q, offer.value)
    ensures offer.Some? && offer.value.wait > 0 ==> forall o :: IsOffer(net, q, o) ==> o.wait >= offer.value.wait
  {
    var ready, best;
    ghost var checked;
    q, dropped, ready, best, checked := ScanQueue(net, q0);
    FrontChecked(net, q, checked, ready, best);
    if p :| p in ready {
      offer := Some(Offer(p, ready[p], 0));
      assert Entry(net, q, First(net, q, p, |q|), p, ready, best);
    } else {
      offer := best;
    }
    if offer.Some? && offer.value.wait > 0 { SoonestOffer(net, q, checked, ready, best); }
  }

  /** The scan of the whole queue. */
  method ScanQueue(net: Net, q0: seq<Req>)
    returns (q: seq<Req>, dropped: seq<Req>, ready: map<Peer, Req>, best: Option<Offer>, ghost checked0: set<Peer>)
    ensures dropped + q == q0 && (forall r :: r in dropped ==> !Servable(net, r)) && (q == [] || Servable(net, q[0]))
    ensures Row(net, q, |q|, checked0, ready, best)
  {
    q, dropped := q0, [];
    ready, best := map[], None;
    var e, checked := 0, {};
    while (net.peers != {} || e == 0) && e < |q|
      invariant e <= |q| && dropped + q == q0 && (forall r :: r in dropped ==> !Servable(net, r))
      invariant Row(net, q, e, checked, ready, best)
      invariant e == 0 ==> checked == {}
      invariant e > 0 ==> Servable(net, q[0])
      decreases |q| - e
    {
      var canSend;
      checked, ready, best, canSend := AskAll(net, q, e, checked, ready, best);
      if !canSend && e == 0 {
        DropFront(net, q0, dropped, q, ready, best);
        dropped, q := dropped + [q[0]], q[1..];
      } else {
        e := e + 1;
      }
    }
    checked0 := checked;
  }

  lemma DropFront(net: Net, q0: seq<Req>, dropped: seq<Req>, q: seq<Req>, ready: map<Peer, Req>, best: Option<Offer>)
    requires q != [] && dropped + q == q0 && Row(net, q, 1, {}, ready, best)
    ensures (dropped + [q[0]]) + q[1..] == q0 && Row(net, q[1..], 0, {}, ready, best)
  {
    assert [q[0]] + q[1..] == q;
  }

  /** If anything is left, some peer has been offered the front request. */
  lemma FrontChecked(net: Net, q: seq<Req>, checked: set<Peer>, ready: map<Peer, Req>, best: Option<Offer>)
    requires Row(net, q, |q|, checked, ready, best) && (q == [] || Servable(net, q[0]))
    ensures q == [] <==> ready == map[] && best == None
  {
    if q == [] {
      assert checked == {};
    } else {
      var p :| p in net.peers && Suits(net, q[0], p);
      assert First(net, q, p, |q|) == 0;
      assert Entry(net, q, First(net, q, p, |q|), p, ready, best);
    }
  }

  lemma SoonestOffer(net: Net, q: seq<Req>, checked: set<Peer>, ready: map<Peer, Req>, best: Option<Offer>)
    requires Row(net, q, |q|, checked, ready, best) && ready == map[] && best.Some?
    ensures forall o :: IsOffer(net, q, o) ==> o.wait >= best.value.wait
  {
    forall o | IsOffer(net, q, o)
      ensures o.wait >= best.value.wait
    {
      assert Entry(net, q, First(net, q, o.peer, |q|), o.peer, ready, best);
    }
  }
}
