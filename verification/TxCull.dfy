/** The global queue limit: remote accounts lose their queues, the most recently active first,
    until the number of queued transactions is back at the limit. */
module TxCull {
  import opened TxModel
  import opened TxPoolState

  /** An account's last sign of life; an account never seen counts as the oldest. */
  function Beat(beats: map<Addr, nat>, a: Addr): nat { if a in beats then beats[a] else 0 }

  /** Account a was last seen at `when`; all others are as before. */
  ghost predicate BeatsAt(b0: map<Addr, nat>, b: map<Addr, nat>, a: Addr, when: nat) {
    Beat(b, a) == when && forall x :: x != a ==> Beat(b, x) == Beat(b0, x)
  }

  ghost predicate Partial(q0: Lists, q: Lists, a: Addr) { Of(q, a) != Of(q0, a) && Of(q, a) != map[] }

  /** q is what the queue limit makes of q0. */
  ghost predicate Culled(config: Config, locals: set<Addr>, beats: map<Addr, nat>, q0: Lists, q: Lists) {
    && (forall a :: LowPart(Of(q0, a), Of(q, a)))
    && (forall a :: a in locals ==> Of(q, a) == Of(q0, a))
    && (Total(q0) <= config.globalQueue ==> Total(q) == Total(q0) && forall a :: Of(q, a) == Of(q0, a))
    && (Total(q0) > config.globalQueue ==>
          Total(q) == config.globalQueue ||
              (Total(q) > config.globalQueue && forall a :: a !in locals ==> Of(q, a) == map[]))
    && (forall a, b :: Of(q, a) != Of(q0, a) && b !in locals && Beat(beats, b) > Beat(beats, a) ==> Of(q, b) == map[])
    && (forall a, b :: Partial(q0, q, a) && Partial(q0, q, b) ==> a == b)
  }

  /** The accounts in rest are still to be looked at; the other remote ones have lost their queues. */
  ghost predicate Culling(locals: set<Addr>, beats: map<Addr, nat>, q0: Lists, q: Lists, rest: set<Addr>) {
    && (forall a :: a in locals || a in rest ==> Of(q, a) == Of(q0, a))
    && (forall a :: a !in locals && a !in rest ==> Of(q, a) == map[])
    && (forall a :: a in rest ==> a !in locals)
    && (forall a, b :: a in q0 && a !in rest && a !in locals && b in rest ==> Beat(beats, b) <= Beat(beats, a))
  }

  lemma {:induction false} Latest(beats: map<Addr, nat>, ks: set<Addr>) returns (a: Addr)
    requires ks != {}
    ensures a in ks && forall b :: b in ks ==> Beat(beats, b) <= Beat(beats, a)
    decreases ks
  {
    a :| a in ks;
    if ks != {a} {
      var b := Latest(beats, ks - {a});
      if Beat(beats, b) > Beat(beats, a) { a := b; }
    }
  }

  lemma HasLatest(beats: map<Addr, nat>, ks: set<Addr>)
    requires ks != {}
    ensures exists a :: a in ks && forall b :: b in ks ==> Beat(beats, b) <= Beat(beats, a)
  {
    var a := Latest(beats, ks);
  }

  lemma CullStarts(config: Config, locals: set<Addr>, beats: map<Addr, nat>, q: Lists)
    ensures Culling(locals, beats, q, q, q.Keys - locals)
    ensures Total(q) <= config.globalQueue ==> Culled(config, locals, beats, q, q)
  {
  }

  lemma CullOne(locals: set<Addr>, beats: map<Addr, nat>, q0: Lists, q: Lists, q': Lists, rest: set<Addr>, a: Addr)
    requires Culling(locals, beats, q0, q, rest)
    requires a in rest && forall b :: b in rest ==> Beat(beats, b) <= Beat(beats, a)
    requires SameBut(q, q', a) && Of(q', a) == map[]
    ensures Culling(locals, beats, q0, q', rest - {a})
  {
  }

  lemma CullEnds(config: Config, locals: set<Addr>, beats: map<Addr, nat>, q0: Lists, q: Lists, rest: set<Addr>)
    requires Culling(locals, beats, q0, q, rest) && Total(q0) > config.globalQueue && Total(q) >= config.globalQueue
    requires Total(q) == config.globalQueue || rest == {}
    ensures Culled(config, locals, beats, q0, q)
  {
    forall a, b | Of(q, a) != Of(q0, a) && b !in locals && Beat(beats, b) > Beat(beats, a)
      ensures Of(q, b) == map[]
    {
      assert a in q0;
    }
  }

  /** The last account to be cut keeps its lowest nonces. */
  lemma CullTail(config: Config, locals: set<Addr>, beats: map<Addr, nat>, q0: Lists, q: Lists, q': Lists,
                 rest: set<Addr>, a: Addr)
    requires Culling(locals, beats, q0, q, rest) && Total(q0) > config.globalQueue && Total(q') == config.globalQueue
    requires a in rest && forall b :: b in rest ==> Beat(beats, b) <= Beat(beats, a)
    requires SameBut(q, q', a) && LowPart(Of(q, a), Of(q', a)) && Of(q', a) != map[]
    ensures Culled(config, locals, beats, q0, q')
  {
    forall x, b | Of(q', x) != Of(q0, x) && b !in locals && Beat(beats, b) > Beat(beats, x)
      ensures Of(q', b) == map[]
    {
      assert x != a ==> x in q0;
    }
  }

  lemma CapIsLow(items: Items, k: nat)
    requires Filed(items)
    ensures LowPart(items, CapTo(items, k)) && (0 < k && items != map[] ==> CapTo(items, k) != map[])
  {
    CapFacts(items, k);
  }
}
