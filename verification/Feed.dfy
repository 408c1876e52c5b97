/** The event feed of chain/event/feed.go: one value goes to every subscribed channel, while
    channels become ready and are removed in any order. */
module Feed {
  type Chan = nat

  /** The channel of slot 0, on which removals arrive. */
  const REMOVE: Chan := 0

  /** Slot 0 is the removal channel, and no other slot is. A channel may be subscribed more than once. */
  ghost predicate CasesOk(cases: seq<Chan>) { |cases| > 0 && cases[0] == REMOVE && REMOVE !in cases[1..] }

  /** The subscriptions among the cases. */
  ghost function Subscribed(cases: seq<Chan>): multiset<Chan>
    requires |cases| > 0
  {
    multiset(cases[1..])
  }

  // ---- the case list ----

  /** find. */
  method Find(cases: seq<Chan>, c: Chan) returns (index: int)
    ensures index == -1 ==> c !in cases
    ensures index != -1 ==> 0 <= index < |cases| && cases[index] == c && forall i :: 0 <= i < index ==> cases[i] != c
  {
    for i := 0 to |cases|
      invariant forall j :: 0 <= j < i ==> cases[j] != c
    {
      if cases[i] == c { return i; }
    }
    return -1;
  }

  function Delete(cases: seq<Chan>, index: nat): seq<Chan>
    requires index < |cases|
  {
    cases[..index] + cases[index + 1..]
  }

  /** deactivate: the case changes places with the last of the active prefix. */
  function Deactivate(cases: seq<Chan>, active: nat, index: nat): seq<Chan>
    requires index < active <= |cases|
  {
    cases[index := cases[active - 1]][active - 1 := cases[index]]
  }

  lemma DeleteOne(s: seq<Chan>, index: nat)
    requires index < |s|
    ensures multiset(Delete(s, index)) + multiset{s[index]} == multiset(s)
  {
    assert s == s[..index] + [s[index]] + s[index + 1..];
  }

  /** Deleting a case takes one subscription away, from the active ones if it was active. */
  lemma DeleteFacts(cases: seq<Chan>, active: nat, index: nat)
    requires CasesOk(cases) && 1 <= index < |cases| && 1 <= active <= |cases|
    ensures CasesOk(Delete(cases, index))
    ensures Subscribed(Delete(cases, index)) + multiset{cases[index]} == Subscribed(cases)
    ensures index < active ==>
            multiset(Delete(cases, index)[1..active - 1]) + multiset{cases[index]} == multiset(cases[1..active])
    ensures index >= active ==> Delete(cases, index)[1..active] == cases[1..active]
  {
    DeleteTail(cases, index);
    if index < active {
      DeleteSlice(cases, active, index);
      DeleteOne(cases[1..active], index - 1);
    } else {
      DeleteBehind(cases, active, index);
    }
  }

  lemma DeleteSlice(cases: seq<Chan>, hi: nat, index: nat)
    requires 1 <= index < hi <= |cases|
    ensures Delete(cases, index)[1..hi - 1] == Delete(cases[1..hi], index - 1)
  {
  }

  lemma DeleteBehind(cases: seq<Chan>, active: nat, index: nat)
    requires 1 <= active <= index < |cases|
    ensures Delete(cases, index)[1..active] == cases[1..active]
  {
  }

  lemma DeleteTail(cases: seq<Chan>, index: nat)
    requires CasesOk(cases) && 1 <= index < |cases|
    ensures CasesOk(Delete(cases, index))
    ensures Subscribed(Delete(cases, index)) + multiset{cases[index]} == Subscribed(cases)
  {
    DeleteRest(cases, index);
    DeleteOne(cases[1..], index - 1);
    NoneNew(Delete(cases[1..], index - 1), cases[index], cases[1..]);
  }

  lemma DeleteRest(cases: seq<Chan>, index: nat)
    requires 1 <= index < |cases|
    ensures Delete(cases, index)[1..] == Delete(cases[1..], index - 1) && Delete(cases, index)[0] == cases[0]
  {
  }

  lemma NoneNew(part: seq<Chan>, x: Chan, whole: seq<Chan>)
    requires multiset(part) + multiset{x} == multiset(whole)
    ensures forall c :: c in part ==> c in whole
  {
    forall c | c in part
      ensures c in whole
    {
      assert c in multiset(whole);
    }
  }

  /** Overwriting an entry by the last and dropping the last takes the entry out. */
  lemma LastFills(s: seq<Chan>, i: nat, last: nat)
    requires i <= last && |s| == last + 1
    ensures multiset(s[i := s[last]][..last]) + multiset{s[i]} == multiset(s)
  {
    var t := s[i := s[last]][..last];
    if i == last {
      assert t == s[..last];
      assert s == t + [s[i]];
    } else {
      assert t == s[..i] + [s[last]] + s[i + 1..last];
      assert s == s[..i] + [s[i]] + s[i + 1..last] + [s[last]];
    }
  }

  /** Deactivating a case keeps all subscriptions and takes one from the active ones. */
  lemma DeactivateFacts(cases: seq<Chan>, active: nat, index: nat)
    requires CasesOk(cases) && 1 <= index < active <= |cases|
    ensures CasesOk(Deactivate(cases, active, index))
    ensures Subscribed(Deactivate(cases, active, index)) == Subscribed(cases)
    ensures multiset(Deactivate(cases, active, index)[1..active - 1]) + multiset{cases[index]} ==
            multiset(cases[1..active])
  {
    var d, s := Deactivate(cases, active, index), cases[1..active];
    var t := s[index - 1 := s[active - 2]][..active - 2];
    LastFills(s, index - 1, active - 2);
    FrontOf(cases, active, index);
    SplitTail(cases, d, t, active, index);
  }

  lemma FrontOf(cases: seq<Chan>, active: nat, index: nat)
    requires CasesOk(cases) && 1 <= index < active <= |cases|
    ensures var s := cases[1..active];
            Deactivate(cases, active, index)[1..active - 1] == s[index - 1 := s[active - 2]][..active - 2]
  {
  }

  lemma SplitTail(cases: seq<Chan>, d: seq<Chan>, t: seq<Chan>, active: nat, index: nat)
    requires CasesOk(cases) && 1 <= index < active <= |cases| && d == Deactivate(cases, active, index)
    requires d[1..active - 1] == t && multiset(t) + multiset{cases[index]} == multiset(cases[1..active])
    ensures CasesOk(d) && Subscribed(d) == Subscribed(cases)
  {
    assert d[1..] == t + [cases[index]] + cases[active..];
    assert cases[1..] == cases[1..active] + cases[active..];
    assert multiset(d[1..]) == multiset(cases[1..]);
    assert REMOVE !in multiset(cases[1..]);
    assert REMOVE !in multiset(d[1..]);
  }

  // ---- sending ----

  /** How far a send to the subscriptions `to` has come: each has had the value, still awaits it, or
      was removed before it had it. */
  ghost predicate Sending(to: multiset<Chan>, cases: seq<Chan>, active: nat, delivered: seq<Chan>,
                          removed: multiset<Chan>, missed: multiset<Chan>) {
    && CasesOk(cases) && 1 <= active <= |cases|
    && Subscribed(cases) + removed == to && missed <= removed
    && multiset(delivered) + multiset(cases[1..active]) + missed == to
  }

  lemma DeliverOne(to: multiset<Chan>, cases: seq<Chan>, active: nat, delivered: seq<Chan>, removed: multiset<Chan>,
                   missed: multiset<Chan>, index: nat)
    requires Sending(to, cases, active, delivered, removed, missed) && 1 <= index < active
    ensures Sending(to, Deactivate(cases, active, index), active - 1, delivered + [cases[index]], removed, missed)
  {
    DeactivateFacts(cases, active, index);
  }

  lemma RemoveOne(to: multiset<Chan>, cases: seq<Chan>, active: nat, delivered: seq<Chan>, removed: multiset<Chan>,
                  missed: multiset<Chan>, index: nat)
    requires Sending(to, cases, active, delivered, removed, missed) && 1 <= index < |cases|
    ensures var one := multiset{cases[index]};
            if index < active then Sending(to, Delete(cases, index), active - 1, delivered, removed + one, missed + one)
            else Sending(to, Delete(cases, index), active, delivered, removed + one, missed)
  {
    DeleteFacts(cases, active, index);
  }

  /** A finished send: every subscription that was not removed has had the value exactly once, and
      one that was removed at most once. */
  ghost predicate Sent(to: multiset<Chan>, cases: seq<Chan>, delivered: seq<Chan>, removed: multiset<Chan>,
                       missed: multiset<Chan>, nsent: nat) {
    && CasesOk(cases) && Subscribed(cases) + removed == to
    && multiset(delivered) + missed == to && missed <= removed && nsent == |delivered|
  }

  /** The next removal to arrive is of a subscription that is still there. */
  lemma NextRemoval(to: multiset<Chan>, cases: seq<Chan>, gone: seq<Chan>, k: nat)
    requires k < |gone| && multiset(gone) <= to && |cases| > 0 && Subscribed(cases) + multiset(gone[..k]) == to
    ensures gone[k] in Subscribed(cases) && multiset(gone[..k + 1]) == multiset(gone[..k]) + multiset{gone[k]}
  {
    var c := gone[k];
    assert gone[..k + 1] == gone[..k] + [c];
    assert gone == gone[..k + 1] + gone[k + 1..];
    assert multiset(gone[..k])[c] + 1 <= multiset(gone)[c] <= to[c];
    assert to[c] == Subscribed(cases)[c] + multiset(gone[..k])[c];
  }

  /** Without removals everyone gets the value. */
  lemma AllDelivered(to: multiset<Chan>, cases: seq<Chan>, delivered: seq<Chan>, gone: seq<Chan>, k: nat,
                     missed: multiset<Chan>)
    requires k <= |gone| && Sending(to, cases, 1, delivered, multiset(gone[..k]), missed)
    ensures Sent(to, cases, delivered, multiset(gone[..k]), missed, |delivered|)
    ensures gone == [] ==> multiset(delivered) == Subscribed(cases) == to && |delivered| == |to|
  {
    assert cases[1..1] == [] && multiset(delivered) + multiset(cases[1..1]) + missed == to;
    assert multiset(delivered) + missed == to;
    if gone == [] {
      assert multiset(gone[..k]) == multiset{} == missed;
      assert Subscribed(cases) == to && multiset(delivered) == to;
      assert |multiset(delivered)| == |delivered|;
    }
  }

  class EventFeed {
    var sendCases: seq<Chan>
    var inbox: seq<Chan>

    ghost predicate Valid()
      reads this
    {
      CasesOk(sendCases) && REMOVE !in inbox
    }

    /** All subscriptions. */
    ghost function All(): multiset<Chan>
      requires Valid()
      reads this
    {
      Subscribed(sendCases) + multiset(inbox)
    }

    constructor ()
      ensures Valid() && All() == multiset{}
    {
      sendCases, inbox := [REMOVE], [];
    }

    /** Subscribe. */
    method Subscribe(c: Chan)
      requires Valid() && c != REMOVE
      modifies this`inbox
      ensures Valid() && inbox == old(inbox) + [c] && All() == old(All()) + multiset{c}
    {
      inbox := inbox + [c];
    }

    /** remove, while no send is in progress: one subscription of the channel goes. */
    method Remove(c: Chan)
      requires Valid() && c != REMOVE && (c in sendCases || c in inbox)
      modifies this
      ensures Valid() && All() == old(All()) - multiset{c} && c in old(All())
      ensures c in old(inbox) ==> sendCases == old(sendCases)
    {
      var index := Find(inbox, c);
      if index != -1 {
        DeleteOne(inbox, index);
        ghost var before := inbox;
        inbox := Delete(inbox, index);
        assert forall x :: x in inbox ==> x in before;
      } else {
        index := Find(sendCases, c);
        DeleteFacts(sendCases, 1, index);
        sendCases := Delete(sendCases, index);
      }
    }

    /** Send: which channels are ready when is left open. late are the channels subscribed while the
        send is under way, gone those whose removals arrive, in this order, as far as it takes them. */
    method Send(late: seq<Chan>, gone: seq<Chan>)
      returns (nsent: nat, taken: nat, ghost delivered: seq<Chan>, ghost missed: multiset<Chan>)
      requires Valid() && REMOVE !in late && multiset(gone) <= All()
      modifies this
      ensures taken <= |gone| && Sent(old(All()), sendCases, delivered, multiset(gone[..taken]), missed, nsent)
      ensures inbox == late && Valid()
      ensures gone == [] ==>
              multiset(delivered) == Subscribed(sendCases) == old(All()) && nsent == |old(All())|
    {
      ghost var to := All();
      Gather(late);
      delivered, missed, nsent, taken := [], multiset{}, 0, 0;
      var active: nat := |sendCases|;
      assert sendCases[1..active] == sendCases[1..] && gone[..0] == [];
      while true
        invariant taken <= |gone| && Sending(to, sendCases, active, delivered, multiset(gone[..taken]), missed)
        invariant nsent == |delivered| && inbox == late
        decreases |sendCases| + active
      {
        nsent, active, delivered := TryAll(to, active, nsent, delivered, multiset(gone[..taken]), missed);
        if active == 1 { break; }
        nsent, active, taken, delivered, missed := Select(to, gone, taken, active, nsent, delivered, missed);
      }
      AllDelivered(to, sendCases, delivered, gone, taken, missed);
    }

    /** Waits until a removal arrives or an active channel is ready. */
    method Select(ghost to: multiset<Chan>, gone: seq<Chan>, taken0: nat, active0: nat, nsent0: nat,
                  ghost delivered0: seq<Chan>, ghost missed0: multiset<Chan>)
      returns (nsent: nat, active: nat, taken: nat, ghost delivered: seq<Chan>, ghost missed: multiset<Chan>)
      requires taken0 <= |gone| && multiset(gone) <= to && active0 > 1 && nsent0 == |delivered0|
      requires Sending(to, sendCases, active0, delivered0, multiset(gone[..taken0]), missed0)
      modifies this`sendCases
      ensures taken <= |gone| && Sending(to, sendCases, active, delivered, multiset(gone[..taken]), missed)
      ensures nsent == |delivered| && active <= active0 && |sendCases| + active < |old(sendCases)| + active0
    {
      nsent, active, taken, delivered, missed := nsent0, active0, taken0, delivered0, missed0;
      var removal := *;
      if removal && taken0 < |gone| {
        NextRemoval(to, sendCases, gone, taken0);
        active, missed := TakeRemoval(to, gone[taken0], active0, delivered0, multiset(gone[..taken0]), missed0);
        taken := taken0 + 1;
      } else {
        var chosen :| 1 <= chosen < active0;
        delivered := Deliver(to, active0, delivered0, multiset(gone[..taken0]), missed0, chosen);
        active, nsent := active0 - 1, nsent0 + 1;
      }
    }

    /** The cases from the inbox join the others. */
    method Gather(late: seq<Chan>)
      requires Valid()
      modifies this
      ensures CasesOk(sendCases) && Subscribed(sendCases) == old(All()) && inbox == late
    {
      ghost var cases := sendCases;
      sendCases := sendCases + inbox;
      assert sendCases[1..] == cases[1..] + inbox;
      inbox := late;
    }

    /** A removal arrives during a send: the first case of the channel goes, active or not. */
    method TakeRemoval(ghost to: multiset<Chan>, c: Chan, active0: nat, ghost delivered: seq<Chan>,
                       ghost removed: multiset<Chan>, ghost missed0: multiset<Chan>)
      returns (active: nat, ghost missed: multiset<Chan>)
      requires Sending(to, sendCases, active0, delivered, removed, missed0) && c in Subscribed(sendCases)
      modifies this`sendCases
      ensures Sending(to, sendCases, active, delivered, removed + multiset{c}, missed)
      ensures |sendCases| == |old(sendCases)| - 1 && active <= active0
    {
      assert c in sendCases[1..];
      var index := Find(sendCases, c);
      assert index > 0;
      RemoveOne(to, sendCases, active0, delivered, removed, missed0, index);
      missed := if index < active0 then missed0 + multiset{c} else missed0;
      active := if index < active0 then active0 - 1 else active0;
      sendCases := Delete(sendCases, index);
    }

    /** One active channel takes the value. */
    method Deliver(ghost to: multiset<Chan>, active: nat, ghost delivered0: seq<Chan>, ghost removed: multiset<Chan>,
                   ghost missed: multiset<Chan>, index: nat)
      returns (ghost delivered: seq<Chan>)
      requires Sending(to, sendCases, active, delivered0, removed, missed) && 1 <= index < active
      modifies this`sendCases
      ensures delivered == delivered0 + [old(sendCases)[index]]
      ensures Sending(to, sendCases, active - 1, delivered, removed, missed)
      ensures |sendCases| == |old(sendCases)|
    {
      DeliverOne(to, sendCases, active, delivered0, removed, missed, index);
      delivered := delivered0 + [sendCases[index]];
      sendCases := Deactivate(sendCases, active, index);
    }

    /** The fast path: every active channel is tried once without blocking. */
    method TryAll(ghost to: multiset<Chan>, active0: nat, nsent0: nat, ghost delivered0: seq<Chan>,
                  ghost removed: multiset<Chan>, ghost missed: multiset<Chan>)
      returns (nsent: nat, active: nat, ghost delivered: seq<Chan>)
      requires Sending(to, sendCases, active0, delivered0, removed, missed) && nsent0 == |delivered0|
      modifies this`sendCases
      ensures Sending(to, sendCases, active, delivered, removed, missed) && nsent == |delivered|
      ensures active <= active0 && |sendCases| == |old(sendCases)|
    {
      nsent, active, delivered := nsent0, active0, delivered0;
      var i := 1;
      while i < active
        invariant 1 <= i <= active <= active0 && |sendCases| == |old(sendCases)|
        invariant Sending(to, sendCases, active, delivered, removed, missed) && nsent == |delivered|
        decreases active - i
      {
        if * {
          delivered := Deliver(to, active, delivered, removed, missed, i);
          active, nsent := active - 1, nsent + 1;
        } else {
          i := i + 1;
        }
      }
    }
  }
}
