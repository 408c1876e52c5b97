/** Where the section indexer goes wrong: the roll-back after a failed reset runs without the lock,
    and breaks the index as soon as it meets a notice with something to roll back. */
module IndexerRace {
  import opened ChainModel
  import opened ChainIndexer

  /** The actions lead from s to t. */
  ghost predicate Leads(config: Config, db: Store, s: State, actions: seq<Action>, t: State)
    requires config.size > 0
    decreases |actions|
  {
    if actions == [] then s == t
    else Enabled(config, db, s, actions[0]) && Leads(config, db, Next(config, db, s, actions[0]), actions[1..], t)
  }

  /** Some actions lead from s to t. */
  ghost predicate Reaches(config: Config, db: Store, s: State, t: State)
    requires config.size > 0
  {
    exists actions :: Leads(config, db, s, actions, t)
  }

  lemma Stay(config: Config, db: Store, s: State)
    requires config.size > 0
    ensures Reaches(config, db, s, s)
  {
    assert Leads(config, db, s, [], s);
  }

  lemma First(config: Config, db: Store, s: State, a: Action, t: State)
    requires config.size > 0 && Enabled(config, db, s, a) && Reaches(config, db, Next(config, db, s, a), t)
    ensures Reaches(config, db, s, t)
  {
    var actions :| Leads(config, db, Next(config, db, s, a), actions, t);
    assert ([a] + actions)[1..] == actions;
    assert Leads(config, db, s, [a] + actions, t);
  }

  lemma Step(config: Config, db: Store, s: State, a: Action)
    requires config.size > 0 && Enabled(config, db, s, a)
    ensures Reaches(config, db, s, Next(config, db, s, a))
  {
    Stay(config, db, Next(config, db, s, a));
    First(config, db, s, a, Next(config, db, s, a));
  }

  lemma Then(config: Config, db: Store, s: State, t: State, u: State)
    requires config.size > 0 && Reaches(config, db, s, t) && Reaches(config, db, t, u)
    ensures Reaches(config, db, s, u)
  {
    var actions :| Leads(config, db, s, actions, t);
    ThenAlong(config, db, s, actions, t, u);
  }

  lemma {:induction false} ThenAlong(config: Config, db: Store, s: State, actions: seq<Action>, t: State, u: State)
    requires config.size > 0 && Leads(config, db, s, actions, t) && Reaches(config, db, t, u)
    ensures Reaches(config, db, s, u)
    decreases |actions|
  {
    if actions != [] {
      ThenAlong(config, db, Next(config, db, s, actions[0]), actions[1..], t, u);
      First(config, db, s, actions[0], u);
    }
  }

  /** One step more. */
  lemma Grow(config: Config, db: Store, s: State, t: State, a: Action)
    requires config.size > 0 && Reaches(config, db, s, t) && Enabled(config, db, t, a)
    ensures Reaches(config, db, s, Next(config, db, t, a))
  {
    Step(config, db, t, a);
    Then(config, db, s, t, Next(config, db, t, a));
  }

  // ---- the statements, run without interruption, are the functions of the code ----

  /** A notice that is left alone does what newHead does. */
  lemma NoticeAlone(config: Config, db: Store, s: State, head: nat)
    requires config.size > 0 && s.notice.Quiet?
    ensures Reaches(config, db, s, OnReorg(config, s, head))
  {
    var changed := head / config.size;
    var s1 := Noticed(config, s, changed);
    Step(config, db, s, Reorg(head));
    if changed < s.stored {
      var s2 := NoticeNext(config, s1);
      Grow(config, db, s, s1, NoticeStep);
      NoticeLoop(config, db, s2);
      Then(config, db, s, s2, NoticeEnd(config, s2));
      var r := OnReorg(config, s, head);
      assert NoticeEnd(config, s2).heads == r.heads;
    }
  }

  /** Where the notice's loop ends if it is left alone. */
  function NoticeEnd(config: Config, s: State): State
    requires s.notice.Acting?
  {
    var target := s.notice.target;
    Cascaded(config,
             s.(stored := target, notice := Quiet, heads := map n | n in s.heads && !(target <= n < s.stored) ::
                 s.heads[n]), target)
  }

  lemma {:induction false} NoticeLoop(config: Config, db: Store, s: State)
    requires config.size > 0 && s.notice.Acting? && s.notice.pc.Test? && s.notice.target <= s.stored
    ensures Reaches(config, db, s, NoticeEnd(config, s))
    decreases s.stored
  {
    var s1 := NoticeNext(config, s);
    Step(config, db, s, NoticeStep);
    var s2 := NoticeNext(config, s1);
    Grow(config, db, s, s1, NoticeStep);
    if s.stored > s.notice.target {
      var s3 := NoticeNext(config, s2);
      Grow(config, db, s, s2, NoticeStep);
      NoticeLoop(config, db, s3);
      Then(config, db, s, s3, NoticeEnd(config, s3));
      assert NoticeEnd(config, s3).heads == NoticeEnd(config, s).heads;
    } else {
      assert NoticeEnd(config, s).heads == s.heads;
    }
  }

  /** Where the unlocked roll-back ends if it is left alone from statement pc on. */
  function RollEnd(s: State): State
    requires s.worker.Rolling?
  {
    var pc := s.worker.pc;
    s.(stored := 0, worker := Failed, count := if pc.WriteCount? then 0 else s.count,
       heads := map n | n in s.heads && !(n < s.stored || (n == s.stored && pc.Remove?)) :: s.heads[n])
  }

  lemma {:induction false} RollLoop(config: Config, db: Store, s: State)
    requires config.size > 0 && s.worker.Rolling? && s.worker.pc.Test?
    ensures Reaches(config, db, s, RollEnd(s))
    decreases s.stored
  {
    var s1 := RollNext(s);
    Step(config, db, s, RollStep);
    var s2 := RollNext(s1);
    Grow(config, db, s, s1, RollStep);
    if s.stored > 0 {
      var s3 := RollNext(s2);
      Grow(config, db, s, s2, RollStep);
      RollLoop(config, db, s3);
      Then(config, db, s, s3, RollEnd(s3));
      assert RollEnd(s3).heads == RollEnd(s).heads;
    } else {
      assert RollEnd(s).heads == s.heads;
    }
  }

  lemma RollAlone(config: Config, db: Store, s: State)
    requires config.size > 0 && s.worker.Rolling?
    requires (s.worker.pc.Decrement? ==> s.stored > 0) && (s.worker.pc.Assign? ==> s.stored == 0)
    ensures Reaches(config, db, s, RollEnd(s))
    decreases if s.worker.pc.Decrement? then 1 else 0
  {
    if s.worker.pc.Test? {
      RollLoop(config, db, s);
    } else {
      var s1 := RollNext(s);
      Step(config, db, s, RollStep);
      if s.worker.pc.Decrement? {
        RollAlone(config, db, s1);
        Then(config, db, s, s1, RollEnd(s1));
        assert RollEnd(s1).heads == RollEnd(s).heads;
      } else if s.worker.pc.Assign? {
        assert RollEnd(s).heads == s.heads;
      } else {
        RollLoop(config, db, s1);
        Then(config, db, s, s1, RollEnd(s1));
        assert RollEnd(s1).heads == RollEnd(s).heads;
      }
    }
  }

  // ---- the race ----

  /** The index is broken: a zero counter is about to be decremented, or everybody is done and
      the index is not right. */
  ghost predicate Broken(config: Config, db: Store, s: State) {
    Underflows(s) || (AtRest(s) && !Right(config, db, s))
  }

  ghost predicate CanBreak(config: Config, db: Store, s: State)
    requires config.size > 0
  {
    exists t :: Reaches(config, db, s, t) && Broken(config, db, t)
  }

  /** Exactly the calm actions are harmless: a calm one keeps the invariant, and after any other
      some interleaving breaks the index. */
  lemma CalmIff(config: Config, db: Store, s: State, a: Action)
    requires Inv(config, db, s) && Enabled(config, db, s, a)
    ensures Calm(config, s, a) ==>
            Inv(config, db, Next(config, db, s, a)) && !Broken(config, db, Next(config, db, s, a))
    ensures !Calm(config, s, a) ==> CanBreak(config, db, Next(config, db, s, a))
  {
    if Calm(config, s, a) {
      StepKeeps(config, db, s, a);
    } else if a.Reorg? {
      NoticeBreaks(config, db, s, a.head);
    } else {
      RollBreaks(config, db, s);
    }
  }

  /** A notice that has passed its test decrements, after the roll-back has come down to zero. */
  lemma NoticeBreaks(config: Config, db: Store, s: State, head: nat)
    requires Inv(config, db, s) && s.notice.Quiet? && s.worker.Rolling? && head / config.size < s.stored
    ensures CanBreak(config, db, Next(config, db, s, Reorg(head)))
  {
    var s0 := Next(config, db, s, Reorg(head));
    var s1 := NoticeNext(config, s0);
    Step(config, db, s0, NoticeStep);
    var s2 := NoticeNext(config, s1);
    Grow(config, db, s0, s1, NoticeStep);
    RollAlone(config, db, s2);
    Then(config, db, s0, s2, RollEnd(s2));
    assert Underflows(RollEnd(s2));
  }

  /** A roll-back that starts while a notice is rolling back, with sections left. */
  lemma RollBreaks(config: Config, db: Store, s: State)
    requires Inv(config, db, s) && s.notice.Acting? && s.stored > 0 && s.worker.Busy? && s.worker.taken == 0
    ensures CanBreak(config, db, Next(config, db, s, ResetFails))
  {
    var s0 := Next(config, db, s, ResetFails);
    Stay(config, db, s0);
    var ready := s0;
    if s.notice.pc.WriteCount? {
      ready := NoticeNext(config, s0);
      Grow(config, db, s0, s0, NoticeStep);
    }
    if ready.notice.pc.Test? && ready.stored > ready.notice.target {
      Grow(config, db, s0, ready, NoticeStep);
      ready := NoticeNext(config, ready);
    }
    RollAlone(config, db, ready);
    var t := RollEnd(ready);
    Then(config, db, s0, ready, t);
    if !t.notice.pc.Decrement? {
      NoticeLands(config, db, s, s0, t);
    }
  }

  /** The notice is past its loop; what it assigns does not fit the count of zero or the heads. */
  lemma AssignLands(config: Config, db: Store, s0: State, t: State, h: nat)
    requires config.size > 0 && Reaches(config, db, s0, t) && t.worker.Failed? && t.count == 0
    requires t.notice.Acting? && t.notice.pc.Assign? && (t.notice.target > 0 || h in t.heads)
    ensures CanBreak(config, db, s0)
  {
    Grow(config, db, s0, t, NoticeStep);
    var u := NoticeNext(config, t);
    assert AtRest(u) && !Right(config, db, u);
  }

  lemma TestLands(config: Config, db: Store, s0: State, t: State, h: nat)
    requires config.size > 0 && Reaches(config, db, s0, t) && t.worker.Failed? && t.count == 0 && t.stored == 0
    requires t.notice.Acting? && t.notice.pc.Test? && (t.notice.target > 0 || h in t.heads)
    ensures CanBreak(config, db, s0)
  {
    Grow(config, db, s0, t, NoticeStep);
    AssignLands(config, db, s0, NoticeNext(config, t), h);
  }

  /** The roll-back has removed everything; the notice then restores its own target. */
  lemma NoticeLands(config: Config, db: Store, s: State, s0: State, t: State)
    requires Inv(config, db, s) && s.notice.Acting? && s.stored > 0 && Reaches(config, db, s0, t)
    requires t.notice == s.notice && t.stored == 0 && t.count == 0 && t.worker.Failed?
    requires s.notice.pc.Remove? || s.notice.pc.Assign? || (s.notice.pc.Test? && s.stored == s.notice.target)
    requires s.notice.pc.Remove? ==> s.stored in t.heads
    ensures CanBreak(config, db, s0)
  {
    if t.notice.pc.Assign? {
      AssignLands(config, db, s0, t, 0);
    } else if t.notice.pc.Test? {
      TestLands(config, db, s0, t, 0);
    } else {
      Grow(config, db, s0, t, NoticeStep);
      TestLands(config, db, s0, NoticeNext(config, t), s.stored);
    }
  }

  // ---- instances ----

  /** Two one-block sections are stored and the third is being processed. */
  function Example(): State { State(2, 3, 1, map[0 := 1, 1 := 2], 2, Quiet, Busy(2, 2, 2, 0)) }

  lemma ExampleOk(first: Header, second: Header)
    requires first == Header(1, NO_HASH, 0, 1) && second == Header(2, 1, 1, 1)
    ensures Inv(Config(1, 0), map[1 := first, 2 := second], Example())
  {
    var config, db, s := Config(1, 0), map[1 := first, 2 := second], Example();
    assert Back(db, 1, 1) == Some(NO_HASH) && Back(db, 2, 1) == Some(1) && Back(db, 2, 0) == Some(2);
    assert Ends(1, 0) == 1 && Ends(1, 1) == 2;
    assert forall i: nat :: HeadOk(config, db, s.heads, i);
  }

  /** A section of one block is processed and committed. */
  /** A section whose headers are there and link is stored, if nothing comes between. */
  lemma SectionStored(config: Config, db: Store, s: State, views: seq<Option<Header>>, oldHead: Hash)
    requires |views| == config.size > 0 && s.notice.Quiet? && s.worker.Idle? && s.known > s.stored
    requires oldHead == SectionHead(s.heads, s.stored - 1) && forall i :: 0 <= i < |views| ==>
             Links(views, oldHead, i) && Stored(db, views[i].value) &&
                 views[i].value.number == s.stored * config.size + i
    ensures Reaches(config, db, s,
                    State(s.stored + 1, s.known, (s.stored + 1) * config.size - 1,
                          s.heads[s.stored := LastOf(views, oldHead, |views|)], s.stored + 1, Quiet, Idle))
  {
    Step(config, db, s, Begin);
    var s1 := s.(worker := Busy(s.stored, oldHead, oldHead, 0));
    SectionReads(config, db, s1, s.stored, oldHead, views, |views|);
    var s2 := s1.(worker := Busy(s.stored, oldHead, LastOf(views, oldHead, |views|), |views|));
    Then(config, db, s, s1, s2);
    FinishStores(config, db, s2);
    Grow(config, db, s, s2, Finish);
  }

  lemma FinishStores(config: Config, db: Store, s: State)
    requires config.size > 0 && s.notice.Quiet? && s.worker.Busy? && s.worker.taken == config.size
    requires s.worker.section == s.stored && s.worker.oldHead == SectionHead(s.heads, s.stored - 1)
    ensures Next(config, db, s, Finish) ==
            State(s.stored + 1, s.known, (s.stored + 1) * config.size - 1, s.heads[s.stored := s.worker.last],
                  s.stored + 1, Quiet, Idle)
  {
    var heads := s.heads[s.stored := s.worker.last];
    assert (map n | n in heads && (n < s.stored + 1 || n >= s.stored) :: heads[n]) == heads;
  }

  lemma OneSection(db: Store, s: State, h: Header)
    requires s.notice.Quiet? && s.worker.Idle? && s.known > s.stored
    requires Stored(db, h) && h.number == s.stored && h.parent == SectionHead(s.heads, s.stored - 1)
    ensures Reaches(Config(1, 0), db, s,
                    State(s.stored + 1, s.known, s.stored, s.heads[s.stored := h.hash], s.stored + 1, Quiet, Idle))
  {
    var views := [Some(h)];
    var oldHead := SectionHead(s.heads, s.stored - 1);
    assert Links(views, oldHead, 0);
    SectionStored(Config(1, 0), db, s, views, oldHead);
  }

  /** Two new blocks, and both sections are processed. */
  lemma ExampleReached(db: Store, first: Header, second: Header)
    requires first == Header(1, NO_HASH, 0, 1) && second == Header(2, 1, 1, 1) && Stored(db, first)
    requires Stored(db, second)
    ensures Reaches(Config(1, 0), db, Initial(), Example())
  {
    var config := Config(1, 0);
    Step(config, db, Initial(), Ahead(2));
    var s1 := State(0, 3, 0, map[], 0, Quiet, Idle);
    assert Next(config, db, Initial(), Ahead(2)) == s1;
    OneSection(db, s1, first);
    var s2 := State(1, 3, 0, map[0 := 1], 1, Quiet, Idle);
    Then(config, db, Initial(), s1, s2);
    OneSection(db, s2, second);
    var s3 := State(2, 3, 1, map[0 := 1, 1 := 2], 2, Quiet, Idle);
    assert map[0 := 1][1 := 2] == map[0 := 1, 1 := 2];
    Then(config, db, Initial(), s2, s3);
    Grow(config, db, Initial(), s3, Begin);
  }

  /** Roll-back and notice take turns in a fixed order: true is a step of the notice. */
  function Turns(config: Config, s: State, order: seq<bool>): Option<State>
    decreases |order|
  {
    if order == [] then Some(s)
    else if order[0] then (if s.notice.Acting? then Turns(config, NoticeNext(config, s), order[1..]) else None)
    else if s.worker.Rolling? then Turns(config, RollNext(s), order[1..])
    else None
  }

  lemma {:induction false} TurnsReach(config: Config, db: Store, s0: State, s: State, order: seq<bool>)
    requires config.size > 0 && Reaches(config, db, s0, s) && Turns(config, s, order).Some?
    ensures Reaches(config, db, s0, Turns(config, s, order).value)
    decreases |order|
  {
    if order != [] {
      if order[0] {
        Grow(config, db, s0, s, NoticeStep);
        TurnsReach(config, db, s0, NoticeNext(config, s), order[1..]);
      } else {
        Grow(config, db, s0, s, RollStep);
        TurnsReach(config, db, s0, RollNext(s), order[1..]);
      }
    }
  }

  /** Half way: the roll-back and the notice have both decremented, and neither has removed a head. */
  function Halfway(): State { State(0, 0, 1, map[0 := 1, 1 := 2], 0, Acting(0, Remove), Rolling(Remove)) }

  lemma ReachHalfway(db: Store)
    ensures Reaches(Config(1, 0), db, Example(), Halfway())
  {
    var config, s := Config(1, 0), Example();
    var s1 := Next(config, db, s, ResetFails);
    Step(config, db, s, ResetFails);
    TurnsReach(config, db, s, s1, [false, false]);
    var s2 := State(2, 3, 1, map[0 := 1, 1 := 2], 0, Quiet, Rolling(Decrement));
    assert Turns(config, s1, [false, false]) == Some(s2);
    Grow(config, db, s, s2, Reorg(0));
    var s3 := State(2, 0, 1, map[0 := 1, 1 := 2], 0, Acting(0, WriteCount), Rolling(Decrement));
    assert Next(config, db, s2, Reorg(0)) == s3;
    TurnsReach(config, db, s, s3, [true, true, false, true]);
    assert Turns(config, s3, [true, true, false, true]) == Some(Halfway());
  }

  /** A notice about block 0 while both sections are rolled back: each of the two decrements once
      before either removes, and the head of the second section is never removed. */
  lemma BothToZero(db: Store)
    ensures exists t ::
            Reaches(Config(1, 0), db, Example(), t) && AtRest(t) && t.stored == 0 && t.count == 0 && 1 in t.heads
  {
    ReachHalfway(db);
    var s1 := State(0, 0, 1, map[1 := 2], 0, Acting(0, Test), Rolling(Test));
    assert (map[0 := 1, 1 := 2] - {0}) - {0} == map[1 := 2];
    assert Turns(Config(1, 0), Halfway(), [false, true]) == Some(s1);
    TurnsReach(Config(1, 0), db, Example(), Halfway(), [false, true]);
    assert Turns(Config(1, 0), s1, [false, false, true, true]) == Some(State(0, 0, 0, map[1 := 2], 0, Quiet, Failed));
    TurnsReach(Config(1, 0), db, Example(), s1, [false, false, true, true]);
  }

  /** A notice about block 1: it has passed its test when the roll-back removes everything, and then
      restores a count of one with no head recorded. */
  lemma CountWithoutHead(db: Store)
    ensures exists t ::
            Reaches(Config(1, 0), db, Example(), t) && AtRest(t) && t.stored == 1 && t.count == 1 && t.heads == map[]
  {
    var config, s := Config(1, 0), Example();
    var s1 := Next(config, db, s, ResetFails);
    Step(config, db, s, ResetFails);
    Grow(config, db, s, s1, Reorg(1));
    var s2 := State(2, 1, 1, map[0 := 1, 1 := 2], 2, Acting(1, WriteCount), Rolling(WriteCount));
    assert Next(config, db, s1, Reorg(1)) == s2;
    RollAlone(config, db, s2);
    var s3 := State(0, 1, 1, map[], 0, Acting(1, WriteCount), Failed);
    assert RollEnd(s2) == s3;
    Then(config, db, s, s2, s3);
    TurnsReach(config, db, s, s3, [true, true, true]);
    assert Turns(config, s3, [true, true, true]) == Some(State(1, 1, 1, map[], 1, Quiet, Failed));
  }

  /** The look-ups of a section that processSection completes are read steps of the protocol. */
  lemma {:induction false} SectionReads(config: Config, db: Store, s: State, section: nat, oldHead: Hash,
                                        views: seq<Option<Header>>, k: nat)
    requires k <= |views| == config.size && config.size > 0 && s.worker == Busy(section, oldHead, oldHead, 0)
    requires forall i :: 0 <= i < k ==>
             Links(views, oldHead, i) && Stored(db, views[i].value) &&
                 views[i].value.number == section * config.size + i
    ensures Reaches(config, db, s, s.(worker := Busy(section, oldHead, LastOf(views, oldHead, k), k)))
  {
    if k == 0 {
      Stay(config, db, s);
    } else {
      SectionReads(config, db, s, section, oldHead, views, k - 1);
      var t := s.(worker := Busy(section, oldHead, LastOf(views, oldHead, k - 1), k - 1));
      assert Links(views, oldHead, k - 1);
      Grow(config, db, s, t, Read(views[k - 1].value));
    }
  }
}
