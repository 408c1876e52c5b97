/** The section indexer of chain/core/chain_indexer.go: sections are processed with the lock
    released while reorganisations roll the stored sections back. */
module ChainIndexer {
  import opened ChainModel

  const MAX_UINT64: nat := 0xFFFF_FFFF_FFFF_FFFF

  datatype Config = Config(size: nat, confirms: nat)

  /** The statement of setValidSections that comes next. */
  datatype Pc = WriteCount | Test | Decrement | Remove | Assign

  /** The update loop: idle, processing a section of which `taken` headers have been read, rolling
      the index back to nothing after a failed reset (without the lock), or about to give up. */
  datatype Worker = Idle | Busy(section: nat, oldHead: Hash, last: Hash, taken: nat) | Rolling(pc: Pc) | Failed

  /** A reorganisation notice that rolls the index back, and holds the lock meanwhile. */
  datatype Notice = Quiet | Acting(target: nat, pc: Pc)

  datatype State =
    State(stored: nat, known: nat, cascaded: int, heads: map<nat, Hash>, count: nat, notice: Notice, worker: Worker)

  /** What can happen next, in any order. */
  datatype Action =
    | Ahead(head: nat)       // newHead without reorganisation
    | Reorg(head: nat)       // newHead with one, up to its test for sections to roll back
    | NoticeStep             // the next statement of the notice's roll-back
    | Begin                  // the update loop takes up the next section
    | Read(header: Header)   // one header read from whatever chain is canonical now
    | Fail                   // a header is missing or does not link, or the backend fails
    | ResetFails             // the backend cannot be reset
    | RollStep               // the next statement of the roll-back that follows
    | GiveUp                 // the update loop has the lock again after a failure
    | Finish                 // the section is complete: commit, unless rolled back meanwhile

  function SectionHead(heads: map<nat, Hash>, section: int): Hash {
    if section >= 0 && section in heads then heads[section] else NO_HASH
  }

  // ---- setValidSections ----

  /** setValidSections, run without interruption. */
  function Validated(s: State, sections: nat): State {
    s.(count := sections, stored := sections,
       heads := map n | n in s.heads && (n < sections || n >= s.stored) :: s.heads[n])
  }

  /** One statement of it. */
  function Stepped(s: State, target: nat, pc: Pc): State {
    match pc
    case WriteCount => s.(count := target)
    case Test => s
    case Decrement => s.(stored := if s.stored == 0 then MAX_UINT64 else s.stored - 1)
    case Remove => s.(heads := s.heads - {s.stored})
    case Assign => s.(stored := target)
  }

  /** The statement after that; it is the last one if there is none. */
  function After(s: State, target: nat, pc: Pc): Option<Pc> {
    match pc
    case WriteCount => Some(Test)
    case Test => Some(if s.stored > target then Decrement else Assign)
    case Decrement => Some(Remove)
    case Remove => Some(Test)
    case Assign => None
  }

  // ---- newHead ----

  function Cascaded(config: Config, s: State, sections: nat): State {
    if sections * config.size < s.cascaded then s.(cascaded := sections * config.size) else s
  }

  function Forgotten(s: State, sections: nat): State { if sections < s.known then s.(known := sections) else s }

  function OnAhead(config: Config, s: State, head: nat): State
    requires config.size > 0
  {
    if head >= config.confirms && (head + 1 - config.confirms) / config.size > s.known then
      s.(known := (head + 1 - config.confirms) / config.size)
    else s
  }

  /** newHead with a reorganisation, run without interruption. */
  function OnReorg(config: Config, s: State, head: nat): State
    requires config.size > 0
  {
    var changed := head / config.size;
    var s1 := Forgotten(s, changed);
    Cascaded(config, if changed < s1.stored then Validated(s1, changed) else s1, changed)
  }

  // ---- the protocol ----

  /** The update loop takes the lock for these, a notice for its own. */
  predicate NeedsLock(a: Action) { a.Ahead? || a.Reorg? || a.Begin? || a.GiveUp? || a.Finish? }

  predicate Enabled(config: Config, db: Store, s: State, a: Action) {
    && (NeedsLock(a) ==> s.notice.Quiet?)
    && match a
       case Ahead(_) => true
       case Reorg(_) => true
       case NoticeStep => s.notice.Acting?
       case Begin => s.worker.Idle? && s.known > s.stored
       case Read(h) =>
         && s.worker.Busy? && s.worker.taken < config.size && Stored(db, h)
         && h.number == s.worker.section * config.size + s.worker.taken && h.parent == s.worker.last
       case Fail => s.worker.Busy?
       case ResetFails => s.worker.Busy? && s.worker.taken == 0
       case RollStep => s.worker.Rolling?
       case GiveUp => s.worker.Failed?
       case Finish => s.worker.Busy? && s.worker.taken == config.size
  }

  function Next(config: Config, db: Store, s: State, a: Action): (r: State)
    requires config.size > 0 && Enabled(config, db, s, a)
  {
    match a
    case Ahead(head) => OnAhead(config, s, head)
    case Reorg(head) => Noticed(config, s, head / config.size)
    case NoticeStep => NoticeNext(config, s)
    case Begin => s.(worker := Busy(s.stored, SectionHead(s.heads, s.stored - 1), SectionHead(s.heads, s.stored - 1),
                                    0))
    case Read(h) => s.(worker := s.worker.(last := h.hash, taken := s.worker.taken + 1))
    case Fail => s.(worker := Failed)
    case ResetFails => s.(worker := Rolling(WriteCount))
    case RollStep => RollNext(s)
    case GiveUp => s.(known := s.stored, worker := Idle)
    case Finish =>
      if s.worker.oldHead == SectionHead(s.heads, s.worker.section - 1) then Committed(config, s)
      else s.(known := s.stored, worker := Idle)
  }

  function Noticed(config: Config, s: State, changed: nat): State {
    var s1 := Forgotten(s, changed);
    if changed < s1.stored then s1.(notice := Acting(changed, WriteCount)) else Cascaded(config, s1, changed)
  }

  function NoticeNext(config: Config, s: State): State
    requires s.notice.Acting?
  {
    var t, next := Stepped(s, s.notice.target, s.notice.pc), After(s, s.notice.target, s.notice.pc);
    if next.Some? then t.(notice := Acting(s.notice.target, next.value))
    else Cascaded(config, t.(notice := Quiet), s.notice.target)
  }

  function RollNext(s: State): State
    requires s.worker.Rolling?
  {
    var t, next := Stepped(s, 0, s.worker.pc), After(s, 0, s.worker.pc);
    t.(worker := if next.Some? then Rolling(next.value) else Failed)
  }

  function Committed(config: Config, s: State): State
    requires s.worker.Busy?
  {
    var section := s.worker.section;
    Validated(s.(heads := s.heads[section := s.worker.last]), section + 1)
      .(cascaded := (section + 1) * config.size - 1, worker := Idle)
  }

  // ---- what holds ----

  /** Following k parent links from h. */
  function Back(db: Store, h: Hash, k: nat): Option<Hash>
    decreases k
  {
    if k == 0 then Some(h)
    else if h in db then Back(db, db[h].parent, k - 1)
    else None
  }

  /** The head of a section is the last block of the section, and the section's blocks link it
      back to the head of the section before. */
  ghost predicate HeadOk(config: Config, db: Store, heads: map<nat, Hash>, i: nat) {
    i in heads ==>
      && heads[i] in db && heads[i] != NO_HASH
      && db[heads[i]].number + 1 == Ends(config.size, i)
      && Back(db, heads[i], config.size) == Some(SectionHead(heads, i - 1))
  }

  /** The number of blocks in the first i + 1 sections. */
  function Ends(size: nat, i: nat): nat { (i + 1) * size }

  ghost predicate WorkerOk(config: Config, db: Store, s: State) {
    s.worker.Busy? ==>
      var w := s.worker;
      && w.taken <= config.size && s.stored <= w.section
      && (w.section == 0 <==> w.oldHead == NO_HASH)
      && (s.stored == w.section && !Removing(s) ==> SectionHead(s.heads, w.section - 1) == w.oldHead)
      && (Removing(s) ==> s.stored < w.section)
      && Back(db, w.last, w.taken) == Some(w.oldHead)
      && (w.taken > 0 ==> w.last in db && db[w.last].number + 1 == w.section * config.size + w.taken)
  }

  /** A head whose section is no longer counted is about to be removed. */
  predicate Removing(s: State) { (s.notice.Acting? && s.notice.pc.Remove?) || s.worker == Rolling(Remove) }

  /** Nobody is inside setValidSections. */
  predicate AtRest(s: State) { s.notice.Quiet? && !s.worker.Rolling? }

  /** The index as it should be: section heads exactly below the stored count, which is the
      persisted one, and linked one to the next. */
  ghost predicate Right(config: Config, db: Store, s: State) {
    && s.count == s.stored
    && (forall n: nat :: n in s.heads <==> n < s.stored)
    && (forall i: nat :: HeadOk(config, db, s.heads, i))
  }

  /** Someone is about to decrement a counter that is zero. */
  predicate Underflows(s: State) {
    s.stored == 0 && ((s.notice.Acting? && s.notice.pc.Decrement?) || s.worker == Rolling(Decrement))
  }

  ghost predicate NoticeOk(s: State) {
    s.notice.Acting? ==>
      var target, pc := s.notice.target, s.notice.pc;
      && (pc.WriteCount? || pc.Decrement? ==> target < s.stored)
      && target <= s.stored && (pc.Assign? ==> target == s.stored)
      && (if pc.WriteCount? then s.count == s.stored else s.count == target)
  }

  ghost predicate RollOk(s: State) {
    s.worker.Rolling? ==>
      && (s.worker.pc.Decrement? ==> s.stored > 0) && (s.worker.pc.Assign? ==> s.stored == 0)
      && (if s.worker.pc.WriteCount? && s.notice.Quiet? then s.count == s.stored else s.count == 0)
  }

  /** Both roll-backs are under way only if there is nothing left to roll back. */
  ghost predicate Apart(s: State) {
    s.notice.Acting? && s.worker.Rolling? ==>
      && s.stored == 0 && s.notice.target == 0 && s.count == 0
      && (s.notice.pc.Remove? || s.notice.pc.Test? || s.notice.pc.Assign?)
      && (s.worker.pc.WriteCount? || s.worker.pc.Test? || s.worker.pc.Assign?)
  }

  /** What every calm run keeps, also in the middle of a roll-back. */
  ghost predicate Inv(config: Config, db: Store, s: State) {
    && config.size > 0 && Keyed(db)
    && (AtRest(s) ==> s.count == s.stored)
    && (forall n: nat :: n in s.heads <==> n < if Removing(s) then s.stored + 1 else s.stored)
    && (forall i: nat :: HeadOk(config, db, s.heads, i))
    && WorkerOk(config, db, s) && NoticeOk(s) && RollOk(s) && Apart(s)
  }

  /** The lock is missed by the roll-back after a failed reset. It does no harm unless a notice
      finds something to roll back while it runs, or it starts with something to roll back while
      a notice is rolling back. */
  predicate Calm(config: Config, s: State, a: Action)
    requires config.size > 0
  {
    match a
    case Reorg(head) => s.worker.Rolling? ==> head / config.size >= s.stored
    case ResetFails => s.notice.Acting? ==> s.stored == 0
    case _ => true
  }

  function Initial(): State { State(0, 0, 0, map[], 0, Quiet, Idle) }

  /** The heads that stay linked when the last one goes. */
  lemma DropLast(config: Config, db: Store, heads: map<nat, Hash>, top: nat)
    requires forall n: nat :: n in heads <==> n < top + 1
    requires forall i: nat :: HeadOk(config, db, heads, i)
    ensures forall i: nat :: HeadOk(config, db, heads - {top}, i)
  {
    forall i: nat
      ensures HeadOk(config, db, heads - {top}, i)
    {
      assert HeadOk(config, db, heads, i);
    }
  }

  lemma NoticeKeeps(config: Config, db: Store, s: State)
    requires Inv(config, db, s) && s.notice.Acting?
    ensures Inv(config, db, NoticeNext(config, s))
  {
    if s.notice.pc.Remove? { NoticeRemoves(config, db, s); }
  }

  lemma NoticeRemoves(config: Config, db: Store, s: State)
    requires Inv(config, db, s) && s.notice.Acting? && s.notice.pc.Remove?
    ensures Inv(config, db, NoticeNext(config, s))
  {
    DropLast(config, db, s.heads, s.stored);
  }

  lemma RollKeeps(config: Config, db: Store, s: State)
    requires Inv(config, db, s) && s.worker.Rolling?
    ensures Inv(config, db, RollNext(s))
  {
    if s.worker.pc.Remove? { DropLast(config, db, s.heads, s.stored); }
  }

  lemma {:induction false} BackOne(db: Store, h: Header, k: nat, from: Hash)
    requires Stored(db, h) && Back(db, h.parent, k) == Some(from)
    ensures Back(db, h.hash, k + 1) == Some(from)
  {
  }

  /** A section is committed only if its predecessor is still the one it was linked to; then it
      is the next section to be stored. */
  lemma CommitKeeps(config: Config, db: Store, s: State)
    requires Inv(config, db, s) && Enabled(config, db, s, Finish)
    requires s.worker.oldHead == SectionHead(s.heads, s.worker.section - 1)
    ensures s.worker.section == s.stored && Inv(config, db, Committed(config, s))
  {
    var w, t := s.worker, Committed(config, s);
    assert w.section == s.stored;
    SectionEnd(config.size, w.section);
    forall i: nat
      ensures HeadOk(config, db, t.heads, i)
    {
      assert HeadOk(config, db, s.heads, i);
      assert SectionHead(t.heads, i - 1) == if i - 1 == w.section then w.last else SectionHead(s.heads, i - 1);
    }
  }

  lemma SectionEnd(size: nat, i: nat)
    ensures Ends(size, i) == i * size + size
  {
  }

  lemma NoticedKeeps(config: Config, db: Store, s: State, changed: nat)
    requires Inv(config, db, s) && s.notice.Quiet? && (s.worker.Rolling? ==> changed >= s.stored)
    ensures Inv(config, db, Noticed(config, s, changed))
  {
  }

  lemma BeginKeeps(config: Config, db: Store, s: State)
    requires Inv(config, db, s) && Enabled(config, db, s, Begin)
    ensures Inv(config, db, Next(config, db, s, Begin))
  {
    assert s.stored > 0 ==> HeadOk(config, db, s.heads, s.stored - 1);
  }

  /** Every calm step, in any order, keeps the invariant. */
  lemma StepKeeps(config: Config, db: Store, s: State, a: Action)
    requires Inv(config, db, s) && Enabled(config, db, s, a) && Calm(config, s, a)
    ensures Inv(config, db, Next(config, db, s, a))
  {
    match a
    case Ahead(_) =>
    case Reorg(head) => NoticedKeeps(config, db, s, head / config.size);
    case NoticeStep => NoticeKeeps(config, db, s);
    case Begin => BeginKeeps(config, db, s);
    case Read(h) => BackOne(db, h, s.worker.taken, s.worker.oldHead);
    case Fail =>
    case ResetFails =>
    case RollStep => RollKeeps(config, db, s);
    case GiveUp =>
    case Finish =>
      if s.worker.oldHead == SectionHead(s.heads, s.worker.section - 1) { CommitKeeps(config, db, s); }
  }

  ghost predicate IsRun(config: Config, db: Store, states: seq<State>, actions: seq<Action>)
    requires config.size > 0
  {
    && |states| == |actions| + 1 && states[0] == Initial()
    && forall i: nat :: i < |actions| ==> StepsTo(config, db, states, actions, i)
  }

  ghost predicate StepsTo(config: Config, db: Store, states: seq<State>, actions: seq<Action>, i: nat)
    requires config.size > 0
  {
    && i < |actions| && i + 1 < |states|
    && Enabled(config, db, states[i], actions[i]) && states[i + 1] == Next(config, db, states[i], actions[i])
  }

  /** In every calm run, however notices, processing and roll-backs interleave, no counter is ever
      decremented below zero and, whenever nobody is rolling back, the index is right. */
  lemma {:induction false} EveryRun(config: Config, db: Store, states: seq<State>, actions: seq<Action>, i: nat)
    requires config.size > 0 && Keyed(db) && IsRun(config, db, states, actions) && i <= |actions|
    requires forall k :: 0 <= k < i ==> Calm(config, states[k], actions[k])
    ensures Inv(config, db, states[i]) && !Underflows(states[i]) && (AtRest(states[i]) ==> Right(config, db, states[i]))
  {
    if i > 0 {
      EveryRun(config, db, states, actions, i - 1);
      assert StepsTo(config, db, states, actions, i - 1);
      StepKeeps(config, db, states[i - 1], actions[i - 1]);
    }
  }

  // ---- confirmations ----

  /** Among the first i notices one reports a head under which the first n sections are buried as
      deep as required. */
  ghost predicate Buried(config: Config, actions: seq<Action>, i: nat, n: nat) {
    n == 0 || exists k: nat :: k < i && k < |actions| && Buries(config, actions[k], n)
  }

  predicate Buries(config: Config, a: Action, n: nat) { a.Ahead? && n * config.size + config.confirms <= a.head + 1 }

  /** Everything known, stored or in the works is buried. */
  ghost predicate AllBuried(config: Config, actions: seq<Action>, i: nat, s: State) {
    && Buried(config, actions, i, s.known) && Buried(config, actions, i, s.stored)
    && (s.worker.Busy? ==> Buried(config, actions, i, s.worker.section + 1))
  }

  lemma BuriedMore(config: Config, actions: seq<Action>, i: nat, j: nat, n: nat, m: nat)
    requires Buried(config, actions, i, n) && i <= j && m <= n
    ensures Buried(config, actions, j, m)
  {
    if m > 0 {
      var k: nat :| k < i && k < |actions| && Buries(config, actions[k], n);
      assert m * config.size <= n * config.size by { Times(config.size, m, n); }
      assert Buries(config, actions[k], m);
    }
  }

  lemma {:induction false} Times(size: nat, m: nat, n: nat)
    requires m <= n
    ensures m * size <= n * size
    decreases n - m
  {
    if m < n { Times(size, m, n - 1); SplitProduct(n - 1, size); }
  }

  lemma AheadBuried(config: Config, s: State, head: nat)
    requires config.size > 0
    ensures var t := OnAhead(config, s, head); t.known == s.known || Buries(config, Ahead(head), t.known)
  {
  }

  lemma StepBuries(config: Config, db: Store, s: State, a: Action, t: State, actions: seq<Action>, k: nat)
    requires Inv(config, db, s) && Enabled(config, db, s, a) && t == Next(config, db, s, a)
    requires k < |actions| && actions[k] == a && AllBuried(config, actions, k, s)
    ensures AllBuried(config, actions, k + 1, t)
  {
    BuriedMore(config, actions, k, k + 1, s.known, s.known);
    BuriedMore(config, actions, k, k + 1, s.stored, s.stored);
    if s.worker.Busy? { BuriedMore(config, actions, k, k + 1, s.worker.section + 1, s.worker.section + 1); }
    if a.Ahead? {
      AheadBuried(config, s, a.head);
      assert t.known != s.known ==> Buries(config, actions[k], t.known);
    } else {
      LessBuried(config, db, s, a, t);
      if t.known <= s.known { BuriedMore(config, actions, k, k + 1, s.known, t.known); }
      if t.stored <= s.stored { BuriedMore(config, actions, k, k + 1, s.stored, t.stored); }
      if a.Begin? { BuriedMore(config, actions, k, k + 1, s.known, t.worker.section + 1); }
    }
  }

  /** Without a new head nothing more becomes known or stored than was known, stored or in the works. */
  lemma LessBuried(config: Config, db: Store, s: State, a: Action, t: State)
    requires Inv(config, db, s) && Enabled(config, db, s, a) && t == Next(config, db, s, a) && !a.Ahead?
    ensures t.known <= s.known || t.known == s.stored
    ensures t.stored <= s.stored || (s.worker.Busy? && t.stored == s.worker.section + 1)
    ensures t.worker.Busy? ==>
            (s.worker.Busy? && t.worker.section == s.worker.section) || (a.Begin? && t.worker.section < s.known)
  {
  }

  /** In every calm run a section is begun, and stored, only after a head was reported that buries
      its last block under the required number of confirmations. */
  lemma {:induction false} EveryRunBuried(config: Config, db: Store, states: seq<State>, actions: seq<Action>, i: nat)
    requires config.size > 0 && Keyed(db) && IsRun(config, db, states, actions) && i <= |actions|
    requires forall k :: 0 <= k < i ==> Calm(config, states[k], actions[k])
    ensures AllBuried(config, actions, i, states[i])
  {
    if i > 0 {
      EveryRunBuried(config, db, states, actions, i - 1);
      EveryRun(config, db, states, actions, i - 1);
      assert StepsTo(config, db, states, actions, i - 1);
      StepBuries(config, db, states[i - 1], actions[i - 1], states[i], actions, i - 1);
    }
  }

  /** Hence the head of any later section is linked back, section by section, to any earlier one. */
  lemma {:induction false} HeadsChain(config: Config, db: Store, s: State, i: nat, j: nat)
    requires Right(config, db, s) && i <= j < s.stored
    ensures Back(db, s.heads[j], (j - i) * config.size) == Some(s.heads[i])
  {
    if i < j {
      HeadsChain(config, db, s, i, j - 1);
      assert HeadOk(config, db, s.heads, j);
      BackAgain(db, s.heads[j], config.size, (j - 1 - i) * config.size);
      SplitProduct(j - 1 - i, config.size);
    }
  }

  lemma SplitProduct(k: nat, size: nat)
    ensures (k + 1) * size == size + k * size
  {
  }

  lemma {:induction false} BackAgain(db: Store, h: Hash, k: nat, m: nat)
    requires Back(db, h, k).Some?
    ensures Back(db, h, k + m) == Back(db, Back(db, h, k).value, m)
    decreases k
  {
    if k > 0 {
      BackAgain(db, db[h].parent, k - 1, m);
    }
  }

  // ---- the code ----

  function Least(x: int, y: int): (z: int)
    ensures z <= x && z <= y && (z == x || z == y)
  {
    if x < y then x else y
  }

  /** The sections that are confirmed by a head, and the first that is not. */
  lemma Reaches(size: nat, confirms: nat, head: nat, known: nat)
    requires size > 0
    ensures head >= confirms ==>
              var sections := (head + 1 - confirms) / size;
              sections * size + confirms <= head + 1 &&
                  (known >= sections ==> (known + 1) * size + confirms > head + 1)
    ensures head < confirms ==> (known + 1) * size + confirms > head + 1
  {
    if head >= confirms {
      var sections := (head + 1 - confirms) / size;
      if known >= sections { Spans(size, sections + 1, known + 1); }
    } else {
      Spans(size, 1, known + 1);
    }
  }

  lemma Spans(size: nat, x: nat, y: nat)
    requires x <= y
    ensures x * size <= y * size
  {
  }

  class Indexer {
    const config: Config
    var stored: nat
    var known: nat
    var cascaded: int
    var heads: map<nat, Hash>
    var count: nat

    /** The indexer's fields, seen while its update loop is where `w` says. */
    ghost function Value(w: Worker): State
      reads this
    {
      State(stored, known, cascaded, heads, count, Quiet, w)
    }

    constructor (config: Config)
      ensures this.config == config && Value(Idle) == Initial()
      ensures stored == known == count == 0 && cascaded == 0 && heads == map[]
    {
      this.config := config;
      stored, known, cascaded, heads, count := 0, 0, 0, map[], 0;
    }

    /** setValidSections. */
    method SetValidSections(sections: nat, ghost w: Worker)
      modifies this`stored, this`heads, this`count
      ensures Value(w) == Validated(old(Value(w)), sections) && stored == count == sections
      ensures forall n :: n in heads <==> n in old(heads) && !(sections <= n < old(stored))
      ensures forall n :: n in heads ==> heads[n] == old(heads)[n]
    {
      count := sections;
      while stored > sections
        invariant count == sections && (sections <= stored <= old(stored) || stored == old(stored))
        invariant heads == map n | n in old(heads) && (n < stored || n >= old(stored)) :: old(heads)[n]
      {
        stored := stored - 1;
        heads := heads - {stored};
      }
      stored := sections;
      assert heads == Validated(old(Value(w)), sections).heads;
    }

    /** newHead. */
    method NewHead(head: nat, reorg: bool, ghost w: Worker)
      requires config.size > 0
      modifies this
      ensures Value(w) == if reorg then OnReorg(config, old(Value(w)), head) else OnAhead(config, old(Value(w)), head)
      ensures var changed := head / config.size;
              reorg ==>
                && known == Least(old(known), changed) && stored == Least(old(stored), changed)
                && cascaded == Least(old(cascaded), changed * config.size)
                && (forall n :: n in heads <==> n in old(heads) && !(changed <= n < old(stored)))
                && (forall n :: n in heads ==> heads[n] == old(heads)[n])
      ensures !reorg ==>
              && stored == old(stored) && cascaded == old(cascaded) && heads == old(heads) && known >= old(known)
              && (known > old(known) ==> known * config.size + config.confirms <= head + 1)
              && (known + 1) * config.size + config.confirms > head + 1
    {
      if reorg {
        Rewind(head, w);
        return;
      }
      if head >= config.confirms {
        var sections := (head + 1 - config.confirms) / config.size;
        if sections > known { known := sections; }
      }
      Reaches(config.size, config.confirms, head, known);
    }

    /** The part of newHead for a reorganisation. */
    method Rewind(head: nat, ghost w: Worker)
      requires config.size > 0
      modifies this
      ensures Value(w) == OnReorg(config, old(Value(w)), head)
      ensures var changed := head / config.size;
              && known == Least(old(known), changed) && stored == Least(old(stored), changed)
              && cascaded == Least(old(cascaded), changed * config.size)
              && (forall n :: n in heads <==> n in old(heads) && !(changed <= n < old(stored)))
              && (forall n :: n in heads ==> heads[n] == old(heads)[n])
    {
      var changed := head / config.size;
      if changed < known { known := changed; }
      if changed < stored { SetValidSections(changed, w); }
      if changed * config.size < cascaded { cascaded := changed * config.size; }
    }

    /** The last part of an update, under the lock again: commit or give up. */
    method Settle(ghost w: Worker, section: nat, oldHead: Hash, result: Option<Hash>)
      requires config.size > 0
      requires result.Some? ==> w == Busy(section, oldHead, result.value, config.size)
      requires result.None? ==> w == Failed
      modifies this
      ensures Value(Idle) == Next(config, map[], old(Value(w)), if result.Some? then Finish else GiveUp)
      ensures var kept := if section == 0 then NO_HASH else SectionHead(old(heads), section - 1);
              if result.Some? && oldHead == kept then
                && known == old(known) && stored == count == section + 1 && cascaded == stored * config.size - 1
                && section in heads && heads[section] == result.value
                && (forall n :: n < section ==> (n in heads <==> n in old(heads)))
                && (forall n :: n < section && n in heads ==> heads[n] == old(heads)[n])
              else
                && known == stored == old(stored) && count == old(count) && heads == old(heads)
                && cascaded == old(cascaded)
    {
      if result.Some? && oldHead == SectionHead(heads, section - 1) {
        heads := heads[section := result.value];
        SetValidSections(section + 1, w);
        cascaded := stored * config.size - 1;
      } else {
        known := stored;
      }
    }
  }

  /** What the numbers of a section hold when they are looked up. */
  function Views(config: Config, section: nat, view: nat -> Option<Header>): seq<Option<Header>> {
    seq(config.size, i requires 0 <= i < config.size => view(section * config.size + i))
  }

  /** processSection after a successful reset: each number is looked up in the chain that is
      canonical at that moment. It succeeds exactly if every header is there and links to the one
      before, and the backend commits. */
  method ProcessSection(config: Config, section: nat, oldHead: Hash, view: nat -> Option<Header>, commits: bool)
    returns (result: Option<Hash>)
    ensures var views := Views(config, section, view);
            && (result.Some? <==> commits && forall i :: 0 <= i < |views| ==> Links(views, oldHead, i))
            && (result.Some? ==> result.value == LastOf(views, oldHead, |views|))
  {
    var last, number := oldHead, section * config.size;
    ghost var views, i := Views(config, section, view), 0;
    SectionEnd(config.size, section);
    while number < (section + 1) * config.size
      invariant 0 <= i <= |views| && number == section * config.size + i
      invariant (section + 1) * config.size == section * config.size + |views|
      invariant forall j :: 0 <= j < i ==> Links(views, oldHead, j)
      invariant last == LastOf(views, oldHead, i)
      decreases |views| - i
    {
      var header := view(number);
      assert header == views[i];
      if header.None? || header.value.parent != last {
        assert !Links(views, oldHead, i);
        return None;
      }
      last := header.value.hash;
      number, i := number + 1, i + 1;
    }
    if !commits {
      return None;
    }
    return Some(last);
  }

  /** The last hash after i headers. */
  function LastOf(views: seq<Option<Header>>, oldHead: Hash, i: nat): Hash
    requires i <= |views|
  {
    if i == 0 || views[i - 1].None? then oldHead else views[i - 1].value.hash
  }

  predicate Links(views: seq<Option<Header>>, oldHead: Hash, i: nat)
    requires i < |views|
  {
    views[i].Some? && views[i].value.parent == LastOf(views, oldHead, i)
  }
}
