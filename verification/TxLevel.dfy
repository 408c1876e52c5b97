/** The fairness cut that enforces the global pending limit: remote accounts are cut back, the
    largest first, until they stand at one common level. */
module TxLevel {
  import opened TxModel
  import opened TxPoolState

  /** What an account keeps when remote accounts may hold at most `level` transactions. */
  function Share(locals: set<Addr>, a: Addr, items: Items, level: nat): Items {
    if a in locals then items else CapTo(items, level)
  }

  function LevelAt(p0: Lists, locals: set<Addr>, level: nat): Lists {
    map a | a in p0 :: p0[a].(items := Share(locals, a, p0[a].items, level))
  }

  /** p is p0 cut back to the level. */
  ghost predicate AtLevel(p0: Lists, locals: set<Addr>, p: Lists, level: nat) {
    p.Keys == p0.Keys && forall a :: Of(p, a) == Share(locals, a, Of(p0, a), level)
  }

  ghost predicate AllFiled(p: Lists) { forall a :: Filed(Of(p, a)) }

  /** No remote account stands above the level. */
  ghost predicate NoneAbove(p0: Lists, locals: set<Addr>, level: nat) {
    forall a :: a !in locals ==> Len(p0, a) <= level
  }

  /** The level is not lower than it has to be. */
  ghost predicate Tight(p0: Lists, locals: set<Addr>, level: nat, limit: nat) {
    NoneAbove(p0, locals, level) || Total(LevelAt(p0, locals, level + 1)) > limit
  }

  /** p is what the pending limit makes of p0: cut back to the highest level that meets the
      global limit, but to no lower level than each account is granted. */
  ghost predicate Levelled(config: Config, locals: set<Addr>, p0: Lists, p: Lists, level: nat) {
    && level >= config.accountSlots
    && AtLevel(p0, locals, p, level)
    && Tight(p0, locals, level, config.globalSlots)
    && (Total(p) <= config.globalSlots || NoneAbove(p, locals, config.accountSlots))
    && (Total(p0) <= config.globalSlots ==> NoneAbove(p0, locals, level))
  }

  /** A round is under way: the accounts done stand at the level, the others one above. */
  ghost predicate MidRound(p0: Lists, locals: set<Addr>, p: Lists, level: nat, done: set<Addr>) {
    p.Keys == p0.Keys && forall a :: Of(p, a) == Share(locals, a, Of(p0, a), if a in done then level else level + 1)
  }

  lemma CapTwice(items: Items, k: nat, less: nat)
    requires Filed(items) && k == less + 1
    ensures CapTo(CapTo(items, k), less) == CapTo(items, less)
  {
    var x := CapTo(items, k);
    CapFacts(items, k);
    forall n | n in x
      ensures Rank(x.Keys, n) == Rank(items.Keys, n)
    {
      assert Preceding(x.Keys, n) == Preceding(items.Keys, n);
    }
  }

  lemma SharesSame(p0: Lists, locals: set<Addr>, a: Addr, low: nat, high: nat)
    requires AllFiled(p0) && low <= high && (a in locals || Len(p0, a) <= low)
    ensures Share(locals, a, Of(p0, a), low) == Share(locals, a, Of(p0, a), high) == Of(p0, a)
  {
    CapFacts(Of(p0, a), low);
    CapFacts(Of(p0, a), high);
  }

  lemma AtLevelMoves(p0: Lists, locals: set<Addr>, p: Lists, high: nat, low: nat)
    requires AllFiled(p0) && AtLevel(p0, locals, p, high) && low <= high && NoneAbove(p0, locals, low)
    ensures AtLevel(p0, locals, p, low)
  {
    forall a
      ensures Of(p, a) == Share(locals, a, Of(p0, a), low)
    {
      SharesSame(p0, locals, a, low, high);
    }
  }

  lemma RoundStep(p0: Lists, locals: set<Addr>, p: Lists, p': Lists, level: nat, done: set<Addr>, a: Addr)
    requires AllFiled(p0) && MidRound(p0, locals, p, level, done) && a !in done && a !in locals && Len(p0, a) > level
    requires p'.Keys == p.Keys && SameBut(p, p', a) && Len(p, a) == level + 1
    requires Of(p', a) == CapTo(Of(p, a), Len(p, a) - 1)
    ensures MidRound(p0, locals, p', level, done + {a})
  {
    CapTwice(Of(p0, a), level + 1, level);
  }

  lemma RoundDone(p0: Lists, locals: set<Addr>, p: Lists, level: nat, done: set<Addr>)
    requires AllFiled(p0) && MidRound(p0, locals, p, level, done)
    requires forall a :: a !in locals && Len(p0, a) > level ==> a in done
    ensures AtLevel(p0, locals, p, level)
  {
    forall a
      ensures Of(p, a) == Share(locals, a, Of(p0, a), level)
    {
      if a !in done { SharesSame(p0, locals, a, level, level + 1); }
    }
  }

  lemma RoundStarts(p0: Lists, locals: set<Addr>, p: Lists, level: nat, lower: nat)
    requires level == lower + 1
    ensures AtLevel(p0, locals, p, level) ==> MidRound(p0, locals, p, lower, {})
  {
  }

  /** A remote account at or above the level holds exactly that many. */
  lemma StandsAt(p0: Lists, locals: set<Addr>, p: Lists, level: nat, a: Addr)
    requires AllFiled(p0) && AtLevel(p0, locals, p, level) && a !in locals
    ensures Len(p, a) == if Len(p0, a) < level then Len(p0, a) else level
  {
    CapFacts(Of(p0, a), level);
  }

  lemma SameTotal(p0: Lists, locals: set<Addr>, p: Lists, level: nat)
    requires AtLevel(p0, locals, p, level)
    ensures Total(p) == Total(LevelAt(p0, locals, level))
  {
    var q := LevelAt(p0, locals, level);
    assert q.Keys == p.Keys;
    forall a | a in p.Keys
      ensures Len(p, a) == Len(q, a)
    {
      assert q[a].items == Share(locals, a, Of(p0, a), level);
    }
    SumSame(p, q, p.Keys);
  }

  lemma {:induction false} SumGrows(m: Lists, m': Lists, ks: set<Addr>)
    requires forall a :: a in ks ==> Len(m, a) <= Len(m', a)
    ensures SumOver(m, ks) <= SumOver(m', ks)
    decreases ks
  {
    if ks != {} {
      var k :| k in ks;
      SumTakeOut(m, ks, k);
      SumTakeOut(m', ks, k);
      SumGrows(m, m', ks - {k});
    }
  }

  /** The higher the level, the more is kept. */
  lemma TotalGrows(p0: Lists, locals: set<Addr>, low: nat, high: nat)
    requires AllFiled(p0) && low <= high
    ensures Total(LevelAt(p0, locals, low)) <= Total(LevelAt(p0, locals, high))
  {
    var x, y := LevelAt(p0, locals, low), LevelAt(p0, locals, high);
    assert x.Keys == y.Keys == p0.Keys;
    forall a | a in p0.Keys
      ensures Len(x, a) <= Len(y, a)
    {
      CapFacts(Of(p0, a), low);
      CapFacts(Of(p0, a), high);
    }
    SumGrows(x, y, p0.Keys);
  }

  /** The outcome of the pending limit is determined: neither the order in which equal
      offenders are picked nor the order of the accounts matters. */
  lemma LevelledUnique(config: Config, locals: set<Addr>, p0: Lists, p: Lists, level: nat, p': Lists, level': nat)
    requires AllFiled(p0) && Levelled(config, locals, p0, p, level) && Levelled(config, locals, p0, p', level')
    ensures forall a :: Of(p, a) == Of(p', a)
  {
    if level < level' {
      LowerUnique(config, locals, p0, p, level, p', level');
    } else if level' < level {
      LowerUnique(config, locals, p0, p', level', p, level);
    }
  }

  lemma LowerUnique(config: Config, locals: set<Addr>, p0: Lists, p: Lists, low: nat, p': Lists, high: nat)
    requires AllFiled(p0) && low < high && Levelled(config, locals, p0, p, low)
    requires Levelled(config, locals, p0, p', high)
    ensures forall a :: Of(p, a) == Of(p', a)
  {
    forall a | a !in locals
      ensures Len(p0, a) <= low
    {
      if Tight(p0, locals, low, config.globalSlots) && Len(p0, a) > low {
        StillOver(config, locals, p0, p', low, high, a);
        StandsAt(p0, locals, p', high, a);
      }
    }
    AtLevelMoves(p0, locals, p', high, low);
  }

  lemma StillOver(config: Config, locals: set<Addr>, p0: Lists, p: Lists, low: nat, high: nat, a: Addr)
    requires AllFiled(p0) && low < high && AtLevel(p0, locals, p, high)
    requires Tight(p0, locals, low, config.globalSlots) && a !in locals && Len(p0, a) > low
    ensures Total(p) > config.globalSlots
  {
    TotalGrows(p0, locals, low + 1, high);
    SameTotal(p0, locals, p, high);
  }

  /** The accounts that stood above the level and are cut. */
  function CutAccounts(p0: Lists, locals: set<Addr>, level: nat): set<Addr> {
    set a | a in p0 && a !in locals && Len(p0, a) > level
  }

  lemma OneHigher(p0: Lists, locals: set<Addr>, level: nat, a: Addr)
    requires AllFiled(p0) && a in p0
    ensures Len(LevelAt(p0, locals, level + 1), a) ==
            Len(LevelAt(p0, locals, level), a) + if a in CutAccounts(p0, locals, level) then 1 else 0
  {
    CapFacts(Of(p0, a), level);
    CapFacts(Of(p0, a), level + 1);
  }

  lemma {:induction false} SumOneHigher(m: Lists, m': Lists, ks: set<Addr>, cut: set<Addr>)
    requires forall a :: a in ks ==> Len(m', a) == Len(m, a) + if a in cut then 1 else 0
    ensures SumOver(m', ks) == SumOver(m, ks) + |ks * cut|
    decreases ks
  {
    if ks != {} {
      var k :| k in ks;
      SumTakeOut(m, ks, k);
      SumTakeOut(m', ks, k);
      SumOneHigher(m, m', ks - {k}, cut);
      OneCounted(ks, cut, k);
    }
  }

  lemma OneCounted(ks: set<Addr>, cut: set<Addr>, k: Addr)
    requires k in ks
    ensures |ks * cut| == |(ks - {k}) * cut| + if k in cut then 1 else 0
  {
    if k in cut {
      assert ks * cut == (ks - {k}) * cut + {k};
    } else {
      assert ks * cut == (ks - {k}) * cut;
    }
  }

  lemma OneLevelHigher(p0: Lists, locals: set<Addr>, level: nat)
    requires AllFiled(p0)
    ensures Total(LevelAt(p0, locals, level + 1)) ==
            Total(LevelAt(p0, locals, level)) + |CutAccounts(p0, locals, level)|
  {
    var m, m', cut := LevelAt(p0, locals, level), LevelAt(p0, locals, level + 1), CutAccounts(p0, locals, level);
    assert m.Keys == p0.Keys == m'.Keys && p0.Keys * cut == cut;
    forall a | a in p0.Keys
      ensures Len(m', a) == Len(m, a) + if a in cut then 1 else 0
    {
      OneHigher(p0, locals, level, a);
    }
    SumOneHigher(m, m', p0.Keys, cut);
  }

  /** No more is cut than it takes: with k accounts cut, at least globalSlots + 1 - k are left. */
  lemma CutNoLowerThanNeeded(config: Config, locals: set<Addr>, p0: Lists, p: Lists, level: nat)
    requires AllFiled(p0) && Levelled(config, locals, p0, p, level)
    ensures forall a :: Of(p, a) != Of(p0, a) <==> a in CutAccounts(p0, locals, level)
    ensures var k := |CutAccounts(p0, locals, level)|; k > 0 ==> Total(p) + k >= config.globalSlots + 1
  {
    var cut := CutAccounts(p0, locals, level);
    forall a
      ensures Of(p, a) != Of(p0, a) <==> a in cut
    {
      CapFacts(Of(p0, a), level);
    }
    OneLevelHigher(p0, locals, level);
    SameTotal(p0, locals, p, level);
  }

  lemma {:induction false} Longest(m: Lists, ks: set<Addr>) returns (a: Addr)
    requires ks != {}
    ensures a in ks && forall b :: b in ks ==> Len(m, b) <= Len(m, a)
    decreases ks
  {
    a :| a in ks;
    if ks != {a} {
      var b := Longest(m, ks - {a});
      if Len(m, b) > Len(m, a) { a := b; }
    }
  }

  /** Some account of a nonempty set has the most transactions. */
  lemma HasLongest(m: Lists, ks: set<Addr>)
    requires ks != {}
    ensures exists a :: a in ks && forall b :: b in ks ==> Len(m, b) <= Len(m, a)
  {
    var a := Longest(m, ks);
  }

  function Members(s: seq<Addr>): set<Addr> { set a | a in s }

  ghost predicate Distinct(s: seq<Addr>) { forall i, j :: 0 <= i < j < |s| ==> s[i] != s[j] }

  /** Every account of the front is remote and held at least `level` transactions. */
  ghost predicate Above(p0: Lists, locals: set<Addr>, front: seq<Addr>, level: nat) {
    forall a :: a in front ==> a in p0 && a !in locals && Len(p0, a) >= level
  }

  /** Every remote account that held more than `level` is in the front. */
  ghost predicate Covers(p0: Lists, locals: set<Addr>, front: seq<Addr>, level: nat) {
    forall a :: a !in locals && Len(p0, a) > level ==> a in front
  }

  lemma MembersGrow(s: seq<Addr>, i: nat)
    requires i < |s|
    ensures Members(s[..i + 1]) == Members(s[..i]) + {s[i]}
  {
    assert s[..i + 1] == s[..i] + [s[i]];
  }

  lemma NextInRound(p0: Lists, locals: set<Addr>, p: Lists, level: nat, lower: nat, front: seq<Addr>, i: nat)
    requires AllFiled(p0) && Distinct(front) && Above(p0, locals, front, level) && i < |front| && level == lower + 1
    requires MidRound(p0, locals, p, lower, Members(front[..i]))
    ensures front[i] in p && front[i] !in Members(front[..i]) && front[i] !in locals && Len(p0, front[i]) > lower
    ensures Len(p, front[i]) == level && Of(p, front[i]) != map[]
  {
    assert front[i] in front;
    CapFacts(Of(p0, front[i]), level);
  }

  lemma RoundReady(p0: Lists, locals: set<Addr>, p: Lists, front: seq<Addr>, floor: nat, level0: nat, level: nat,
                   lower: nat, limit: nat)
    requires AtLevel(p0, locals, p, level) && Total(p) > limit && floor < level <= level0 && level == lower + 1
    requires Above(p0, locals, front, level0) && Covers(p0, locals, front, floor)
    ensures Above(p0, locals, front, level) && Covers(p0, locals, front, lower) && Tight(p0, locals, lower, limit)
  {
    SameTotal(p0, locals, p, level);
  }

  lemma LastStands(p0: Lists, locals: set<Addr>, p: Lists, level: nat, level0: nat, front: seq<Addr>)
    requires AllFiled(p0) && AtLevel(p0, locals, p, level) && front != [] && level <= level0
    requires Above(p0, locals, front, level0)
    ensures Len(p, front[|front| - 1]) == level
  {
    assert front[|front| - 1] in front;
    StandsAt(p0, locals, p, level, front[|front| - 1]);
  }

  // ---- the hunt for offenders ----

  function Spammers(config: Config, locals: set<Addr>, p: Lists): set<Addr> {
    set a | a in p && a !in locals && Len(p, a) > config.accountSlots
  }

  /** Where the search stands: the accounts not yet picked stand no higher than the level, and
      while the pool is too large the picked ones stand at it. */
  ghost predicate Hunt(config: Config, locals: set<Addr>, p0: Lists, p: Lists, spammers: set<Addr>,
                       offenders: seq<Addr>, level: nat, count: nat) {
    && AtLevel(p0, locals, p, level) && count == Total(p) && Tight(p0, locals, level, config.globalSlots)
    && level >= config.accountSlots && Total(p0) >= count
    && Distinct(offenders)
    && (forall a :: a in spammers ==>
        a in p0 && a !in locals && a !in offenders && config.accountSlots < Len(p0, a) <= level)
    && Above(p0, locals, offenders, config.accountSlots + 1)
    && (forall a :: a !in locals && Len(p0, a) > config.accountSlots ==> a in spammers || a in offenders)
    && (count > config.globalSlots ==> Above(p0, locals, offenders, level))
  }

  lemma AreFiled(p: Lists, strict: bool, all: set<Tx>)
    requires SideOk(p, strict, all)
    ensures AllFiled(p)
  {
    forall a
      ensures Filed(Of(p, a))
    {
      assert a in p ==> EntryOk(p[a], a, strict, all);
    }
  }

  lemma LenAtMostTotal(p: Lists, a: Addr)
    ensures Len(p, a) <= Total(p)
  {
    if a in p { SumTakeOut(p, p.Keys, a); }
  }

  lemma HuntStarts(config: Config, locals: set<Addr>, p: Lists, count: nat) returns (level: nat)
    requires AllFiled(p) && count == Total(p)
    ensures NoneAbove(p, locals, level) && Hunt(config, locals, p, p, Spammers(config, locals, p), [], level, count)
    ensures count <= config.globalSlots ==> Levelled(config, locals, p, p, level)
  {
    level := Total(p) + config.accountSlots;
    forall a
      ensures Len(p, a) <= level
      ensures a !in locals ==> CapTo(Of(p, a), level) == Of(p, a)
    {
      LenAtMostTotal(p, a);
      CapFacts(Of(p, a), level);
    }
  }

  /** With the largest account caught, all remote accounts stand at or below it. */
  lemma BelowCaught(config: Config, locals: set<Addr>, p0: Lists, p: Lists, spammers: set<Addr>, offenders: seq<Addr>,
                    level: nat, count: nat, o: Addr)
    requires AllFiled(p0) && Hunt(config, locals, p0, p, spammers, offenders, level, count)
    requires o in spammers && forall b :: b in spammers ==> Len(p, b) <= Len(p, o)
    ensures Len(p, o) == Len(p0, o) && config.accountSlots < Len(p, o) <= level
    ensures (forall b :: b in spammers ==> Len(p0, b) <= Len(p, o)) && Covers(p0, locals, offenders, Len(p, o))
  {
    forall b | b in spammers
      ensures Len(p, b) == Len(p0, b)
    {
      StandsAt(p0, locals, p, level, b);
    }
  }

  lemma FirstOffender(config: Config, locals: set<Addr>, p0: Lists, p: Lists, spammers: set<Addr>, level: nat,
                      count: nat, o: Addr)
    requires AllFiled(p0) && Hunt(config, locals, p0, p, spammers, [], level, count)
    requires o in spammers && forall b :: b in spammers ==> Len(p, b) <= Len(p, o)
    ensures Hunt(config, locals, p0, p, spammers - {o}, [] + [o], Len(p, o), count)
  {
    BelowCaught(config, locals, p0, p, spammers, [], level, count, o);
    AtLevelMoves(p0, locals, p, level, Len(p, o));
  }

  lemma NextOffender(config: Config, locals: set<Addr>, p0: Lists, p: Lists, spammers: set<Addr>, offenders: seq<Addr>,
                     level: nat, count: nat, o: Addr)
    requires AllFiled(p0) && Hunt(config, locals, p0, p, spammers, offenders, level, count)
    requires count > config.globalSlots
    requires o in spammers && forall b :: b in spammers ==> Len(p, b) <= Len(p, o)
    ensures Len(p, o) == Len(p0, o) <= level && Above(p0, locals, offenders, level)
    ensures Covers(p0, locals, offenders, Len(p, o))
    ensures Caught(config, locals, p0, spammers, offenders, level, o)
  {
    BelowCaught(config, locals, p0, p, spammers, offenders, level, count, o);
  }

  /** What the next offender's catch says, whatever is cut afterwards. */
  ghost predicate Caught(config: Config, locals: set<Addr>, p0: Lists, spammers: set<Addr>, offenders: seq<Addr>,
                         level: nat, o: Addr) {
    && o in spammers && config.accountSlots < Len(p0, o) <= level && Distinct(offenders)
    && (forall a :: a in spammers ==>
        a in p0 && a !in locals && a !in offenders && config.accountSlots < Len(p0, a) <= Len(p0, o))
    && Above(p0, locals, offenders, config.accountSlots + 1) && Above(p0, locals, offenders, level)
    && (forall a :: a !in locals && Len(p0, a) > config.accountSlots ==> a in spammers || a in offenders)
  }

  lemma NextCaught(config: Config, locals: set<Addr>, p0: Lists, p: Lists, spammers: set<Addr>, offenders: seq<Addr>,
                   level0: nat, level: nat, count: nat, o: Addr)
    requires Caught(config, locals, p0, spammers, offenders, level0, o) && Len(p0, o) <= level <= level0
    requires count <= Total(p0)
    requires AtLevel(p0, locals, p, level) && count == Total(p) && Tight(p0, locals, level, config.globalSlots)
    requires count <= config.globalSlots || level == Len(p0, o)
    ensures Hunt(config, locals, p0, p, spammers - {o}, offenders + [o], level, count)
  {
  }

  lemma HuntEnds(config: Config, locals: set<Addr>, p0: Lists, p: Lists, offenders: seq<Addr>, level: nat, count: nat)
    requires Hunt(config, locals, p0, p, {}, offenders, level, count) && count > config.globalSlots
    ensures Above(p0, locals, offenders, level) && Covers(p0, locals, offenders, config.accountSlots)
    ensures Total(p0) > config.globalSlots
  {
  }

  lemma CutEnds(config: Config, locals: set<Addr>, p0: Lists, p: Lists, level: nat)
    requires AllFiled(p0) && AtLevel(p0, locals, p, level) && Tight(p0, locals, level, config.globalSlots)
    requires level >= config.accountSlots && (Total(p) <= config.globalSlots || level == config.accountSlots)
    requires Total(p0) > config.globalSlots
    ensures Levelled(config, locals, p0, p, level)
  {
    forall a | a !in locals
      ensures Len(p, a) <= level
    {
      StandsAt(p0, locals, p, level, a);
    }
  }

  lemma HuntOver(config: Config, locals: set<Addr>, p0: Lists, p: Lists, spammers: set<Addr>, offenders: seq<Addr>,
                 level: nat, count: nat)
    requires AllFiled(p0) && Hunt(config, locals, p0, p, spammers, offenders, level, count)
    requires Total(p0) > config.globalSlots
    requires count <= config.globalSlots || (spammers == {} && offenders == [])
    ensures Levelled(config, locals, p0, p, level)
  {
    forall a | a !in locals
      ensures count > config.globalSlots ==> Len(p, a) <= config.accountSlots
    {
      StandsAt(p0, locals, p, level, a);
    }
  }

  /** The number of transactions, account by account. */
  method Count(m: Lists) returns (n: nat)
    ensures n == Total(m)
  {
    n := 0;
    var left := m.Keys;
    while left != {}
      invariant left <= m.Keys && n + SumOver(m, left) == Total(m)
      decreases left
    {
      var a :| a in left;
      SumTakeOut(m, left, a);
      n := n + |m[a].items|;
      left := left - {a};
    }
  }
}
