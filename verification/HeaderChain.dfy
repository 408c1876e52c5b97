/** The header chain of chain/core/headerchain.go: fork choice by total difficulty and the
    canonical numbering that follows it. */
module HeaderChain {
  import opened ChainModel

  datatype Status = UnknownAncestor | Side | Canon

  /** The header database, the total difficulties (stored under the same keys), the canonical
      numbering and the current header. */
  datatype State = State(headers: Store, td: map<Hash, int>, canonical: map<nat, Hash>, head: Header)

  /** What every run of WriteHeader keeps. */
  ghost predicate Inv(s: State, genesis: Header) {
    && Rooted(s.headers, genesis) && Stored(s.headers, s.head)
    && s.td.Keys == s.headers.Keys && (forall h :: h in s.headers ==> s.td[h] == Work(s.headers, h))
    && s.canonical == Ancestry(s.headers, s.head.hash)
    && forall h :: h in s.headers ==> s.td[h] <= s.td[s.head.hash]
  }

  function Genesis(genesis: Header): State {
    State(map[genesis.hash := genesis], map[genesis.hash := genesis.difficulty], map[0 := genesis.hash], genesis)
  }

  /** Whether x becomes the head; coin decides between equals. */
  predicate Wins(s: State, x: Header, coin: bool)
    requires x.parent in s.td && s.head.hash in s.td
  {
    var extern := x.difficulty + s.td[x.parent];
    extern > s.td[s.head.hash] || (extern == s.td[s.head.hash] && coin)
  }

  /** The state after WriteHeader. */
  function Wrote(s: State, x: Header, coin: bool): (r: (State, Status))
    requires Linked(s.headers) && s.td.Keys == s.headers.Keys && s.head.hash in s.headers && Agrees(s.headers, x)
  {
    if Lookup(s.headers, x.parent, x.number - 1).None? then (s, UnknownAncestor) else
      var headers := s.headers[x.hash := x];
      var td := s.td[x.hash := x.difficulty + s.td[x.parent]];
      StaysLinked(s.headers, x);
      if Wins(s, x, coin) then (State(headers, td, Ancestry(headers, x.hash), x), Canon)
      else (State(headers, td, s.canonical, s.head), Side)
  }

  lemma StaysLinked(db: Store, x: Header)
    requires Linked(db) && Agrees(db, x) && Lookup(db, x.parent, x.number - 1).Some?
    ensures Linked(db[x.hash := x]) && Extends(db, db[x.hash := x])
  {
    var db' := db[x.hash := x];
    forall h
      ensures LinkedAt(db', h)
    {
      assert LinkedAt(db, h);
    }
  }

  lemma GenesisKeeps(genesis: Header)
    requires genesis.number == 0 && genesis.hash != NO_HASH
    ensures Inv(Genesis(genesis), genesis)
  {
    var s := Genesis(genesis);
    assert Ancestry(s.headers, genesis.hash) == map[0 := genesis.hash];
  }

  /** Writing a header keeps the invariant, whatever the coin shows. */
  lemma WroteKeeps(s: State, genesis: Header, x: Header, coin: bool)
    requires Inv(s, genesis) && Agrees(s.headers, x)
    ensures Inv(Wrote(s, x, coin).0, genesis)
  {
    if Lookup(s.headers, x.parent, x.number - 1).Some? {
      var r := Wrote(s, x, coin).0;
      StoreHeader(s.headers, genesis, x);
      WorkKept(s.headers, r.headers, x);
      if !Wins(s, x, coin) {
        AncestryGrows(s.headers, r.headers, s.head.hash);
      }
      forall h | h in r.headers
        ensures r.td[h] == Work(r.headers, h)
      {
        assert h in s.headers ==> s.td[h] == Work(s.headers, h);
      }
    }
  }

  /** Old headers keep their total difficulty, the new one gets its parent's plus its own. */
  lemma WorkKept(db: Store, db': Store, x: Header)
    requires Linked(db) && Linked(db') && Extends(db, db') && Agrees(db, x) && Lookup(db, x.parent, x.number - 1).Some?
    requires x.hash in db' && db'[x.hash] == x
    ensures forall h :: h in db ==> Work(db', h) == Work(db, h)
    ensures Work(db', x.hash) == x.difficulty + Work(db, x.parent)
  {
    forall h | h in db
      ensures Work(db', h) == Work(db, h)
    {
      WorkGrows(db, db', h);
    }
  }

  lemma AncestryGrows(db: Store, db': Store, h: Hash)
    requires Linked(db) && Linked(db') && Extends(db, db') && h in db
    ensures Ancestry(db', h) == Ancestry(db, h)
  {
    forall n: nat | n <= db[h].number
      ensures Ancestor(db', h, n) == Ancestor(db, h, n)
    {
      AncestorGrows(db, db', h, n);
    }
  }

  /** A run: headers with the coins they meet. */
  ghost predicate Consistent(xs: seq<(Header, bool)>, genesis: Header) {
    && (forall i :: 0 <= i < |xs| ==> xs[i].0.hash != NO_HASH && (xs[i].0.hash == genesis.hash ==> xs[i].0 == genesis))
    && forall i, j :: 0 <= i < j < |xs| && xs[i].0.hash == xs[j].0.hash ==> xs[i].0 == xs[j].0
  }

  ghost predicate IsRun(states: seq<State>, xs: seq<(Header, bool)>, genesis: Header) {
    && |states| == |xs| + 1 && states[0] == Genesis(genesis)
    && forall i: nat :: i < |xs| ==> WroteAt(states, xs, i)
  }

  ghost predicate WroteAt(states: seq<State>, xs: seq<(Header, bool)>, i: nat) {
    i < |xs| && i + 1 < |states| && Follows(states[i], xs[i].0, xs[i].1, states[i + 1])
  }

  /** r is what writing x to s gives. */
  ghost predicate Follows(s: State, x: Header, coin: bool, r: State) { Writable(s, x) ==> r == Wrote(s, x, coin).0 }

  ghost predicate Writable(s: State, x: Header) {
    Linked(s.headers) && s.td.Keys == s.headers.Keys && s.head.hash in s.headers && Agrees(s.headers, x)
  }

  /** The k-th header found its parent, one number below. */
  predicate Accepted(states: seq<State>, xs: seq<(Header, bool)>, k: nat) {
    && k < |states| && k < |xs| && xs[k].0.parent in states[k].headers
    && states[k].headers[xs[k].0.parent].number + 1 == xs[k].0.number
  }

  /** The headers db are the genesis and those of the first i writes that found their parents. */
  ghost predicate StoresWritten(states: seq<State>, xs: seq<(Header, bool)>, i: nat, db: Store, genesis: Header) {
    && OnlyWritten(states, xs, i, db, genesis) && Stored(db, genesis)
    && forall k: nat :: k < i && Accepted(states, xs, k) ==> Stored(db, xs[k].0)
  }

  ghost predicate OnlyWritten(states: seq<State>, xs: seq<(Header, bool)>, i: nat, db: Store, genesis: Header) {
    forall h :: h in db ==> db[h] == genesis || exists k: nat :: k < i && Accepted(states, xs, k) && xs[k].0 == db[h]
  }

  /** In every run of WriteHeader from the genesis, with any headers and coins, every state meets
      the invariant, and exactly the headers that found their parents are stored. */
  lemma {:induction false} EveryRun(states: seq<State>, xs: seq<(Header, bool)>, genesis: Header, i: nat)
    requires genesis.number == 0 && genesis.hash != NO_HASH && Consistent(xs, genesis) && IsRun(states, xs, genesis)
    requires i <= |xs|
    ensures Inv(states[i], genesis) && StoresWritten(states, xs, i, states[i].headers, genesis)
  {
    if i == 0 {
      GenesisKeeps(genesis);
    } else {
      EveryRun(states, xs, genesis, i - 1);
      assert WroteAt(states, xs, i - 1);
      NextWritten(states, xs, i - 1, i, genesis);
    }
  }

  /** The head is at least as heavy as every header that found its parent, at any time later. */
  lemma HeaviestWins(states: seq<State>, xs: seq<(Header, bool)>, genesis: Header, k: nat, i: nat)
    requires genesis.number == 0 && genesis.hash != NO_HASH && Consistent(xs, genesis) && IsRun(states, xs, genesis)
    requires k < i <= |xs| && Accepted(states, xs, k)
    ensures Linked(states[i].headers) && Stored(states[i].headers, xs[k].0)
    ensures Stored(states[i].headers, states[i].head)
    ensures Work(states[i].headers, xs[k].0.hash) <= Work(states[i].headers, states[i].head.hash)
  {
    EveryRun(states, xs, genesis, i);
    assert Stored(states[i].headers, xs[k].0);
    assert states[i].td[xs[k].0.hash] <= states[i].td[states[i].head.hash];
  }

  lemma NextWritten(states: seq<State>, xs: seq<(Header, bool)>, k: nat, i: nat, genesis: Header)
    requires k < |xs| && i == k + 1 < |states|
    ensures Consistent(xs, genesis) && Inv(states[k], genesis) && WroteAt(states, xs, k) &&
            StoresWritten(states, xs, k, states[k].headers, genesis) ==>
              Inv(states[i], genesis) && StoresWritten(states, xs, i, states[i].headers, genesis)
  {
    if Consistent(xs, genesis) && Inv(states[k], genesis) && WroteAt(states, xs, k) &&
       StoresWritten(states, xs, k, states[k].headers, genesis) {
      AgreesNext(states, xs, k, states[k].headers, genesis);
      WroteKeeps(states[k], genesis, xs[k].0, xs[k].1);
      StoredNext(states, xs, k, i, states[k].headers, states[i].headers, genesis);
    }
  }

  lemma AgreesNext(states: seq<State>, xs: seq<(Header, bool)>, k: nat, db: Store, genesis: Header)
    requires k < |xs| && Consistent(xs, genesis) && OnlyWritten(states, xs, k, db, genesis)
    requires forall h :: h in db ==> db[h].hash == h
    ensures Agrees(db, xs[k].0)
  {
  }

  lemma StoredNext(states: seq<State>, xs: seq<(Header, bool)>, k: nat, i: nat, db: Store, db': Store, genesis: Header)
    requires k < |xs| && i == k + 1 && StoresWritten(states, xs, k, db, genesis) && Agrees(db, xs[k].0)
    requires db' == if Accepted(states, xs, k) then db[xs[k].0.hash := xs[k].0] else db
    ensures StoresWritten(states, xs, i, db', genesis)
  {
    forall h | h in db'
      ensures db'[h] == genesis || exists j: nat :: j < i && Accepted(states, xs, j) && xs[j].0 == db'[h]
    {
      assert (h in db && db'[h] == db[h]) || (Accepted(states, xs, k) && db'[h] == xs[k].0);
    }
  }

  class Headers {
    const genesis: Header
    var headers: Store
    var td: map<Hash, int>
    var canonical: map<nat, Hash>
    var head: Header

    ghost function Value(): State
      reads this
    {
      State(headers, td, canonical, head)
    }

    ghost predicate Valid()
      reads this
    {
      Inv(Value(), genesis)
    }

    constructor (genesis: Header)
      requires genesis.number == 0 && genesis.hash != NO_HASH
      ensures Valid() && this.genesis == genesis && Value() == Genesis(genesis)
      ensures headers == map[genesis.hash := genesis] && td == map[genesis.hash := genesis.difficulty]
      ensures head == genesis
    {
      this.genesis := genesis;
      headers, td := map[genesis.hash := genesis], map[genesis.hash := genesis.difficulty];
      canonical, head := map[0 := genesis.hash], genesis;
      GenesisKeeps(genesis);
    }

    /** WriteHeader. */
    method WriteHeader(x: Header, coin: bool) returns (status: Status)
      requires Valid() && Agrees(headers, x)
      modifies this
      ensures Valid() && (Value(), status) == Wrote(old(Value()), x, coin)
      ensures status == UnknownAncestor <==>
              !(x.parent in old(headers) && old(headers)[x.parent].number + 1 == x.number)
      ensures status == UnknownAncestor ==> Value() == old(Value())
      ensures status != UnknownAncestor ==>
              headers == old(headers)[x.hash := x] && td == old(td)[x.hash := x.difficulty + old(td)[x.parent]]
      ensures status == Canon ==> head == x && old(td)[old(head).hash] <= td[x.hash]
      ensures status == Side ==>
              head == old(head) && canonical == old(canonical) && td[x.hash] <= old(td)[old(head).hash]
      ensures status != UnknownAncestor && td[x.hash] == old(td)[old(head).hash] ==> (status == Canon <==> coin)
    {
      WroteKeeps(Value(), genesis, x, coin);
      if Lookup(headers, x.parent, x.number - 1).None? {
        return UnknownAncestor;
      }
      status := Enter(x, coin);
    }

    /** WriteHeader once the parent is found. */
    method Enter(x: Header, coin: bool) returns (status: Status)
      requires Valid() && Agrees(headers, x) && Lookup(headers, x.parent, x.number - 1).Some?
      modifies this
      ensures (Value(), status) == Wrote(old(Value()), x, coin)
    {
      StoreHeader(headers, genesis, x);
      ghost var db := headers;
      var local, extern := td[head.hash], x.difficulty + td[x.parent];
      td := td[x.hash := extern];
      headers := headers[x.hash := x];
      if extern > local || (extern == local && coin) {
        TakeHead(x, db);
        status := Canon;
      } else {
        status := Side;
      }
    }

    /** A header stored over the database db becomes the head. */
    method TakeHead(x: Header, ghost db: Store)
      requires Rooted(headers, genesis) && Linked(db) && Extends(db, headers) && head.hash in db
      requires canonical == Ancestry(db, head.hash)
      requires Stored(headers, x) && x.number > 0
      modifies this`canonical, this`head
      ensures canonical == Ancestry(headers, x.hash) && head == x
    {
      AncestryGrows(db, headers, head.hash);
      canonical := Renumber(headers, canonical, x, genesis, head.hash);
      head := x;
    }

    /** SetHead: rewinds the chain to the canonical header at number h. */
    method SetHead(h: nat)
      requires Valid()
      modifies this
      ensures Value() == Rewound(old(Value()), h)
      ensures head.number == (if h < old(head).number then h else old(head).number)
      ensures Stored(old(headers), head) && head.number in old(canonical) && old(canonical)[head.number] == head.hash
      ensures forall n :: n in canonical <==> n in old(canonical) && n <= h
      ensures forall n :: n in canonical ==> canonical[n] == old(canonical)[n]
      ensures td.Keys == headers.Keys
      ensures forall x :: x in headers ==> headers[x] == old(headers)[x] && td[x] == old(td)[x]
      ensures forall x :: x in old(headers) ==>
                (x !in headers <==> exists n :: n in old(canonical) && n > h && old(canonical)[n] == x)
    {
      var height := head.number;
      ghost var s := Value();
      RewindStarts(s, h);
      while head.number > h
        invariant Rewinding(s, Value(), h)
        decreases head.number
      {
        RewindStep(s, Value(), h);
        headers, td := headers - {head.hash}, td - {head.hash};
        head := Lookup(headers, head.parent, head.number - 1).value;
      }
      RewindEnds(s, Value(), h);
      RewoundFacts(s, h);
      canonical := Unnumber(canonical, height, h);
    }
  }

  /** The three writes of the canonical numbering: delete above, rewrite below, extend. */
  method Renumber(db: Store, c: map<nat, Hash>, x: Header, ghost genesis: Header, ghost top: Hash)
    returns (c': map<nat, Hash>)
    requires Rooted(db, genesis) && Stored(db, x) && x.number > 0 && top in db && c == Ancestry(db, top)
    ensures c' == Ancestry(db, x.hash)
  {
    assert LinkedAt(db, x.hash);
    c' := DeleteAbove(c, x.number + 1, db[top].number);
    c' := Rewrite(db, c', x.parent, x.number - 1, genesis, top);
    c' := c'[x.number := x.hash];
  }

  method DeleteAbove(c: map<nat, Hash>, first: nat, ghost top: nat) returns (c': map<nat, Hash>)
    requires forall n: nat :: n in c <==> n <= top
    ensures forall n: nat :: n in c' <==> n in c && n < first
    ensures forall n: nat :: n in c' ==> c'[n] == c[n]
  {
    c' := c;
    var i := first;
    while i in c'
      invariant first <= i && (i <= top + 1 || i == first)
      invariant forall n: nat :: n in c' <==> n in c && !(first <= n < i)
      invariant forall n: nat :: n in c' ==> c'[n] == c[n]
      decreases top + 1 - i
    {
      c' := c' - {i};
      i := i + 1;
    }
  }

  method Unnumber(c: map<nat, Hash>, height: nat, h: nat) returns (c': map<nat, Hash>)
    requires forall n :: n in c ==> n <= height
    ensures c' == map n | n in c && n <= h :: c[n]
  {
    c' := c;
    var i := height;
    while i > h
      invariant h <= i <= height || i == height
      invariant c' == map n | n in c && n <= i :: c[n]
    {
      c' := c' - {i};
      i := i - 1;
    }
  }

  /** Writes the ancestry of hash until it meets the numbering that is already there. */
  method Rewrite(db: Store, c: map<nat, Hash>, hash: Hash, number: nat, ghost genesis: Header, ghost top: Hash)
    returns (c': map<nat, Hash>)
    requires Rooted(db, genesis) && hash in db && db[hash].number == number && top in db
    requires forall n: nat :: n in c ==> n <= db[top].number && c[n] == Ancestor(db, top, n)
    requires forall n: nat, m: nat :: n in c && 0 <= m <= n ==> m in c
    requires 0 in c
    ensures forall n: nat :: n <= number ==> n in c' && c'[n] == Ancestor(db, hash, n)
    ensures forall n: nat :: n > number ==> (n in c' <==> n in c)
    ensures forall n: nat :: n > number && n in c ==> c'[n] == c[n]
  {
    c' := c;
    var h, n: nat := hash, number;
    while !(n in c' && c'[n] == h)
      invariant n <= number && h == Ancestor(db, hash, n)
      invariant forall i: nat :: i <= n || i > number ==> (i in c' <==> i in c)
      invariant forall i: nat :: (i <= n || i > number) && i in c ==> c'[i] == c[i]
      invariant forall i: nat :: n < i <= number ==> i in c' && c'[i] == Ancestor(db, hash, i)
      decreases n
    {
      RootReached(db, genesis, hash, top);
      c' := c'[n := h];
      AncestorStep(db, hash, n);
      h := db[h].parent;
      n := n - 1;
    }
    forall i: nat | i <= n
      ensures i in c' && c'[i] == Ancestor(db, hash, i)
    {
      AncestorOfAncestor(db, top, n, i);
      AncestorOfAncestor(db, hash, n, i);
    }
  }

  // ---- rewinding ----

  /** The canonical hashes above number h. */
  function Dropped(s: State, h: nat): set<Hash> { set n | n in s.canonical && n > h :: s.canonical[n] }

  /** The state after SetHead(h): the old canonical prefix, its header at h as head. */
  ghost function Rewound(s: State, h: nat): State
    requires Linked(s.headers) && Stored(s.headers, s.head) && s.canonical == Ancestry(s.headers, s.head.hash)
  {
    var gone := Dropped(s, h);
    State(s.headers - gone, s.td - gone, map n | n in s.canonical && n <= h :: s.canonical[n],
          if h < s.head.number then s.headers[s.canonical[h]] else s.head)
  }

  /** The headers above the current one are gone. */
  ghost predicate Rewinding(s: State, t: State, h: nat) {
    && Linked(s.headers) && Stored(s.headers, s.head) && s.canonical == Ancestry(s.headers, s.head.hash)
    && t.canonical == s.canonical && t.head.number <= s.head.number && (h <= t.head.number || t.head == s.head)
    && t.head == s.headers[Ancestor(s.headers, s.head.hash, t.head.number)]
    && t.headers == s.headers - Dropped(s, t.head.number) && t.td == s.td - Dropped(s, t.head.number)
  }

  lemma RewindStarts(s: State, h: nat)
    requires Linked(s.headers) && Stored(s.headers, s.head) && s.canonical == Ancestry(s.headers, s.head.hash)
    ensures Rewinding(s, s, h)
  {
    assert Dropped(s, s.head.number) == {};
  }

  lemma RewindStep(s: State, t: State, h: nat)
    requires Rewinding(s, t, h) && t.head.number > h
    ensures var headers, td := t.headers - {t.head.hash}, t.td - {t.head.hash};
            var p := Lookup(headers, t.head.parent, t.head.number - 1);
            p.Some? && Rewinding(s, State(headers, td, t.canonical, p.value), h)
  {
    var k := t.head.number;
    AncestorStep(s.headers, s.head.hash, k);
    var parent := Ancestor(s.headers, s.head.hash, k - 1);
    DroppedMore(s, k);
    assert parent !in Dropped(s, k - 1);
  }

  lemma DroppedMore(s: State, k: nat)
    requires Linked(s.headers) && Stored(s.headers, s.head) && s.canonical == Ancestry(s.headers, s.head.hash)
    requires 0 < k <= s.head.number
    ensures Dropped(s, k - 1) == Dropped(s, k) + {s.canonical[k]}
    ensures forall g :: g in Dropped(s, k - 1) ==> g in s.headers && s.headers[g].number >= k
  {
  }

  lemma RewindEnds(s: State, t: State, h: nat)
    requires Rewinding(s, t, h) && t.head.number <= h
    ensures t.headers == Rewound(s, h).headers && t.td == Rewound(s, h).td && t.head == Rewound(s, h).head
  {
    if h >= s.head.number {
      assert Dropped(s, h) == Dropped(s, t.head.number) == {};
    }
  }

  /** What is left after rewinding, header by header and number by number. */
  lemma RewoundFacts(s: State, h: nat)
    requires Linked(s.headers) && Stored(s.headers, s.head) && s.canonical == Ancestry(s.headers, s.head.hash)
    requires s.td.Keys == s.headers.Keys
    ensures var r := Rewound(s, h);
            && r.head.number == (if h < s.head.number then h else s.head.number) && Stored(s.headers, r.head)
            && r.head.number in s.canonical && s.canonical[r.head.number] == r.head.hash
            && r.td.Keys == r.headers.Keys
            && (forall x :: x in r.headers ==> x in s.headers && r.headers[x] == s.headers[x] && r.td[x] == s.td[x])
            && (forall x :: x in s.headers ==>
                  (x !in r.headers <==> exists n :: n in s.canonical && n > h && s.canonical[n] == x))
  {
    var r := Rewound(s, h);
    assert s.head.number in s.canonical;
    assert h < s.head.number ==> h in s.canonical;
  }

  /** Rewinding keeps the store linked exactly if no header off the canonical chain hangs from
      a dropped one. */
  lemma RewoundLinkedIff(s: State, genesis: Header, h: nat)
    requires Inv(s, genesis)
    ensures Linked(Rewound(s, h).headers) <==> forall x :: !Hangs(s, h, x)
  {
    forall x
      ensures LinkedAt(Rewound(s, h).headers, x) <==> !Hangs(s, h, x)
    {
      assert LinkedAt(s.headers, x);
    }
  }

  /** Header x is kept, but its parent is dropped. */
  ghost predicate Hangs(s: State, h: nat, x: Hash) {
    x in s.headers && s.headers[x].number > 0 && x !in Dropped(s, h) && s.headers[x].parent in Dropped(s, h)
  }

  /** A fork at number 1: rewinding to the genesis leaves the side header without its parent. */
  lemma RewindOrphans(g: Header, a: Header, b: Header, side: Header)
    requires g == Header(1, 0, 0, 1) && a == Header(2, 1, 1, 1) && b == Header(3, 2, 2, 1) && side == Header(4, 2, 2, 1)
    ensures var s := State(map[1 := g, 2 := a, 3 := b, 4 := side], map[1 := 1, 2 := 2, 3 := 3, 4 := 3],
                           map[0 := 1, 1 := 2, 2 := 3], b);
            Inv(s, g) && 4 in Rewound(s, 0).headers && 2 !in Rewound(s, 0).headers && !Linked(Rewound(s, 0).headers)
  {
    var db := map[1 := g, 2 := a, 3 := b, 4 := side];
    var s := State(db, map[1 := 1, 2 := 2, 3 := 3, 4 := 3], map[0 := 1, 1 := 2, 2 := 3], b);
    assert Linked(db);
    assert Ancestor(db, 2, 0) == 1 && Ancestor(db, 3, 1) == 2 && Ancestor(db, 3, 0) == 1;
    assert s.canonical == Ancestry(db, 3);
    assert Work(db, 1) == 1 && Work(db, 2) == 2;
    assert Work(db, 3) == 3 && Work(db, 4) == 3;
    assert Inv(s, g);
    assert s.canonical[1] in Dropped(s, 0);
    assert forall n :: n in s.canonical ==> s.canonical[n] != 4;
    assert !LinkedAt(Rewound(s, 0).headers, 4);
  }
}
