/** Headers stored by hash and linked to their parents. */
module ChainModel {
  type Hash = nat

  /** The zero hash, which the database returns for an absent canonical number. */
  const NO_HASH: Hash := 0

  datatype Option<T> = None | Some(value: T)

  /** A header together with its hash. */
  datatype Header = Header(hash: Hash, parent: Hash, number: nat, difficulty: int)

  type Store = map<Hash, Header>

  predicate Keyed(db: Store) { forall h :: h in db ==> h != NO_HASH && db[h].hash == h }

  /** The stored header under the key (hash, number). */
  function Lookup(db: Store, hash: Hash, number: int): (r: Option<Header>) {
    if hash in db && db[hash].number == number then Some(db[hash]) else None
  }

  /** A header whose hash, if stored, stands for that very header. */
  predicate Agrees(db: Store, x: Header) { x.hash != NO_HASH && (x.hash in db ==> db[x.hash] == x) }

  /** The header stored under h, if any, has its parent stored, one number below. */
  predicate LinkedAt(db: Store, h: Hash) {
    h in db && db[h].number > 0 ==> db[h].parent in db && db[db[h].parent].number + 1 == db[h].number
  }

  ghost predicate Linked(db: Store) { Keyed(db) && forall h :: LinkedAt(db, h) }

  /** Linked back to one genesis. */
  ghost predicate Rooted(db: Store, genesis: Header) {
    && Linked(db) && genesis.number == 0 && genesis.hash in db && db[genesis.hash] == genesis
    && forall h :: h in db && db[h].number == 0 ==> h == genesis.hash
  }

  /** The ancestor of h at the given number. */
  function Ancestor(db: Store, h: Hash, n: nat): (a: Hash)
    requires Linked(db) && h in db && n <= db[h].number
    ensures a in db && db[a].number == n
    decreases db[h].number
  {
    if db[h].number == n then h else
      assert LinkedAt(db, h);
      Ancestor(db, db[h].parent, n)
  }

  /** The sum of difficulties from the root to h. */
  function Work(db: Store, h: Hash): int
    requires Linked(db) && h in db
    decreases db[h].number
  {
    assert LinkedAt(db, h);
    db[h].difficulty + if db[h].number == 0 then 0 else Work(db, db[h].parent)
  }

  /** The ancestry of h, by number. */
  function Ancestry(db: Store, h: Hash): (m: map<nat, Hash>)
    requires Linked(db) && h in db
  {
    map n: nat | n <= db[h].number :: Ancestor(db, h, n)
  }

  lemma {:induction false} AncestorOfAncestor(db: Store, h: Hash, n: nat, m: nat)
    requires Linked(db) && h in db && m <= n <= db[h].number
    ensures Ancestor(db, Ancestor(db, h, n), m) == Ancestor(db, h, m)
    decreases db[h].number
  {
    assert LinkedAt(db, h);
    if n < db[h].number {
      AncestorOfAncestor(db, db[h].parent, n, m);
    }
  }

  ghost predicate Extends(db: Store, db': Store) { forall h :: h in db ==> h in db' && db'[h] == db[h] }

  lemma {:induction false} AncestorGrows(db: Store, db': Store, h: Hash, n: nat)
    requires Linked(db) && Linked(db') && Extends(db, db') && h in db && n <= db[h].number
    ensures Ancestor(db', h, n) == Ancestor(db, h, n)
    decreases db[h].number
  {
    assert LinkedAt(db, h);
    if n < db[h].number {
      AncestorGrows(db, db', db[h].parent, n);
    }
  }

  lemma {:induction false} WorkGrows(db: Store, db': Store, h: Hash)
    requires Linked(db) && Linked(db') && Extends(db, db') && h in db
    ensures Work(db', h) == Work(db, h)
    decreases db[h].number
  {
    assert LinkedAt(db, h);
    if db[h].number > 0 {
      WorkGrows(db, db', db[h].parent);
    }
  }

  /** Storing a header whose parent is stored keeps the store linked. */
  lemma StoreHeader(db: Store, genesis: Header, x: Header)
    requires Rooted(db, genesis) && Agrees(db, x) && Lookup(db, x.parent, x.number - 1).Some?
    ensures Rooted(db[x.hash := x], genesis) && Extends(db, db[x.hash := x])
  {
    var db' := db[x.hash := x];
    forall h
      ensures LinkedAt(db', h)
    {
      assert LinkedAt(db, h);
    }
  }

  lemma RootReached(db: Store, genesis: Header, h: Hash, top: Hash)
    requires Rooted(db, genesis) && h in db && top in db
    ensures Ancestor(db, h, 0) == Ancestor(db, top, 0)
  {
  }

  lemma AncestorStep(db: Store, h: Hash, n: nat)
    requires Linked(db) && h in db && 0 < n <= db[h].number
    ensures db[Ancestor(db, h, n)].parent == Ancestor(db, h, n - 1)
  {
    AncestorOfAncestor(db, h, n, n - 1);
    assert LinkedAt(db, Ancestor(db, h, n));
  }

  // ---- common ancestors ----

  /** Walking from x down its parent links to number n; None where the database has a hole. */
  function Walk(db: Store, x: Header, n: nat): (r: Option<Header>)
    requires n <= x.number
    ensures r.Some? ==> r.value.number == n
    decreases x.number
  {
    if x.number == n then Some(x) else
      match Lookup(db, x.parent, x.number - 1)
      case None => None
      case Some(p) => Walk(db, p, n)
  }

  lemma {:induction false} WalkOn(db: Store, x: Header, n: nat, m: nat)
    requires m <= n <= x.number
    ensures Walk(db, x, m) == if Walk(db, x, n).None? then None else Walk(db, Walk(db, x, n).value, m)
    decreases x.number
  {
    if n < x.number {
      var p := Lookup(db, x.parent, x.number - 1);
      if p.Some? { WalkOn(db, p.value, n, m); }
    }
  }

  predicate Stored(db: Store, x: Header) { x.hash in db && db[x.hash] == x }

  /** x and y have the same ancestor at number n. */
  predicate Meet(db: Store, x: Header, y: Header, n: nat) {
    n <= x.number && n <= y.number && Walk(db, x, n).Some? && Walk(db, x, n) == Walk(db, y, n)
  }

  /** FindCommonAncestor: the highest common ancestor, if the database reaches one. */
  method FindCommonAncestor(db: Store, a0: Header, b0: Header) returns (r: Option<Header>)
    requires Keyed(db) && Agrees(db, a0) && Agrees(db, b0) && (a0.hash == b0.hash ==> a0 == b0)
    ensures r.Some? ==> Meet(db, a0, b0, r.value.number) && Walk(db, a0, r.value.number) == r
    ensures r.Some? ==> forall n :: n > r.value.number ==> !Meet(db, a0, b0, n)
    ensures r.None? ==> forall n: nat :: !Meet(db, a0, b0, n)
  {
    var a, b := a0, b0;
    while a.number > b.number
      invariant a.number <= a0.number && Walk(db, a0, a.number) == Some(a) && (a == a0 || Stored(db, a))
      invariant a.number >= b.number || a == a0
    {
      var p := Lookup(db, a.parent, a.number - 1);
      StepDown(db, a0, a, b0);
      if p.None? { return None; }
      a := p.value;
    }
    while a.number < b.number
      invariant b.number <= b0.number && Walk(db, b0, b.number) == Some(b) && (b == b0 || Stored(db, b))
      invariant b.number >= a.number || b == b0
      invariant a.number == b0.number || a == a0
      decreases b.number
    {
      var p := Lookup(db, b.parent, b.number - 1);
      StepDown(db, b0, b, a0);
      if p.None? { return None; }
      b := p.value;
    }
    while a.hash != b.hash
      invariant a.number == b.number && a.number <= a0.number && b.number <= b0.number
      invariant Walk(db, a0, a.number) == Some(a) && Walk(db, b0, b.number) == Some(b)
      invariant (a == a0 || Stored(db, a)) && (b == b0 || Stored(db, b))
      invariant forall n :: n > a.number ==> !Meet(db, a0, b0, n)
      decreases a.number
    {
      StepDown(db, a0, a, b0);
      StepDown(db, b0, b, a0);
      var p := Lookup(db, a.parent, a.number - 1);
      if p.None? { return None; }
      var q := Lookup(db, b.parent, b.number - 1);
      if q.None? { return None; }
      a, b := p.value, q.value;
    }
    return Some(a);
  }

  /** One link further down, or no common ancestor from here on. */
  lemma StepDown(db: Store, x0: Header, x: Header, y0: Header)
    requires Keyed(db) && x.number <= x0.number && Walk(db, x0, x.number) == Some(x)
    ensures var p := Lookup(db, x.parent, x.number - 1);
            && (p.Some? ==> p.value.number == x.number - 1 && Walk(db, x0, p.value.number) == p && Stored(db, p.value))
            && (p.None? ==> forall n: nat :: n < x.number ==> !Meet(db, x0, y0, n) && !Meet(db, y0, x0, n))
  {
    var p := Lookup(db, x.parent, x.number - 1);
    if p.Some? {
      WalkOn(db, x0, x.number, x.number - 1);
    } else {
      forall n: nat | n < x.number
        ensures !Meet(db, x0, y0, n) && !Meet(db, y0, x0, n)
      {
        WalkOn(db, x0, x.number, n);
      }
    }
  }
}
