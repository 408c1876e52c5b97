/** The block chain of chain/core/blockchain.go: fork choice, reorganisation and the transaction
    lookup index. */
module BlockChain {
  import opened ChainModel
  import opened TxIndex

  datatype Status = UnknownAncestor | Side | Canon

  datatype State =
    State(headers: Store, bodies: Bodies, td: map<Hash, int>, canonical: map<nat, Hash>, lookup: Lookups, head: Header)

  /** Up to the head, the canonical numbers are the head's ancestry. */
  ghost predicate Numbered(db: Store, h: Hash, canonical: map<nat, Hash>)
    requires Linked(db) && h in db
  {
    forall n: nat :: n <= db[h].number ==> n in canonical && canonical[n] == Ancestor(db, h, n)
  }

  /** Every total difficulty is the sum along the ancestry, and the head's is the highest. */
  ghost predicate Heaviest(db: Store, td: map<Hash, int>, head: Hash)
    requires Linked(db)
  {
    && td.Keys == db.Keys && head in db
    && (forall h :: h in db ==> td[h] == Work(db, h))
    && forall h :: h in db ==> td[h] <= td[head]
  }

  ghost predicate NoneRepeat(db: Store, bodies: Bodies)
    requires Backed(db, bodies)
  {
    forall h :: h in db ==> NoRepeat(db, bodies, h)
  }

  /** What every run of block insertions keeps. */
  ghost predicate Inv(s: State, genesis: Header) {
    && Rooted(s.headers, genesis) && Stored(s.headers, s.head) && Backed(s.headers, s.bodies)
    && Heaviest(s.headers, s.td, s.head.hash)
    && Numbered(s.headers, s.head.hash, s.canonical)
    && Indexed(s.headers, s.bodies, s.head.hash, s.lookup)
    && NoneRepeat(s.headers, s.bodies)
  }

  /** Whether block x becomes the head: more work, or the same with a lower number, or a coin. */
  predicate Wins(s: State, x: Header, coin: bool)
    requires x.parent in s.td && s.head.hash in s.td
  {
    var extern, local := x.difficulty + s.td[x.parent], s.td[s.head.hash];
    extern > local || (extern == local && (x.number < s.head.number || (x.number == s.head.number && coin)))
  }

  /** The block fits the database: known hashes stand for the same block, and its transactions
      repeat none of its branch. */
  ghost predicate Fits(s: State, x: Header, txs: seq<Tx>)
    requires Backed(s.headers, s.bodies)
  {
    && Agrees(s.headers, x) && (x.hash in s.headers ==> s.bodies[x.hash] == txs)
    && Distinct(txs)
    && (Lookup(s.headers, x.parent, x.number - 1).Some? ==>
          forall n: nat, i: nat, tx :: At(s.headers, s.bodies, x.parent, n, i, tx) ==> tx !in txs)
  }

  class Blocks {
    const genesis: Header
    var headers: Store
    var bodies: Bodies
    var td: map<Hash, int>
    var canonical: map<nat, Hash>
    var lookup: Lookups
    var head: Header
    var headHeader: Header
    var headFast: Header

    ghost function Value(): State
      reads this
    {
      State(headers, bodies, td, canonical, lookup, head)
    }

    ghost predicate Valid()
      reads this
    {
      Inv(Value(), genesis)
    }

    constructor (genesis: Header)
      requires genesis.number == 0 && genesis.hash != NO_HASH
      ensures Valid() && head == headHeader == headFast == genesis && headers == map[genesis.hash := genesis]
      ensures this.genesis == genesis && td == map[genesis.hash := genesis.difficulty] && lookup == map[]
      ensures canonical == map[0 := genesis.hash] && bodies == map[genesis.hash := []]
    {
      this.genesis := genesis;
      headers, bodies, td := map[genesis.hash := genesis], map[genesis.hash := []],
          map[genesis.hash := genesis.difficulty];
      canonical, lookup := map[0 := genesis.hash], map[];
      head, headHeader, headFast := genesis, genesis, genesis;
    }

    /** WriteBlockAndState. base is the number of the highest block the old and the new head share. */
    method WriteBlock(x: Header, txs: seq<Tx>, coin: bool) returns (status: Status, ghost base: nat)
      requires Valid() && Fits(Value(), x, txs)
      modifies this
      ensures Valid()
      ensures status == UnknownAncestor <==>
              !(x.parent in old(headers) && old(headers)[x.parent].number + 1 == x.number)
      ensures status == UnknownAncestor ==> Value() == old(Value())
      ensures status != UnknownAncestor ==> td == old(td)[x.hash := x.difficulty + old(td)[x.parent]]
      ensures status != UnknownAncestor ==>
              var extern, local, top := td[x.hash], old(td)[old(head).hash], old(head).number;
              && (extern > local ==> status == Canon) && (extern < local ==> status == Side)
              && (extern == local && x.number < top ==> status == Canon)
              && (extern == local && x.number > top ==> status == Side)
              && (extern == local && x.number == top ==> (status == Canon <==> coin))
      ensures status != UnknownAncestor ==> headers == old(headers)[x.hash := x] && bodies == old(bodies)[x.hash := txs]
      ensures status == Canon ==>
              head == x && Wins(old(Value()), x, coin) && StaleAbove(old(canonical), canonical, x.number)
      ensures status == Canon ==> Shared(headers, old(head), x, base)
      ensures status == Canon ==> Followed(headers, x.hash, base, old(canonical), old(headHeader), headHeader)
      ensures status == Canon ==> Followed(headers, x.hash, base, old(canonical), old(headFast), headFast)
      ensures status == Side ==>
              head == old(head) && lookup == old(lookup) && canonical == old(canonical) && !Wins(old(Value()), x, coin)
      ensures status != Canon ==> headHeader == old(headHeader) && headFast == old(headFast)
    {
      base := 0;
      if Lookup(headers, x.parent, x.number - 1).None? {
        return UnknownAncestor, base;
      }
      var extern, local := StoreBlock(x, txs);
      if extern > local || (extern == local && (x.number < head.number || (x.number == head.number && coin))) {
        base := MakeHead(x);
        status := Canon;
      } else {
        status := Side;
      }
    }

    /** Writes the block and its total difficulty. */
    method StoreBlock(x: Header, txs: seq<Tx>) returns (extern: int, local: int)
      requires Valid() && Fits(Value(), x, txs) && Lookup(headers, x.parent, x.number - 1).Some?
      modifies this`headers, this`bodies, this`td
      ensures extern == x.difficulty + old(td)[x.parent] && local == old(td)[head.hash]
      ensures headers == old(headers)[x.hash := x] && bodies == old(bodies)[x.hash := txs]
      ensures td == old(td)[x.hash := x.difficulty + old(td)[x.parent]]
      ensures Sound(Value(), genesis) && Stored(headers, x) && x.number > 0
      ensures extern >= local ==> Heaviest(headers, td, x.hash)
      ensures extern <= local ==> Heaviest(headers, td, head.hash)
    {
      local, extern := td[head.hash], x.difficulty + td[x.parent];
      BlockStored(Value(), genesis, x, txs);
      td := td[x.hash := extern];
      headers, bodies := headers[x.hash := x], bodies[x.hash := txs];
    }

    /** Reorganises if the block does not extend the head, writes its lookup entries and makes it
        the head. */
    method MakeHead(x: Header) returns (ghost base: nat)
      requires Sound(Value(), genesis) && Stored(headers, x) && x.number > 0 && Heaviest(headers, td, x.hash)
      modifies this`canonical, this`lookup, this`head, this`headHeader, this`headFast
      ensures Valid() && head == x && StaleAbove(old(canonical), canonical, x.number)
      ensures Shared(headers, old(head), x, base)
      ensures Followed(headers, x.hash, base, old(canonical), old(headHeader), headHeader)
      ensures Followed(headers, x.hash, base, old(canonical), old(headFast), headFast)
    {
      assert LinkedAt(headers, x.hash);
      assert NoRepeat(headers, bodies, x.hash);
      if x.parent != head.hash {
        base := Switch(x);
      } else {
        base := head.number;
        Extend(x);
      }
    }

    /** The block is on another branch. */
    method Switch(x: Header) returns (ghost base: nat)
      requires Sound(Value(), genesis) && Stored(headers, x) && NoRepeat(headers, bodies, x.hash)
      modifies this`canonical, this`lookup, this`head, this`headHeader, this`headFast
      ensures Numbered(headers, x.hash, canonical) && Indexed(headers, bodies, x.hash, lookup)
      ensures head == x && StaleAbove(old(canonical), canonical, x.number) && Shared(headers, old(head), x, base)
      ensures Followed(headers, x.hash, base, old(canonical), old(headHeader), headHeader)
      ensures Followed(headers, x.hash, base, old(canonical), old(headFast), headFast)
    {
      base := Reorg(x);
      assert IsCanonical(canonical, x);
      Crown(x, x.hash);
    }

    /** The block is on top of the head. */
    method Extend(x: Header)
      requires Sound(Value(), genesis) && Stored(headers, x) && NoRepeat(headers, bodies, x.hash)
      requires x.number > 0 && x.parent == head.hash && LinkedAt(headers, x.hash)
      modifies this`canonical, this`lookup, this`head, this`headHeader, this`headFast
      ensures Numbered(headers, x.hash, canonical) && Indexed(headers, bodies, x.hash, lookup)
      ensures head == x && StaleAbove(old(canonical), canonical, x.number)
      ensures Shared(headers, old(head), x, old(head).number)
      ensures Followed(headers, x.hash, old(head).number, old(canonical), old(headHeader), headHeader)
      ensures Followed(headers, x.hash, old(head).number, old(canonical), old(headFast), headFast)
    {
      FollowsOn(headers, x, canonical, headHeader);
      FollowsOn(headers, x, canonical, headFast);
      Crown(x, head.hash);
    }

    /** The lookup entries of the new head, and its insertion. */
    method Crown(x: Header, ghost from: Hash)
      requires Backed(headers, bodies) && Stored(headers, x) && NoRepeat(headers, bodies, x.hash)
      requires from == x.hash || (x.number > 0 && from == x.parent && from in headers)
      requires Numbered(headers, from, canonical) && Indexed(headers, bodies, from, lookup)
      modifies this`canonical, this`lookup, this`head, this`headHeader, this`headFast
      ensures Numbered(headers, x.hash, canonical) && Indexed(headers, bodies, x.hash, lookup)
      ensures canonical == old(canonical)[x.number := x.hash] && head == x
      ensures var moved := !IsCanonical(old(canonical), x);
              headHeader == (if moved then x else old(headHeader)) && headFast == (if moved then x else old(headFast))
    {
      ghost var before := lookup;
      lookup := WriteEntries(lookup, x.hash, x.number, bodies[x.hash]);
      ExtendIndexed(headers, bodies, x.hash, from, before, lookup);
      NumberHead(headers, x.hash, from, canonical);
      Insert(x);
    }

    /** insert: the head header and the head of fast sync move along only if the block is not
        canonical at its number yet. */
    method Insert(x: Header)
      modifies this`canonical, this`head, this`headHeader, this`headFast
      ensures canonical == old(canonical)[x.number := x.hash] && head == x
      ensures var moved := !IsCanonical(old(canonical), x);
              headHeader == (if moved then x else old(headHeader)) && headFast == (if moved then x else old(headFast))
    {
      var updateHeads := !IsCanonical(canonical, x);
      canonical := canonical[x.number := x.hash];
      head := x;
      if updateHeads {
        headHeader := x;
        headFast := x;
      }
    }

    /** reorg: from the current head's branch to that of x. */
    method Reorg(x: Header) returns (ghost base: nat)
      requires Sound(Value(), genesis) && Stored(headers, x)
      modifies this`canonical, this`lookup, this`head, this`headHeader, this`headFast
      ensures Numbered(headers, x.hash, canonical) && Indexed(headers, bodies, x.hash, lookup)
      ensures StaleAbove(old(canonical), canonical, x.number) && Shared(headers, old(head), x, base)
      ensures Followed(headers, x.hash, base, old(canonical), old(headHeader), headHeader)
      ensures Followed(headers, x.hash, base, old(canonical), old(headFast), headFast)
    {
      ghost var old0, lookup0, numbers := head.hash, lookup, canonical;
      var newChain, deleted, common := Fork(headers, bodies, head, x, genesis);
      base := common.number;
      var added := InsertAll(newChain, x, common);
      var diff := TxDifference(deleted, added);
      ghost var overlaid := lookup;
      lookup := DeleteEntries(lookup, diff);
      ReorgIndexed(headers, bodies, old0, x.hash, common.number, lookup0, overlaid, lookup);
      ReorgNumbered(headers, old0, x.hash, common.number, numbers, canonical);
    }

    /** The blocks of the new branch become canonical, highest first. */
    method InsertAll(newChain: seq<Header>, ghost x: Header, ghost common: Header) returns (added: seq<Tx>)
      requires Backed(headers, bodies) && Stored(headers, x) && NoRepeat(headers, bodies, x.hash)
      requires Gathered(headers, x.hash, common, newChain)
      modifies this`canonical, this`lookup, this`head, this`headHeader, this`headFast
      ensures Overlaid(headers, bodies, x.hash, common.number, old(lookup), lookup)
      ensures Renumbered(headers, x.hash, common.number, old(canonical), canonical)
      ensures forall tx :: tx in added <==> Above(headers, bodies, x.hash, common.number, tx)
      ensures Followed(headers, x.hash, common.number, old(canonical), old(headHeader), headHeader)
      ensures Followed(headers, x.hash, common.number, old(canonical), old(headFast), headFast)
    {
      OverlayStarts(headers, bodies, x.hash, lookup);
      added := [];
      ghost var lo: nat := x.number;
      for i := 0 to |newChain|
        invariant lo == x.number - i
        invariant Overlaid(headers, bodies, x.hash, lo, old(lookup), lookup)
        invariant Renumbered(headers, x.hash, lo, old(canonical), canonical)
        invariant forall tx :: tx in added <==> Above(headers, bodies, x.hash, lo, tx)
        invariant Followed(headers, x.hash, lo, old(canonical), old(headHeader), headHeader)
        invariant Followed(headers, x.hash, lo, old(canonical), old(headFast), headFast)
      {
        ghost var next: nat := lo - 1;
        AddedOne(headers, bodies, x.hash, lo, next, added);
        added := added + bodies[newChain[i].hash];
        InsertOne(newChain[i], x, lo, next, old(lookup), old(canonical), old(headHeader), old(headFast));
        lo := next;
      }
    }

    method InsertOne(b: Header, ghost x: Header, ghost lo: nat, ghost next: nat, ghost lookup0: Lookups,
                     ghost numbers: map<nat, Hash>, ghost hh0: Header, ghost hf0: Header)
      requires Backed(headers, bodies) && Stored(headers, x) && NoRepeat(headers, bodies, x.hash)
      requires lo == next + 1 <= x.number && b == headers[Ancestor(headers, x.hash, lo)]
      requires Overlaid(headers, bodies, x.hash, lo, lookup0, lookup)
      requires Renumbered(headers, x.hash, lo, numbers, canonical)
      requires Followed(headers, x.hash, lo, numbers, hh0, headHeader)
      requires Followed(headers, x.hash, lo, numbers, hf0, headFast)
      modifies this`canonical, this`lookup, this`head, this`headHeader, this`headFast
      ensures Overlaid(headers, bodies, x.hash, next, lookup0, lookup)
      ensures Renumbered(headers, x.hash, next, numbers, canonical)
      ensures Followed(headers, x.hash, next, numbers, hh0, headHeader)
      ensures Followed(headers, x.hash, next, numbers, hf0, headFast)
    {
      ghost var before, hh, hf := lookup, headHeader, headFast;
      FollowOne(headers, x.hash, lo, next, numbers, canonical, hh0, hh);
      FollowOne(headers, x.hash, lo, next, numbers, canonical, hf0, hf);
      Insert(b);
      lookup := WriteEntries(lookup, b.hash, b.number, bodies[b.hash]);
      OverlayOne(headers, bodies, x.hash, lo, next, lookup0, before, lookup);
    }
  }

  predicate IsCanonical(canonical: map<nat, Hash>, x: Header) { x.number in canonical && canonical[x.number] == x.hash }

  /** base is the highest number at which the old and the new head have the same ancestor. */
  ghost predicate Shared(db: Store, o: Header, x: Header, base: nat)
    requires Linked(db) && Stored(db, o) && Stored(db, x)
  {
    && base <= o.number && base <= x.number && Ancestor(db, o.hash, base) == Ancestor(db, x.hash, base)
    && forall n: nat :: base < n <= o.number && n <= x.number ==> Ancestor(db, o.hash, n) != Ancestor(db, x.hash, n)
  }

  /** h's ancestor of number n was not canonical. */
  ghost predicate Fresh(db: Store, h: Hash, numbers: map<nat, Hash>, n: nat)
    requires Linked(db) && h in db
  {
    n <= db[h].number && !(n in numbers && numbers[n] == Ancestor(db, h, n))
  }

  ghost predicate LowestFresh(db: Store, h: Hash, lo: nat, numbers: map<nat, Hash>, n: nat)
    requires Linked(db) && h in db
  {
    n > lo && Fresh(db, h, numbers, n) && forall m: nat :: lo < m < n ==> !Fresh(db, h, numbers, m)
  }

  /** The blocks of h's branch above lo have been inserted, highest first: hh is the lowest of them
      that was not canonical before, or as it was if all were. */
  ghost predicate Followed(db: Store, h: Hash, lo: nat, numbers: map<nat, Hash>, hh0: Header, hh: Header)
    requires Linked(db) && h in db
  {
    || ((forall n: nat :: n > lo ==> !Fresh(db, h, numbers, n)) && hh == hh0)
    || exists n: nat :: LowestFresh(db, h, lo, numbers, n) && hh == db[Ancestor(db, h, n)]
  }

  lemma FollowOne(db: Store, h: Hash, lo: nat, next: nat, numbers: map<nat, Hash>, canonical: map<nat, Hash>,
                  hh0: Header, hh: Header)
    requires Linked(db) && h in db && lo == next + 1 <= db[h].number
    requires Renumbered(db, h, lo, numbers, canonical) && Followed(db, h, lo, numbers, hh0, hh)
    ensures var b := db[Ancestor(db, h, lo)];
            Followed(db, h, next, numbers, hh0, if IsCanonical(canonical, b) then hh else b)
  {
    assert Fresh(db, h, numbers, lo) <==> !IsCanonical(canonical, db[Ancestor(db, h, lo)]);
    if Fresh(db, h, numbers, lo) {
      assert LowestFresh(db, h, next, numbers, lo);
    } else if n: nat :| LowestFresh(db, h, lo, numbers, n) && hh == db[Ancestor(db, h, n)] {
      assert LowestFresh(db, h, next, numbers, n);
    }
  }

  /** The insertion of a block on top of the head. */
  lemma FollowsOn(db: Store, x: Header, numbers: map<nat, Hash>, hh0: Header)
    requires Linked(db) && Stored(db, x) && x.number > 0
    ensures Followed(db, x.hash, x.number - 1, numbers, hh0, if IsCanonical(numbers, x) then hh0 else x)
  {
    assert Ancestor(db, x.hash, x.number) == x.hash;
    assert Fresh(db, x.hash, numbers, x.number) <==> !IsCanonical(numbers, x);
    assert forall n: nat :: n > x.number - 1 && n != x.number ==> !Fresh(db, x.hash, numbers, n);
  }

  /** After a reorganisation that leaves blocks of the old branch behind, the head header is the
      lowest block of the new branch: it is the new head exactly if the branch is one block long. */
  lemma HeaderLagsIff(db: Store, o: Header, x: Header, base: nat, numbers: map<nat, Hash>, hh0: Header, hh: Header)
    requires Linked(db) && Stored(db, o) && Stored(db, x) && Shared(db, o, x, base) && base < o.number
    requires base < x.number
    requires Numbered(db, o.hash, numbers) && Followed(db, x.hash, base, numbers, hh0, hh)
    ensures hh == db[Ancestor(db, x.hash, base + 1)] && (hh == x <==> x.number == base + 1)
  {
    assert Fresh(db, x.hash, numbers, base + 1);
  }

  /** The part of the invariant that a stored block does not touch. */
  ghost predicate Sound(s: State, genesis: Header) {
    && Rooted(s.headers, genesis) && Stored(s.headers, s.head) && Backed(s.headers, s.bodies)
    && Numbered(s.headers, s.head.hash, s.canonical)
    && Indexed(s.headers, s.bodies, s.head.hash, s.lookup)
    && NoneRepeat(s.headers, s.bodies)
  }

  /** o is the ancestor of h, and deleted are the transactions passed on the way down to it. */
  ghost predicate Descended(db: Store, bodies: Bodies, h: Hash, o: Header, deleted: seq<Tx>)
    requires Backed(db, bodies) && h in db
  {
    && o.number <= db[h].number && o == db[Ancestor(db, h, o.number)]
    && forall tx :: tx in deleted <==> Above(db, bodies, h, o.number, tx)
  }

  /** w is the ancestor of h, and chain are the blocks passed on the way down to it. */
  ghost predicate Gathered(db: Store, h: Hash, w: Header, chain: seq<Header>)
    requires Linked(db) && h in db
  {
    && w.number <= db[h].number && w == db[Ancestor(db, h, w.number)] && |chain| == db[h].number - w.number
    && forall i :: 0 <= i < |chain| ==> chain[i] == db[Ancestor(db, h, db[h].number - i)]
  }

  /** The walk down both branches to their highest common block. */
  method Fork(db: Store, bodies: Bodies, x: Header, y: Header, ghost genesis: Header)
    returns (newChain: seq<Header>, deleted: seq<Tx>, common: Header)
    requires Rooted(db, genesis) && Backed(db, bodies) && Stored(db, x) && Stored(db, y)
    ensures Descended(db, bodies, x.hash, common, deleted) && Gathered(db, y.hash, common, newChain)
    ensures forall n: nat :: common.number < n <= x.number && n <= y.number ==>
            Ancestor(db, x.hash, n) != Ancestor(db, y.hash, n)
  {
    var o, w := x, y;
    newChain, deleted := [], [];
    if o.number > w.number {
      while o.number != w.number
        invariant w.number <= o.number && Descended(db, bodies, x.hash, o, deleted)
        decreases o.number
      {
        DescendOne(db, bodies, x.hash, o, deleted);
        deleted := deleted + bodies[o.hash];
        o := Lookup(db, o.parent, o.number - 1).value;
      }
    } else {
      while w.number != o.number
        invariant o.number <= w.number && Gathered(db, y.hash, w, newChain)
        decreases w.number
      {
        GatherOne(db, y.hash, w, newChain);
        newChain := newChain + [w];
        w := Lookup(db, w.parent, w.number - 1).value;
      }
    }
    while o.hash != w.hash
      invariant o.number == w.number && Descended(db, bodies, x.hash, o, deleted) && Gathered(db, y.hash, w, newChain)
      invariant forall n: nat :: o.number < n <= x.number && n <= y.number ==>
                Ancestor(db, x.hash, n) != Ancestor(db, y.hash, n)
      decreases o.number
    {
      RootReached(db, genesis, x.hash, y.hash);
      DescendOne(db, bodies, x.hash, o, deleted);
      GatherOne(db, y.hash, w, newChain);
      deleted, newChain := deleted + bodies[o.hash], newChain + [w];
      o, w := Lookup(db, o.parent, o.number - 1).value, Lookup(db, w.parent, w.number - 1).value;
    }
    common := o;
  }

  lemma DescendOne(db: Store, bodies: Bodies, h: Hash, o: Header, deleted: seq<Tx>)
    requires Backed(db, bodies) && h in db && Descended(db, bodies, h, o, deleted) && o.number > 0
    ensures var p := Lookup(db, o.parent, o.number - 1);
            o.hash in db && p.Some? && p.value.number == o.number - 1 &&
                Descended(db, bodies, h, p.value, deleted + bodies[o.hash])
  {
    AncestorStep(db, h, o.number);
    AddedOne(db, bodies, h, o.number, o.number - 1, deleted);
  }

  lemma GatherOne(db: Store, h: Hash, w: Header, chain: seq<Header>)
    requires Linked(db) && h in db && Gathered(db, h, w, chain) && w.number > 0
    ensures var p := Lookup(db, w.parent, w.number - 1);
            p.Some? && p.value.number == w.number - 1 && Gathered(db, h, p.value, chain + [w])
  {
    AncestorStep(db, h, w.number);
  }

  /** Taking in one more block's transactions. */
  lemma AddedOne(db: Store, bodies: Bodies, h: Hash, lo: nat, next: int, txs: seq<Tx>)
    requires Backed(db, bodies) && h in db && lo <= db[h].number && next == lo - 1
    requires forall tx :: tx in txs <==> Above(db, bodies, h, lo, tx)
    ensures forall tx :: tx in txs + bodies[Ancestor(db, h, lo)] <==> Above(db, bodies, h, next, tx)
  {
    var b := Ancestor(db, h, lo);
    forall tx
      ensures Above(db, bodies, h, next, tx) <==> Above(db, bodies, h, lo, tx) || tx in bodies[b]
    {
      if tx in bodies[b] {
        var j :| 0 <= j < |bodies[b]| && bodies[b][j] == tx;
        assert At(db, bodies, h, lo, j, tx);
      }
    }
  }

  /** The numbers above lo have been rewritten to h's ancestry. */
  ghost predicate Renumbered(db: Store, h: Hash, lo: nat, numbers: map<nat, Hash>, canonical: map<nat, Hash>)
    requires Linked(db) && h in db
  {
    && (forall n: nat :: lo < n <= db[h].number ==> n in canonical && canonical[n] == Ancestor(db, h, n))
    && (forall n: nat :: n <= lo ==> (n in canonical <==> n in numbers))
    && (forall n: nat :: n <= lo && n in numbers ==> canonical[n] == numbers[n])
    && StaleAbove(numbers, canonical, db[h].number)
  }

  /** The numbers above top are left as they were, even if they belong to no branch of the head. */
  ghost predicate StaleAbove(numbers: map<nat, Hash>, canonical: map<nat, Hash>, top: nat) {
    && (forall n: nat :: n > top ==> (n in canonical <==> n in numbers))
    && (forall n: nat :: n > top && n in numbers ==> canonical[n] == numbers[n])
  }

  lemma ReorgNumbered(db: Store, x: Hash, y: Hash, c: nat, numbers: map<nat, Hash>, canonical: map<nat, Hash>)
    requires Linked(db) && x in db && y in db && c <= db[x].number && c <= db[y].number
    requires Ancestor(db, x, c) == Ancestor(db, y, c)
    requires Numbered(db, x, numbers) && Renumbered(db, y, c, numbers, canonical)
    ensures Numbered(db, y, canonical)
  {
    forall n: nat | n <= c
      ensures canonical[n] == Ancestor(db, y, n)
    {
      AncestorOfAncestor(db, x, c, n);
      AncestorOfAncestor(db, y, c, n);
    }
  }

  lemma NumberHead(db: Store, x: Hash, from: Hash, canonical: map<nat, Hash>)
    requires Linked(db) && x in db && (from == x || (db[x].number > 0 && from == db[x].parent && from in db))
    requires Numbered(db, from, canonical)
    ensures Numbered(db, x, canonical[db[x].number := x])
  {
    assert LinkedAt(db, x);
  }

  /** A larger database says the same about the old blocks. */
  lemma IndexGrows(db: Store, bodies: Bodies, db': Store, bodies': Bodies, h: Hash, n: nat, i: nat, tx: Tx)
    requires Backed(db, bodies) && Backed(db', bodies') && Extends(db, db') && h in db
    requires forall b :: b in bodies ==> bodies'[b] == bodies[b]
    ensures At(db', bodies', h, n, i, tx) <==> At(db, bodies, h, n, i, tx)
  {
    if n <= db[h].number { AncestorGrows(db, db', h, n); }
  }

  lemma KeepsNoRepeat(db: Store, bodies: Bodies, db': Store, bodies': Bodies, h: Hash)
    requires Backed(db, bodies) && Backed(db', bodies') && Extends(db, db') && h in db && NoRepeat(db, bodies, h)
    requires forall b :: b in bodies ==> bodies'[b] == bodies[b]
    ensures NoRepeat(db', bodies', h)
  {
    forall n: nat, i: nat, tx
      ensures At(db', bodies', h, n, i, tx) <==> At(db, bodies, h, n, i, tx)
    {
      IndexGrows(db, bodies, db', bodies', h, n, i, tx);
    }
  }

  lemma KeepsIndexed(db: Store, bodies: Bodies, db': Store, bodies': Bodies, h: Hash, lookup: Lookups)
    requires Backed(db, bodies) && Backed(db', bodies') && Extends(db, db') && h in db && Indexed(db, bodies, h, lookup)
    requires forall b :: b in bodies ==> bodies'[b] == bodies[b]
    ensures Indexed(db', bodies', h, lookup)
  {
    forall n: nat, i: nat, tx
      ensures At(db', bodies', h, n, i, tx) <==> At(db, bodies, h, n, i, tx)
    {
      IndexGrows(db, bodies, db', bodies', h, n, i, tx);
    }
    forall n: nat, i: nat, tx | At(db', bodies', h, n, i, tx)
      ensures tx in lookup && lookup[tx] == Entry(Ancestor(db', h, n), n, i)
    {
      assert At(db, bodies, h, n, i, tx);
      AncestorGrows(db, db', h, n);
    }
  }

  lemma KeepsNumbered(db: Store, db': Store, h: Hash, canonical: map<nat, Hash>)
    requires Linked(db) && Linked(db') && Extends(db, db') && h in db && Numbered(db, h, canonical)
    ensures Numbered(db', h, canonical)
  {
    forall n: nat | n <= db[h].number
      ensures canonical[n] == Ancestor(db', h, n)
    {
      AncestorGrows(db, db', h, n);
    }
  }

  /** A fitting new block repeats nothing on its branch. */
  lemma NewNoRepeat(db: Store, bodies: Bodies, x: Header, txs: seq<Tx>)
    requires Backed(db, bodies) && Stored(db, x) && x.number > 0 && bodies[x.hash] == txs && Distinct(txs)
    requires x.parent in db && NoRepeat(db, bodies, x.parent)
    requires forall n: nat, i: nat, tx :: At(db, bodies, x.parent, n, i, tx) ==> tx !in txs
    ensures NoRepeat(db, bodies, x.hash)
  {
    assert LinkedAt(db, x.hash);
    forall n: nat, i: nat, m: nat, j: nat, tx | At(db, bodies, x.hash, n, i, tx) && At(db, bodies, x.hash, m, j, tx)
      ensures n == m && i == j
    {
      assert n < x.number ==> At(db, bodies, x.parent, n, i, tx);
      assert m < x.number ==> At(db, bodies, x.parent, m, j, tx);
    }
  }

  lemma WorkStored(db: Store, td: map<Hash, int>, head: Hash, x: Header, db': Store, td': map<Hash, int>)
    requires Linked(db) && Linked(db') && Heaviest(db, td, head) && Agrees(db, x)
    requires Lookup(db, x.parent, x.number - 1).Some?
    requires db' == db[x.hash := x] && td' == td[x.hash := x.difficulty + td[x.parent]]
    ensures td'[x.hash] >= td[head] ==> Heaviest(db', td', x.hash)
    ensures td'[x.hash] <= td[head] ==> Heaviest(db', td', head)
  {
    forall h | h in db
      ensures Work(db', h) == Work(db, h)
    {
      WorkGrows(db, db', h);
    }
    assert td'[x.hash] == Work(db', x.hash);
    assert x.hash in db ==> td[x.hash] == td'[x.hash] && td[x.hash] == Work(db, x.hash);
  }

  /** What holds once the block is in the database, before the head moves. */
  lemma BlockStored(s: State, genesis: Header, x: Header, txs: seq<Tx>)
    requires Inv(s, genesis) && Fits(s, x, txs) && Lookup(s.headers, x.parent, x.number - 1).Some?
    ensures var extern := x.difficulty + s.td[x.parent];
            var s' := s.(headers := s.headers[x.hash := x], bodies := s.bodies[x.hash := txs],
                         td := s.td[x.hash := extern]);
            && Sound(s', genesis) && Stored(s'.headers, x)
            && (extern >= s.td[s.head.hash] ==> Heaviest(s'.headers, s'.td, x.hash))
            && (extern <= s.td[s.head.hash] ==> Heaviest(s'.headers, s'.td, s.head.hash))
  {
    var db, bodies := s.headers[x.hash := x], s.bodies[x.hash := txs];
    StoreHeader(s.headers, genesis, x);
    WorkStored(s.headers, s.td, s.head.hash, x, db, s.td[x.hash := x.difficulty + s.td[x.parent]]);
    KeepsNumbered(s.headers, db, s.head.hash, s.canonical);
    KeepsIndexed(s.headers, s.bodies, db, bodies, s.head.hash, s.lookup);
    forall h | h in db
      ensures NoRepeat(db, bodies, h)
    {
      if h in s.headers {
        KeepsNoRepeat(s.headers, s.bodies, db, bodies, h);
      } else {
        KeepsNoRepeat(s.headers, s.bodies, db, bodies, x.parent);
        forall n: nat, i: nat, tx | At(db, bodies, x.parent, n, i, tx)
          ensures tx !in txs
        {
          IndexGrows(s.headers, s.bodies, db, bodies, x.parent, n, i, tx);
        }
        NewNoRepeat(db, bodies, x, txs);
      }
    }
  }

  /** The numbering is exact: the numbers assigned are those up to the head. */
  ghost predicate ExactNumbers(canonical: map<nat, Hash>, top: nat) { forall n: nat :: n in canonical <==> n <= top }

  /** The assigned numbers are exactly those up to the new head if and only if none above it was
      assigned before. If they were exact before, that is so if and only if the new head is not lower
      than the old one. */
  lemma ExactNumbersIff(db: Store, x: Hash, numbers: map<nat, Hash>, canonical: map<nat, Hash>)
    requires Linked(db) && x in db && Numbered(db, x, canonical) && StaleAbove(numbers, canonical, db[x].number)
    ensures ExactNumbers(canonical, db[x].number) <==> (forall n: nat :: n in numbers ==> n <= db[x].number)
    ensures forall o: nat :: ExactNumbers(numbers, o) ==> (ExactNumbers(canonical, db[x].number) <==> o <= db[x].number)
  {
    var top := db[x].number;
    if ExactNumbers(canonical, top) {
      forall n: nat | n in numbers
        ensures n <= top
      {
        assert n > top ==> n in canonical;
      }
    }
    forall o: nat | ExactNumbers(numbers, o)
      ensures ExactNumbers(canonical, top) <==> o <= top
    {
      assert o in numbers;
    }
  }

  /** A block of the same total difficulty as the head but a lower number becomes head. After the
      insertion the old head is still canonical at the number above, although its parent is not
      canonical any more. */
  lemma StaleNumber(g: Header, a: Header, b: Header, x: Header, canonical: map<nat, Hash>)
    requires g == Header(1, 0, 0, 1) && a == Header(2, 1, 1, 1) && b == Header(3, 2, 2, 1) && x == Header(4, 1, 1, 2)
    ensures var s := State(map[1 := g, 2 := a, 3 := b], map[1 := [], 2 := [], 3 := []], map[1 := 1, 2 := 2, 3 := 3],
                           map[0 := 1, 1 := 2, 2 := 3], map[], b);
            var db := s.headers[4 := x];
            && Inv(s, g) && Fits(s, x, []) && Wins(s, x, false) && Linked(db)
            && (Numbered(db, 4, canonical) && StaleAbove(s.canonical, canonical, 1) ==>
                  1 in canonical && 2 in canonical && canonical[1] == 4 && canonical[2] == 3 && db[3].parent == 2)
  {
    var db: Store, bodies: Bodies := map[1 := g, 2 := a, 3 := b], map[1 := [], 2 := [], 3 := []];
    var s := State(db, bodies, map[1 := 1, 2 := 2, 3 := 3], map[0 := 1, 1 := 2, 2 := 3], map[], b);
    assert Linked(db);
    assert Ancestor(db, 2, 0) == 1;
    assert Ancestor(db, 3, 1) == 2;
    assert Ancestor(db, 3, 0) == Ancestor(db, 2, 0);
    assert Work(db, 1) == 1 && Work(db, 2) == 2;
    assert Work(db, 3) == 3;
    assert Inv(s, g);
    StaleTree(g, a, b, x, db[4 := x]);
  }

  lemma StaleTree(g: Header, a: Header, b: Header, x: Header, db: Store)
    requires g == Header(1, 0, 0, 1) && a == Header(2, 1, 1, 1) && b == Header(3, 2, 2, 1) && x == Header(4, 1, 1, 2)
    requires db == map[1 := g, 2 := a, 3 := b][4 := x]
    ensures Linked(db) && Ancestor(db, 4, 1) == 4
  {
    assert Linked(db);
  }

  /** Two blocks on a side branch: when the second wins, the head header is left at the first. */
  lemma HeaderLags(g: Header, a: Header, b: Header, c: Header, hh: Header)
    requires g == Header(1, 0, 0, 1) && a == Header(2, 1, 1, 1) && b == Header(3, 1, 1, 1) && c == Header(4, 3, 2, 1)
    ensures var s := State(map[1 := g, 2 := a, 3 := b], map[1 := [], 2 := [], 3 := []], map[1 := 1, 2 := 2, 3 := 2],
                           map[0 := 1, 1 := 2], map[], a);
            var db := s.headers[4 := c];
            && Inv(s, g) && Fits(s, c, []) && Wins(s, c, false)
            && Linked(db) && Shared(db, a, c, 0)
            && (Followed(db, 4, 0, s.canonical, a, hh) ==> hh == b)
  {
    var db0: Store, bodies: Bodies := map[1 := g, 2 := a, 3 := b], map[1 := [], 2 := [], 3 := []];
    var s := State(db0, bodies, map[1 := 1, 2 := 2, 3 := 2], map[0 := 1, 1 := 2], map[], a);
    assert Linked(db0);
    assert Ancestor(db0, 2, 0) == 1 && Ancestor(db0, 3, 0) == 1;
    assert Work(db0, 1) == 1 && Work(db0, 2) == 2 && Work(db0, 3) == 2;
    assert Inv(s, g);
    LagTree(g, a, b, c, db0[4 := c], hh);
  }

  lemma LagTree(g: Header, a: Header, b: Header, c: Header, db: Store, hh: Header)
    requires g == Header(1, 0, 0, 1) && a == Header(2, 1, 1, 1) && b == Header(3, 1, 1, 1) && c == Header(4, 3, 2, 1)
    requires db == map[1 := g, 2 := a, 3 := b][4 := c]
    ensures Linked(db) && Shared(db, a, c, 0) && (Followed(db, 4, 0, map[0 := 1, 1 := 2], a, hh) ==> hh == b)
  {
    assert Linked(db);
    assert Ancestor(db, 3, 0) == 1 && Ancestor(db, 2, 0) == 1;
    assert Ancestor(db, 3, 1) == 3;
    assert Ancestor(db, 4, 1) == 3;
    assert Ancestor(db, 4, 0) == Ancestor(db, 3, 0);
    if Followed(db, 4, 0, map[0 := 1, 1 := 2], a, hh) { HeaderLagsIff(db, a, c, 0, map[0 := 1, 1 := 2], a, hh); }
  }
}
