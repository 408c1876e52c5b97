/** The transaction lookup index over a branch of blocks. */
module TxIndex {
  import opened ChainModel

  type Tx = nat

  datatype Entry = Entry(block: Hash, number: nat, index: nat)

  type Bodies = map<Hash, seq<Tx>>

  type Lookups = map<Tx, Entry>

  ghost predicate Backed(db: Store, bodies: Bodies) { Linked(db) && bodies.Keys == db.Keys }

  /** The transaction at position i of h's ancestor at number n is tx. */
  ghost predicate At(db: Store, bodies: Bodies, h: Hash, n: nat, i: nat, tx: Tx)
    requires Backed(db, bodies) && h in db
  {
    n <= db[h].number && i < |bodies[Ancestor(db, h, n)]| && bodies[Ancestor(db, h, n)][i] == tx
  }

  /** No transaction repeats on the branch that ends at h. */
  ghost predicate NoRepeat(db: Store, bodies: Bodies, h: Hash)
    requires Backed(db, bodies) && h in db
  {
    forall n: nat, i: nat, m: nat, j: nat, tx :: At(db, bodies, h, n, i, tx) && At(db, bodies, h, m, j, tx) ==>
        n == m && i == j
  }

  /** The index lists exactly the transactions of h's ancestry, each at its block and position. */
  ghost predicate Indexed(db: Store, bodies: Bodies, h: Hash, lookup: Lookups)
    requires Backed(db, bodies) && h in db
  {
    && (forall tx :: tx in lookup ==> At(db, bodies, h, lookup[tx].number, lookup[tx].index, tx))
    && (forall n: nat, i: nat, tx :: At(db, bodies, h, n, i, tx) ==>
        tx in lookup && lookup[tx] == Entry(Ancestor(db, h, n), n, i))
  }

  /** tx is on h's branch above number lo. */
  ghost predicate Above(db: Store, bodies: Bodies, h: Hash, lo: int, tx: Tx)
    requires Backed(db, bodies) && h in db
  {
    exists n: nat, i: nat :: n > lo && At(db, bodies, h, n, i, tx)
  }

  ghost predicate Distinct(txs: seq<Tx>) { forall i, j :: 0 <= i < j < |txs| ==> txs[i] != txs[j] }

  /** Position i is the last at which the list has its transaction. */
  ghost predicate IsLast(txs: seq<Tx>, i: nat) { i < |txs| && forall j :: i < j < |txs| ==> txs[j] != txs[i] }

  /** The entries of one block have been written over the index: of a transaction listed twice the
      last position counts. */
  ghost predicate Written(lookup: Lookups, lookup': Lookups, h: Hash, number: nat, txs: seq<Tx>) {
    && (forall i :: 0 <= i < |txs| ==> txs[i] in lookup')
    && (forall i :: 0 <= i < |txs| && IsLast(txs, i) ==> lookup'[txs[i]] == Entry(h, number, i))
    && (forall tx :: tx !in txs ==> (tx in lookup' <==> tx in lookup))
    && (forall tx :: tx !in txs && tx in lookup ==> lookup'[tx] == lookup[tx])
  }

  /** WriteTxLookupEntries. */
  method WriteEntries(lookup: Lookups, h: Hash, number: nat, txs: seq<Tx>) returns (lookup': Lookups)
    ensures Written(lookup, lookup', h, number, txs)
  {
    lookup' := lookup;
    for i := 0 to |txs|
      invariant Written(lookup, lookup', h, number, txs[..i])
    {
      WriteMore(lookup, lookup', h, number, txs[..i], txs[i]);
      assert txs[..i + 1] == txs[..i] + [txs[i]];
      lookup' := lookup'[txs[i] := Entry(h, number, i)];
    }
    assert txs[..|txs|] == txs;
  }

  lemma WriteMore(lookup: Lookups, lookup': Lookups, h: Hash, number: nat, front: seq<Tx>, tx: Tx)
    requires Written(lookup, lookup', h, number, front)
    ensures Written(lookup, lookup'[tx := Entry(h, number, |front|)], h, number, front + [tx])
  {
    var next, more := lookup'[tx := Entry(h, number, |front|)], front + [tx];
    forall j | 0 <= j < |more| && IsLast(more, j)
      ensures next[more[j]] == Entry(h, number, j)
    {
      if j < |front| { StillLast(front, tx, j); }
    }
  }

  lemma StillLast(front: seq<Tx>, tx: Tx, j: nat)
    requires j < |front| && IsLast(front + [tx], j)
    ensures IsLast(front, j) && front[j] != tx
  {
    var more := front + [tx];
    assert more[|front|] != more[j];
    assert forall k :: j < k < |front| ==> more[k] == front[k];
  }

  lemma EachIsLast(txs: seq<Tx>)
    requires Distinct(txs)
    ensures forall i :: 0 <= i < |txs| ==> IsLast(txs, i)
  {
  }

  /** TxDifference: what of a is not in b, in order. */
  method TxDifference(a: seq<Tx>, b: seq<Tx>) returns (keep: seq<Tx>)
    ensures forall tx :: tx in keep <==> tx in a && tx !in b
  {
    keep := [];
    var remove := set tx | tx in b;
    for i := 0 to |a|
      invariant forall tx :: tx in keep <==> tx in a[..i] && tx !in b
    {
      assert a[..i + 1] == a[..i] + [a[i]];
      if a[i] !in remove { keep := keep + [a[i]]; }
    }
    assert a[..|a|] == a;
  }

  /** DeleteTxLookupEntry for each of a list of transactions. */
  method DeleteEntries(lookup: Lookups, gone: seq<Tx>) returns (lookup': Lookups)
    ensures forall tx :: tx in lookup' <==> tx in lookup && tx !in gone
    ensures forall tx :: tx in lookup' ==> lookup'[tx] == lookup[tx]
  {
    lookup' := lookup;
    for i := 0 to |gone|
      invariant forall tx :: tx in lookup' <==> tx in lookup && tx !in gone[..i]
      invariant forall tx :: tx in lookup' ==> lookup'[tx] == lookup[tx]
    {
      assert gone[..i + 1] == gone[..i] + [gone[i]];
      lookup' := lookup' - {gone[i]};
    }
    assert gone[..|gone|] == gone;
  }

  /** The entries of h's blocks above lo have been written over lookup0. */
  ghost predicate Overlaid(db: Store, bodies: Bodies, h: Hash, lo: int, lookup0: Lookups, lookup: Lookups)
    requires Backed(db, bodies) && h in db
  {
    && (forall n: nat, i: nat, tx :: n > lo && At(db, bodies, h, n, i, tx) ==>
        tx in lookup && lookup[tx] == Entry(Ancestor(db, h, n), n, i))
    && (forall tx :: !Above(db, bodies, h, lo, tx) ==> (tx in lookup <==> tx in lookup0))
    && (forall tx :: !Above(db, bodies, h, lo, tx) && tx in lookup0 ==> lookup[tx] == lookup0[tx])
  }

  lemma OverlayStarts(db: Store, bodies: Bodies, h: Hash, lookup: Lookups)
    requires Backed(db, bodies) && h in db
    ensures Overlaid(db, bodies, h, db[h].number, lookup, lookup)
  {
  }

  lemma OverlayOne(db: Store, bodies: Bodies, h: Hash, lo: nat, next: int, lookup0: Lookups, lookup: Lookups,
                   lookup': Lookups)
    requires Backed(db, bodies) && h in db && lo <= db[h].number && next == lo - 1 && NoRepeat(db, bodies, h)
    requires Overlaid(db, bodies, h, lo, lookup0, lookup)
    requires var b := Ancestor(db, h, lo); Written(lookup, lookup', b, lo, bodies[b])
    ensures Overlaid(db, bodies, h, next, lookup0, lookup')
  {
    var b := Ancestor(db, h, lo);
    BlockDistinct(db, bodies, h, lo);
    EachIsLast(bodies[b]);
    forall n: nat, i: nat, tx | n > next && At(db, bodies, h, n, i, tx)
      ensures tx in lookup' && lookup'[tx] == Entry(Ancestor(db, h, n), n, i)
    {
      if n > lo && tx in bodies[b] {
        var j :| 0 <= j < |bodies[b]| && bodies[b][j] == tx;
        assert At(db, bodies, h, lo, j, tx);
      }
    }
    forall tx | !Above(db, bodies, h, next, tx)
      ensures !Above(db, bodies, h, lo, tx) && tx !in bodies[b]
    {
      if tx in bodies[b] {
        var j :| 0 <= j < |bodies[b]| && bodies[b][j] == tx;
        assert At(db, bodies, h, lo, j, tx);
      }
    }
  }

  /** A block's transactions are distinct if its branch repeats none. */
  lemma BlockDistinct(db: Store, bodies: Bodies, h: Hash, n: nat)
    requires Backed(db, bodies) && h in db && n <= db[h].number && NoRepeat(db, bodies, h)
    ensures Distinct(bodies[Ancestor(db, h, n)])
  {
    var txs := bodies[Ancestor(db, h, n)];
    forall i, j | 0 <= i < j < |txs|
      ensures txs[i] != txs[j]
    {
      assert At(db, bodies, h, n, i, txs[i]) && At(db, bodies, h, n, j, txs[j]);
    }
  }

  /** At and below a common ancestor the two branches hold the same transactions. */
  lemma SameBelow(db: Store, bodies: Bodies, x: Hash, y: Hash, c: nat, n: nat, i: nat, tx: Tx)
    requires Backed(db, bodies) && x in db && y in db && n <= c <= db[x].number && c <= db[y].number
    requires Ancestor(db, x, c) == Ancestor(db, y, c)
    ensures Ancestor(db, x, n) == Ancestor(db, y, n) && (At(db, bodies, x, n, i, tx) <==> At(db, bodies, y, n, i, tx))
  {
    AncestorOfAncestor(db, x, c, n);
    AncestorOfAncestor(db, y, c, n);
  }

  /** Writing the new branch's entries and deleting those only the old branch had turns an exact
      index of the old head into an exact index of the new one. */
  lemma ReorgIndexed(db: Store, bodies: Bodies, x: Hash, y: Hash, c: nat, lookup0: Lookups, lookup1: Lookups,
                     lookup2: Lookups)
    requires Backed(db, bodies) && x in db && y in db && c <= db[x].number && c <= db[y].number
    requires Ancestor(db, x, c) == Ancestor(db, y, c)
    requires Indexed(db, bodies, x, lookup0) && NoRepeat(db, bodies, y) && Overlaid(db, bodies, y, c, lookup0, lookup1)
    requires forall tx :: tx in lookup2 <==>
             tx in lookup1 && !(Above(db, bodies, x, c, tx) && !Above(db, bodies, y, c, tx))
    requires forall tx :: tx in lookup2 ==> lookup2[tx] == lookup1[tx]
    ensures Indexed(db, bodies, y, lookup2)
  {
    forall tx | tx in lookup2
      ensures At(db, bodies, y, lookup2[tx].number, lookup2[tx].index, tx)
    {
      if !Above(db, bodies, y, c, tx) {
        var e := lookup0[tx];
        assert At(db, bodies, x, e.number, e.index, tx);
        assert e.number <= c;
        SameBelow(db, bodies, x, y, c, e.number, e.index, tx);
      } else {
        var n: nat, i: nat :| n > c && At(db, bodies, y, n, i, tx);
      }
    }
    forall n: nat, i: nat, tx | At(db, bodies, y, n, i, tx)
      ensures tx in lookup2 && lookup2[tx] == Entry(Ancestor(db, y, n), n, i)
    {
      if n > c {
        assert Above(db, bodies, y, c, tx);
      } else {
        SameBelow(db, bodies, x, y, c, n, i, tx);
        OnlyBelow(db, bodies, x, y, c, n, i, tx, lookup0);
      }
    }
  }

  /** A transaction of the common part is in neither branch above it. */
  lemma OnlyBelow(db: Store, bodies: Bodies, x: Hash, y: Hash, c: nat, n: nat, i: nat, tx: Tx, lookup0: Lookups)
    requires Backed(db, bodies) && x in db && y in db && n <= c
    requires At(db, bodies, x, n, i, tx) && At(db, bodies, y, n, i, tx)
    requires Indexed(db, bodies, x, lookup0) && NoRepeat(db, bodies, y)
    ensures !Above(db, bodies, x, c, tx) && !Above(db, bodies, y, c, tx)
  {
  }

  /** Writing a block's entries over an exact index of its parent, or of itself, gives an exact
      index of the block. */
  lemma ExtendIndexed(db: Store, bodies: Bodies, h: Hash, from: Hash, lookup: Lookups, lookup': Lookups)
    requires Backed(db, bodies) && h in db && NoRepeat(db, bodies, h)
    requires from == h || (db[h].number > 0 && from == db[h].parent && from in db)
    requires Indexed(db, bodies, from, lookup) && Written(lookup, lookup', h, db[h].number, bodies[h])
    ensures Indexed(db, bodies, h, lookup')
  {
    assert LinkedAt(db, h);
    var top := db[h].number;
    BlockDistinct(db, bodies, h, top);
    EachIsLast(bodies[h]);
    forall tx | tx in lookup'
      ensures At(db, bodies, h, lookup'[tx].number, lookup'[tx].index, tx)
    {
      if tx in bodies[h] {
        var j :| 0 <= j < |bodies[h]| && bodies[h][j] == tx;
        assert At(db, bodies, h, top, j, tx);
      } else {
        assert At(db, bodies, from, lookup[tx].number, lookup[tx].index, tx);
      }
    }
    forall n: nat, i: nat, tx | At(db, bodies, h, n, i, tx)
      ensures tx in lookup' && lookup'[tx] == Entry(Ancestor(db, h, n), n, i)
    {
      if tx in bodies[h] {
        var j :| 0 <= j < |bodies[h]| && bodies[h][j] == tx;
        assert At(db, bodies, h, top, j, tx);
      } else {
        assert At(db, bodies, from, n, i, tx);
      }
    }
  }
}
