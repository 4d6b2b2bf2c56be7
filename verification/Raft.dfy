/** Logs, snapshots and the lineage of entries that Log Matching describes. */
module Raft {

  import opened Prelude

  datatype Kind = Application(payload: int) | Configuration(id: int) | Noop

  datatype Entry = Entry(term: nat, kind: Kind)

  /** A configuration entry by its index and its identity. */
  datatype Config = Config(index: nat, id: int)

  /** A run of entries at the indexes `base + 1 ..= base + |entries|`. */
  datatype Log = Log(base: nat, entries: seq<Entry>) {

    function Last(): nat { base + |entries| }

    function Next(): nat { Last() + 1 }

    predicate Has(i: nat) { base < i <= Last() }

    function At(i: nat): Entry
      requires Has(i)
    {
      entries[i - base - 1]
    }

    /** The entries from index `i` on, clamped to what is held. */
    function From(i: nat): seq<Entry> {
      if i > Last() then [] else if i <= base then entries else entries[i - base - 1..]
    }

    function TruncateFrom(i: nat): (r: Log)
      requires base < i <= Next()
      ensures r.base == base && r.Last() == i - 1
      ensures forall j :: r.Has(j) ==> Has(j) && r.At(j) == At(j)
    {
      Log(base, entries[..i - base - 1])
    }

    function DropThrough(i: nat): (r: Log)
      ensures r.base == Max(base, i) && r.Last() == Max(Last(), i)
      ensures forall j :: r.Has(j) ==> Has(j) && r.At(j) == At(j)
    {
      if i <= base then this else if i >= Last() then Log(i, []) else Log(i, entries[i - base..])
    }

    function Append(more: seq<Entry>): (r: Log)
      ensures r.base == base && r.Last() == Last() + |more|
      ensures forall j :: Has(j) ==> r.Has(j) && r.At(j) == At(j)
      ensures forall j: nat :: r.Has(j) && j > Last() ==> r.At(j) == more[j - Last() - 1]
    {
      Log(base, entries + more)
    }
  }

  lemma SameLog(a: Log, b: Log)
    requires a.base == b.base && a.Last() == b.Last()
    requires forall j :: a.Has(j) ==> a.At(j) == b.At(j)
    ensures a == b
  {
    forall k | 0 <= k < |a.entries|
      ensures a.entries[k] == b.entries[k]
    {
      assert a.Has(a.base + 1 + k) && a.At(a.base + 1 + k) == b.At(a.base + 1 + k);
    }
  }

  // ---------------------------------------------------------------------------
  // Lineage

  /** Log Matching, as data: the index and the term of an entry fix its contents and the
      term of the entry before it, in every log of the cluster. */
  datatype Lineage = Lineage(prev: (nat, nat) -> nat, kind: (nat, nat) -> Kind)

  datatype Point = Point(index: nat, term: nat)

  /** The entry at `i` is the one its term names, and follows the one before it. */
  ghost predicate Linked(L: Lineage, log: Log, i: nat) {
    log.Has(i) ==>
      && log.At(i).kind == L.kind(i, log.At(i).term)
      && (log.base < i - 1 ==> log.At(i - 1).term == L.prev(i, log.At(i).term))
  }

  ghost predicate Chained(L: Lineage, log: Log) {
    forall i: nat {:trigger Linked(L, log, i)} :: Linked(L, log, i)
  }

  /** The first entry follows an entry of term `t` at the base. */
  ghost predicate Grounded(L: Lineage, log: Log, t: nat) {
    log.entries != [] ==> L.prev(log.base + 1, log.entries[0].term) == t
  }

  /** The term at index `j` on the way back from an entry of term `t` at index `i`. */
  ghost function Back(L: Lineage, i: nat, t: nat, j: nat): nat
    requires j <= i
    decreases i - j
  {
    if i == j then t else Back(L, i - 1, L.prev(i, t), j)
  }

  /** The history that ends at `q` passes through `p`. */
  ghost predicate Ancestor(L: Lineage, p: Point, q: Point) {
    p.index <= q.index && Back(L, q.index, q.term, p.index) == p.term
  }

  lemma {:induction false} BackTwice(L: Lineage, i: nat, t: nat, j: nat, k: nat)
    requires k <= j <= i
    ensures Back(L, i, t, k) == Back(L, j, Back(L, i, t, j), k)
    decreases i - j
  {
    if i != j {
      BackTwice(L, i - 1, L.prev(i, t), j, k);
    }
  }

  lemma AncestorTrans(L: Lineage, p: Point, q: Point, r: Point)
    requires Ancestor(L, p, q) && Ancestor(L, q, r)
    ensures Ancestor(L, p, r)
  {
    BackTwice(L, r.index, r.term, q.index, p.index);
  }

  /** Of two points on one history the earlier is on the history of the later. */
  lemma AncestorsOrdered(L: Lineage, p: Point, q: Point, z: Point)
    requires Ancestor(L, p, z) && Ancestor(L, q, z) && p.index <= q.index
    ensures Ancestor(L, p, q)
  {
    BackTwice(L, z.index, z.term, q.index, p.index);
  }

  function PointAt(log: Log, i: nat): Point
    requires log.Has(i)
  {
    Point(i, log.At(i).term)
  }

  lemma {:induction false} ChainBack(L: Lineage, log: Log, j: nat, i: nat)
    requires Chained(L, log) && log.Has(j) && log.Has(i) && j <= i
    ensures Ancestor(L, PointAt(log, j), PointAt(log, i))
    decreases i - j
  {
    if j < i {
      assert Linked(L, log, i);
      ChainBack(L, log, j, i - 1);
    }
  }

  /** Every entry descends from the base it is grounded on. */
  lemma GroundBack(L: Lineage, log: Log, t: nat, i: nat)
    requires Chained(L, log) && Grounded(L, log, t) && log.Has(i)
    ensures Ancestor(L, Point(log.base, t), PointAt(log, i))
  {
    var first := log.base + 1;
    ChainBack(L, log, first, i);
    assert Back(L, first, log.At(first).term, log.base) == t;
    AncestorTrans(L, Point(log.base, t), PointAt(log, first), PointAt(log, i));
  }

  /** Log Matching: two logs with the same term at one index agree at every earlier index
      they both hold. */
  lemma LogMatching(L: Lineage, a: Log, b: Log, i: nat, j: nat)
    requires Chained(L, a) && Chained(L, b)
    requires a.Has(i) && b.Has(i) && a.At(i).term == b.At(i).term
    requires a.Has(j) && b.Has(j) && j <= i
    ensures a.At(j) == b.At(j)
  {
    ChainBack(L, a, j, i);
    ChainBack(L, b, j, i);
    assert Linked(L, a, j) && Linked(L, b, j);
  }

  // ---------------------------------------------------------------------------
  // What edits keep

  lemma ChainedTruncate(L: Lineage, log: Log, i: nat)
    requires Chained(L, log) && log.base < i <= log.Next()
    ensures Chained(L, log.TruncateFrom(i))
  {
    var r := log.TruncateFrom(i);
    forall j: nat ensures Linked(L, r, j) {
      assert Linked(L, log, j);
    }
  }

  lemma ChainedDrop(L: Lineage, log: Log, i: nat)
    requires Chained(L, log)
    ensures Chained(L, log.DropThrough(i))
    ensures log.Has(i) ==> Grounded(L, log.DropThrough(i), log.At(i).term)
  {
    var r := log.DropThrough(i);
    forall j: nat ensures Linked(L, r, j) {
      assert Linked(L, log, j);
    }
    if log.Has(i) && r.entries != [] {
      assert Linked(L, log, i + 1);
      assert r.entries[0] == r.At(i + 1);
    }
  }
}
