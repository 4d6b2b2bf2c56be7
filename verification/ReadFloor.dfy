/** The application read floor (crates/rafter-runtime/src/inspect.rs): how far the state
    machine must have come before it has consumed every committed application command at or
    below an index. */
module ReadFloor {
  import opened Prelude
  import opened Raft
  import opened Kernel
  import opened CommittedConfig
  import opened Runtime

  /** The backward scan: the last of the first `n` entries that is an application entry at or
      below `bound`. */
  function ScanBack(log: Log, n: nat, bound: nat): Option<nat>
    requires n <= |log.entries|
  {
    if n == 0 then None
    else if log.base + n <= bound && log.entries[n - 1].kind.Application? then Some(log.base + n)
    else ScanBack(log, n - 1, bound)
  }

  /** `committed_application_index_through`. */
  function FloorThrough(k: Node, i: nat): nat {
    match ScanBack(k.log, |k.log.entries|, Min(i, k.commit))
    case Some(at) => at
    case None => Min(k.snap.index, i)
  }

  predicate ApplicationAt(k: Node, i: nat) { k.log.Has(i) && k.log.At(i).kind.Application? }

  lemma {:induction false} ScanFindsLast(log: Log, n: nat, bound: nat)
    requires n <= |log.entries|
    ensures
      match ScanBack(log, n, bound)
      case Some(at) =>
        && log.base < at <= log.base + n && at <= bound && log.At(at).kind.Application?
        && forall j: nat :: at < j <= bound && j <= log.base + n ==> !log.At(j).kind.Application?
      case None => forall j: nat :: log.base < j <= bound && j <= log.base + n ==> !log.At(j).kind.Application?
  {
    if n > 0 {
      ScanFindsLast(log, n - 1, bound);
      assert log.At(log.base + n) == log.entries[n - 1];
    }
  }

  /** The highest committed application index at or below the bound, or else the snapshot
      boundary capped at it. */
  lemma FloorIsHighest(k: Node, i: nat)
    requires k.log.base == k.snap.index
    ensures
      var f := FloorThrough(k, i);
      && f <= i
      && (f > k.snap.index ==> ApplicationAt(k, f) && f <= k.commit)
      && (f <= k.snap.index ==> f == Min(k.snap.index, i))
      && forall j: nat :: ApplicationAt(k, j) && j <= i && j <= k.commit ==> j <= f
  {
    ScanFindsLast(k.log, |k.log.entries|, Min(i, k.commit));
  }

  /** No smaller index would do, and no larger one is ever asked for: the floor is the only
      value with those properties. */
  lemma FloorUnique(k: Node, i: nat, f: nat)
    requires k.log.base == k.snap.index
    requires f > k.snap.index ==> ApplicationAt(k, f) && f <= i && f <= k.commit
    requires f <= k.snap.index ==> f == Min(k.snap.index, i)
    requires forall j: nat :: ApplicationAt(k, j) && j <= i && j <= k.commit ==> j <= f
    ensures f == FloorThrough(k, i)
  {
    FloorIsHighest(k, i);
  }

  lemma FloorMonotone(k: Node, i: nat, j: nat)
    requires k.log.base == k.snap.index && i <= j
    ensures FloorThrough(k, i) <= FloorThrough(k, j)
  {
    FloorIsHighest(k, i);
    FloorIsHighest(k, j);
  }

  /** Over any step of the kernel (appends, truncations above the commit index, commits,
      snapshot installs) the floor of a fixed index never goes down. */
  lemma FloorGrows(L: Lineage, k: Node, ms: seq<Move>, i: nat)
    requires NodeInv(L, k) && Guarded(L, k, ms)
    ensures FloorThrough(k, i) <= FloorThrough(ApplyAll(k, ms), i)
  {
    var after := ApplyAll(k, ms);
    StepKept(L, k, ms);
    FloorIsHighest(k, i);
    FloorIsHighest(after, i);
    var f := FloorThrough(k, i);
    if after.snap.index == k.snap.index && k.snap.index < f {
      assert ApplicationAt(after, f);
    }
  }

  /** Nor over a local compaction. */
  lemma FloorCompacts(L: Lineage, rules: Rules, k: Node, s: Snapshot, i: nat)
    requires NodeInv(L, k) && LocalSnapshotRefusal(rules, k, s).None?
    ensures FloorThrough(k, i) <= FloorThrough(LocallyCompacted(k, s), i)
  {
    var after := LocallyCompacted(k, s);
    FloorIsHighest(k, i);
    FloorIsHighest(after, i);
    var f := FloorThrough(k, i);
    if s.index < f {
      assert after.log.Has(f);
      assert ApplicationAt(after, f);
    }
  }
}
