/** Reconciling the durable log with the kernel's after a step
    (crates/rafter-runtime/src/log_repair.rs and the append in step.rs). */
module LogRepair {
  import opened Prelude
  import opened Raft
  import opened Kernel
  import opened Durable
  import opened Stores
  import opened SnapshotInstall

  /** The persisted tail that matches a kernel's log end. */
  function TailOf(k: Node): Point {
    var last := k.log.Last();
    Point(last, if k.TermAt(last).Some? then k.TermAt(last).value else 0)
  }

  predicate StillMatches(tail: Point, k: Node) { k.TermAt(tail.index) == Some(tail.term) }

  /** The kernel holds the same entry at `i`. */
  predicate Agrees(log: Log, k: Node, i: nat)
    requires log.Has(i)
  {
    k.log.Has(i) && k.log.At(i) == log.At(i)
  }

  /** `d` is the first index above the boundary where the durable log and the kernel differ. */
  ghost predicate FirstDivergence(log: Log, k: Node, d: Option<nat>) {
    match d
    case None => forall i :: log.Has(i) && k.snap.index < i ==> Agrees(log, k, i)
    case Some(at) =>
      && log.Has(at) && k.snap.index < at && !Agrees(log, k, at)
      && forall i: nat :: log.Has(i) && k.snap.index < i < at ==> Agrees(log, k, i)
  }

  method FirstPersistedDivergence(log: LogSegment, k: Node) returns (d: Option<nat>)
    requires log.Valid() && k.log.base == k.snap.index
    ensures FirstDivergence(log.Value(), k, d)
  {
    ghost var value := log.Value();
    for n := 0 to |log.entries|
      invariant forall i: nat :: value.Has(i) && k.snap.index < i < log.firstIndex + n ==> Agrees(value, k, i)
    {
      var persisted := log.entries[n];
      assert value.At(persisted.index) == Entry(persisted.term, persisted.kind);
      if persisted.index > k.snap.index {
        var held := k.log.From(persisted.index);
        if held == [] || held[0] != Entry(persisted.term, persisted.kind) {
          return Some(persisted.index);
        }
      }
    }
    return None;
  }

  /** Truncates what the kernel has rewritten.  A difference at or below the floor is
      reported and nothing is removed. */
  method RepairPersistedLogSuffix(log: LogSegment, k: Node, tail: Option<Point>, floor: nat)
    returns (r: Result<(), RuntimeError>, ghost d: Option<nat>)
    requires log.Valid() && k.log.base == k.snap.index
    modifies log
    ensures log.Valid()
    ensures tail.Some? && StillMatches(tail.value, k) ==> r.Ok? && d == None && log.Value() == old(log.Value())
    ensures !(tail.Some? && StillMatches(tail.value, k)) ==> FirstDivergence(old(log.Value()), k, d)
    ensures d.None? ==> r.Ok? && log.Value() == old(log.Value())
    ensures d.Some? ==> old(log.Value()).Has(d.value)
    ensures d.Some? && d.value <= floor ==> r == Err(LogPrefixDiverged(d.value)) && log.Value() == old(log.Value())
    ensures d.Some? && d.value > floor ==>
      && (r.Ok? ==> log.Value() == old(log.Value()).TruncateFrom(d.value))
      && (r.Err? ==>
        && r.error.WriteFailed()
        && (log.Value() == old(log.Value()) || log.Value() == old(log.Value()).TruncateFrom(d.value)))
    ensures log.failures == old(log.failures) + Failed(r)
  {
    if tail.Some? && StillMatches(tail.value, k) {
      return Ok(()), None;
    }
    var divergence := FirstPersistedDivergence(log, k);
    d := divergence;
    if divergence.Some? {
      if divergence.value <= floor { return Err(LogPrefixDiverged(divergence.value)), d; }
      var truncated := log.TruncateSuffix(divergence.value);
      if truncated.Err? { return Err(Store(truncated.error)), d; }
    }
    r := Ok(());
  }

  /** The tail fast path agrees with the scan: if the kernel still holds the durable log's
      last entry at its index and term, then by Log Matching no entry above the boundary
      differs, wherever the log and the snapshot start. */
  lemma FastPathAgrees(L: Lineage, log: Log, k: Node, tail: Point)
    requires Chained(L, log) && NodeInv(L, k) && StillMatches(tail, k)
    requires k.snap.index < log.Last() && log.base < log.Last() ==> tail == PointAt(log, log.Last())
    ensures FirstDivergence(log, k, None)
  {
    forall i | log.Has(i) && k.snap.index < i
      ensures Agrees(log, k, i)
    {
      var last := log.Last();
      assert k.TermAt(last) == Some(log.At(last).term);
      LogMatching(L, log, k.log, last, i);
    }
  }

  /** Without a difference, or with it cut off, the durable log is a prefix of the kernel's. */
  lemma RepairedPrefixes(log: Log, k: Node, d: Option<nat>)
    requires FirstDivergence(log, k, d) && log.base <= k.snap.index == k.log.base <= log.Last()
    ensures d.None? ==> Prefixes(log, k.log)
    ensures d.Some? ==> Prefixes(log.TruncateFrom(d.value), k.log)
  {
    var repaired := if d.None? then log else log.TruncateFrom(d.value);
    if repaired.Last() > k.snap.index {
      assert log.Has(repaired.Last()) ==> Agrees(log, k, repaired.Last());
    }
  }
}
