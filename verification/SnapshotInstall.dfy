/** Installing a complete staged snapshot (crates/rafter-runtime/src/snapshot_install.rs). */
module SnapshotInstall {
  import opened Prelude
  import opened Raft
  import opened Kernel
  import opened Durable
  import opened Stores
  import opened StepOutputs

  datatype RuntimeError =
    | Store(error: StoreError)
    | LogPrefixDiverged(index: nat)
    | LogBehindSnapshotBoundary(next: int, boundary: int)
    | SnapshotBelowInstalledBoundary(index: nat, installed: nat)
    | SnapshotAheadOfCommit(index: nat, commit: nat)
    | SnapshotAheadOfApplied(index: nat, applied: nat)
    | SnapshotBoundaryTermMismatch(index: nat, local: Option<nat>)
    | SnapshotMembershipMismatch(index: nat)
    | SnapshotConfigurationMismatch(index: nat)
    | SnapshotRefusedByKernel(index: nat)
    | CompactionAheadOfSnapshot(compacted: int, boundary: int)
    | Bootstrap(reason: BootstrapError)
    | Poisoned
  {
    /** The write itself failed, rather than the runtime or a store refusing it. */
    predicate WriteFailed() { Store? && error.Physical() }

    /** Promotion refused bytes that miss the checksum their descriptor declares. */
    predicate PayloadRefused() { Store? && error.PayloadChecksumMismatch? }

    /** An index lies at the end of the 64-bit space. */
    predicate IndexExhausted() { Store? && error.IndexAtMaximum? }
  }

  /** The number of store writes that failed under a runtime call with this answer. */
  function Failed<T>(r: Result<T, RuntimeError>): nat { if r.Err? && r.error.WriteFailed() then 1 else 0 }

  datatype BootstrapError =
    | VoteInZeroTerm
    | SnapshotTermAhead(snapshotTerm: nat, current: nat)
    | SnapshotWriterNotReplica
    | BoundaryTermMismatch
    | NonContiguousLog(wanted: int, found: int)
    | EntryTermInvalid(index: nat)
    | LogIndexAtMaximum
    | CommitBeyondLog(commit: nat, last: nat)
    | ConfigurationAheadOfCommit(index: nat, commit: nat)
    | ConfigurationMissing(index: nat)
    | ConfigurationIdMismatch(index: nat)
    | CompactedConfigurationUndeclared(index: nat)
    | AppliedFloorBeyondLog(floor: nat, last: nat)
    | AppliedFloorBeyondCommit(floor: nat, commit: nat)
    | PendingTransferInvalid
    | LeaderNotAuthorized(leader: nat)
    | CompleteTransferNotInstalled

  /** The log disagrees with the snapshot about the entry at its boundary. */
  predicate Conflicts(log: Log, s: Snapshot) { log.Has(s.index) && log.At(s.index).term != s.term }

  function Reconciled(log: Log, s: Snapshot): Log {
    if Conflicts(log, s) then log.TruncateFrom(s.index) else log
  }

  /** The log an uninterrupted install leaves. */
  function Installed(log: Log, s: Snapshot): Log { Reconciled(log, s).DropThrough(s.index) }

  /** The images an install of `s` can be cut at: untouched, reconciled, published with or
      without its staging, finished. */
  ghost predicate InstallCut(a: Image, b: Image, s: Snapshot) {
    || b == a
    || b == a.(log := Reconciled(a.log, s))
    || b == a.(log := Reconciled(a.log, s), snap := s)
    || b == a.(log := Reconciled(a.log, s), snap := s, pending := None)
    || b == InstallDone(a, s)
  }

  function InstallDone(a: Image, s: Snapshot): Image {
    a.(log := Installed(a.log, s), snap := s, pending := None)
  }

  /** Reconciles the log with the boundary, promotes the staged transfer, compacts to it. */
  method InstallStagedSnapshot(
    ghost hard: HardStateStore, log: LogSegment, snaps: SnapshotStore, s: Snapshot, floor: nat)
    returns (r: Result<(), RuntimeError>)
    requires log.Valid()
    modifies log, snaps
    ensures log.Valid()
    ensures InstallCut(old(ImageOf(hard, log, snaps)), ImageOf(hard, log, snaps), s)
    ensures r.Ok? ==> ImageOf(hard, log, snaps) == InstallDone(old(ImageOf(hard, log, snaps)), s)
    ensures Conflicts(old(log.Value()), s) && s.index <= floor ==>
      r == Err(LogPrefixDiverged(s.index)) && ImageOf(hard, log, snaps) == old(ImageOf(hard, log, snaps))
    ensures r.Ok? ==> Ready(old(snaps.pending), s) && Genuine(old(snaps.pending).value) && s.index < U64_MAX
    ensures r.Err? && !r.error.WriteFailed() ==>
      || (Conflicts(old(log.Value()), s) && s.index <= floor)
      || !Ready(old(snaps.pending), s)
      || (!Genuine(old(snaps.pending).value) && r.error.PayloadRefused())
      || (s.index >= U64_MAX && r.error.IndexExhausted())
    ensures r.Err? && r.error.PayloadRefused() ==>
      Ready(old(snaps.pending), s) && !Genuine(old(snaps.pending).value)
    ensures Ready(old(snaps.pending), s) && !Genuine(old(snaps.pending).value) ==>
      snaps.current == old(snaps.current) && snaps.pending == old(snaps.pending)
    ensures Failures(hard, log, snaps) == old(Failures(hard, log, snaps)) + Failed(r)
  {
    hide Genuine;
    var boundary := log.Find(s.index);
    if boundary.Some? && boundary.value.term != s.term {
      if s.index <= floor { return Err(LogPrefixDiverged(s.index)); }
      var truncated := log.TruncateSuffix(s.index);
      if truncated.Err? { return Err(Store(truncated.error)); }
    }
    var promoted := snaps.PromoteStaged(s);
    if promoted.Err? { return Err(Store(promoted.error)); }
    var compacted := log.CompactPrefixThrough(s.index);
    if compacted.Err? { return Err(Store(compacted.error)); }
    return Ok(());
  }

  // ---------------------------------------------------------------------------
  // Cutting and repeating

  lemma ReconciledTwice(log: Log, s: Snapshot)
    ensures Reconciled(Reconciled(log, s), s) == Reconciled(log, s)
  {}

  /** Whichever write an install is cut at: while the snapshot is not yet published, its
      staging is still complete and installing again gives the uninterrupted result; once
      published, compacting to its boundary gives that log.  Either way no entry at or below
      the commit floor was lost to truncation. */
  lemma InstallRepeats(a: Image, b: Image, s: Snapshot)
    requires a.log.base <= a.snap.index < s.index && Ready(a.pending, s) && InstallCut(a, b, s)
    requires !(Conflicts(a.log, s) && s.index <= a.hard.commit)
    ensures b.snap.index < s.index ==> Ready(b.pending, s) && InstallDone(b, s) == InstallDone(a, s)
    ensures b.snap.index >= s.index ==> b.snap == s && b.log.DropThrough(s.index) == InstallDone(a, s).log
    ensures forall i: nat :: a.log.Has(i) && b.snap.index < i <= a.hard.commit ==>
      b.log.Has(i) && b.log.At(i) == a.log.At(i)
    ensures b.snap == s ==>
      b.log.Last() < s.index || b.log.base == s.index || (b.log.Has(s.index) && b.log.At(s.index).term == s.term)
  {
    ReconciledTwice(a.log, s);
    DropTwice(Reconciled(a.log, s), s.index);
  }

  /** What a reopen makes of a cut install: it installs the same staged bytes again exactly if
      the snapshot is not yet published, and the log it then keeps is the one the
      uninterrupted install leaves. */
  lemma ReopenFinishesInstall(a: Image, b: Image, s: Snapshot)
    requires a.log.base <= a.snap.index < s.index && Ready(a.pending, s) && InstallCut(a, b, s)
    requires !(Conflicts(a.log, s) && s.index <= a.hard.commit)
    ensures Settled(b) <==> b.snap == s
    ensures !Settled(b) ==> b.pending == a.pending
    ensures
      var reopened := if Settled(b) then b else InstallDone(b, s);
      reopened.snap == s && reopened.log.DropThrough(s.index) == InstallDone(a, s).log
  {
    InstallRepeats(a, b, s);
    DropTwice(Reconciled(a.log, s), s.index);
  }

  lemma DropTwice(log: Log, i: nat)
    ensures log.DropThrough(i).DropThrough(i) == log.DropThrough(i)
  {}

  lemma ReconciledSeam(log: Log, s: Snapshot)
    requires log.base < s.index
    ensures
      var r := Reconciled(log, s);
      r.Last() < s.index || (r.Has(s.index) && r.At(s.index).term == s.term)
  {}

  /** Every cut of an install keeps the image's invariant and its committed history. */
  lemma InstallKeeps(L: Lineage, a: Image, b: Image, s: Snapshot)
    requires ImageInv(L, a) && Ready(a.pending, s) && a.snap.index < s.index && InstallCut(a, b, s)
    ensures Kept(L, a, b)
  {
    var a1 := a.(log := Reconciled(a.log, s));
    if Conflicts(a.log, s) {
      TruncateKeeps(L, a, s.index);
    }
    assert Kept(L, a, a1);
    ReconciledSeam(a.log, s);
    PromoteKeeps(L, a1, a1.pending);
    PromoteKeeps(L, a1, None);
    var a2 := a1.(snap := s, pending := None);
    CompactKeeps(L, a2);
    KeptTrans(L, a, a1, a1.(snap := s));
    KeptTrans(L, a, a1, a2);
    KeptTrans(L, a, a2, InstallDone(a, s));
  }
}
