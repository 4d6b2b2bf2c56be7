/** The durable runtime around the kernel: the parts of one step and of one local compaction
    (crates/rafter-runtime/src/step.rs and compaction.rs). */
module Runtime {
  import opened Prelude
  import opened Raft
  import opened Kernel
  import opened Durable
  import opened Stores
  import opened StepOutputs
  import opened SnapshotInstall
  import opened LogRepair
  import opened CommittedConfig

  /** The hard state that publishes a kernel state. */
  function HardStateOf(k: Node): HardState { HardState(k.term, k.vote, k.commit, StateAt(k, k.commit)) }

  /** The commit index and the configuration on disk are the ones from before a step, or the
      whole hard state, the snapshot and the committed history are those of the stepped
      kernel. */
  ghost predicate Published(was: HardState, img: Image, k: Node) {
    || (img.hard.commit == was.commit && img.hard.config == was.config)
    || (&& img.hard == HardStateOf(k) && img.snap == k.snap
        && k.TermAt(k.commit).Some? && img.CommitPoint() == k.CommitPoint())
  }

  /** Disk and kernel agree: the state between calls. */
  ghost predicate Synced(L: Lineage, img: Image, k: Node, tail: Option<Point>) {
    && NodeInv(L, k)
    && k.term == img.hard.term && k.vote == img.hard.vote
    && k.commit == img.Committed()
    && k.snap == img.snap
    && img.snap.index <= img.log.Last()
    && img.log.DropThrough(img.snap.index) == k.log
    && k.pending == ProgressOf(img.pending)
    && (tail.Some? ==> tail.value == TailOf(k))
  }

  lemma SyncedPoint(L: Lineage, img: Image, k: Node, tail: Option<Point>)
    requires ImageInv(L, img) && Synced(L, img, k, tail)
    ensures k.TermAt(k.commit).Some? && k.CommitPoint() == img.CommitPoint()
    ensures Settled(img)
  {}

  lemma SyncedPublished(L: Lineage, was: HardState, img: Image, k: Node, tail: Option<Point>)
    requires ImageInv(L, img) && Synced(L, img, k, tail) && img.hard == HardStateOf(k)
    ensures Published(was, img, k)
  {
    SyncedPoint(L, img, k, tail);
  }

  lemma CursorInside(L: Lineage, img: Image, k: Node, tail: Option<Point>)
    requires Synced(L, img, k, tail)
    ensures k.log.base == k.snap.index <= k.applied <= k.commit <= k.log.Last()
  {}

  /** The delivery cursor is not on disk. */
  lemma CursorMoved(L: Lineage, img: Image, k: Node, tail: Option<Point>, at: nat)
    requires Synced(L, img, k, tail) && k.snap.index <= at <= k.commit
    ensures Synced(L, img, k.(applied := at), tail)
  {}

  /** A kernel whose log is on disk has indexes that fit. */
  lemma DurableLogFits(log: LogSegment, k: Node)
    requires log.Valid() && log.Value().DropThrough(k.snap.index) == k.log && k.snap.index <= log.Value().Last()
    ensures k.log.Last() < U64_MAX
  {}

  // ---------------------------------------------------------------------------
  // Snapshot work of a step

  /** Above the boundary the log holds entries it held before, all of them or none. */
  ghost predicate FromOld(was: Log, img: Image) {
    && (img.log.Last() == img.snap.index || img.log.Last() == was.Last())
    && forall i :: img.log.Has(i) && img.snap.index < i ==> was.Has(i) && was.At(i) == img.log.At(i)
  }

  lemma InstallFromOld(L: Lineage, was: Log, a: Image, s: Snapshot)
    requires ImageInv(L, a) && FromOld(was, a) && a.snap.index <= a.log.Last() && a.snap.index < s.index
    ensures FromOld(was, InstallDone(a, s)) && s.index <= InstallDone(a, s).log.Last()
  {}

  /** Where a run of outputs has got to: the rest can still be carried out from here. */
  ghost predicate Underway(L: Lineage, img: Image, outs: seq<Output>) {
    && ImageInv(L, img)
    && Installable(L, img.hard.term, img.CommitPoint(), img.pending, outs)
    && img.snap.index <= img.log.Last()
  }

  lemma StageUnderway(L: Lineage, a: Image, outs: seq<Output>)
    requires Underway(L, a, outs) && outs != [] && outs[0].StageSnapshotChunk?
    ensures
      var c := outs[0].chunk;
      && Fits(a.pending, c)
      && Kept(L, a, a.(pending := Some(Assembled(a.pending, c))))
      && Underway(L, a.(pending := Some(Assembled(a.pending, c))), outs[1..])
  {
    StageKeeps(L, a, outs[0].chunk);
  }

  lemma ApplyUnderway(L: Lineage, a: Image, b: Image, outs: seq<Output>)
    requires Underway(L, a, outs) && outs != [] && outs[0].ApplySnapshot?
    requires InstallCut(a, b, outs[0].snapshot)
    ensures Ready(a.pending, outs[0].snapshot)
    ensures a.snap.index < outs[0].snapshot.index && a.hard.commit < outs[0].snapshot.index
    ensures Kept(L, a, b)
    ensures b == InstallDone(a, outs[0].snapshot) ==> Underway(L, b, outs[1..])
  {
    InstallKeeps(L, a, b, outs[0].snapshot);
  }

  /** No snapshot that the outputs apply ends at the end of the index space. */
  predicate SnapshotsFit(outs: seq<Output>) {
    forall o :: o in outs && o.ApplySnapshot? ==> o.snapshot.index < U64_MAX
  }

  /** Nor does the log. */
  predicate IndexesFit(outs: seq<Output>, k: Node) { SnapshotsFit(outs) && k.log.Last() < U64_MAX }

  /** The only ways for a step to fail: a write failed, a staged payload that an output
      applies misses its checksum, or an index does not fit. */
  predicate Excused(e: RuntimeError, pending: Option<Staged>, outs: seq<Output>, fits: bool) {
    || e.WriteFailed()
    || (e.PayloadRefused() && !PayloadsMatch(pending, outs))
    || (e.IndexExhausted() && !fits)
  }

  method PersistSnapshotOutput(
    ghost L: Lineage, hard: HardStateStore, log: LogSegment, snaps: SnapshotStore, output: Output,
    ghost outs: seq<Output>, ghost was: Log)
    returns (r: Result<(), RuntimeError>)
    requires log.Valid() && Underway(L, ImageOf(hard, log, snaps), outs) && outs != [] && outs[0] == output
    requires FromOld(was, ImageOf(hard, log, snaps))
    modifies log, snaps
    ensures log.Valid() && Kept(L, old(ImageOf(hard, log, snaps)), ImageOf(hard, log, snaps))
    ensures r.Err? ==> Excused(r.error, old(snaps.pending), outs, SnapshotsFit(outs))
    ensures r.Err? && r.error.PayloadRefused() ==> Stuck(ImageOf(hard, log, snaps))
    ensures r.Ok? && output.ApplySnapshot? ==> output.snapshot.index < U64_MAX
    ensures r.Ok? ==> PayloadsMatch(old(snaps.pending), outs) == PayloadsMatch(snaps.pending, outs[1..])
    ensures PendingCut(old(snaps.pending), outs, snaps.pending)
    ensures snaps.current == old(snaps.current) || output == ApplySnapshot(snaps.current)
    ensures r.Ok? ==> snaps.pending == PendingAfterOne(old(snaps.pending), output)
    ensures r.Ok? ==>
      && Underway(L, ImageOf(hard, log, snaps), outs[1..])
      && PendingAfter(snaps.pending, outs[1..]) == PendingAfter(old(snaps.pending), outs)
      && SnapAfter(snaps.current, outs[1..]) == SnapAfter(old(snaps.current), outs)
      && FromOld(was, ImageOf(hard, log, snaps))
    ensures Failures(hard, log, snaps) == old(Failures(hard, log, snaps)) + Failed(r)
  {
    hide ImageInv, Extends, TermReached, PayloadsMatch, PendingAfter, SnapAfter, PendingCut, Installable, Genuine,
      Image.CommitPoint, FromOld, Assembled, Fits, Underway;
    ghost var here := ImageOf(hard, log, snaps);
    SoundHere(L, here, outs);
    KeptRefl(L, here);
    match output {
      case StageSnapshotChunk(chunk) =>
        StageUnderway(L, here, outs);
        var staged := snaps.StageChunk(chunk);
        r := if staged.Err? then Err(Store(staged.error)) else Ok(());
        SameFromOld(was, here, ImageOf(hard, log, snaps));
      case ApplySnapshot(snapshot) =>
        ApplyUnderway(L, here, here, outs);
        r := InstallStagedSnapshot(hard, log, snaps, snapshot, hard.current.commit);
        ApplyUnderway(L, here, ImageOf(hard, log, snaps), outs);
        InstallFromOld(L, was, here, snapshot);
      case _ =>
        SkipUnderway(L, here, outs);
        r := Ok(());
    }
    FirstOutput(here.pending, here.snap, outs, snaps.pending);
  }

  lemma SameFromOld(was: Log, a: Image, b: Image)
    requires FromOld(was, a) && a.log == b.log && a.snap == b.snap
    ensures FromOld(was, b)
  {}

  lemma SoundHere(L: Lineage, a: Image, outs: seq<Output>)
    requires Underway(L, a, outs)
    ensures ImageInv(L, a) && a.snap.index <= a.log.Last()
  {}

  lemma SkipUnderway(L: Lineage, a: Image, outs: seq<Output>)
    requires Underway(L, a, outs) && outs != [] && !outs[0].StageSnapshotChunk? && !outs[0].ApplySnapshot?
    ensures Underway(L, a, outs[1..])
  {}

  method PersistSnapshotOutputs(
    ghost L: Lineage, hard: HardStateStore, log: LogSegment, snaps: SnapshotStore, outputs: seq<Output>)
    returns (r: Result<(), RuntimeError>)
    requires log.Valid() && Underway(L, ImageOf(hard, log, snaps), outputs)
    modifies log, snaps
    ensures log.Valid() && Kept(L, old(ImageOf(hard, log, snaps)), ImageOf(hard, log, snaps))
    ensures r.Err? ==> Excused(r.error, old(snaps.pending), outputs, SnapshotsFit(outputs))
    ensures r.Err? && r.error.PayloadRefused() ==> Stuck(ImageOf(hard, log, snaps))
    ensures PendingCut(old(snaps.pending), outputs, snaps.pending)
    ensures snaps.current == old(snaps.current) || ApplySnapshot(snaps.current) in outputs
    ensures r.Ok? ==> PayloadsMatch(old(snaps.pending), outputs) && SnapshotsFit(outputs)
    ensures r.Ok? ==>
      var img := ImageOf(hard, log, snaps);
      && img.pending == PendingAfter(old(snaps.pending), outputs)
      && img.snap == SnapAfter(old(snaps.current), outputs)
      && img.snap.index <= img.log.Last() && FromOld(old(log.Value()), img)
    ensures Failures(hard, log, snaps) == old(Failures(hard, log, snaps)) + Failed(r)
  {
    hide ImageInv, Extends, TermReached, PayloadsMatch, PendingAfter, SnapAfter, Installable, Image.CommitPoint,
      PendingAfterOne;
    ghost var start := ImageOf(hard, log, snaps);
    KeptRefl(L, start);
    var i := 0;
    assert outputs[0..] == outputs;
    while i < |outputs|
      invariant 0 <= i <= |outputs|
      invariant log.Valid() && Underway(L, ImageOf(hard, log, snaps), outputs[i..])
      invariant Kept(L, start, ImageOf(hard, log, snaps))
      invariant Failures(hard, log, snaps) == old(Failures(hard, log, snaps))
      invariant PendingAfter(snaps.pending, outputs[i..]) == PendingAfter(start.pending, outputs)
      invariant SnapAfter(snaps.current, outputs[i..]) == SnapAfter(start.snap, outputs)
      invariant PayloadsMatch(snaps.pending, outputs[i..]) == PayloadsMatch(start.pending, outputs)
      invariant FromOld(start.log, ImageOf(hard, log, snaps))
      invariant snaps.current == start.snap || ApplySnapshot(snaps.current) in outputs
      invariant SnapshotsFit(outputs[..i])
      invariant forall q :: PendingCut(snaps.pending, outputs[i..], q) ==> PendingCut(start.pending, outputs, q)
    {
      ghost var here := ImageOf(hard, log, snaps);
      assert outputs[i..][1..] == outputs[i + 1..];
      r := PersistSnapshotOutput(L, hard, log, snaps, outputs[i], outputs[i..], start.log);
      KeptTrans(L, start, here, ImageOf(hard, log, snaps));
      if r.Err? { return; }
      assert outputs[..i + 1] == outputs[..i] + [outputs[i]];
      i := i + 1;
    }
    assert outputs[i..] == [] && outputs[..i] == outputs;
    NoOutputs(snaps.pending, snaps.current);
    return Ok(());
  }

  /** Staging the kernel no longer tracks must not survive the step. */
  method ClearAbandonedStaging(ghost L: Lineage, hard: HardStateStore, log: LogSegment, snaps: SnapshotStore, k: Node)
    returns (r: Result<(), RuntimeError>)
    requires ImageInv(L, ImageOf(hard, log, snaps))
    requires k.pending == None || k.pending == ProgressOf(snaps.pending)
    modifies snaps`pending, snaps`failures
    ensures Kept(L, old(ImageOf(hard, log, snaps)), ImageOf(hard, log, snaps))
    ensures r.Ok? ==> ProgressOf(snaps.pending) == k.pending
    ensures r.Err? ==> r.error.WriteFailed()
    ensures snaps.pending == old(snaps.pending) || snaps.pending == None
    ensures Failures(hard, log, snaps) == old(Failures(hard, log, snaps)) + Failed(r)
  {
    ghost var here := ImageOf(hard, log, snaps);
    ClearKeeps(L, here);
    if k.pending.None? && snaps.pending.Some? {
      var cleared := snaps.ClearPending();
      if cleared.Err? { return Err(Store(cleared.error)); }
    }
    return Ok(());
  }

  /** All snapshot work of a step: afterwards snapshot and staging are the kernel's. */
  method PersistSnapshots(
    ghost L: Lineage, hard: HardStateStore, log: LogSegment, snaps: SnapshotStore, outputs: seq<Output>, k: Node)
    returns (r: Result<(), RuntimeError>)
    requires log.Valid() && Underway(L, ImageOf(hard, log, snaps), outputs)
    requires k.pending == None || k.pending == ProgressOf(PendingAfter(snaps.pending, outputs))
    requires k.snap == SnapAfter(snaps.current, outputs)
    modifies log, snaps
    ensures log.Valid() && Kept(L, old(ImageOf(hard, log, snaps)), ImageOf(hard, log, snaps))
    ensures r.Err? ==> Excused(r.error, old(snaps.pending), outputs, SnapshotsFit(outputs))
    ensures r.Err? && r.error.PayloadRefused() ==> Stuck(ImageOf(hard, log, snaps))
    ensures PendingCut(old(snaps.pending), outputs, snaps.pending)
    ensures snaps.current == old(snaps.current) || ApplySnapshot(snaps.current) in outputs
    ensures r.Ok? ==> PayloadsMatch(old(snaps.pending), outputs) && SnapshotsFit(outputs)
    ensures r.Ok? ==>
      var img := ImageOf(hard, log, snaps);
      && ProgressOf(img.pending) == k.pending && img.snap == k.snap
      && img.snap.index <= img.log.Last() && FromOld(old(log.Value()), img)
    ensures Failures(hard, log, snaps) == old(Failures(hard, log, snaps)) + Failed(r)
  {
    hide ImageInv, Extends, TermReached, PayloadsMatch, PendingAfter, SnapAfter, Installable, Image.CommitPoint;
    ghost var start := ImageOf(hard, log, snaps);
    r := PersistSnapshotOutputs(L, hard, log, snaps, outputs);
    if r.Err? { return; }
    ghost var staged := ImageOf(hard, log, snaps);
    r := ClearAbandonedStaging(L, hard, log, snaps, k);
    KeptTrans(L, start, staged, ImageOf(hard, log, snaps));
  }

  // ---------------------------------------------------------------------------
  // The log suffix of a step

  /** What the snapshot work leaves for the log work. */
  ghost predicate ReadyForLog(L: Lineage, img: Image, k: Node, tail: Option<Point>, floor: nat) {
    && ImageInv(L, img) && NodeInv(L, k)
    && k.snap == img.snap && k.term == img.hard.term
    && img.snap.index <= img.log.Last() && img.hard.commit <= floor
    && (tail.Some? && img.snap.index < img.log.Last() ==> tail.value == PointAt(img.log, img.log.Last()))
    && forall i: nat :: img.log.Has(i) && img.snap.index < i <= floor ==> Agrees(img.log, k, i)
  }

  /** Afterwards the durable log is a prefix of the kernel's. */
  method RepairSuffix(
    ghost L: Lineage, ghost hard: HardStateStore, log: LogSegment, ghost snaps: SnapshotStore,
    k: Node, tail: Option<Point>, floor: nat)
    returns (r: Result<(), RuntimeError>)
    requires log.Valid() && ReadyForLog(L, ImageOf(hard, log, snaps), k, tail, floor)
    modifies log
    ensures log.Valid() && Kept(L, old(ImageOf(hard, log, snaps)), ImageOf(hard, log, snaps))
    ensures r.Err? ==> r.error.WriteFailed()
    ensures r.Ok? ==> Prefixes(log.Value(), k.log)
    ensures Failures(hard, log, snaps) == old(Failures(hard, log, snaps)) + Failed(r)
  {
    ghost var start := ImageOf(hard, log, snaps);
    ghost var d: Option<nat>;
    r, d := RepairPersistedLogSuffix(log, k, tail, floor);
    if tail.Some? && StillMatches(tail.value, k) {
      FastPathAgrees(L, start.log, k, tail.value);
    }
    RepairedPrefixes(start.log, k, d);
    if d.Some? {
      TruncateKeeps(L, start, d.value);
    }
  }

  /** Any part of the missing entries may land. */
  lemma SuffixKeeps(L: Lineage, img: Image, k: Node, landed: nat)
    requires ImageInv(L, img) && NodeInv(L, k) && k.snap == img.snap && k.term == img.hard.term
    requires Prefixes(img.log, k.log) && landed <= |k.log.From(img.log.Next())|
    ensures Kept(L, img, img.(log := img.log.Append(k.log.From(img.log.Next())[..landed])))
  {
    AppendGrows(img.log, k.log, landed);
    GrowKeeps(L, img, k.log, img.log.Append(k.log.From(img.log.Next())[..landed]));
  }

  lemma SuffixCompletes(log: Log, k: Node)
    requires Prefixes(log, k.log) && log.base <= k.log.base == k.snap.index
    ensures
      var missing := k.log.From(log.Next());
      var done := log.Append(missing[..|missing|]);
      && done.DropThrough(k.snap.index) == k.log && k.snap.index <= done.Last()
      && (missing == [] ==> done == log)
  {
    var missing := k.log.From(log.Next());
    assert missing[..|missing|] == missing;
    AppendCompletes(log, k.log);
    if missing == [] {
      assert log.entries + missing == log.entries;
    }
  }

  lemma SuffixNeeds(L: Lineage, img: Image, k: Node)
    requires ImageInv(L, img) && NodeInv(L, k) && k.snap == img.snap && Prefixes(img.log, k.log)
    ensures img.log.base <= k.log.base == k.snap.index <= img.log.Last()
  {}

  /** Afterwards the durable log above the boundary is the kernel's, index by index. */
  method AppendSuffix(
    ghost L: Lineage, ghost hard: HardStateStore, log: LogSegment, ghost snaps: SnapshotStore, k: Node)
    returns (r: Result<(), RuntimeError>)
    requires log.Valid() && ImageInv(L, ImageOf(hard, log, snaps)) && NodeInv(L, k)
    requires k.snap == snaps.current && k.term == hard.current.term && Prefixes(log.Value(), k.log)
    modifies log
    ensures log.Valid() && Kept(L, old(ImageOf(hard, log, snaps)), ImageOf(hard, log, snaps))
    ensures r.Err? ==> r.error.WriteFailed() || (r.error.IndexExhausted() && k.log.Last() >= U64_MAX)
    ensures r.Ok? ==> log.Value().DropThrough(k.snap.index) == k.log && k.snap.index <= log.Value().Last()
    ensures Failures(hard, log, snaps) == old(Failures(hard, log, snaps)) + Failed(r)
  {
    hide ImageInv, Extends, NodeInv, TermReached, Prefixes;
    ghost var start := ImageOf(hard, log, snaps);
    SuffixNeeds(L, start, k);
    SuffixCompletes(start.log, k);
    KeptRefl(L, start);
    var first := log.NextIndex();
    if first <= k.snap.index { return Err(LogBehindSnapshotBoundary(first, k.snap.index)); }
    var missing := k.log.From(first);
    if missing == [] {
      return Ok(());
    }
    var appended, landed := log.Append(Label(first, missing));
    SuffixKeeps(L, start, k, landed);
    assert ImageOf(hard, log, snaps) == start.(log := start.log.Append(missing[..landed]));
    return if appended.Err? then Err(Store(appended.error)) else Ok(());
  }

  method PersistLogSuffix(
    ghost L: Lineage, ghost hard: HardStateStore, log: LogSegment, ghost snaps: SnapshotStore,
    k: Node, tail: Option<Point>, floor: nat)
    returns (r: Result<Point, RuntimeError>)
    requires log.Valid() && ReadyForLog(L, ImageOf(hard, log, snaps), k, tail, floor)
    modifies log
    ensures log.Valid() && Kept(L, old(ImageOf(hard, log, snaps)), ImageOf(hard, log, snaps))
    ensures r.Err? ==> r.error.WriteFailed() || (r.error.IndexExhausted() && k.log.Last() >= U64_MAX)
    ensures r.Ok? ==>
      r.value == TailOf(k) && log.Value().DropThrough(k.snap.index) == k.log && k.snap.index <= log.Value().Last()
    ensures r.Ok? ==> forall e :: e in log.entries && e.index > k.snap.index ==> KernelHolds(k, e)
    ensures Failures(hard, log, snaps) == old(Failures(hard, log, snaps)) + Failed(r)
  {
    hide ImageInv, Extends, NodeInv, TermReached, Prefixes;
    ghost var start := ImageOf(hard, log, snaps);
    var repaired := RepairSuffix(L, hard, log, snaps, k, tail, floor);
    if repaired.Err? { return Err(repaired.error); }
    ghost var mid := ImageOf(hard, log, snaps);
    var appended := AppendSuffix(L, hard, log, snaps, k);
    KeptTrans(L, start, mid, ImageOf(hard, log, snaps));
    if appended.Err? { return Err(appended.error); }
    forall e | e in log.entries && e.index > k.snap.index ensures KernelHolds(k, e) {
      LabelsAreIndexes(log.entries, log.compactedThrough, e);
      StoredIsHeld(log.Value(), k, e.index);
    }
    return Ok(TailOf(k));
  }

  /** A stored entry is the kernel's entry at the index it is labelled with. */
  predicate KernelHolds(k: Node, e: Persisted) { k.log.Has(e.index) && k.log.At(e.index) == Entry(e.term, e.kind) }

  lemma StoredIsHeld(log: Log, k: Node, i: nat)
    requires log.DropThrough(k.snap.index) == k.log && log.Has(i) && k.snap.index < i
    ensures k.log.Has(i) && k.log.At(i) == log.At(i)
  {}

  // ---------------------------------------------------------------------------
  // Lemmas that join the phases of a step

  function FenceOf(img: Image, after: Node): HardState {
    HardState(after.term, after.vote, img.hard.commit, img.hard.config)
  }

  /** A step from `before` to `after` whose outputs can be carried out once it is fenced. */
  ghost predicate StepStart(L: Lineage, img: Image, before: Node, tail: Option<Point>, after: Node,
    outputs: seq<Output>) {
    && ImageInv(L, img) && Synced(L, img, before, tail)
    && NodeInv(L, after) && StepKeeps(L, before, after)
    && Underway(L, img.(hard := FenceOf(img, after)), outputs)
    && (after.pending == None || after.pending == ProgressOf(PendingAfter(img.pending, outputs)))
    && after.snap == SnapAfter(img.snap, outputs)
  }

  lemma StepStarts(L: Lineage, img: Image, k: Node, tail: Option<Point>, ms: seq<Move>)
    requires ImageInv(L, img) && Synced(L, img, k, tail) && Guarded(L, k, ms)
    ensures StepStart(L, img, k, tail, ApplyAll(k, ms), OutputsFrom(ms))
    ensures Kept(L, img, img.(hard := FenceOf(img, ApplyAll(k, ms))))
  {
    var fence := FenceOf(img, ApplyAll(k, ms));
    StepKept(L, k, ms);
    FenceKeeps(L, img, fence);
    SyncedPoint(L, img, k, tail);
    StepInstallable(L, k, ms, img.CommitPoint(), img.pending);
    assert img.(hard := fence).CommitPoint() == img.CommitPoint();
  }

  /** After the snapshot work, nothing at or below the old commit index differs. */
  lemma StepReadyForLog(L: Lineage, img: Image, k: Node, tail: Option<Point>, after: Node, mid: Image)
    requires ImageInv(L, img) && Synced(L, img, k, tail)
    requires NodeInv(L, after) && StepKeeps(L, k, after)
    requires ImageInv(L, mid) && mid.snap == after.snap
    requires mid.hard.term == after.term && mid.hard.commit == img.hard.commit
    requires mid.snap.index <= mid.log.Last() && FromOld(img.log, mid)
    ensures ReadyForLog(L, mid, after, tail, k.commit)
  {
    forall i: nat | mid.log.Has(i) && mid.snap.index < i <= k.commit
      ensures Agrees(mid.log, after, i)
    {
      assert k.log.Has(i) && k.log.At(i) == img.log.At(i);
    }
    if tail.Some? && mid.snap.index < mid.log.Last() {
      var last := mid.log.Last();
      assert k.log.Last() == last && k.log.Has(last) && k.log.At(last) == img.log.At(last);
    }
  }

  /** Publishing the commit index completes the step. */
  lemma StepPublishes(L: Lineage, img: Image, k: Node, tail: Option<Point>, after: Node, mid: Image)
    requires ImageInv(L, img) && Synced(L, img, k, tail)
    requires NodeInv(L, after) && StepKeeps(L, k, after)
    requires ImageInv(L, mid) && mid.snap == after.snap && mid.hard.term == after.term && mid.hard.vote == after.vote
    requires mid.hard.commit == img.hard.commit && ProgressOf(mid.pending) == after.pending
    requires mid.snap.index <= mid.log.Last() && mid.log.DropThrough(mid.snap.index) == after.log
    ensures Kept(L, mid, mid.(hard := HardStateOf(after)))
    ensures Synced(L, mid.(hard := HardStateOf(after)), after, Some(TailOf(after)))
  {
    var done := mid.(hard := HardStateOf(after));
    SyncedPoint(L, img, k, tail);
    assert done.CommitPoint() == after.CommitPoint();
    if after.snap.index == k.snap.index {
      assert mid.CommitPoint() == k.CommitPoint() by {
        if k.snap.index < k.commit {
          assert k.log.Has(k.commit) && after.log.At(k.commit) == k.log.At(k.commit);
          assert mid.log.Has(k.commit) && mid.log.At(k.commit) == after.log.At(k.commit);
        }
      }
    } else {
      NodeLine(L, after, after.snap.index, after.commit);
      assert mid.CommitPoint() == after.snap.Boundary();
    }
    PublishKeeps(L, mid, HardStateOf(after));
  }

  // ---------------------------------------------------------------------------
  // The shared-log fast path

  predicate NeedsExplicitFence(output: Output) { !output.Released? && !output.ApplyEntry? }

  /** When a step only appends application entries and moves the commit index. */
  predicate Appends(before: HardState, k: Node, snaps: SnapshotStore, log: LogSegment, tail: Option<Point>,
    outputs: seq<Output>)
    reads snaps, log
  {
    && before.term == k.term && before.vote == k.vote && before.config == StateAt(k, k.commit)
    && (forall o :: o in outputs ==> !NeedsExplicitFence(o))
    && k.pending.None? && snaps.pending.None?
    && k.snap.index == log.compactedThrough
    && tail.Some? && StillMatches(tail.value, k)
  }

  lemma {:induction false} ReleasedOnly(p: Option<Staged>, s: Snapshot, outputs: seq<Output>)
    requires forall o :: o in outputs ==> !NeedsExplicitFence(o)
    ensures PendingAfter(p, outputs) == p && SnapAfter(s, outputs) == s
    ensures PayloadsMatch(p, outputs) && SnapshotsFit(outputs)
    decreases |outputs|
  {
    if outputs != [] {
      assert outputs[0] in outputs;
      ReleasedOnly(p, s, outputs[1..]);
    }
  }

  /** The one record of the fast path takes the image where the separate writes would. */
  lemma AppendsInOne(L: Lineage, img: Image, before: Node, tail: Option<Point>, after: Node, outputs: seq<Output>)
    requires StepStart(L, img, before, tail, after, outputs)
    requires img.hard.term == after.term && img.hard.vote == after.vote
    requires forall o :: o in outputs ==> !NeedsExplicitFence(o)
    requires after.pending.None? && img.pending.None? && tail.Some? && StillMatches(tail.value, after)
    ensures
      var done := img.(log := img.log.Append(after.log.From(img.log.Next())), hard := HardStateOf(after));
      && Kept(L, img, done) && Synced(L, done, after, Some(TailOf(after)))
      && done.log.Next() == after.log.Next()
  {
    hide Extends;
    ReleasedOnly(img.pending, img.snap, outputs);
    StepReadyForLog(L, img, before, tail, after, img);
    FastPathAgrees(L, img.log, after, tail.value);
    RepairedPrefixes(img.log, after, None);
    var missing := after.log.From(img.log.Next());
    assert missing[..|missing|] == missing;
    SuffixKeeps(L, img, after, |missing|);
    SuffixCompletes(img.log, after);
    var mid := img.(log := img.log.Append(missing));
    StepPublishes(L, img, before, tail, after, mid);
    KeptTrans(L, img, mid, mid.(hard := HardStateOf(after)));
  }

  method TryAtomicAppendBatch(
    ghost L: Lineage, hard: HardStateStore, log: LogSegment, snaps: SnapshotStore,
    k: Node, tail: Option<Point>, outputs: seq<Output>, ghost before: Node)
    returns (r: Result<bool, RuntimeError>)
    requires log.Valid() && StepStart(L, ImageOf(hard, log, snaps), before, tail, k, outputs)
    modifies hard, log
    ensures log.Valid() && Kept(L, old(ImageOf(hard, log, snaps)), ImageOf(hard, log, snaps))
    ensures r == Ok(false) ==> ImageOf(hard, log, snaps) == old(ImageOf(hard, log, snaps))
    ensures r == Ok(true) ==> hard.current == HardStateOf(k) && Synced(L, ImageOf(hard, log, snaps), k, Some(TailOf(k)))
    ensures r == Ok(true) ==> PayloadsMatch(snaps.pending, outputs) && SnapshotsFit(outputs)
    ensures r.Err? ==> r.error.WriteFailed() || (r.error.IndexExhausted() && k.log.Last() >= U64_MAX)
    ensures Published(old(hard.current), ImageOf(hard, log, snaps), k)
    ensures r != Ok(false) ==>
      && old(hard.current).term == k.term && old(hard.current).vote == k.vote
      && old(hard.current).config == StateAt(k, k.commit) && k.pending.None? && snaps.pending.None?
      && (forall e :: e in k.log.From(old(log.Value()).Next()) ==> e.kind.Application?)
      && (forall o :: o in outputs ==> o.Released? || o.ApplyEntry?)
    ensures Failures(hard, log, snaps) == old(Failures(hard, log, snaps)) + Failed(r)
  {
    hide ImageInv, Extends, TermReached, NodeInv, StepKeeps, Underway, Synced, Image.CommitPoint, SnapshotsFit;
    ghost var img := ImageOf(hard, log, snaps);
    KeptRefl(L, img);
    if !Appends(hard.current, k, snaps, log, tail, outputs) { return Ok(false); }
    var first := log.NextIndex();
    var missing := k.log.From(first);
    if exists e :: e in missing && !e.kind.Application? { return Ok(false); }
    AppendsInOne(L, img, before, tail, k, outputs);
    ReleasedOnly(snaps.pending, snaps.current, outputs);
    ghost var done := img.(log := img.log.Append(missing), hard := HardStateOf(k));
    SyncedPublished(L, img.hard, done, k, Some(TailOf(k)));
    var written := PersistBatch(hard, log, Label(first, missing), HardStateOf(k));
    if written.Err? { return Err(Store(written.error)); }
    if !written.value { return Ok(false); }
    var next := log.NextIndex();
    if hard.current != HardStateOf(k) || next != k.log.Next() || log.compactedThrough != k.snap.index {
      return Err(Store(InvalidBatch));
    }
    return Ok(true);
  }

  // ---------------------------------------------------------------------------
  // Local compaction

  /** Why the kernel refuses a local snapshot, or nothing. */
  function LocalSnapshotRefusal(rules: Rules, k: Node, s: Snapshot): Option<RuntimeError> {
    if s.index < k.snap.index then Some(SnapshotBelowInstalledBoundary(s.index, k.snap.index))
    else if s.index > k.commit then Some(SnapshotAheadOfCommit(s.index, k.commit))
    else if s.index > k.applied then Some(SnapshotAheadOfApplied(s.index, k.applied))
    else if k.TermAt(s.index) != Some(s.term) then Some(SnapshotBoundaryTermMismatch(s.index, k.TermAt(s.index)))
    else if s.declared.Some? && s.declared.value.membership != rules.MembershipAt(k, s.index) then
      Some(SnapshotMembershipMismatch(s.index))
    else if s.declared.Some? && s.declared.value.state != StateAt(k, s.index) then
      Some(SnapshotConfigurationMismatch(s.index))
    else if !rules.Local(k, s) then Some(SnapshotRefusedByKernel(s.index))
    else None
  }

  /** The kernel after a local snapshot: the covered prefix is retired. */
  function LocallyCompacted(k: Node, s: Snapshot): Node {
    k.(config := StateAt(k, s.index), snap := s, log := k.log.DropThrough(s.index), pending := None)
  }

  /** What recording a snapshot keeps: everything, if its author's term has been reached. */
  ghost predicate Recorded(L: Lineage, a: Image, b: Image, s: Snapshot) {
    ImageInv(L, b) && Extends(L, a, b) && (s.hardStateTerm <= a.hard.term ==> Kept(L, a, b))
  }

  /** The image after a completed local compaction. */
  function CompactedImage(img: Image, s: Snapshot): Image {
    img.(snap := s, pending := None, log := img.log.DropThrough(s.index))
  }

  lemma CompactionNodeInv(L: Lineage, rules: Rules, k: Node, s: Snapshot)
    requires NodeInv(L, k) && LocalSnapshotRefusal(rules, k, s).None?
    ensures NodeInv(L, LocallyCompacted(k, s))
  {
    ChainedDrop(L, k.log, s.index);
  }

  lemma CompactionRecords(L: Lineage, rules: Rules, img: Image, k: Node, tail: Option<Point>, s: Snapshot)
    requires ImageInv(L, img) && Synced(L, img, k, tail) && LocalSnapshotRefusal(rules, k, s).None?
    ensures Recorded(L, img, img.(snap := s, pending := None), s) && Recorded(L, img, img.(snap := s), s)
    ensures Recorded(L, img, CompactedImage(img, s), s)
  {
    var recorded := img.(snap := s, pending := None);
    RecordKeeps(L, img, s, None);
    RecordKeeps(L, img, s, img.pending);
    CompactKeeps(L, recorded);
    ExtendsTrans(L, img, recorded, CompactedImage(img, s));
  }

  /** Snapshot then compaction: sound at every cut, and at the end disk and kernel agree. */
  lemma CompactionSynced(L: Lineage, rules: Rules, img: Image, k: Node, tail: Option<Point>, s: Snapshot)
    requires ImageInv(L, img) && Synced(L, img, k, tail) && LocalSnapshotRefusal(rules, k, s).None?
    ensures Recorded(L, img, img.(snap := s, pending := None), s) && Recorded(L, img, img.(snap := s), s)
    ensures Recorded(L, img, CompactedImage(img, s), s)
    ensures Synced(L, CompactedImage(img, s), LocallyCompacted(k, s), tail)
  {
    hide ImageInv, Extends, Recorded, NodeInv;
    CompactionRecords(L, rules, img, k, tail, s);
    CompactionNodeInv(L, rules, k, s);
    CompactionBounds(L, rules, k, s);
    DropDrop(img.log, img.snap.index, s.index);
    DropTwice(img.log, s.index);
  }

  lemma CompactionBounds(L: Lineage, rules: Rules, k: Node, s: Snapshot)
    requires NodeInv(L, k) && LocalSnapshotRefusal(rules, k, s).None?
    ensures k.log.base == k.snap.index <= s.index <= k.commit <= k.log.Last()
  {}

  /** A local boundary lies inside the durable log. */
  lemma CompactionFits(L: Lineage, rules: Rules, img: Image, k: Node, tail: Option<Point>, s: Snapshot)
    requires Synced(L, img, k, tail) && LocalSnapshotRefusal(rules, k, s).None?
    ensures s.index <= img.log.Last()
  {}

  lemma RetiredPrefix(L: Lineage, rules: Rules, k: Node, s: Snapshot)
    requires NodeInv(L, k) && LocalSnapshotRefusal(rules, k, s).None?
    ensures k.log.base <= s.index <= k.log.Last()
    ensures k.log.entries == k.log.entries[..s.index - k.log.base] + LocallyCompacted(k, s).log.entries
  {}

  lemma DropDrop(log: Log, i: nat, j: nat)
    requires i <= j && i <= log.Last()
    ensures log.DropThrough(i).DropThrough(j) == log.DropThrough(j)
  {
    SameLog(log.DropThrough(i).DropThrough(j), log.DropThrough(j));
  }
}
