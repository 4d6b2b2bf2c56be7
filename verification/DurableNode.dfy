/** The runtime object: kernel, stores, persisted tail and poison flag
    (crates/rafter-runtime/src/node.rs, step.rs, compaction.rs, construction/hydrate.rs). */
module DurableNode {
  import opened Prelude
  import opened Raft
  import opened Kernel
  import opened Durable
  import opened Stores
  import opened StepOutputs
  import opened SnapshotInstall
  import opened LogRepair
  import opened Runtime
  import opened CommittedConfig
  import opened Delivery

  class DurableRaftNode {
    const hard: HardStateStore
    const log: LogSegment
    const snaps: SnapshotStore
    const rules: Rules
    var node: Node
    var tail: Option<Point>
    var fatal: Option<RuntimeError>

    ghost function Img(): Image
      reads hard, log, snaps
    {
      ImageOf(hard, log, snaps)
    }

    /** The writes that have failed on this node's stores. */
    ghost function FailedWrites(): nat
      reads hard, log, snaps
    {
      Failures(hard, log, snaps)
    }

    /** The image is sound at all times; kernel and disk agree unless a write has failed. */
    ghost predicate Valid(L: Lineage)
      reads this, hard, log, snaps
    {
      log.Valid() && ImageInv(L, Img()) && (fatal.None? ==> Synced(L, Img(), node, tail))
    }

    constructor (hard: HardStateStore, log: LogSegment, snaps: SnapshotStore, rules: Rules, node: Node)
      ensures this.hard == hard && this.log == log && this.snaps == snaps && this.rules == rules
      ensures this.node == node && tail == Some(TailOf(node)) && fatal == None
    {
      this.hard, this.log, this.snaps, this.rules := hard, log, snaps, rules;
      this.node, tail, fatal := node, Some(TailOf(node)), None;
    }

    method Poison(error: RuntimeError) returns (e: RuntimeError)
      modifies this`fatal
      ensures e == error && fatal == Some(error)
    {
      fatal := Some(error);
      return error;
    }

    /** Term and vote go first, with the old commit index. */
    method Fence(ghost L: Lineage, fence: HardState) returns (r: Result<(), RuntimeError>)
      requires ImageInv(L, Img()) && Kept(L, Img(), Img().(hard := fence))
      modifies hard
      ensures Kept(L, old(Img()), Img())
      ensures hard.current == old(hard.current) || hard.current == fence
      ensures r.Ok? ==> hard.current == fence
      ensures r.Err? ==> r.error.WriteFailed()
      ensures FailedWrites() == old(FailedWrites()) + Failed(r)
    {
      if fence != hard.current {
        var written := hard.Write(fence);
        if written.Err? { return Err(Store(written.error)); }
      }
      return Ok(());
    }

    /** The writes of a step after the fence and before the commit index. */
    method PersistSnapshotsAndLog(ghost L: Lineage, outputs: seq<Output>, floor: nat, ghost img: Image,
      ghost before: Node)
      returns (r: Result<(), RuntimeError>)
      requires log.Valid() && StepStart(L, img, before, tail, node, outputs) && floor == before.commit
      requires Img() == img.(hard := FenceOf(img, node))
      modifies this`tail, log, snaps
      ensures log.Valid() && Kept(L, old(Img()), Img())
      ensures r.Err? ==> Excused(r.error, old(snaps.pending), outputs, IndexesFit(outputs, node))
      ensures r.Err? && r.error.PayloadRefused() ==> Stuck(Img())
      ensures PendingCut(old(snaps.pending), outputs, snaps.pending)
      ensures snaps.current == old(snaps.current) || ApplySnapshot(snaps.current) in outputs
      ensures r.Ok? ==> PayloadsMatch(old(snaps.pending), outputs) && IndexesFit(outputs, node)
      ensures r.Ok? ==>
        && tail == Some(TailOf(node))
        && Img().snap == node.snap && ProgressOf(Img().pending) == node.pending
        && node.snap.index <= Img().log.Last() && Img().log.DropThrough(node.snap.index) == node.log
      ensures FailedWrites() == old(FailedWrites()) + Failed(r)
    {
      hide ImageInv, Extends, TermReached, NodeInv, StepKeeps, FromOld, Underway, PayloadsMatch, Image.CommitPoint,
        Log.DropThrough, Log.Last, Stuck, SnapshotsFit, StateAt, PendingCut;
      ghost var start := Img();
      r := PersistSnapshots(L, hard, log, snaps, outputs, node);
      if r.Err? { return; }
      ghost var mid := Img();
      StepReadyForLog(L, img, before, tail, node, mid);
      var persisted := PersistLogSuffix(L, hard, log, snaps, node, tail, floor);
      KeptTrans(L, start, mid, Img());
      if persisted.Err? { return Err(persisted.error); }
      tail := Some(persisted.value);
      DurableLogFits(log, node);
    }

    /** The separate writes of a step: term and vote, snapshots and log, commit index. */
    method PersistInOrder(ghost L: Lineage, outputs: seq<Output>, floor: nat, ghost before: Node)
      returns (r: Result<(), RuntimeError>)
      requires log.Valid() && StepStart(L, Img(), before, tail, node, outputs) && floor == before.commit
      requires Kept(L, Img(), Img().(hard := FenceOf(Img(), node)))
      modifies this`tail, hard, log, snaps
      ensures log.Valid() && Kept(L, old(Img()), Img())
      ensures r.Ok? ==> hard.current == HardStateOf(node) && Synced(L, Img(), node, tail) && tail == Some(TailOf(node))
      ensures r.Ok? ==> PayloadsMatch(old(snaps.pending), outputs) && IndexesFit(outputs, node)
      ensures r.Err? ==> Excused(r.error, old(snaps.pending), outputs, IndexesFit(outputs, node))
      ensures r.Err? && r.error.PayloadRefused() ==> Stuck(Img())
      ensures Published(old(hard.current), Img(), node)
      ensures PendingCut(old(snaps.pending), outputs, snaps.pending)
      ensures snaps.current == old(snaps.current) || ApplySnapshot(snaps.current) in outputs
      ensures FailedWrites() == old(FailedWrites()) + Failed(r)
    {
      hide ImageInv, Extends, TermReached, NodeInv, StepKeeps, FromOld, Underway, PayloadsMatch, Image.CommitPoint,
        Log.DropThrough, Log.Last, Stuck, IndexesFit, StateAt, PendingCut;
      ghost var start := Img();
      UncutPending(start.pending, outputs);
      var current := HardStateOf(node);
      var fence := HardState(current.term, current.vote, hard.current.commit, hard.current.config);
      r := Fence(L, fence);
      if r.Err? { return; }
      ghost var a := Img();
      r := PersistSnapshotsAndLog(L, outputs, floor, start, before);
      ghost var b := Img();
      KeptTrans(L, start, a, b);
      if r.Err? { return; }
      StepPublishes(L, start, before, old(tail), node, b);
      SyncedPublished(L, start.hard, b.(hard := current), node, Some(TailOf(node)));
      r := Fence(L, current);
      KeptTrans(L, start, b, Img());
    }

    /** All writes of a step; no output leaves before the last of them, and a failure poisons. */
    method PersistStepped(ghost L: Lineage, outputs: seq<Output>, floor: nat, ghost before: Node)
      returns (r: Result<seq<Output>, RuntimeError>)
      requires log.Valid() && StepStart(L, Img(), before, tail, node, outputs) && floor == before.commit
      requires Kept(L, Img(), Img().(hard := FenceOf(Img(), node)))
      requires fatal.None?
      modifies this`tail, this`fatal, hard, log, snaps
      ensures log.Valid() && Kept(L, old(Img()), Img())
      ensures r.Ok? ==>
        && r.value == outputs && fatal.None? && hard.current == HardStateOf(node)
        && Synced(L, Img(), node, tail) && tail == Some(TailOf(node))
      ensures r.Ok? ==> PayloadsMatch(old(snaps.pending), outputs) && IndexesFit(outputs, node)
      ensures r.Err? ==> fatal == Some(r.error)
      ensures r.Err? ==> Excused(r.error, old(snaps.pending), outputs, IndexesFit(outputs, node))
      ensures r.Err? && r.error.PayloadRefused() ==> Stuck(Img())
      ensures Published(old(hard.current), Img(), node)
      ensures PendingCut(old(snaps.pending), outputs, snaps.pending)
      ensures snaps.current == old(snaps.current) || ApplySnapshot(snaps.current) in outputs
      ensures FailedWrites() == old(FailedWrites()) + Failed(r)
    {
      hide ImageInv, Extends, TermReached, NodeInv, StepKeeps, FromOld, Underway, PayloadsMatch, Image.CommitPoint,
        Log.DropThrough, Log.Last, Stuck, SnapshotsFit, StateAt, PendingCut, Published;
      UncutPending(snaps.pending, outputs);
      var atomic := TryAtomicAppendBatch(L, hard, log, snaps, node, tail, outputs, before);
      if atomic.Err? {
        var e := Poison(atomic.error);
        return Err(e);
      }
      if atomic.value {
        tail := Some(TailOf(node));
        DurableLogFits(log, node);
        return Ok(outputs);
      }
      var persisted := PersistInOrder(L, outputs, floor, before);
      if persisted.Err? {
        var e := Poison(persisted.error);
        return Err(e);
      }
      return Ok(outputs);
    }

    /** Drives any moves of the kernel.  Outputs are released only when the durable hard
        state, snapshot, staging and log are the kernel's; a failed write or a payload with a
        wrong checksum releases nothing and poisons, and a poisoned runtime writes nothing. */
    method StepAndPersist(ghost L: Lineage, ms: seq<Move>) returns (r: Result<seq<Output>, RuntimeError>)
      requires Valid(L) && (fatal.None? ==> Guarded(L, node, ms))
      modifies this, hard, log, snaps
      ensures Valid(L) && Kept(L, old(Img()), Img())
      ensures old(fatal).Some? ==>
        r == Err(Poisoned) && Img() == old(Img()) && node == old(node) && tail == old(tail) && fatal == old(fatal)
      ensures r.Ok? ==>
        && fatal.None? && r.value == OutputsFrom(ms)
        && hard.current == HardStateOf(node) && tail == Some(TailOf(node))
      ensures old(fatal).None? ==> node == ApplyAll(old(node), ms) && Published(old(hard.current), Img(), node)
      ensures r.Ok? ==> PayloadsMatch(old(snaps.pending), OutputsFrom(ms)) && IndexesFit(OutputsFrom(ms), node)
      ensures PendingCut(old(snaps.pending), OutputsFrom(ms), snaps.pending)
      ensures snaps.current == old(snaps.current) || ApplySnapshot(snaps.current) in OutputsFrom(ms)
      ensures r.Err? && old(fatal).None? ==>
        && fatal == Some(r.error)
        && Excused(r.error, old(snaps.pending), OutputsFrom(ms), IndexesFit(OutputsFrom(ms), node))
        && (r.error.PayloadRefused() ==> Stuck(Img()))
      ensures FailedWrites() == old(FailedWrites()) + Failed(r)
    {
      if fatal.Some? {
        KeptRefl(L, Img());
        return Err(Poisoned);
      }
      var floor := node.commit;
      ghost var before := node;
      StepStarts(L, Img(), node, tail, ms);
      node := ApplyAll(node, ms);
      r := PersistStepped(L, OutputsFrom(ms), floor, before);
    }

    /** Hands out what is committed above the cursor; nothing is written. */
    method DrainCommittedOutputs(ghost L: Lineage) returns (outputs: seq<Output>)
      requires Valid(L)
      modifies this`node
      ensures Valid(L) && node == old(node).(applied := node.applied)
      ensures outputs == OutputsFrom(DeliverMoves(old(node.log), old(node.applied), old(node.commit)))
      ensures fatal.None? ==> node.applied == node.commit
    {
      hide ImageInv, NodeInv, OutputsFrom, DeliverMoves;
      if fatal.None? { CursorInside(L, Img(), node, tail); }
      node, outputs := EmitCommittedOutputs(node);
      if fatal.None? { CursorMoved(L, Img(), old(node), tail, node.applied); }
    }

    /** The two writes of a local compaction. */
    method RecordAndCompact(s: Snapshot) returns (r: Result<(), RuntimeError>)
      requires log.Valid() && s.index <= log.Value().Last()
      modifies log, snaps
      ensures log.Valid()
      ensures r.Ok? ==> Img() == CompactedImage(old(Img()), s)
      ensures r.Err? ==> r.error.WriteFailed()
      ensures
        || Img() == old(Img()) || Img() == old(Img()).(snap := s)
        || Img() == old(Img()).(snap := s, pending := None) || Img() == CompactedImage(old(Img()), s)
      ensures FailedWrites() == old(FailedWrites()) + Failed(r)
    {
      var written := snaps.WriteSnapshot(s);
      if written.Err? { return Err(Store(written.error)); }
      var compacted := log.CompactPrefixThrough(s.index);
      if compacted.Err? { return Err(Store(compacted.error)); }
      return Ok(());
    }

    /** Publishes a snapshot of the applied prefix, with the configuration it leaves behind,
        then drops that prefix from the log.  A snapshot the kernel refuses writes nothing; a
        failed write poisons. */
    method CompactLogWithSnapshot(ghost L: Lineage, given: Snapshot) returns (r: Result<seq<Entry>, RuntimeError>)
      requires Valid(L)
      modifies this, log, snaps
      ensures Valid(L)
      ensures Recorded(L, old(Img()), Img(), Stamped(rules, old(node), given))
      ensures old(fatal).Some? ==>
        r == Err(Poisoned) && Img() == old(Img()) && node == old(node) && tail == old(tail) && fatal == old(fatal)
      ensures
        var s := Stamped(rules, old(node), given);
        old(fatal).None? && LocalSnapshotRefusal(rules, old(node), s).Some? ==>
          && r == Err(LocalSnapshotRefusal(rules, old(node), s).value)
          && Img() == old(Img()) && node == old(node) && fatal.None?
      ensures r.Ok? ==>
        && fatal.None? && node == LocallyCompacted(old(node), Stamped(rules, old(node), given))
        && Log(old(node.log).base, r.value + node.log.entries) == old(node.log)
      ensures
        r.Err? && old(fatal).None?
        && LocalSnapshotRefusal(rules, old(node), Stamped(rules, old(node), given)).None? ==>
          r.error.WriteFailed() && fatal == Some(r.error) && node == old(node)
      ensures snaps.pending == old(snaps.pending) || snaps.pending == None
      ensures snaps.current == old(snaps.current) || snaps.current == Stamped(rules, old(node), given)
      ensures tail == old(tail)
      ensures FailedWrites() == old(FailedWrites()) + Failed(r)
    {
      hide ImageInv, Extends, TermReached, NodeInv, Image.CommitPoint, Log.DropThrough, Stamped, StateAt;
      ghost var start := Img();
      KeptRefl(L, start);
      if fatal.Some? { return Err(Poisoned); }
      var s := Stamped(rules, node, given);
      var refusal := LocalSnapshotRefusal(rules, node, s);
      if refusal.Some? { return Err(refusal.value); }
      CompactionFits(L, rules, start, node, tail, s);
      CompactionSynced(L, rules, start, node, tail, s);
      RetiredPrefix(L, rules, node, s);
      var persisted := RecordAndCompact(s);
      if persisted.Err? {
        var e := Poison(persisted.error);
        return Err(e);
      }
      var retired := node.log.entries[..s.index - node.log.base];
      node := LocallyCompacted(node, s);
      return Ok(retired);
    }
  }
}
