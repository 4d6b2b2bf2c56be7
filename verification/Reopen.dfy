/** From durable storage to a live kernel (crates/rafter-runtime/src/construction/hydrate.rs,
    crates/rafter/src/node/bootstrap/validate). */
module Reopen {
  import opened Prelude
  import opened Raft
  import opened Kernel
  import opened Durable
  import opened Stores
  import opened StepOutputs
  import opened SnapshotInstall
  import opened LogRepair
  import opened Runtime
  import opened DurableNode
  import opened CommittedConfig
  import opened ConfigRecovery
  import opened Delivery

  /** The kernel that an image describes. */
  function NodeOf(img: Image): Node {
    var config := Recovered(img);
    Node(img.hard.term, img.hard.vote, img.Committed(), img.snap.index, if config.Ok? then config.value else None,
         img.snap, img.log.DropThrough(img.snap.index), None)
  }

  /** The snapshot, if there is one, was written by a replica. */
  predicate AuthorAdmitted(rules: Rules, s: Snapshot) { s != NO_SNAPSHOT ==> rules.Author(s) }

  /** What membership and configuration rules say of an image. */
  ghost predicate RulesAdmit(rules: Rules, img: Image) {
    AuthorAdmitted(rules, img.snap) && ConfigurationAdmitted(img)
  }

  /** What the kernel checks of an image before it starts from it. */
  ghost predicate Bootable(rules: Rules, img: Image) {
    && (img.hard.vote.Some? ==> img.hard.term > 0)
    && TermReached(img)
    && RulesAdmit(rules, img)
    && LogBootable(img.log, img.snap, img.hard.term)
    && img.Committed() <= img.log.DropThrough(img.snap.index).Last()
  }

  ghost predicate LogBootable(log: Log, snap: Snapshot, term: nat) {
    && (log.Has(snap.index) ==> log.At(snap.index).term == snap.term)
    && TermsWithin(log.DropThrough(snap.index), term)
  }

  /** The reason given for refusing to boot is true of the image. */
  ghost predicate Blames(e: BootstrapError, rules: Rules, img: Image) {
    || (e == VoteInZeroTerm && img.hard.vote.Some? && img.hard.term == 0)
    || (e == SnapshotTermAhead(img.snap.hardStateTerm, img.hard.term) && img.hard.term < img.snap.hardStateTerm)
    || (e == SnapshotWriterNotReplica && img.snap != NO_SNAPSHOT && !rules.Author(img.snap))
    || (&& e == CommitBeyondLog(img.Committed(), img.log.DropThrough(img.snap.index).Last())
        && img.log.DropThrough(img.snap.index).Last() < img.Committed())
    || BlamesLog(e, img.log, img.snap, img.hard.term)
    || BlamesBoundary(e, img.hard.config, img.log, img.snap)
    || Recovered(img) == Err(e)
  }

  ghost predicate BlamesBoundary(e: BootstrapError, stored: Option<Config>, log: Log, snap: Snapshot) {
    log.Has(snap.index) && BoundaryRefusal(stored, snap, log.At(snap.index)) == Some(e)
  }

  ghost predicate BlamesLog(e: BootstrapError, log: Log, snap: Snapshot, term: nat) {
    match e
    case BoundaryTermMismatch => log.Has(snap.index) && log.At(snap.index).term != snap.term
    case EntryTermInvalid(i) => snap.index < i && log.Has(i) && !(1 <= log.At(i).term <= term)
    case _ => false
  }

  /** Position by position: what reading the whole segment has checked. */
  ghost predicate Checked(entries: seq<Entry>, skip: nat, upTo: nat, kept: seq<Entry>, boundaryTerm: nat, term: nat) {
    && |kept| == (if skip < upTo then upTo - skip else 0)
    && (forall j :: 0 <= j < |kept| ==>
      skip + j < |entries| && kept[j] == entries[skip + j] && 1 <= kept[j].term <= term)
    && (0 < skip <= upTo && skip <= |entries| ==> entries[skip - 1].term == boundaryTerm)
  }

  lemma CheckedAll(log: Log, snap: Snapshot, kept: seq<Entry>, term: nat)
    requires log.base <= snap.index && Checked(log.entries, snap.index - log.base, |log.entries|, kept, snap.term, term)
    ensures LogBootable(log, snap, term) && Log(snap.index, kept) == log.DropThrough(snap.index)
  {
    assert Log(snap.index, kept) == log.DropThrough(snap.index);
    assert TermsWithin(Log(snap.index, kept), term);
  }

  lemma NotBootable(log: Log, snap: Snapshot, term: nat, i: nat)
    requires log.base <= snap.index && i < |log.entries|
    requires
      || (log.base + 1 + i == snap.index && log.entries[i].term != snap.term)
      || (log.base + 1 + i > snap.index && !(1 <= log.entries[i].term <= term))
    ensures !LogBootable(log, snap, term)
  {
    var index := log.base + 1 + i;
    assert log.Has(index) && log.At(index) == log.entries[i];
    assert index > snap.index ==> log.DropThrough(snap.index).Has(index);
  }

  /** The retained log, in order: the boundary entry must carry the boundary's term and
      configuration and is not kept; every later one must continue the log with a term the
      node has reached. */
  method ValidateLog(stored: Option<Config>, log: LogSegment, snap: Snapshot, term: nat)
    returns (r: Result<seq<Entry>, BootstrapError>)
    requires log.Valid() && log.compactedThrough <= snap.index
    ensures r.Ok? <==> LogBootable(log.Value(), snap, term) && BoundaryAdmitted(stored, log.Value(), snap)
    ensures r.Ok? ==> Log(snap.index, r.value) == log.Value().DropThrough(snap.index)
    ensures r.Err? ==>
      BlamesLog(r.error, log.Value(), snap, term) || BlamesBoundary(r.error, stored, log.Value(), snap)
  {
    hide LogBootable, BoundaryRefusal;
    ghost var value := log.Value();
    ghost var skip := snap.index - log.compactedThrough;
    var expected := snap.index + 1;
    var kept: seq<Entry> := [];
    var i := 0;
    while i < |log.entries|
      invariant 0 <= i <= |log.entries|
      invariant Checked(value.entries, skip, i, kept, snap.term, term)
      invariant 0 < skip <= i ==> BoundaryRefusal(stored, snap, value.entries[skip - 1]).None?
      invariant expected == snap.index + |kept| + 1
    {
      var e := log.entries[i];
      if e.index == snap.index {
        if e.term != snap.term {
          NotBootable(value, snap, term, i);
          return Err(BoundaryTermMismatch);
        }
        var refusal := BoundaryRefusal(stored, snap, Entry(e.term, e.kind));
        if refusal.Some? {
          assert value.Has(snap.index) && value.At(snap.index) == value.entries[i];
          return Err(refusal.value);
        }
      } else if e.index > snap.index {
        if e.index != expected { return Err(NonContiguousLog(expected, e.index)); }
        if e.term == 0 || e.term > term {
          NotBootable(value, snap, term, i);
          return Err(EntryTermInvalid(e.index));
        }
        if e.index >= U64_MAX { return Err(LogIndexAtMaximum); }
        kept := kept + [Entry(e.term, e.kind)];
        expected := e.index + 1;
      }
      i := i + 1;
    }
    CheckedAll(value, snap, kept, term);
    return Ok(kept);
  }

  method Bootstrap(rules: Rules, hard: HardState, snap: Snapshot, log: LogSegment, ghost img: Image)
    returns (r: Result<Node, BootstrapError>)
    requires log.Valid() && log.compactedThrough <= snap.index
    requires img.hard == hard && img.snap == snap && img.log == log.Value()
    ensures r.Ok? <==> Bootable(rules, img)
    ensures r.Ok? ==> r.value == NodeOf(img)
    ensures !TermReached(img) && (hard.vote.Some? ==> hard.term > 0) ==>
      r == Err(SnapshotTermAhead(snap.hardStateTerm, hard.term))
    ensures r.Err? ==> Blames(r.error, rules, img)
  {
    hide LogBootable, BoundaryAdmitted, RecoverConfiguration;
    if hard.vote.Some? && hard.term == 0 { return Err(VoteInZeroTerm); }
    if snap.hardStateTerm > hard.term { return Err(SnapshotTermAhead(snap.hardStateTerm, hard.term)); }
    if !AuthorAdmitted(rules, snap) { return Err(SnapshotWriterNotReplica); }
    var kept := ValidateLog(hard.config, log, snap, hard.term);
    if kept.Err? { return Err(kept.error); }
    var commit, last := Max(hard.commit, snap.index), snap.index + |kept.value|;
    if commit > last { return Err(CommitBeyondLog(commit, last)); }
    var retained := Log(snap.index, kept.value);
    var config := RecoverConfiguration(hard.config, snap, retained, commit);
    if config.Err? { return Err(config.error); }
    return Ok(Node(hard.term, hard.vote, commit, snap.index, config.value, snap, retained, None));
  }

  /** Whatever the image is like, a kernel that boots from it has its indexes in order, terms it
      has reached and a vote only in a real term, agrees with the log about the boundary, and
      has an admitted author and a configuration to go on with. */
  lemma BootedIsSane(rules: Rules, img: Image)
    requires img.log.base <= img.snap.index && Bootable(rules, img)
    ensures
      var k := NodeOf(img);
      && k.log.base == k.snap.index == k.applied && k.snap.index <= k.commit <= k.log.Last()
      && k.snap == img.snap && k.snap.hardStateTerm <= k.term && (k.vote.Some? ==> k.term > 0)
      && (forall i: nat :: k.log.Has(i) ==>
            img.log.Has(i) && k.log.At(i) == img.log.At(i) && 1 <= k.log.At(i).term <= k.term)
      && (img.log.Has(k.snap.index) ==> img.log.At(k.snap.index).term == k.snap.term)
      && (k.snap != NO_SNAPSHOT ==> rules.Author(k.snap))
      && Recovered(img) == Ok(k.config)
  {
    hide Recovered, Rules.Author;
  }

  /** A sound image is bootable if and only if the durable term has reached the snapshot
      author's and the membership and configuration rules admit it. */
  lemma SoundImageBoots(L: Lineage, rules: Rules, img: Image)
    requires ImageInv(L, img) && img.snap.index <= img.log.Last()
    ensures Bootable(rules, img) <==> TermReached(img) && RulesAdmit(rules, img)
    ensures NodeInv(L, NodeOf(img))
    ensures Synced(L, img.(pending := None), NodeOf(img), Some(TailOf(NodeOf(img))))
  {
    ChainedDrop(L, img.log, img.snap.index);
    assert img.(pending := None).Committed() == img.Committed();
  }

  // ---------------------------------------------------------------------------
  // The repairs of an open

  /** The image once an install that was waiting has been finished. */
  ghost function Settle(img: Image): Image {
    if Settled(img) then img else InstallDone(img, img.pending.value.snapshot)
  }

  /** Finishes an install that was cut between its last chunk and its promotion, unless the
      staged bytes miss their checksum. */
  method FinishInstall(ghost L: Lineage, hard: HardStateStore, log: LogSegment, snaps: SnapshotStore)
    returns (r: Result<(), RuntimeError>)
    requires log.Valid() && ImageInv(L, ImageOf(hard, log, snaps))
    modifies log, snaps
    ensures log.Valid() && Kept(L, old(ImageOf(hard, log, snaps)), ImageOf(hard, log, snaps))
    ensures r.Ok? ==> Settled(ImageOf(hard, log, snaps))
    ensures r.Ok? ==> ImageOf(hard, log, snaps) == old(Settle(ImageOf(hard, log, snaps)))
    ensures
      var img := old(ImageOf(hard, log, snaps));
      && (Settled(img) ==> r.Ok?)
      && (!Settled(img) && r.Ok? ==> Genuine(img.pending.value) && img.pending.value.snapshot.index < U64_MAX)
      && (!Settled(img) && r.Err? ==>
        || r.error.WriteFailed()
        || (r.error.PayloadRefused() && !Genuine(img.pending.value))
        || (r.error.IndexExhausted() && img.pending.value.snapshot.index >= U64_MAX))
      && (Stuck(img) ==> snaps.current == img.snap && snaps.pending == img.pending)
      && (snaps.current == img.snap || (!Settled(img) && snaps.current == img.pending.value.snapshot))
      && (!Settled(img) && snaps.current == img.snap ==> snaps.pending == img.pending)
    ensures snaps.pending == old(snaps.pending) || snaps.pending == None
    ensures Failures(hard, log, snaps) == old(Failures(hard, log, snaps)) + Failed(r)
  {
    hide Genuine;
    ghost var img := ImageOf(hard, log, snaps);
    KeptRefl(L, img);
    if snaps.pending.Some? {
      var t := snaps.pending.value;
      if t.Complete() && t.snapshot.index > snaps.current.index {
        r := InstallStagedSnapshot(hard, log, snaps, t.snapshot, hard.current.commit);
        InstallKeeps(L, img, ImageOf(hard, log, snaps), t.snapshot);
        return;
      }
    }
    return Ok(());
  }

  /** Finishes a compaction that was cut after its snapshot was published. */
  method FinishCompaction(ghost L: Lineage, ghost hard: HardStateStore, log: LogSegment, snaps: SnapshotStore)
    returns (r: Result<(), RuntimeError>)
    requires log.Valid() && ImageInv(L, ImageOf(hard, log, snaps)) && Settled(ImageOf(hard, log, snaps))
    modifies log
    ensures log.Valid() && Kept(L, old(ImageOf(hard, log, snaps)), ImageOf(hard, log, snaps))
    ensures Settled(ImageOf(hard, log, snaps))
    ensures r.Err? ==> r.error.WriteFailed() || (r.error.IndexExhausted() && snaps.current.index >= U64_MAX)
    ensures r.Ok? ==> snaps.current.index <= log.Value().Last()
    ensures r.Ok? ==> SameAbove(old(log.Value()), log.Value(), snaps.current.index)
    ensures r.Ok? ==>
      log.Value() == if old(log.Value()).Last() < snaps.current.index then Log(snaps.current.index, [])
                     else old(log.Value())
    ensures Failures(hard, log, snaps) == old(Failures(hard, log, snaps)) + Failed(r)
  {
    ghost var img := ImageOf(hard, log, snaps);
    KeptRefl(L, img);
    var boundary := snaps.current.index;
    var through := log.compactedThrough;
    if through > boundary { return Err(CompactionAheadOfSnapshot(through, boundary)); }
    var next := log.NextIndex();
    if through < boundary && next <= boundary {
      CompactKeeps(L, img);
      DropTwice(img.log, boundary);
      var compacted := log.CompactPrefixThrough(boundary);
      if compacted.Err? { return Err(Store(compacted.error)); }
    }
    return Ok(());
  }

  /** Two logs agree at a boundary and above it. */
  ghost predicate SameAbove(a: Log, b: Log, boundary: nat) {
    && a.DropThrough(boundary) == b.DropThrough(boundary)
    && (a.Has(boundary) <==> b.Has(boundary))
    && (a.Has(boundary) ==> a.At(boundary) == b.At(boundary))
  }

  /** The rules let this node go on with the staged transfer. */
  predicate TransferAdmitted(rules: Rules, k: Node, p: Option<Staged>) {
    p.Some? ==> rules.Author(p.value.snapshot) && rules.Sender(k, p.value.Progress())
  }

  /** A staged transfer, unless a snapshot covers it. */
  function StillWanted(p: Option<Staged>, s: Snapshot): Option<Staged> {
    if p.Some? && s.index < p.value.snapshot.index then p else None
  }

  /** Hands a half-received transfer back to the kernel, or clears one that is stale. */
  method ResumeTransfer(
    ghost L: Lineage, rules: Rules, ghost hard: HardStateStore, ghost log: LogSegment, snaps: SnapshotStore, node: Node)
    returns (r: Result<Node, RuntimeError>)
    requires ImageInv(L, ImageOf(hard, log, snaps)) && Settled(ImageOf(hard, log, snaps))
    requires Synced(L, ImageOf(hard, log, snaps).(pending := None), node, Some(TailOf(node)))
    modifies snaps`pending, snaps`failures
    ensures Kept(L, old(ImageOf(hard, log, snaps)), ImageOf(hard, log, snaps))
    ensures r.Err? ==> r.error.WriteFailed() || !TransferAdmitted(rules, node, old(snaps.pending))
    ensures r.Ok? ==> TransferAdmitted(rules, node, old(snaps.pending))
    ensures snaps.pending == old(snaps.pending) || snaps.pending == None
    ensures r.Ok? ==> Synced(L, ImageOf(hard, log, snaps), r.value, Some(TailOf(r.value)))
    ensures r.Ok? ==> r.value == node.(pending := ProgressOf(snaps.pending))
    ensures r.Ok? ==> snaps.pending == StillWanted(old(snaps.pending), snaps.current)
    ensures Failures(hard, log, snaps) == old(Failures(hard, log, snaps)) + Failed(r)
  {
    ghost var img := ImageOf(hard, log, snaps);
    KeptRefl(L, img);
    if snaps.pending.None? { return Ok(node); }
    var t := snaps.pending.value;
    if |t.bytes| > t.snapshot.len || t.snapshot.hardStateTerm > node.term || !rules.Author(t.snapshot) {
      return Err(RuntimeError.Bootstrap(PendingTransferInvalid));
    }
    if !rules.Sender(node, t.Progress()) { return Err(RuntimeError.Bootstrap(LeaderNotAuthorized(t.leader))); }
    if t.snapshot.index <= node.snap.index {
      ClearKeeps(L, img);
      var cleared := snaps.ClearPending();
      if cleared.Err? { return Err(Store(cleared.error)); }
      return Ok(node);
    }
    if t.Complete() { return Err(RuntimeError.Bootstrap(CompleteTransferNotInstalled)); }
    return Ok(node.(pending := Some(t.Progress())));
  }

  // ---------------------------------------------------------------------------
  // The whole open

  /** What the kernel and the rules accept of an image with no install left to finish. */
  ghost predicate Admissible(rules: Rules, img: Image) {
    TermReached(img) && RulesAdmit(rules, img) && TransferAdmitted(rules, NodeOf(img), img.pending)
  }

  /** Exactly when an open without a failed write succeeds, read off the image before it. */
  ghost predicate Openable(rules: Rules, img: Image) {
    !Stuck(img) && Settle(img).snap.index < U64_MAX && Admissible(rules, Settle(img))
  }

  /** The same condition field by field: a complete transfer waiting to be installed has the
      checksum it declares and the rules admit what it installs; or nothing waits, the
      durable term has reached the snapshot author's and the rules admit the image; and the
      boundary is not the last index there is. */
  lemma OpenableExactly(L: Lineage, rules: Rules, img: Image)
    requires ImageInv(L, img)
    ensures Openable(rules, img) <==>
      if Settled(img) then
        && TermReached(img) && img.snap.index < U64_MAX
        && RulesAdmit(rules, img) && TransferAdmitted(rules, NodeOf(img), img.pending)
      else
        && Genuine(img.pending.value) && img.pending.value.snapshot.index < U64_MAX
        && RulesAdmit(rules, InstallDone(img, img.pending.value.snapshot))
  {}

  /** Finishing a compaction changes nothing that an open checks. */
  lemma CompactionAdmissible(rules: Rules, a: Image, b: Image)
    requires b == a.(log := b.log) && SameAbove(a.log, b.log, a.snap.index)
    ensures Admissible(rules, a) <==> Admissible(rules, b)
  {}

  /** The kernel that goes on from an image, for an application that holds everything through
      `floor`: delivery starts there, or at the snapshot if that is further on. */
  function Booted(img: Image, floor: nat): Node {
    NodeOf(img).(applied := Max(img.snap.index, floor), pending := ProgressOf(img.pending))
  }

  /** The floor is committed in the image that an open boots from. */
  ghost predicate FloorFits(img: Image, floor: nat) { floor <= Settle(img).Committed() }

  lemma RaisedCursor(L: Lineage, rules: Rules, img: Image, k: Node, floor: nat)
    requires ImageInv(L, img) && Synced(L, img.(pending := None), k, Some(TailOf(k)))
    requires k.applied == img.snap.index && floor <= k.commit
    ensures
      var j := k.(applied := Max(img.snap.index, floor));
      && Synced(L, img.(pending := None), j, Some(TailOf(j)))
      && (TransferAdmitted(rules, j, img.pending) <==> TransferAdmitted(rules, k, img.pending))
  {}

  /** Boots the kernel and hands it the transfer it was receiving. */
  method Boot(ghost L: Lineage, rules: Rules, hard: HardStateStore, log: LogSegment, snaps: SnapshotStore, floor: nat)
    returns (r: Result<Node, RuntimeError>)
    requires log.Valid() && ImageInv(L, ImageOf(hard, log, snaps)) && Settled(ImageOf(hard, log, snaps))
    requires snaps.current.index <= log.Value().Last()
    modifies snaps`pending, snaps`failures
    ensures Kept(L, old(ImageOf(hard, log, snaps)), ImageOf(hard, log, snaps))
    ensures r.Ok? ==>
      Admissible(rules, old(ImageOf(hard, log, snaps))) && floor <= ImageOf(hard, log, snaps).Committed()
    ensures r.Ok? ==> Synced(L, ImageOf(hard, log, snaps), r.value, Some(TailOf(r.value)))
    ensures r.Ok? ==> r.value == Booted(ImageOf(hard, log, snaps), floor)
    ensures r.Ok? ==> snaps.pending == StillWanted(old(snaps.pending), snaps.current)
    ensures r.Err? && !r.error.WriteFailed() ==>
      !Admissible(rules, old(ImageOf(hard, log, snaps))) || floor > ImageOf(hard, log, snaps).Committed()
    ensures snaps.pending == old(snaps.pending) || snaps.pending == None
    ensures Failures(hard, log, snaps) == old(Failures(hard, log, snaps)) + Failed(r)
  {
    hide Extends, NodeInv, Settled, RulesAdmit, TransferAdmitted, TermReached, Synced;
    ghost var img := ImageOf(hard, log, snaps);
    KeptRefl(L, img);
    SoundImageBoots(L, rules, img);
    var booted := Bootstrap(rules, hard.current, snaps.current, log, img);
    if booted.Err? { return Err(RuntimeError.Bootstrap(booted.error)); }
    var node := booted.value;
    if floor > node.log.Last() { return Err(RuntimeError.Bootstrap(AppliedFloorBeyondLog(floor, node.log.Last()))); }
    if floor > node.commit { return Err(RuntimeError.Bootstrap(AppliedFloorBeyondCommit(floor, node.commit))); }
    RaisedCursor(L, rules, img, node, floor);
    r := ResumeTransfer(L, rules, hard, log, snaps, node.(applied := Max(node.applied, floor)));
  }

  lemma SettledSnapshot(img: Image)
    ensures Settle(img).snap == if Settled(img) then img.snap else img.pending.value.snapshot
    ensures !Settled(img) ==> Settle(img).snap != img.snap
  {}

  lemma SameCommitted(a: Image, b: Image)
    requires a.hard == b.hard && a.snap == b.snap
    ensures a.Committed() == b.Committed()
  {}

  /** The two repairs in turn: the image is settled and the log reaches its boundary. */
  method Repair(ghost L: Lineage, ghost rules: Rules, hard: HardStateStore, log: LogSegment, snaps: SnapshotStore)
    returns (r: Result<(), RuntimeError>)
    requires log.Valid() && ImageInv(L, ImageOf(hard, log, snaps))
    modifies log, snaps
    ensures log.Valid() && Kept(L, old(ImageOf(hard, log, snaps)), ImageOf(hard, log, snaps))
    ensures r.Ok? ==>
      var now, settled := ImageOf(hard, log, snaps), old(Settle(ImageOf(hard, log, snaps)));
      && Settled(now) && now == settled.(log := now.log) && now.snap.index <= now.log.Last()
      && (Admissible(rules, now) <==> Admissible(rules, settled))
      && !old(Stuck(ImageOf(hard, log, snaps))) && settled.snap.index < U64_MAX
    ensures r.Err? && !r.error.WriteFailed() ==> !Openable(rules, old(ImageOf(hard, log, snaps)))
    ensures snaps.pending == old(snaps.pending) || snaps.pending == None
    ensures
      var img := old(ImageOf(hard, log, snaps));
      && (snaps.current == img.snap || (!Settled(img) && snaps.current == img.pending.value.snapshot))
      && (!Settled(img) && snaps.current == img.snap ==> snaps.pending == img.pending)
      && (Stuck(img) ==> r.Err? && snaps.current == img.snap && snaps.pending == img.pending)
    ensures Failures(hard, log, snaps) == old(Failures(hard, log, snaps)) + Failed(r)
  {
    hide Extends, NodeInv, Genuine, Admissible, SameAbove, ImageInv, InstallDone;
    ghost var start := ImageOf(hard, log, snaps);
    SettledSnapshot(start);
    r := FinishInstall(L, hard, log, snaps);
    if r.Err? { return; }
    ghost var a := ImageOf(hard, log, snaps);
    r := FinishCompaction(L, hard, log, snaps);
    KeptTrans(L, start, a, ImageOf(hard, log, snaps));
    if r.Err? { return; }
    CompactionAdmissible(rules, a, ImageOf(hard, log, snaps));
  }

  /** Opens a node over its stores, for an application that holds everything through `floor`: it
      keeps the image sound and its history at every cut, and without a failed write it
      succeeds if and only if the image is openable and has committed the floor. */
  method Open(ghost L: Lineage, rules: Rules, hard: HardStateStore, log: LogSegment, snaps: SnapshotStore, floor: nat)
    returns (r: Result<DurableRaftNode, RuntimeError>)
    requires log.Valid() && ImageInv(L, ImageOf(hard, log, snaps))
    modifies log, snaps
    ensures log.Valid() && Kept(L, old(ImageOf(hard, log, snaps)), ImageOf(hard, log, snaps))
    ensures r.Ok? ==>
      && fresh(r.value) && r.value.hard == hard && r.value.log == log && r.value.snaps == snaps
      && r.value.rules == rules && r.value.fatal.None? && r.value.Valid(L)
      && r.value.node == Booted(ImageOf(hard, log, snaps), floor) && r.value.tail == Some(TailOf(r.value.node))
      && Openable(rules, old(ImageOf(hard, log, snaps))) && FloorFits(old(ImageOf(hard, log, snaps)), floor)
      && floor <= ImageOf(hard, log, snaps).Committed()
    ensures r.Err? && !r.error.WriteFailed() ==>
      !Openable(rules, old(ImageOf(hard, log, snaps))) || !FloorFits(old(ImageOf(hard, log, snaps)), floor)
    ensures snaps.pending == old(snaps.pending) || snaps.pending == None
    ensures
      || snaps.current == old(snaps.current)
      || (old(!Settled(ImageOf(hard, log, snaps))) && snaps.current == old(snaps.pending).value.snapshot)
    ensures old(!Settled(ImageOf(hard, log, snaps))) && snaps.current == old(snaps.current) ==>
      snaps.pending == old(snaps.pending)
    ensures r.Ok? ==>
      var settled := old(Settle(ImageOf(hard, log, snaps)));
      snaps.current == settled.snap && snaps.pending == StillWanted(settled.pending, settled.snap)
    ensures old(Stuck(ImageOf(hard, log, snaps))) ==>
      r.Err? && snaps.current == old(snaps.current) && snaps.pending == old(snaps.pending)
    ensures Failures(hard, log, snaps) == old(Failures(hard, log, snaps)) + Failed(r)
  {
    hide Extends, NodeInv, Settled, Genuine, Admissible, ImageInv, InstallDone, Settle, Stuck;
    ghost var start := ImageOf(hard, log, snaps);
    SettledSnapshot(start);
    var repaired := Repair(L, rules, hard, log, snaps);
    if repaired.Err? { return Err(repaired.error); }
    ghost var mid := ImageOf(hard, log, snaps);
    SameCommitted(mid, Settle(start));
    var booted := Boot(L, rules, hard, log, snaps, floor);
    KeptTrans(L, start, mid, ImageOf(hard, log, snaps));
    if booted.Err? { return Err(booted.error); }
    var node := new DurableRaftNode(hard, log, snaps, rules, booted.value);
    return Ok(node);
  }

  /** The booted kernel hands out exactly what is committed above the snapshot and above the
      application's floor. */
  lemma BootTells(L: Lineage, img: Image, floor: nat)
    requires ImageInv(L, img) && img.snap.index <= img.log.Last() && floor <= img.Committed()
    ensures
      var k := Booted(img, floor);
      var outs := OutputsFrom(DeliverMoves(k.log, k.applied, k.commit));
      Tells(L, img.CommitPoint(), Max(img.snap.index, floor), outs, img.Committed())
  {
    hide ImageInv, Tells, Recovered, DeliverMoves, OutputsFrom;
    var k := NodeOf(img);
    SoundImageBoots(L, Rules((_, _) => true, 0, _ => 0), img);
    RaisedCursor(L, Rules((_, _) => true, 0, _ => 0), img, k, floor);
    var j := k.(applied := Max(img.snap.index, floor));
    SameDisk(L, img);
    SyncedPoint(L, img.(pending := None), j, Some(TailOf(j)));
    DeliveryTells(L, j);
  }

  lemma SameDisk(L: Lineage, img: Image)
    requires ImageInv(L, img)
    ensures ImageInv(L, img.(pending := None)) && img.(pending := None).CommitPoint() == img.CommitPoint()
  {}

  /** Opens a node and drains it: the host is told of everything committed above what it holds
      or can restore from the snapshot, in order and once. */
  method Recover(ghost L: Lineage, rules: Rules, hard: HardStateStore, log: LogSegment, snaps: SnapshotStore,
    floor: nat)
    returns (r: Result<(DurableRaftNode, seq<Output>), RuntimeError>)
    requires log.Valid() && ImageInv(L, ImageOf(hard, log, snaps))
    modifies log, snaps
    ensures log.Valid() && Kept(L, old(ImageOf(hard, log, snaps)), ImageOf(hard, log, snaps))
    ensures r.Ok? ==>
      && fresh(r.value.0) && r.value.0.Valid(L) && r.value.0.fatal.None?
      && r.value.0.hard == hard && r.value.0.log == log && r.value.0.snaps == snaps
      && r.value.0.node.applied == r.value.0.node.commit == ImageOf(hard, log, snaps).Committed()
      && Tells(L, ImageOf(hard, log, snaps).CommitPoint(), Max(snaps.current.index, floor), r.value.1,
               r.value.0.node.commit)
    ensures r.Ok? ==>
      Openable(rules, old(ImageOf(hard, log, snaps))) && FloorFits(old(ImageOf(hard, log, snaps)), floor)
    ensures r.Err? && !r.error.WriteFailed() ==>
      !Openable(rules, old(ImageOf(hard, log, snaps))) || !FloorFits(old(ImageOf(hard, log, snaps)), floor)
    ensures Failures(hard, log, snaps) == old(Failures(hard, log, snaps)) + Failed(r)
  {
    hide ImageInv, Extends, Tells, Openable, FloorFits, Recovered, Settled, DeliverMoves, OutputsFrom, NodeInv;
    var started := Open(L, rules, hard, log, snaps, floor);
    if started.Err? { return Err(started.error); }
    var node := started.value;
    BootTells(L, node.Img(), floor);
    var outputs := node.DrainCommittedOutputs(L);
    return Ok((node, outputs));
  }
}
