/** Nodes that no restart brings back: the states that stay refused whatever follows, and
    concrete runs that lead there. */
module LostNodes {
  import opened Prelude
  import opened Raft
  import opened Kernel
  import opened KernelReceive
  import opened Delivery
  import opened Durable
  import opened Stores
  import opened StepOutputs
  import opened SnapshotInstall
  import opened LogRepair
  import opened Runtime
  import opened CommittedConfig
  import opened ConfigRecovery
  import opened Reopen
  import opened Runs
  import opened Reopenings
  import Crc32

  // ---------------------------------------------------------------------------
  // An undeclared snapshot over a recorded configuration

  /** Such a snapshot is published or waits to be, and the runtime is down or poisoned. */
  ghost predicate Forgotten(s: State) { Undeclared(Settle(s.img)) && (s.Down? || s.poisoned) }

  lemma UndeclaredRefused(rules: Rules, img: Image)
    requires Undeclared(Settle(img))
    ensures !Openable(rules, img)
  {}

  lemma ForgottenStays(L: Lineage, rules: Rules, s: State, floor: nat, succeeded: bool, writeFailed: bool, t: State)
    requires ReopenMay(L, rules, s, floor, succeeded, writeFailed, t) && Undeclared(Settle(s.img))
    ensures !succeeded && Undeclared(Settle(t.img))
  {
    hide Openable, Kept, Good, Booted, Stuck;
    UndeclaredRefused(rules, s.img);
  }

  /** From there no step is released, no compaction done and no open succeeds. */
  lemma {:induction false} NeverDeclared(L: Lineage, rules: Rules, run: Run, i: nat, j: nat)
    requires Happens(L, rules, run) && i <= j < |run.states| && Forgotten(run.states[i])
    ensures Forgotten(run.states[j])
    ensures forall k :: i <= k < j ==>
      && (run.events[k].Step? ==> run.events[k].released.None?)
      && (run.events[k].Compact? ==> !run.events[k].done)
      && (run.events[k].Reopen? ==> !run.events[k].succeeded)
    decreases j
  {
    hide Kept, Good, Openable, Stuck, PendingCut, PayloadsMatch, Guarded, Published, IndexesFit, Recorded, Undeclared,
      Settle, ReopenMay;
    if i < j {
      var s, e, t := run.states[j - 1], run.events[j - 1], run.states[j];
      NeverDeclared(L, rules, run, i, j - 1);
      assert Next(L, rules, s, e, t);
      if e.Reopen? {
        ForgottenStays(L, rules, s, e.floor, e.succeeded, e.writeFailed, t);
        ReopenIsDown(L, rules, s, e, t);
      }
    }
  }

  lemma ReopenIsDown(L: Lineage, rules: Rules, s: State, e: Event, t: State)
    requires e.Reopen? && ReopenMay(L, rules, s, e.floor, e.succeeded, e.writeFailed, t)
    ensures !e.succeeded ==> t.Down?
  {}

  // ---------------------------------------------------------------------------
  // A payload that misses its checksum

  /** A complete transfer with a wrong checksum is on disk, and the runtime is down or
      poisoned. */
  ghost predicate Lost(s: State) { Stuck(s.img) && (s.Down? || s.poisoned) }

  /** From there nothing that follows brings the node back: no step is released, no
      compaction done, no open succeeds. */
  lemma {:induction false} NeverOpensAgain(L: Lineage, rules: Rules, run: Run, i: nat, j: nat)
    requires Happens(L, rules, run) && i <= j < |run.states| && Lost(run.states[i])
    ensures Lost(run.states[j]) && run.states[j].img.pending == run.states[i].img.pending
    ensures forall k :: i <= k < j ==>
      && (run.events[k].Step? ==> run.events[k].released.None?)
      && (run.events[k].Compact? ==> !run.events[k].done)
      && (run.events[k].Reopen? ==> !run.events[k].succeeded)
    decreases j
  {
    hide Kept, Good, Openable, Genuine, PendingCut, PayloadsMatch, Guarded, Published, IndexesFit, Recorded;
    if i < j {
      NeverOpensAgain(L, rules, run, i, j - 1);
      assert Next(L, rules, run.states[j - 1], run.events[j - 1], run.states[j]);
    }
  }

  /** And every step that is refused without a failed write leads there: for a sound runtime
      whose indexes fit, a wrong payload is the end. */
  lemma RefusedForGood(L: Lineage, rules: Rules, run: Run, i: nat, j: nat)
    requires Happens(L, rules, run) && i < j < |run.states|
    requires run.states[i].Up? && !run.states[i].poisoned
    requires run.events[i].Step? && !run.events[i].writeFailed && run.events[i].released.None?
    requires IndexesFit(OutputsFrom(run.events[i].moves), ApplyAll(run.states[i].node, run.events[i].moves))
    ensures Lost(run.states[j])
    ensures forall k :: i < k < j && run.events[k].Reopen? ==> !run.events[k].succeeded
  {
    hide Stuck, Kept, Good, PendingCut, PayloadsMatch, Guarded, Published, IndexesFit;
    assert Next(L, rules, run.states[i], run.events[i], run.states[i + 1]);
    NeverOpensAgain(L, rules, run, i + 1, j);
  }

  // A one-byte payload with a wrong checksum, sent to a node that has nothing yet.

  function BadChunk(crc: bv32): Chunk { Chunk(1, Snapshot(1, 1, 1, 1, None, 0, 1, crc), 0, [0], true) }

  function BadMoves(crc: bv32): seq<Move> { [SetTerm(1, None), Install(BadChunk(crc))] }

  function BadOutputs(crc: bv32): seq<Output> {
    [StageSnapshotChunk(BadChunk(crc)), ApplySnapshot(BadChunk(crc).snapshot)]
  }

  const FRESH_NODE := Node(0, None, 0, 0, None, NO_SNAPSHOT, Log(0, []), None)

  /** The disk once the term is fenced and the chunk staged. */
  function BadImage(crc: bv32): Image {
    FRESH_IMAGE.(hard := HardState(1, None, 0, None), pending := Some(Staged(1, BadChunk(crc).snapshot, [0])))
  }

  lemma FreshOpens(L: Lineage, rules: Rules)
    ensures Openable(rules, FRESH_IMAGE) && FloorFits(FRESH_IMAGE, 0) && Booted(FRESH_IMAGE, 0) == FRESH_NODE
    ensures ImageInv(L, FRESH_IMAGE) && Synced(L, FRESH_IMAGE, FRESH_NODE, Some(TailOf(FRESH_NODE)))
  {
    FreshStart(L);
  }

  lemma BadImageSound(L: Lineage, crc: bv32)
    requires L.prev(1, 1) == 0
    ensures ImageInv(L, BadImage(crc)) && Kept(L, FRESH_IMAGE, BadImage(crc))
    ensures Ancestor(L, Point(0, 0), BadChunk(crc).snapshot.Boundary())
  {
    FreshStart(L);
    assert Ancestor(L, BadImage(crc).CommitPoint(), BadChunk(crc).snapshot.Boundary());
  }

  /** The kernel takes the chunk in. */
  lemma BadChunkTaken(L: Lineage, rules: Rules, crc: bv32)
    requires L.prev(1, 1) == 0 && Recognised(rules, Adopted(FRESH_NODE, 1), BadChunk(crc))
    ensures HandleChunk(rules, FRESH_NODE, 1, BadChunk(crc)) == BadMoves(crc)
    ensures Guarded(L, FRESH_NODE, BadMoves(crc)) && OutputsFrom(BadMoves(crc)) == BadOutputs(crc)
  {
    FreshOpens(L, rules);
    BadImageSound(L, crc);
    ChunkIsGuarded(L, rules, FRESH_NODE, 1, BadChunk(crc));
    assert BadMoves(crc) == [SetTerm(1, None)] + [Install(BadChunk(crc))];
    OneMoveOutputs(SetTerm(1, None));
    OneMoveOutputs(Install(BadChunk(crc)));
    OutputsConcat([SetTerm(1, None)], [Install(BadChunk(crc))]);
  }

  lemma BadPayloadRefused(crc: bv32)
    requires crc != Crc32.Checksum([0])
    ensures !PayloadsMatch(None, BadOutputs(crc)) && PendingCut(None, BadOutputs(crc), BadImage(crc).pending)
    ensures Stuck(BadImage(crc))
  {
    hide Crc32.Checksum;
    assert BadOutputs(crc)[1..] == [ApplySnapshot(BadChunk(crc).snapshot)];
    assert Some(Assembled(None, BadChunk(crc))) == BadImage(crc).pending;
  }

  /** One byte that misses its checksum gets there: a fresh node opens, its kernel takes the
      chunk in, the step stages it and then refuses to promote it, and a crash follows. */
  lemma WrongPayload(L: Lineage, rules: Rules, crc: bv32)
    requires crc != Crc32.Checksum([0]) && L.prev(1, 1) == 0
    requires Recognised(rules, Adopted(FRESH_NODE, 1), BadChunk(crc))
    ensures
      var moves := HandleChunk(rules, FRESH_NODE, 1, BadChunk(crc));
      var tail := Some(TailOf(FRESH_NODE));
      Happens(L, rules, Run(
        [Down(FRESH_IMAGE), Up(FRESH_IMAGE, FRESH_NODE, tail, false),
         Up(BadImage(crc), ApplyAll(FRESH_NODE, moves), tail, true), Down(BadImage(crc))],
        [Reopen(0, true, false), Step(moves, None, false), Crash]))
    ensures TermReached(BadImage(crc)) && Lost(Down(BadImage(crc))) && !Openable(rules, BadImage(crc))
  {
    hide Crc32.Checksum, Guarded, OutputsFrom, PayloadsMatch, PendingCut, Kept, ImageInv, Synced, HandleChunk, ApplyAll,
      Booted, Stuck, Recognised;
    FreshOpens(L, rules);
    BadImageSound(L, crc);
    BadChunkTaken(L, rules, crc);
    BadPayloadRefused(crc);
    KeptRefl(L, FRESH_IMAGE);
    FreshSettled();
  }

  lemma FreshSettled()
    ensures !Stuck(FRESH_IMAGE)
  {}

  // A node that has committed configuration 7 and is then sent a snapshot that declares none.

  const CONFIGURED_LOG := Log(0, [Entry(1, Configuration(7))])
  const CONFIGURED_NODE := Node(1, None, 1, 1, None, NO_SNAPSHOT, CONFIGURED_LOG, None)
  const CONFIGURED_IMAGE := Image(HardState(1, None, 1, Some(Config(1, 7))), CONFIGURED_LOG, NO_SNAPSHOT, None)

  const CONFIGURE := AppendRequest(1, 1, 0, 0, [Entry(1, Configuration(7))], 1)

  function UndeclaredChunk(): Chunk {
    Chunk(1, Snapshot(2, 1, 1, 1, None, 0, 1, Crc32.Checksum([0])), 0, [0], true)
  }

  /** The disk once that chunk is staged. */
  function UndeclaredImage(): Image {
    CONFIGURED_IMAGE.(pending := Some(Staged(1, UndeclaredChunk().snapshot, [0])))
  }

  ghost predicate ConfigFirst(L: Lineage) {
    L.kind(1, 1) == Configuration(7) && L.prev(1, 1) == 0 && L.prev(2, 1) == 1
  }

  lemma ConfiguredSound(L: Lineage)
    requires ConfigFirst(L)
    ensures ImageInv(L, CONFIGURED_IMAGE) && Kept(L, FRESH_IMAGE, CONFIGURED_IMAGE)
    ensures Synced(L, CONFIGURED_IMAGE, CONFIGURED_NODE, Some(TailOf(CONFIGURED_NODE)))
    ensures CONFIGURED_IMAGE.hard == HardStateOf(CONFIGURED_NODE)
  {
    forall i: nat ensures Linked(L, CONFIGURED_LOG, i) {}
    assert NewestThrough(CONFIGURED_LOG, 1) == Some(Config(1, 7));
  }

  lemma UndeclaredSound(L: Lineage)
    requires ConfigFirst(L)
    ensures Kept(L, CONFIGURED_IMAGE, UndeclaredImage())
    ensures Ancestor(L, Point(1, 1), UndeclaredChunk().snapshot.Boundary())
  {
    hide Crc32.Checksum;
    ConfiguredSound(L);
    assert Back(L, 2, 1, 1) == Back(L, 1, 1, 1);
    StageKeeps(L, CONFIGURED_IMAGE, UndeclaredChunk());
  }

  /** The append that commits the configuration. */
  lemma ConfigureTaken(L: Lineage, rules: Rules)
    requires ConfigFirst(L)
    ensures Guarded(L, FRESH_NODE, HandleAppend(FRESH_NODE, CONFIGURE))
    ensures ApplyAll(FRESH_NODE, HandleAppend(FRESH_NODE, CONFIGURE)) == CONFIGURED_NODE
    ensures OutputsFrom(HandleAppend(FRESH_NODE, CONFIGURE)) == [ConfigurationCommitted(Config(1, 7))]
  {
    hide ApplyAll, Guarded, HandleAppend, OutputsFrom, NodeInv, Sendable, LetsIn, LogAfter, Synced, Openable, ImageInv;
    FreshNode(L);
    ConfigureSendable(L);
    AppendIsGuarded(L, FRESH_NODE, CONFIGURE);
    ConfigureLetIn();
    AppendResult(L, FRESH_NODE, CONFIGURE);
    AppendAnnounces(FRESH_NODE, CONFIGURE);
    ConfigureDelivers();
  }

  lemma FreshNode(L: Lineage)
    ensures NodeInv(L, FRESH_NODE)
  {
    forall i: nat ensures Linked(L, Log(0, []), i) {}
  }

  lemma ConfigureSendable(L: Lineage)
    requires ConfigFirst(L)
    ensures Sendable(L, CONFIGURE)
  {
    forall i: nat ensures Linked(L, CONFIGURE.Carried(), i) {}
  }

  lemma ConfigureDelivers()
    ensures LogAfter(FRESH_NODE, CONFIGURE) == CONFIGURED_LOG ==>
      Deliveries(FRESH_NODE, CONFIGURE) == [ConfigurationCommitted(Config(1, 7))]
  {
    hide OutputsFrom, LogAfter;
    DeliverOutputs(CONFIGURED_LOG, 0, 1);
    NoMoveOutputs();
    assert DeliverMoves(CONFIGURED_LOG, 1, 1) == [];
  }

  lemma ConfigureLetIn()
    ensures LetsIn(FRESH_NODE, CONFIGURE) && LogAfter(FRESH_NODE, CONFIGURE) == CONFIGURED_LOG
  {
    assert FirstDivergent(FRESH_NODE, 0, CONFIGURE.entries, 0) == 0;
    assert CONFIGURE.entries[0..] == CONFIGURE.entries;
  }

  lemma UndeclaredTaken(L: Lineage, rules: Rules)
    requires ConfigFirst(L) && Recognised(rules, CONFIGURED_NODE, UndeclaredChunk())
    ensures HandleChunk(rules, CONFIGURED_NODE, 1, UndeclaredChunk()) == [Install(UndeclaredChunk())]
    ensures Guarded(L, CONFIGURED_NODE, [Install(UndeclaredChunk())])
    ensures PendingCut(None, OutputsFrom([Install(UndeclaredChunk())]), UndeclaredImage().pending)
  {
    hide Crc32.Checksum, NodeInv, Recognised;
    ConfiguredSound(L);
    UndeclaredSound(L);
    ConfiguredNode(L);
    ChunkIsGuarded(L, rules, CONFIGURED_NODE, 1, UndeclaredChunk());
    assert Adopted(CONFIGURED_NODE, 1) == CONFIGURED_NODE;
    OneMoveOutputs(Install(UndeclaredChunk()));
    assert Some(Assembled(None, UndeclaredChunk())) == UndeclaredImage().pending;
  }

  lemma ConfiguredNode(L: Lineage)
    requires Synced(L, CONFIGURED_IMAGE, CONFIGURED_NODE, Some(TailOf(CONFIGURED_NODE)))
    ensures NodeInv(L, CONFIGURED_NODE)
  {}

  /** It happens: a fresh node opens, commits a configuration, stages the last chunk of an
      undeclared snapshot, and crashes before its commit index is written. */
  lemma UndeclaredSnapshot(L: Lineage, rules: Rules)
    requires ConfigFirst(L) && Recognised(rules, CONFIGURED_NODE, UndeclaredChunk())
    ensures
      var first := HandleAppend(FRESH_NODE, CONFIGURE);
      var second := HandleChunk(rules, CONFIGURED_NODE, 1, UndeclaredChunk());
      var tail := Some(TailOf(CONFIGURED_NODE));
      Happens(L, rules, Run(
        [Down(FRESH_IMAGE), Up(FRESH_IMAGE, FRESH_NODE, Some(TailOf(FRESH_NODE)), false),
         Up(CONFIGURED_IMAGE, CONFIGURED_NODE, tail, false),
         Up(UndeclaredImage(), ApplyAll(CONFIGURED_NODE, second), tail, true), Down(UndeclaredImage())],
        [Reopen(0, true, false), Step(first, Some([ConfigurationCommitted(Config(1, 7))]), false),
         Step(second, None, true), Crash]))
    ensures Forgotten(Down(UndeclaredImage())) && !Stuck(UndeclaredImage()) && TermReached(UndeclaredImage())
  {
    hide Crc32.Checksum, Guarded, OutputsFrom, HandleChunk, HandleAppend, ApplyAll, StepMay, ReopenMay, Good,
      Recognised, Stuck;
    FreshReopens(L, rules);
    ConfigureStep(L, rules);
    UndeclaredStep(L, rules);
    UndeclaredGenuine();
  }

  lemma FreshReopens(L: Lineage, rules: Rules)
    ensures Good(L, Down(FRESH_IMAGE))
    ensures
      var live := Up(FRESH_IMAGE, FRESH_NODE, Some(TailOf(FRESH_NODE)), false);
      ReopenMay(L, rules, Down(FRESH_IMAGE), 0, true, false, live)
  {
    hide Kept, ImageInv, Synced, Booted, Openable, Stuck;
    FreshOpens(L, rules);
    FreshSettled();
    KeptRefl(L, FRESH_IMAGE);
  }

  lemma ConfigureStep(L: Lineage, rules: Rules)
    requires ConfigFirst(L)
    ensures
      var before := Up(FRESH_IMAGE, FRESH_NODE, Some(TailOf(FRESH_NODE)), false);
      var after := Up(CONFIGURED_IMAGE, CONFIGURED_NODE, Some(TailOf(CONFIGURED_NODE)), false);
      var moves := HandleAppend(FRESH_NODE, CONFIGURE);
      StepMay(L, before, moves, Some([ConfigurationCommitted(Config(1, 7))]), false, after)
  {
    hide Guarded, OutputsFrom, PendingCut, Kept, ImageInv, Synced, HandleAppend, ApplyAll, Stuck, PayloadsMatch,
      IndexesFit, HardStateOf;
    ConfiguredSound(L);
    ConfigureTaken(L, rules);
    ConfigureReleases();
    UncutPending(None, [ConfigurationCommitted(Config(1, 7))]);
    SyncedPublished(L, FRESH_IMAGE.hard, CONFIGURED_IMAGE, CONFIGURED_NODE, Some(TailOf(CONFIGURED_NODE)));
  }

  lemma UndeclaredStep(L: Lineage, rules: Rules)
    requires ConfigFirst(L) && Recognised(rules, CONFIGURED_NODE, UndeclaredChunk())
    ensures
      var tail := Some(TailOf(CONFIGURED_NODE));
      var moves := HandleChunk(rules, CONFIGURED_NODE, 1, UndeclaredChunk());
      StepMay(L, Up(CONFIGURED_IMAGE, CONFIGURED_NODE, tail, false), moves, None, true,
              Up(UndeclaredImage(), ApplyAll(CONFIGURED_NODE, moves), tail, true))
  {
    hide Crc32.Checksum, Guarded, OutputsFrom, PendingCut, Kept, ImageInv, Synced, HandleChunk, ApplyAll, Stuck,
      PayloadsMatch, IndexesFit, Recognised;
    UndeclaredSound(L);
    UndeclaredTaken(L, rules);
    KeptSound(L, CONFIGURED_IMAGE, UndeclaredImage());
  }

  lemma KeptSound(L: Lineage, a: Image, b: Image)
    requires Kept(L, a, b)
    ensures ImageInv(L, b)
  {}

  lemma UndeclaredGenuine()
    ensures !Stuck(UndeclaredImage())
  {
    hide Crc32.Checksum;
  }

  lemma ConfigureReleases()
    ensures
      var outs := [ConfigurationCommitted(Config(1, 7))];
      PayloadsMatch(None, outs) && IndexesFit(outs, CONFIGURED_NODE)
  {
    assert [ConfigurationCommitted(Config(1, 7))][1..] == [];
  }

  // ---------------------------------------------------------------------------
  // Compactions that cannot be reopened

  /** A local compaction can be accepted, succeed, and leave an image that no reopen accepts;
      this happens exactly when the author's term is beyond the durable one, or the rules do
      not admit it. */
  lemma CompactionReopens(L: Lineage, rules: Rules, img: Image, k: Node, tail: Option<Point>, s: Snapshot)
    requires ImageInv(L, img) && Synced(L, img, k, tail) && LocalSnapshotRefusal(rules, k, s).None?
    ensures
      var done := CompactedImage(img, s);
      Openable(rules, done) <==> s.hardStateTerm <= img.hard.term && s.index < U64_MAX && RulesAdmit(rules, done)
  {
    hide RulesAdmit;
    CompactionSynced(L, rules, img, k, tail, s);
  }

  /** A node in term 1 that has applied one entry accepts a snapshot stamped with term 2. */
  lemma UnbootableCompaction(L: Lineage)
    requires L.kind(1, 1) == Noop && L.prev(1, 1) == 0
    ensures
      var rules := Rules((_, _) => true, 0, _ => 0);
      var log := Log(0, [Entry(1, Noop)]);
      var k := Node(1, None, 1, 1, None, NO_SNAPSHOT, log, None);
      var img := Image(HardState(1, None, 1, None), log, NO_SNAPSHOT, None);
      var s := Stamped(rules, k, Snapshot(1, 1, 1, 2, None, 0, 0, 0));
      && ImageInv(L, img) && Synced(L, img, k, None) && LocalSnapshotRefusal(rules, k, s).None?
      && !Openable(rules, CompactedImage(img, s))
  {
    var log := Log(0, [Entry(1, Noop)]);
    forall i: nat ensures Linked(L, log, i) {}
  }
}
