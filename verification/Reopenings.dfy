/** When a node can be opened again: over whole runs, exactly when an open succeeds. */
module Reopenings {
  import opened Prelude
  import opened Raft
  import opened Kernel
  import opened KernelReceive
  import opened Durable
  import opened Stores
  import opened StepOutputs
  import opened SnapshotInstall
  import opened LogRepair
  import opened Runtime
  import opened CommittedConfig
  import opened ConfigRecovery
  import opened Reopen
  import opened Runs
  import Crc32

  // ---------------------------------------------------------------------------
  // Terms and payloads

  /** Every local compaction was handed a snapshot whose author's term the node had reached. */
  ghost predicate TermsRespected(run: Run) {
    forall i :: 0 <= i < |run.events| && i < |run.states| && run.events[i].Compact? ==>
      run.events[i].snapshot.hardStateTerm <= run.states[i].img.hard.term
  }

  lemma {:induction false} TermAlwaysReached(L: Lineage, rules: Rules, run: Run, j: nat)
    requires Happens(L, rules, run) && TermsRespected(run) && TermReached(run.states[0].img) && j < |run.states|
    ensures TermReached(run.states[j].img)
  {
    if 0 < j {
      TermAlwaysReached(L, rules, run, j - 1);
      assert Next(L, rules, run.states[j - 1], run.events[j - 1], run.states[j]);
    }
  }

  /** The chunk is cut from the payload that its descriptor describes. */
  ghost predicate CutFrom(payload: Snapshot -> Bytes, c: Chunk) {
    Described(payload, c.snapshot) && c.End() <= c.snapshot.len && c.bytes == payload(c.snapshot)[c.offset..c.End()]
  }

  ghost predicate Described(payload: Snapshot -> Bytes, s: Snapshot) {
    |payload(s)| == s.len && Crc32.Checksum(payload(s)) == s.crc
  }

  /** What is staged is the start of that payload. */
  ghost predicate StagedFrom(payload: Snapshot -> Bytes, p: Option<Staged>) {
    p.Some? ==>
      var t := p.value;
      Described(payload, t.snapshot) && |t.bytes| <= t.snapshot.len && t.bytes == payload(t.snapshot)[..|t.bytes|]
  }

  ghost predicate AllCutFrom(payload: Snapshot -> Bytes, outs: seq<Output>) {
    forall o :: o in outs && o.StageSnapshotChunk? ==> CutFrom(payload, o.chunk)
  }

  /** Every chunk taken in during the run was sent by such a sender. */
  ghost predicate HonestSenders(payload: Snapshot -> Bytes, run: Run) {
    forall i :: 0 <= i < |run.events| && run.events[i].Step? ==> AllCutFrom(payload, OutputsFrom(run.events[i].moves))
  }

  lemma AssembledFrom(payload: Snapshot -> Bytes, p: Option<Staged>, c: Chunk)
    requires StagedFrom(payload, p) && Fits(p, c) && CutFrom(payload, c)
    ensures StagedFrom(payload, Some(Assembled(p, c)))
  {
    hide Crc32.Checksum;
    var all := payload(c.snapshot);
    if c.offset == 0 {
      assert all[0..c.End()] == all[..c.End()];
    } else {
      assert all[..c.offset] + all[c.offset..c.End()] == all[..c.End()];
    }
  }

  lemma CompleteIsGenuine(payload: Snapshot -> Bytes, t: Staged)
    requires StagedFrom(payload, Some(t)) && t.Complete()
    ensures Genuine(t)
  {
    hide Crc32.Checksum;
    assert payload(t.snapshot)[..t.snapshot.len] == payload(t.snapshot);
  }

  /** Outputs of honest senders stage only beginnings of payloads and apply only whole ones. */
  lemma {:induction false} OutputsFromHonest(
    L: Lineage, payload: Snapshot -> Bytes, term: nat, cp: Point, p: Option<Staged>, outs: seq<Output>,
    q: Option<Staged>)
    requires StagedFrom(payload, p) && AllCutFrom(payload, outs) && Installable(L, term, cp, p, outs)
    ensures PayloadsMatch(p, outs)
    ensures PendingCut(p, outs, q) ==> StagedFrom(payload, q)
    decreases |outs|
  {
    hide Genuine, StagedFrom, Assembled, Fits, CutFrom;
    NothingStagedFrom(payload);
    if outs != [] {
      var rest := outs[1..];
      assert outs[0] in outs;
      match outs[0]
      case StageSnapshotChunk(c) =>
        AssembledFrom(payload, p, c);
        OutputsFromHonest(L, payload, term, cp, Some(Assembled(p, c)), rest, q);
      case ApplySnapshot(s) =>
        CompleteIsGenuine(payload, p.value);
        OutputsFromHonest(L, payload, term, s.Boundary(), None, rest, q);
      case _ =>
        OutputsFromHonest(L, payload, term, cp, p, rest, q);
    }
  }

  lemma NothingStagedFrom(payload: Snapshot -> Bytes)
    ensures StagedFrom(payload, None)
  {}

  lemma StepFromHonest(L: Lineage, payload: Snapshot -> Bytes, s: State, moves: seq<Move>, q: Option<Staged>)
    requires Good(L, s) && s.Up? && !s.poisoned && Guarded(L, s.node, moves)
    requires StagedFrom(payload, s.img.pending) && AllCutFrom(payload, OutputsFrom(moves))
    ensures PayloadsMatch(s.img.pending, OutputsFrom(moves))
    ensures PendingCut(s.img.pending, OutputsFrom(moves), q) ==> StagedFrom(payload, q)
  {
    hide StagedFrom, AllCutFrom, PendingCut, PayloadsMatch, Guarded, Installable;
    SyncedPoint(L, s.img, s.node, s.tail);
    StepInstallable(L, s.node, moves, s.img.CommitPoint(), s.img.pending);
    var term, outs := ApplyAll(s.node, moves).term, OutputsFrom(moves);
    OutputsFromHonest(L, payload, term, s.img.CommitPoint(), s.img.pending, outs, q);
  }

  /** With honest senders, staging is at every cut the beginning of a payload. */
  lemma {:induction false} StagingFromHonest(L: Lineage, rules: Rules, payload: Snapshot -> Bytes, run: Run, j: nat)
    requires Happens(L, rules, run) && HonestSenders(payload, run) && j < |run.states|
    requires StagedFrom(payload, run.states[0].img.pending)
    ensures StagedFrom(payload, run.states[j].img.pending)
  {
    hide StagedFrom, PendingCut, PayloadsMatch, Guarded, Kept, Stuck, Openable, Good, AllCutFrom;
    if 0 < j {
      var s, e, t := run.states[j - 1], run.events[j - 1], run.states[j];
      StagingFromHonest(L, rules, payload, run, j - 1);
      DurableForever(L, rules, run, j - 1, j - 1);
      NothingStagedFrom(payload);
      assert Next(L, rules, s, e, t);
      if e.Step? && !s.poisoned {
        StepFromHonest(L, payload, s, e.moves, t.img.pending);
      }
    }
  }

  /** With honest senders, a step of a sound runtime whose indexes fit fails only if a write
      fails. */
  lemma StepsAreReleased(L: Lineage, rules: Rules, payload: Snapshot -> Bytes, run: Run, j: nat)
    requires Happens(L, rules, run) && HonestSenders(payload, run) && j < |run.events|
    requires StagedFrom(payload, run.states[0].img.pending)
    requires run.events[j].Step? && !run.events[j].writeFailed
    requires run.states[j + 1].Up? ==> IndexesFit(OutputsFrom(run.events[j].moves), run.states[j + 1].node)
    ensures run.states[j].Up? && (run.events[j].released.Some? <==> !run.states[j].poisoned)
  {
    hide StagedFrom, PendingCut, PayloadsMatch, Guarded, Kept, AllCutFrom, IndexesFit, Published, Stuck;
    var s, e, t := run.states[j], run.events[j], run.states[j + 1];
    StagingFromHonest(L, rules, payload, run, j);
    DurableForever(L, rules, run, j, j);
    assert Next(L, rules, s, e, t);
    if !s.poisoned {
      StepFromHonest(L, payload, s, e.moves, t.img.pending);
    }
  }

  // ---------------------------------------------------------------------------
  // Snapshots that chunks bring

  ghost predicate AllChunks(good: Snapshot -> bool, outs: seq<Output>) {
    forall o :: o in outs && o.StageSnapshotChunk? ==> good(o.chunk.snapshot)
  }

  /** Every chunk taken in during the run is of a good snapshot. */
  ghost predicate GoodChunks(good: Snapshot -> bool, run: Run) {
    forall i :: 0 <= i < |run.events| && run.events[i].Step? ==> AllChunks(good, OutputsFrom(run.events[i].moves))
  }

  /** Staged and applied snapshots then come from such chunks. */
  lemma {:induction false} OutputsGood(
    L: Lineage, good: Snapshot -> bool, term: nat, cp: Point, p: Option<Staged>, outs: seq<Output>, q: Option<Staged>,
    s: Snapshot)
    requires p.Some? ==> good(p.value.snapshot)
    requires AllChunks(good, outs) && Installable(L, term, cp, p, outs)
    ensures PendingCut(p, outs, q) && q.Some? ==> good(q.value.snapshot)
    ensures ApplySnapshot(s) in outs ==> good(s)
    decreases |outs|
  {
    if outs != [] {
      var rest := outs[1..];
      assert outs[0] in outs && outs == [outs[0]] + rest;
      match outs[0]
      case StageSnapshotChunk(c) =>
        OutputsGood(L, good, term, cp, Some(Assembled(p, c)), rest, q, s);
      case ApplySnapshot(first) =>
        OutputsGood(L, good, term, first.Boundary(), None, rest, q, s);
      case _ =>
        OutputsGood(L, good, term, cp, p, rest, q, s);
    }
  }

  lemma StepGood(L: Lineage, good: Snapshot -> bool, s: State, moves: seq<Move>, t: Image)
    requires Good(L, s) && s.Up? && !s.poisoned && Guarded(L, s.node, moves)
    requires (s.img.pending.Some? ==> good(s.img.pending.value.snapshot)) && AllChunks(good, OutputsFrom(moves))
    requires PendingCut(s.img.pending, OutputsFrom(moves), t.pending)
    requires t.snap == s.img.snap || ApplySnapshot(t.snap) in OutputsFrom(moves)
    ensures t.pending.Some? ==> good(t.pending.value.snapshot)
    ensures t.snap == s.img.snap || good(t.snap)
  {
    hide PendingCut, Guarded, Installable, AllChunks;
    SyncedPoint(L, s.img, s.node, s.tail);
    StepInstallable(L, s.node, moves, s.img.CommitPoint(), s.img.pending);
    var term, outs := ApplyAll(s.node, moves).term, OutputsFrom(moves);
    OutputsGood(L, good, term, s.img.CommitPoint(), s.img.pending, outs, t.pending, t.snap);
  }

  // ---------------------------------------------------------------------------
  // Authors

  /** The current and the staged snapshot were written by replicas. */
  ghost predicate AuthorsAdmitted(rules: Rules, img: Image) {
    AuthorAdmitted(rules, img.snap) && (img.pending.Some? ==> rules.Author(img.pending.value.snapshot))
  }

  /** A local snapshot that the kernel accepts passes the rule that a boot applies, because
      what it declares is the membership that its author was judged by. */
  lemma LocalAuthor(rules: Rules, k: Node, given: Snapshot)
    requires LocalSnapshotRefusal(rules, k, Stamped(rules, k, given)).None?
    ensures rules.Author(Stamped(rules, k, given))
  {}

  /** Receiving, compacting and booting agree about authors: no cut of any run holds a snapshot
      that would be refused at boot for its author. */
  lemma {:induction false} AuthorsAlwaysAdmitted(L: Lineage, rules: Rules, run: Run, j: nat)
    requires Happens(L, rules, run) && GoodChunks(s => rules.Author(s), run) && j < |run.states|
    requires AuthorsAdmitted(rules, run.states[0].img)
    ensures AuthorsAdmitted(rules, run.states[j].img)
  {
    hide PendingCut, PayloadsMatch, Guarded, Kept, Stuck, Openable, Good, AllChunks, Recorded, Published, IndexesFit,
      Stamped, LocalSnapshotRefusal, Rules.Author;
    if 0 < j {
      var s, e, t := run.states[j - 1], run.events[j - 1], run.states[j];
      AuthorsAlwaysAdmitted(L, rules, run, j - 1);
      DurableForever(L, rules, run, j - 1, j - 1);
      assert Next(L, rules, s, e, t);
      if e.Step? && !s.poisoned {
        StepGood(L, x => rules.Author(x), s, e.moves, t.img);
      } else if e.Compact? && !s.poisoned && t.img.snap != s.img.snap {
        LocalAuthor(rules, s.node, e.snapshot);
      }
    }
  }

  // ---------------------------------------------------------------------------
  // Committed configurations

  /** What disk and kernel know of configurations is true: the record is on the committed
      history, snapshots name the truth or nothing, and no snapshot that declares anything has
      lost the record.  `full` adds that snapshots do declare the truth. */
  ghost predicate ConfigGood(L: Lineage, full: bool, s: State) {
    && CapturedOk(L, s.img.snap) && StoredOk(L, s.img)
    && (s.img.snap.declared.Some? ==> Remembers(s.img.snap, s.img.hard.config))
    && (full ==> Honest(L, s.img.snap))
    && (s.img.pending.Some? ==> ChunkOk(L, full, s.img.pending.value.snapshot))
    && (s.Up? && !s.poisoned ==> ConfigOk(L, s.node) && Remembers(s.img.snap, s.img.hard.config))
  }

  /** What chunks may bring. */
  ghost predicate ChunkOk(L: Lineage, full: bool, s: Snapshot) {
    DeclaresIfAny(L, s) && (full ==> s.declared.Some?)
  }

  lemma StoredStays(L: Lineage, a: Image, b: Image)
    requires StoredOk(L, a) && Extends(L, a, b) && b.hard.config == a.hard.config
    ensures StoredOk(L, b)
  {
    if a.hard.config.Some? { OnBoth(L, a.CommitPoint(), b.CommitPoint(), a.hard.config.value); }
  }

  /** A snapshot that came in chunks covers the record, if it declares anything. */
  lemma ChunkRemembers(L: Lineage, full: bool, img: Image)
    requires ImageInv(L, img) && StoredOk(L, img) && ChunkOk(L, full, img.snap)
    ensures CapturedOk(L, img.snap) && (full ==> Honest(L, img.snap))
    ensures img.snap.declared.Some? ==> Remembers(img.snap, img.hard.config)
  {
    if img.snap.declared.Some? && img.hard.config.Some? {
      BoundaryOnHistory(L, img);
      DeclaredRemembers(L, img.snap, img.CommitPoint(), img.hard.config.value);
    }
  }

  lemma MoveConfigOk(L: Lineage, k: Node, m: Move)
    requires NodeInv(L, k) && Guard(L, k, m) && ConfigOk(L, k)
    requires m.Install? ==> DeclaresIfAny(L, m.chunk.snapshot)
    ensures ConfigOk(L, Apply(k, m))
  {
    hide NodeInv, Retained;
    MoveKeepsCommitted(L, k, m);
    var j := Apply(k, m);
    if m.Install? {
      LatestOnHistory(L, j.snap.Boundary());
    } else if k.config.Some? {
      OnBoth(L, k.CommitPoint(), j.CommitPoint(), k.config.value);
    }
  }

  lemma {:induction false} StepConfigOk(L: Lineage, full: bool, k: Node, ms: seq<Move>)
    requires NodeInv(L, k) && Guarded(L, k, ms) && ConfigOk(L, k)
    requires AllChunks(s => ChunkOk(L, full, s), OutputsFrom(ms))
    ensures ConfigOk(L, ApplyAll(k, ms))
    decreases |ms|
  {
    hide NodeInv, ConfigOk, Guard, DeclaresIfAny;
    if ms != [] {
      var m, rest := ms[0], OutputsFrom(ms[1..]);
      if m.Install? {
        assert StageSnapshotChunk(m.chunk) in OutputsFrom(ms);
      }
      assert forall o :: o in rest ==> o in OutputsFrom(ms);
      MoveConfigOk(L, k, m);
      MoveStepKeeps(L, k, m);
      StepConfigOk(L, full, Apply(k, m), ms[1..]);
    }
  }

  /** A kernel with true knowledge publishes the truth. */
  lemma PublishedOk(L: Lineage, k: Node, img: Image)
    requires NodeInv(L, k) && ConfigOk(L, k) && img.hard == HardStateOf(k) && img.snap == k.snap
    requires k.TermAt(k.commit).Some? && img.CommitPoint() == k.CommitPoint()
    ensures StoredOk(L, img) && Remembers(img.snap, img.hard.config)
  {
    StateIsLatest(L, k, k.commit);
    StateRemembered(k, k.commit);
    LatestOnHistory(L, k.CommitPoint());
  }

  lemma StepConfigGood(L: Lineage, full: bool, s: State, moves: seq<Move>, released: Option<seq<Output>>,
    writeFailed: bool, t: State)
    requires Good(L, s) && ConfigGood(L, full, s) && StepMay(L, s, moves, released, writeFailed, t)
    requires AllChunks(x => ChunkOk(L, full, x), OutputsFrom(moves))
    ensures ConfigGood(L, full, t)
  {
    hide Guarded, NodeInv, PendingCut, PayloadsMatch, IndexesFit, Stuck, ImageInv, Extends, AllChunks, ChunkOk,
      ConfigOk, StoredOk, CapturedOk, Remembers, Honest;
    if !s.poisoned {
      StepGood(L, x => ChunkOk(L, full, x), s, moves, t.img);
      StepConfigOk(L, full, s.node, moves);
      StepKept(L, s.node, moves);
      if t.img.hard.config == s.img.hard.config { StoredStays(L, s.img, t.img); }
      if t.img.hard == HardStateOf(t.node) && t.img.snap == t.node.snap && t.img.CommitPoint() == t.node.CommitPoint() {
        PublishedOk(L, t.node, t.img);
      }
      if t.img.snap != s.img.snap { ChunkRemembers(L, full, t.img); }
      if released.Some? { SyncedPoint(L, t.img, t.node, t.tail); }
    }
  }

  /** A local snapshot that the kernel accepts names the truth or nothing, the truth if the one
      before it did, and covers what that one covered. */
  lemma CompactionDeclares(L: Lineage, rules: Rules, k: Node, given: Snapshot)
    requires NodeInv(L, k) && ConfigOk(L, k)
    requires LocalSnapshotRefusal(rules, k, Stamped(rules, k, given)).None?
    ensures
      var s := Stamped(rules, k, given);
      CapturedOk(L, s) && (Honest(L, k.snap) ==> Declares(L, s)) && ConfigOk(L, LocallyCompacted(k, s))
  {
    var s := Stamped(rules, k, given);
    StateIsLatest(L, k, s.index);
    CompactedPoint(L, rules, k, s);
    var j := LocallyCompacted(k, s);
    if j.config.Some? {
      LatestOnHistory(L, s.Boundary());
      NodeLine(L, k, s.index, k.commit);
      OnBoth(L, s.Boundary(), k.CommitPoint(), j.config.value);
    }
  }

  lemma CompactedPoint(L: Lineage, rules: Rules, k: Node, s: Snapshot)
    requires NodeInv(L, k) && LocalSnapshotRefusal(rules, k, s).None?
    ensures
      var j := LocallyCompacted(k, s);
      k.TermAt(k.commit).Some? && j.TermAt(j.commit).Some? && j.CommitPoint() == k.CommitPoint()
  {}

  lemma CapturesState(rules: Rules, k: Node, given: Snapshot)
    requires LocalSnapshotRefusal(rules, k, Stamped(rules, k, given)).None?
    ensures Stamped(rules, k, given).Captured() == StateAt(k, given.index)
    ensures Stamped(rules, k, given).index == given.index && k.snap.index <= given.index <= k.commit
  {
    hide StateAt, Rules.MembershipAt;
  }

  /** The kernel's answer is no older than what the snapshot names, or than what the log holds. */
  lemma StateAtLeast(k: Node, i: nat, at: nat)
    requires
      || (k.snap.Captured().Some? && at <= k.snap.Captured().value.index <= i)
      || (NewestThrough(k.log, i).Some? && at <= NewestThrough(k.log, i).value.index)
    ensures StateAt(k, i).Some? && at <= StateAt(k, i).value.index
  {
    hide NewestThrough;
  }

  lemma CompactionRemembers(L: Lineage, rules: Rules, img: Image, k: Node, tail: Option<Point>, given: Snapshot)
    requires ImageInv(L, img) && Synced(L, img, k, tail)
    requires StoredOk(L, img) && CapturedOk(L, img.snap) && Remembers(img.snap, img.hard.config)
    requires LocalSnapshotRefusal(rules, k, Stamped(rules, k, given)).None?
    ensures Remembers(Stamped(rules, k, given), img.hard.config)
  {
    hide ImageInv, NodeInv, StateAt, Stamped, LocalSnapshotRefusal, NewestThrough, LatestAt, StoredOk, Log.DropThrough;
    var stored := img.hard.config;
    CapturesState(rules, k, given);
    if stored.Some? && stored.value.index <= given.index {
      if stored.value.index <= img.snap.index {
        LatestOnHistory(L, img.snap.Boundary());
      } else {
        StoredInLog(L, img);
        NewestAtLeast(k.log, given.index, stored.value.index);
      }
      StateAtLeast(k, given.index, stored.value.index);
    }
  }

  lemma CompactConfigGood(
    L: Lineage, full: bool, rules: Rules, s: State, given: Snapshot, done: bool, writeFailed: bool, t: State)
    requires Good(L, s) && ConfigGood(L, full, s) && CompactMay(L, rules, s, given, done, writeFailed, t)
    ensures ConfigGood(L, full, t)
  {
    hide NodeInv, ImageInv, Extends, ConfigOk, StoredOk, LocalSnapshotRefusal, Stamped, CapturedOk, Remembers, ChunkOk,
      Declares;
    if !s.poisoned {
      StoredStays(L, s.img, t.img);
      if LocalSnapshotRefusal(rules, s.node, Stamped(rules, s.node, given)).None? {
        CompactionDeclares(L, rules, s.node, given);
        CompactionRemembers(L, rules, s.img, s.node, s.tail, given);
      }
    }
  }

  lemma ReopenConfigGood(
    L: Lineage, full: bool, rules: Rules, s: State, floor: nat, succeeded: bool, writeFailed: bool, t: State)
    requires Good(L, s) && ConfigGood(L, full, s) && ReopenMay(L, rules, s, floor, succeeded, writeFailed, t)
    ensures ConfigGood(L, full, t)
  {
    hide NodeInv, Extends, StoredOk, Stuck, Recovered, ConfigurationAdmitted, CapturedOk, Remembers, ChunkOk, Honest,
      ImageInv;
    StoredStays(L, s.img, t.img);
    if t.img.snap != s.img.snap { ChunkRemembers(L, full, t.img); }
    if succeeded {
      SettledSound(L, full, s);
      RecoveryExact(L, Settle(s.img));
      SettledRecord(s.img);
      DeclaredRemembersAll(t.img);
      RecoversTruth(L, t.img);
      LatestOnHistory(L, t.img.CommitPoint());
      SyncedPoint(L, t.img, t.node, t.tail);
      BootedConfig(L, t.img, floor, t.node);
    }
  }

  /** A record that no snapshot has compacted away undeclared is covered. */
  lemma DeclaredRemembersAll(img: Image)
    requires img.snap.declared.Some? ==> Remembers(img.snap, img.hard.config)
    requires img.hard.config.Some? && img.hard.config.value.index <= img.snap.index ==> img.snap.declared.Some?
    ensures Remembers(img.snap, img.hard.config)
  {}

  lemma SettledRecord(img: Image)
    ensures Settle(img).hard == img.hard
  {}

  lemma BootedConfig(L: Lineage, img: Image, floor: nat, k: Node)
    requires k == Booted(img, floor) && CapturedOk(L, img.snap)
    requires Recovered(img).Ok? && Remembers(img.snap, Recovered(img).value)
    requires k.TermAt(k.commit).Some? && k.CommitPoint() == img.CommitPoint()
    requires Recovered(img).value.Some? ==> OnHistory(L, img.CommitPoint(), Recovered(img).value.value)
    ensures ConfigOk(L, k)
  {}

  /** If every snapshot that chunks bring declares what its history had committed, or nothing,
      then all that disk and kernel know is true, at every cut of every run. */
  lemma {:induction false} ConfigAlwaysGood(L: Lineage, full: bool, rules: Rules, run: Run, j: nat)
    requires Happens(L, rules, run) && GoodChunks(x => ChunkOk(L, full, x), run) && j < |run.states|
    requires ConfigGood(L, full, run.states[0])
    ensures ConfigGood(L, full, run.states[j])
  {
    hide Good, ConfigGood, StepMay, CompactMay, DrainMay, ReopenMay, AllChunks, ChunkOk;
    if 0 < j {
      var s, e, t := run.states[j - 1], run.events[j - 1], run.states[j];
      ConfigAlwaysGood(L, full, rules, run, j - 1);
      DurableForever(L, rules, run, j - 1, j - 1);
      assert Next(L, rules, s, e, t);
      match e
      case Step(moves, released, writeFailed) => StepConfigGood(L, full, s, moves, released, writeFailed, t);
      case Compact(given, done, writeFailed) => CompactConfigGood(L, full, rules, s, given, done, writeFailed, t);
      case Drain(outputs) => DrainConfigGood(L, full, s, outputs, t);
      case Crash => CrashConfigGood(L, full, s);
      case Reopen(floor, succeeded, writeFailed) =>
        ReopenConfigGood(L, full, rules, s, floor, succeeded, writeFailed, t);
    }
  }

  lemma DrainConfigGood(L: Lineage, full: bool, s: State, outputs: seq<Output>, t: State)
    requires ConfigGood(L, full, s) && DrainMay(L, s, outputs, t)
    ensures ConfigGood(L, full, t)
  {}

  lemma CrashConfigGood(L: Lineage, full: bool, s: State)
    requires ConfigGood(L, full, s)
    ensures ConfigGood(L, full, Down(s.img))
  {}

  /** The image that an open boots from. */
  lemma SettledSound(L: Lineage, full: bool, s: State)
    requires Good(L, s) && ConfigGood(L, full, s)
    ensures
      var settled := Settle(s.img);
      && ImageInv(L, settled) && StoredOk(L, settled) && CapturedOk(L, settled.snap)
      && (full ==> Honest(L, settled.snap))
  {
    hide StoredOk, Extends, CapturedOk, ChunkOk, Honest;
    if !Settled(s.img) {
      var done := Settle(s.img);
      InstallKeeps(L, s.img, done, s.img.pending.value.snapshot);
      StoredStays(L, s.img, done);
      ChunkRemembers(L, full, done);
    }
  }

  /** The recorded configuration lies below a snapshot that declares nothing. */
  predicate Undeclared(img: Image) {
    img.hard.config.Some? && img.hard.config.value.index <= img.snap.index && img.snap.declared.None?
  }

  /** Then an image of the run is refused for its configuration exactly if the record was
      compacted away undeclared. */
  lemma RecoversExactly(L: Lineage, rules: Rules, run: Run, j: nat)
    requires Happens(L, rules, run) && GoodChunks(x => ChunkOk(L, false, x), run) && j < |run.states|
    requires ConfigGood(L, false, run.states[0])
    ensures StoredOk(L, run.states[j].img)
    ensures ConfigurationAdmitted(Settle(run.states[j].img)) <==> !Undeclared(Settle(run.states[j].img))
  {
    hide Next, Good, StoredOk, ConfigurationAdmitted, GoodChunks, CapturedOk, Remembers, ChunkOk, ConfigOk;
    DurableForever(L, rules, run, j, j);
    ConfigAlwaysGood(L, false, rules, run, j);
    SettledSound(L, false, run.states[j]);
    RecoveryExact(L, Settle(run.states[j].img));
  }

  /** If all of them declare, every cut of every run recovers exactly the configuration that
      the committed history of its image has. */
  lemma AlwaysRecovers(L: Lineage, rules: Rules, run: Run, j: nat)
    requires Happens(L, rules, run) && GoodChunks(x => ChunkOk(L, true, x), run) && j < |run.states|
    requires ConfigGood(L, true, run.states[0])
    ensures
      var settled := Settle(run.states[j].img);
      ConfigurationAdmitted(settled) && Recovered(settled) == Ok(LatestAt(L, settled.CommitPoint()))
  {
    hide Next, ConfigGood, Good, StoredOk, Honest, ConfigurationAdmitted, Recovered, GoodChunks;
    DurableForever(L, rules, run, j, j);
    ConfigAlwaysGood(L, true, rules, run, j);
    SettledSound(L, true, run.states[j]);
    RecoversLatest(L, Settle(run.states[j].img));
  }

  // ---------------------------------------------------------------------------
  // Memberships and local snapshots

  /** A local snapshot is accepted exactly if its boundary is applied and not behind the last,
      carries the term of the entry there, declares the kernel's own answers or nothing, and
      comes from a replica of the membership there. */
  lemma LocalAccepted(L: Lineage, rules: Rules, k: Node, given: Snapshot)
    requires NodeInv(L, k)
    ensures LocalSnapshotRefusal(rules, k, Stamped(rules, k, given)).None? <==>
      && k.snap.index <= given.index <= k.applied && k.TermAt(given.index) == Some(given.term)
      && (given.declared.Some? ==>
            given.declared.value == Declaration(rules.MembershipAt(k, given.index), StateAt(k, given.index)))
      && rules.replica(rules.MembershipAt(k, given.index), given.writer)
    ensures Stamped(rules, k, given) == given.(declared := Stamped(rules, k, given).declared)
  {
    hide StateAt, Rules.MembershipAt;
  }

  /** Then what it declares is what the history had committed at its boundary, configuration
      and membership, if that holds of the snapshot before it. */
  lemma LocalDeclaresTruth(L: Lineage, rules: Rules, k: Node, given: Snapshot)
    requires NodeInv(L, k) && ConfigOk(L, k) && Honest(L, k.snap) && AboutMembership(L, rules, k.snap)
    requires LocalSnapshotRefusal(rules, k, Stamped(rules, k, given)).None?
    ensures
      var p := given.Boundary();
      Stamped(rules, k, given).declared == Some(Declaration(MembershipOn(L, rules, p), LatestAt(L, p)))
  {
    hide StateAt, Rules.MembershipAt, LatestAt, ConfigOk, Honest, NodeInv;
    LocalAccepted(L, rules, k, given);
    LocalInside(L, k, given);
    MembershipIsLatest(L, rules, k, given.index);
    StateIsLatest(L, k, given.index);
  }

  lemma LocalInside(L: Lineage, k: Node, given: Snapshot)
    requires NodeInv(L, k) && k.snap.index <= given.index <= k.applied
    ensures given.index <= k.commit <= k.log.Last()
  {}

  lemma StampedAbout(L: Lineage, rules: Rules, k: Node, given: Snapshot)
    requires NodeInv(L, k) && AboutMembership(L, rules, k.snap)
    requires LocalSnapshotRefusal(rules, k, Stamped(rules, k, given)).None?
    ensures AboutMembership(L, rules, Stamped(rules, k, given))
  {
    hide StateAt, Rules.MembershipAt, LatestAt, NodeInv;
    LocalAccepted(L, rules, k, given);
    LocalInside(L, k, given);
    MembershipIsLatest(L, rules, k, given.index);
  }

  /** Every snapshot on disk is about the membership of its boundary. */
  ghost predicate MembershipsTrue(L: Lineage, rules: Rules, img: Image) {
    && AboutMembership(L, rules, img.snap)
    && (img.pending.Some? ==> AboutMembership(L, rules, img.pending.value.snapshot))
  }

  /** If that holds of the snapshots that chunks bring, it holds at every cut of every run. */
  lemma {:induction false} MembershipsAlwaysTrue(L: Lineage, rules: Rules, run: Run, j: nat)
    requires Happens(L, rules, run) && GoodChunks(s => AboutMembership(L, rules, s), run) && j < |run.states|
    requires MembershipsTrue(L, rules, run.states[0].img)
    ensures MembershipsTrue(L, rules, run.states[j].img)
  {
    hide PendingCut, PayloadsMatch, Guarded, Kept, Stuck, Openable, Good, AllChunks, Recorded, Published, IndexesFit,
      Stamped, LocalSnapshotRefusal, AboutMembership;
    if 0 < j {
      var s, e, t := run.states[j - 1], run.events[j - 1], run.states[j];
      MembershipsAlwaysTrue(L, rules, run, j - 1);
      DurableForever(L, rules, run, j - 1, j - 1);
      assert Next(L, rules, s, e, t);
      if e.Step? && !s.poisoned {
        StepGood(L, x => AboutMembership(L, rules, x), s, e.moves, t.img);
      } else if e.Compact? && !s.poisoned && t.img.snap != s.img.snap {
        LiveSnapshot(L, s);
        StampedAbout(L, rules, s.node, e.snapshot);
      }
    }
  }

  lemma LiveSnapshot(L: Lineage, s: State)
    requires Good(L, s) && s.Up? && !s.poisoned
    ensures NodeInv(L, s.node) && s.node.snap == s.img.snap
  {}

  // ---------------------------------------------------------------------------
  // Every reopen of every run

  /** What a run asks of the rest of the cluster and of the host: chunks come from replicas'
      snapshots, are cut from the payloads they describe and declare what was committed or
      nothing, and local snapshots carry a term that has been reached. */
  ghost predicate Trusted(L: Lineage, full: bool, rules: Rules, payload: Snapshot -> Bytes, run: Run) {
    && HonestSenders(payload, run) && GoodChunks(x => ChunkOk(L, full, x), run)
    && GoodChunks(x => rules.Author(x), run) && TermsRespected(run)
  }

  ghost predicate TrustedStart(L: Lineage, full: bool, rules: Rules, payload: Snapshot -> Bytes, s: State) {
    && StagedFrom(payload, s.img.pending) && ConfigGood(L, full, s)
    && AuthorsAdmitted(rules, s.img) && TermReached(s.img)
  }

  /** A node that has never written anything is such a start. */
  lemma FreshIsTrusted(L: Lineage, full: bool, rules: Rules, payload: Snapshot -> Bytes)
    ensures TrustedStart(L, full, rules, payload, Down(FRESH_IMAGE))
  {}

  /** Then every reopen without a failed write succeeds, at any cut of any run, exactly if the
      record was not compacted away undeclared, a half-received transfer's leader is still
      recognised, the application's floor is committed and the boundary is not the last index
      there is. */
  lemma ReopensExactly(L: Lineage, rules: Rules, payload: Snapshot -> Bytes, run: Run, j: nat)
    requires Happens(L, rules, run) && j < |run.events|
    requires Trusted(L, false, rules, payload, run) && TrustedStart(L, false, rules, payload, run.states[0])
    requires run.events[j].Reopen? && !run.events[j].writeFailed
    ensures
      var settled := Settle(run.states[j].img);
      run.events[j].succeeded <==>
        && settled.snap.index < U64_MAX && !Undeclared(settled) && run.events[j].floor <= settled.Committed()
        && (settled.pending.Some? ==> rules.Sender(NodeOf(settled), settled.pending.value.Progress()))
  {
    hide StagedFrom, Kept, ConfigurationAdmitted, NodeOf, HonestSenders, Genuine, GoodChunks, Undeclared,
      ConfigGood, Recovered, Booted, Rules.Author, Rules.Sender;
    var img := run.states[j].img;
    StagingFromHonest(L, rules, payload, run, j);
    TermAlwaysReached(L, rules, run, j);
    AuthorsAlwaysAdmitted(L, rules, run, j);
    RecoversExactly(L, rules, run, j);
    DurableForever(L, rules, run, j, j);
    assert Next(L, rules, run.states[j], run.events[j], run.states[j + 1]);
    if !Settled(img) {
      CompleteIsGenuine(payload, img.pending.value);
    }
  }

  /** If chunks always declare, only the leader's standing, the floor and the end of the index
      space are left to decide, and what is recovered is the committed configuration. */
  lemma AlwaysReopens(L: Lineage, rules: Rules, payload: Snapshot -> Bytes, run: Run, j: nat)
    requires Happens(L, rules, run) && j < |run.events|
    requires Trusted(L, true, rules, payload, run) && TrustedStart(L, true, rules, payload, run.states[0])
    requires run.events[j].Reopen? && !run.events[j].writeFailed
    ensures
      var settled := Settle(run.states[j].img);
      && (run.events[j].succeeded <==>
            && settled.snap.index < U64_MAX && run.events[j].floor <= settled.Committed()
            && (settled.pending.Some? ==> rules.Sender(NodeOf(settled), settled.pending.value.Progress())))
      && Recovered(settled) == Ok(LatestAt(L, settled.CommitPoint()))
  {
    hide StagedFrom, ConfigurationAdmitted, NodeOf, HonestSenders, Recovered, Rules.Sender, Next, Settle;
    LessIsTrusted(L, rules, payload, run);
    ReopensExactly(L, rules, payload, run, j);
    RecoversExactly(L, rules, run, j);
    AlwaysRecovers(L, rules, run, j);
  }

  lemma LessIsTrusted(L: Lineage, rules: Rules, payload: Snapshot -> Bytes, run: Run)
    requires Happens(L, rules, run)
    requires Trusted(L, true, rules, payload, run) && TrustedStart(L, true, rules, payload, run.states[0])
    ensures Trusted(L, false, rules, payload, run) && TrustedStart(L, false, rules, payload, run.states[0])
  {
    hide Next, Good, DeclaresIfAny, CapturedOk, Remembers, StoredOk, Honest, ConfigOk, Rules.Author;
  }

  /** A transfer that was half received when the node went down goes on after a restart, with
      the same leader, descriptor and bytes. */
  lemma TransferResumed(L: Lineage, rules: Rules, run: Run, j: nat)
    requires Happens(L, rules, run) && j < |run.events| && run.events[j].Reopen? && run.events[j].succeeded
    requires
      var p := run.states[j].img.pending;
      p.Some? && !p.value.Complete() && run.states[j].img.snap.index < p.value.snapshot.index
    ensures
      var s, t := run.states[j], run.states[j + 1];
      var p := s.img.pending.value;
      && t.Up? && t.img.pending == s.img.pending
      && t.node.pending == Some(Transfer(p.leader, p.snapshot, |p.bytes|))
  {
    hide Good, Kept, Openable, Stuck, Recovered;
    assert Next(L, rules, run.states[j], run.events[j], run.states[j + 1]);
  }

  /** The leader of a transfer is judged after a restart as the kernel judged it before. */
  lemma SameStanding(L: Lineage, rules: Rules, img: Image, k: Node, tail: Option<Point>, t: Transfer)
    requires Synced(L, img, k, tail)
    ensures rules.Sender(NodeOf(img), t) <==> rules.Sender(k, t)
  {}
}
