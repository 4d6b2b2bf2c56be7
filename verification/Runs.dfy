/** Whole runs of one node: steps, local compactions, crashes and reopens in any order, with
    any write failing or cut short anywhere. */
module Runs {
  import opened Prelude
  import opened Raft
  import opened Kernel
  import opened Durable
  import opened Stores
  import opened StepOutputs
  import opened SnapshotInstall
  import opened LogRepair
  import opened Runtime
  import opened DurableNode
  import opened Reopen
  import opened CommittedConfig
  import opened Delivery

  datatype State = Down(img: Image) | Up(img: Image, node: Node, tail: Option<Point>, poisoned: bool)

  /** `writeFailed` says whether a store write failed during a call, by the stores' own
      counts.  `floor` is what the application says it holds. */
  datatype Event =
    | Step(moves: seq<Move>, released: Option<seq<Output>>, writeFailed: bool)
    | Compact(snapshot: Snapshot, done: bool, writeFailed: bool)
    | Drain(outputs: seq<Output>)
    | Crash
    | Reopen(floor: nat, succeeded: bool, writeFailed: bool)

  ghost predicate Good(L: Lineage, s: State) {
    ImageInv(L, s.img) && (s.Up? && !s.poisoned ==> Synced(L, s.img, s.node, s.tail))
  }

  ghost predicate StepMay(L: Lineage, s: State, moves: seq<Move>, released: Option<seq<Output>>, writeFailed: bool,
    t: State)
  {
    var outs := OutputsFrom(moves);
    && s.Up? && t.Up? && Good(L, t) && Kept(L, s.img, t.img)
    && PendingCut(s.img.pending, outs, t.img.pending)
    && (t.img.snap == s.img.snap || ApplySnapshot(t.img.snap) in outs)
    && (s.poisoned ==> released.None? && t == s)
    && (!s.poisoned ==>
          Guarded(L, s.node, moves) && t.node == ApplyAll(s.node, moves) && Published(s.img.hard, t.img, t.node))
    && (!s.poisoned && !writeFailed ==>
          (released.Some? <==> PayloadsMatch(s.img.pending, outs) && IndexesFit(outs, t.node)))
    && (!s.poisoned && !writeFailed && released.None? && IndexesFit(outs, t.node) ==> Stuck(t.img))
    && (released.Some? ==> !t.poisoned && released.value == outs && t.img.hard == HardStateOf(t.node))
    && (released.None? ==> t.poisoned)
    && (writeFailed ==> !s.poisoned && released.None?)
  }

  ghost predicate CompactMay(L: Lineage, rules: Rules, s: State, given: Snapshot, done: bool, writeFailed: bool,
    t: State)
  {
    && s.Up? && t.Up? && Good(L, t) && t.img.hard == s.img.hard
    && var snapshot := Stamped(rules, s.node, given);
    && Recorded(L, s.img, t.img, snapshot)
    && (t.img.pending == s.img.pending || t.img.pending == None)
    && (t.img.snap == s.img.snap || t.img.snap == snapshot)
    && (s.poisoned ==> !done && t == s)
    && t.node == (if done then LocallyCompacted(s.node, snapshot) else s.node)
    && (done ==> !t.poisoned)
    && (!s.poisoned && LocalSnapshotRefusal(rules, s.node, snapshot).Some? ==>
          !done && !writeFailed && t.img == s.img && !t.poisoned)
    && (!s.poisoned && LocalSnapshotRefusal(rules, s.node, snapshot).None? ==>
          done == !writeFailed && done != t.poisoned)
    && (s.poisoned ==> !writeFailed)
  }

  ghost predicate DrainMay(L: Lineage, s: State, outputs: seq<Output>, t: State) {
    && s.Up? && t.Up? && Good(L, t) && t == s.(node := s.node.(applied := t.node.applied))
    && outputs == OutputsFrom(DeliverMoves(s.node.log, s.node.applied, s.node.commit))
    && (!s.poisoned ==> t.node.applied == t.node.commit)
  }

  ghost predicate ReopenMay(L: Lineage, rules: Rules, s: State, floor: nat, succeeded: bool, writeFailed: bool,
    t: State)
  {
    && s.Down? && Good(L, t) && Kept(L, s.img, t.img) && t.img.hard == s.img.hard
    && (t.img.pending == s.img.pending || t.img.pending == None)
    && (t.img.snap == s.img.snap || (!Settled(s.img) && t.img.snap == s.img.pending.value.snapshot))
    && (!Settled(s.img) && t.img.snap == s.img.snap ==> t.img.pending == s.img.pending)
    && (succeeded ==> t.Up? && !t.poisoned && Openable(rules, s.img) && t.img.snap == Settle(s.img).snap)
    && (succeeded ==> t.img.pending == StillWanted(Settle(s.img).pending, t.img.snap))
    && (succeeded ==> !writeFailed && FloorFits(s.img, floor) && floor <= t.img.Committed())
    && (succeeded ==> t.node == Booted(t.img, floor) && t.tail == Some(TailOf(t.node)))
    && (!succeeded ==> t.Down? && (writeFailed || !Openable(rules, s.img) || !FloorFits(s.img, floor)))
    && (Stuck(s.img) ==> !succeeded && t.img.snap == s.img.snap && t.img.pending == s.img.pending)
  }

  /** One event of a run. */
  ghost predicate Next(L: Lineage, rules: Rules, s: State, e: Event, t: State) {
    match e
    case Step(moves, released, writeFailed) => StepMay(L, s, moves, released, writeFailed, t)
    case Compact(snapshot, done, writeFailed) => CompactMay(L, rules, s, snapshot, done, writeFailed, t)
    case Drain(outputs) => DrainMay(L, s, outputs, t)
    case Crash => t == Down(s.img)
    case Reopen(floor, succeeded, writeFailed) => ReopenMay(L, rules, s, floor, succeeded, writeFailed, t)
  }

  datatype Run = Run(states: seq<State>, events: seq<Event>)

  predicate HasFailed(e: Event) { (e.Step? || e.Compact? || e.Reopen?) && e.writeFailed }

  /** How many calls met a failed write. */
  function FailedCalls(events: seq<Event>): nat {
    if events == [] then 0
    else FailedCalls(events[..|events| - 1]) + (if HasFailed(events[|events| - 1]) then 1 else 0)
  }

  /** A run of a fixed cluster history, from any sound state. */
  ghost predicate Happens(L: Lineage, rules: Rules, run: Run) {
    && |run.states| == |run.events| + 1
    && Good(L, run.states[0])
    && forall i :: 0 <= i < |run.events| ==> Next(L, rules, run.states[i], run.events[i], run.states[i + 1])
  }

  // ---------------------------------------------------------------------------
  // The runtime's methods make these events

  ghost function View(n: DurableRaftNode): State
    reads n, n.hard, n.log, n.snaps
  {
    Up(n.Img(), n.node, n.tail, n.fatal.Some?)
  }

  method DoStep(ghost L: Lineage, n: DurableRaftNode, moves: seq<Move>)
    returns (released: Option<seq<Output>>, ghost writeFailed: bool)
    requires n.Valid(L) && (n.fatal.None? ==> Guarded(L, n.node, moves))
    modifies n, n.hard, n.log, n.snaps
    ensures n.FailedWrites() == old(n.FailedWrites()) + (if writeFailed then 1 else 0)
    ensures n.Valid(L) && Next(L, n.rules, old(View(n)), Step(moves, released, writeFailed), View(n))
  {
    hide ImageInv, Extends, TermReached, Synced, PayloadsMatch, PendingCut, Guarded, Published, Stuck, IndexesFit;
    var r := n.StepAndPersist(L, moves);
    return if r.Ok? then Some(r.value) else None, n.FailedWrites() > old(n.FailedWrites());
  }

  method DoCompact(ghost L: Lineage, n: DurableRaftNode, s: Snapshot) returns (done: bool, ghost writeFailed: bool)
    requires n.Valid(L)
    modifies n, n.log, n.snaps
    ensures n.FailedWrites() == old(n.FailedWrites()) + (if writeFailed then 1 else 0)
    ensures n.Valid(L) && Next(L, n.rules, old(View(n)), Compact(s, done, writeFailed), View(n))
  {
    hide ImageInv, Extends, TermReached, Synced;
    var r := n.CompactLogWithSnapshot(L, s);
    return r.Ok?, n.FailedWrites() > old(n.FailedWrites());
  }

  method DoDrain(ghost L: Lineage, n: DurableRaftNode) returns (outputs: seq<Output>)
    requires n.Valid(L)
    modifies n
    ensures n.Valid(L) && Next(L, n.rules, old(View(n)), Drain(outputs), View(n))
  {
    hide ImageInv, Synced, OutputsFrom, DeliverMoves;
    outputs := n.DrainCommittedOutputs(L);
  }

  method DoReopen(
    ghost L: Lineage, rules: Rules, hard: HardStateStore, log: LogSegment, snaps: SnapshotStore, floor: nat)
    returns (n: Option<DurableRaftNode>, ghost writeFailed: bool)
    requires log.Valid() && ImageInv(L, ImageOf(hard, log, snaps))
    modifies log, snaps
    ensures log.Valid()
    ensures Failures(hard, log, snaps) == old(Failures(hard, log, snaps)) + (if writeFailed then 1 else 0)
    ensures n.Some? ==>
      && fresh(n.value) && n.value.Valid(L) && n.value.rules == rules
      && n.value.hard == hard && n.value.log == log && n.value.snaps == snaps
    ensures
      var now := if n.Some? then View(n.value) else Down(ImageOf(hard, log, snaps));
      Next(L, rules, Down(old(ImageOf(hard, log, snaps))), Reopen(floor, n.Some?, writeFailed), now)
  {
    hide ImageInv, Extends, Synced, Stuck, Openable, Booted, Settled, Settle, FloorFits, StillWanted;
    var r := Open(L, rules, hard, log, snaps, floor);
    return if r.Ok? then Some(r.value) else None, Failures(hard, log, snaps) > old(Failures(hard, log, snaps));
  }

  lemma OneMore(L: Lineage, rules: Rules, run: Run, e: Event, t: State)
    requires Happens(L, rules, run) && Next(L, rules, run.states[|run.events|], e, t)
    ensures Happens(L, rules, Run(run.states + [t], run.events + [e]))
    ensures FailedCalls(run.events + [e]) == FailedCalls(run.events) + (if HasFailed(e) then 1 else 0)
  {
    hide Next, Good;
    assert (run.events + [e])[..|run.events|] == run.events;
  }

  // ---------------------------------------------------------------------------
  // Theorems over every run

  const FRESH_IMAGE := Image(HardState(0, None, 0, None), Log(0, []), NO_SNAPSHOT, None)

  /** A node that has never written anything is a sound start. */
  lemma FreshStart(L: Lineage)
    ensures Good(L, Down(FRESH_IMAGE))
  {
    forall i: nat ensures Linked(L, Log(0, []), i) {}
  }

  lemma NextKeeps(L: Lineage, rules: Rules, s: State, e: Event, t: State)
    requires Good(L, s) && Next(L, rules, s, e, t)
    ensures Good(L, t) && Extends(L, s.img, t.img)
  {}

  /** At every crash cut of every run the durable image is sound, and everything that was
      durable and committed at any earlier point still is. */
  lemma {:induction false} DurableForever(L: Lineage, rules: Rules, run: Run, i: nat, j: nat)
    requires Happens(L, rules, run) && i <= j < |run.states|
    ensures Good(L, run.states[j])
    ensures Extends(L, run.states[i].img, run.states[j].img)
    decreases j
  {
    hide Next;
    if 0 < j {
      DurableForever(L, rules, run, if i < j then i else j - 1, j - 1);
      NextKeeps(L, rules, run.states[j - 1], run.events[j - 1], run.states[j]);
      if i < j {
        ExtendsTrans(L, run.states[i].img, run.states[j - 1].img, run.states[j].img);
      }
    }
  }

  /** An entry at or below the durable commit index is, at every later point, either still
      there unchanged or below the durable snapshot, whose boundary lies on the same history. */
  lemma CommittedForever(L: Lineage, rules: Rules, run: Run, i: nat, j: nat, n: nat)
    requires Happens(L, rules, run) && i <= j < |run.states|
    requires run.states[i].img.snap.index < n <= run.states[i].img.Committed()
    ensures
      var a, b := run.states[i].img, run.states[j].img;
      && a.log.Has(n) && n <= b.Committed()
      && (b.snap.index < n ==> b.log.Has(n) && b.log.At(n) == a.log.At(n))
      && (n <= b.snap.index ==> Ancestor(L, PointAt(a.log, n), b.CommitPoint()))
  {
    hide Next;
    DurableForever(L, rules, run, i, i);
    DurableForever(L, rules, run, i, j);
    var a, b := run.states[i].img, run.states[j].img;
    CommittedEntry(L, a, n);
    if b.snap.index < n {
      CommittedStays(L, a, b, n);
    } else {
      assert Ancestor(L, PointAt(a.log, n), a.CommitPoint());
      AncestorTrans(L, PointAt(a.log, n), a.CommitPoint(), b.CommitPoint());
    }
  }

  /** Snapshot and retained log never leave a gap, whatever mix of compactions and installs
      was cut wherever. */
  lemma NoGap(L: Lineage, rules: Rules, run: Run, j: nat, n: nat)
    requires Happens(L, rules, run) && j < |run.states|
    ensures run.states[j].img.log.base <= run.states[j].img.snap.index
    ensures run.states[j].img.snap.index < n <= run.states[j].img.Committed() ==> run.states[j].img.log.Has(n)
  {
    hide Next;
    DurableForever(L, rules, run, j, j);
  }

  /** Persist before output: when a step releases its outputs, the durable hard state, the
      snapshot, the staging and the log above the boundary are the kernel's. */
  lemma OutputsAreDurable(L: Lineage, rules: Rules, run: Run, j: nat)
    requires Happens(L, rules, run) && j < |run.events| && run.events[j].Step? && run.events[j].released.Some?
    ensures
      var t := run.states[j + 1];
      && t.Up? && run.states[j].Up? && !run.states[j].poisoned
      && t.node == ApplyAll(run.states[j].node, run.events[j].moves)
      && t.img.hard == HardStateOf(t.node)
      && t.img.snap == t.node.snap && ProgressOf(t.img.pending) == t.node.pending
      && t.img.log.DropThrough(t.node.snap.index) == t.node.log
  {
    assert Next(L, rules, run.states[j], run.events[j], run.states[j + 1]);
  }

  /** After a failed write nothing is written and nothing released until a restart. */
  lemma {:induction false} PoisonSticks(L: Lineage, rules: Rules, run: Run, i: nat, j: nat)
    requires Happens(L, rules, run) && i <= j < |run.states|
    requires run.states[i].Up? && run.states[i].poisoned
    requires forall k :: i <= k < j ==> run.events[k].Step? || run.events[k].Compact?
    ensures run.states[j] == run.states[i]
    ensures forall k :: i <= k < j ==>
      (run.events[k].Step? ==> run.events[k].released.None?) && (run.events[k].Compact? ==> !run.events[k].done)
    decreases j
  {
    if i < j {
      PoisonSticks(L, rules, run, i, j - 1);
      assert Next(L, rules, run.states[j - 1], run.events[j - 1], run.states[j]);
    }
  }

  // ---------------------------------------------------------------------------
  // Votes

  /** The kernel after the first `p` moves of the step at `i`. */
  function Midway(run: Run, i: nat, p: nat): Node
    requires i < |run.events| && i < |run.states| && run.states[i].Up? && run.events[i].Step?
    requires p <= |run.events[i].moves|
  {
    ApplyAll(run.states[i].node, run.events[i].moves[..p])
  }

  /** `b` has not gone back on a vote of `a`. */
  predicate VoteStands(a: Node, b: Node) { a.term <= b.term && (a.term == b.term && a.vote.Some? ==> b.vote == a.vote) }

  lemma LaterInStep(L: Lineage, k: Node, ms: seq<Move>, p: nat, q: nat)
    requires NodeInv(L, k) && Guarded(L, k, ms) && p <= q <= |ms|
    ensures VoteStands(ApplyAll(k, ms[..p]), ApplyAll(k, ms[..q]))
  {
    hide Guarded, NodeInv;
    GuardedPrefix(L, k, ms, q);
    GuardedPrefix(L, k, ms[..q], p);
    assert ms[..q][..p] == ms[..p];
    StepKept(L, k, ms[..p]);
    StepKept(L, ApplyAll(k, ms[..p]), ms[..q][p..]);
  }

  lemma StepIsGuarded(L: Lineage, rules: Rules, run: Run, j: nat)
    requires Happens(L, rules, run) && j < |run.events| && run.events[j].Step? && run.events[j].released.Some?
    ensures
      var s := run.states[j];
      && s.Up? && NodeInv(L, s.node) && Guarded(L, s.node, run.events[j].moves)
      && s.img.hard.term == s.node.term && s.img.hard.vote == s.node.vote
  {
    DurableForever(L, rules, run, j, j);
    OutputsAreDurable(L, rules, run, j);
    assert Next(L, rules, run.states[j], run.events[j], run.states[j + 1]);
  }

  /** No two different votes are ever cast in one term by steps that released their outputs,
      at whatever moves inside the steps and across any crashes between. */
  lemma OneVotePerTerm(L: Lineage, rules: Rules, run: Run, i: nat, j: nat, p: nat, q: nat)
    requires Happens(L, rules, run) && i <= j < |run.events|
    requires run.events[i].Step? && run.events[i].released.Some? && p <= |run.events[i].moves|
    requires run.events[j].Step? && run.events[j].released.Some? && q <= |run.events[j].moves|
    requires i == j ==> p <= q
    ensures run.states[i].Up? && run.states[j].Up? && VoteStands(Midway(run, i, p), Midway(run, j, q))
  {
    hide Next, Guarded, NodeInv, Happens;
    HappensLength(L, rules, run);
    StepIsGuarded(L, rules, run, i);
    StepIsGuarded(L, rules, run, j);
    if i == j {
      LaterInStep(L, run.states[i].node, run.events[i].moves, p, q);
    } else {
      var all := run.events[i].moves;
      LaterInStep(L, run.states[i].node, all, p, |all|);
      assert all[..|all|] == all;
      OutputsAreDurable(L, rules, run, i);
      DurableForever(L, rules, run, i + 1, j);
      LaterInStep(L, run.states[j].node, run.events[j].moves, 0, q);
      assert run.events[j].moves[..0] == [];
    }
  }

  lemma HappensLength(L: Lineage, rules: Rules, run: Run)
    requires Happens(L, rules, run)
    ensures |run.states| == |run.events| + 1
  {}
}
