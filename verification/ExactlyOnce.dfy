/** What an application hears over a whole life of its node: every committed entry, in order and
    once, across steps, compactions, crashes and restarts. */
module ExactlyOnce {
  import opened Prelude
  import opened Raft
  import opened Kernel
  import opened Durable
  import opened StepOutputs
  import opened LogRepair
  import opened Runtime
  import opened CommittedConfig
  import opened ConfigRecovery
  import opened Delivery
  import opened Reopen
  import opened Runs

  /** What an event tells the application.  A restart over a snapshot that is further on than
      the application makes it restore that snapshot first. */
  function Heard(e: Event, t: State): seq<Output> {
    match e
    case Step(_, released, _) => if released.Some? then released.value else []
    case Drain(outputs) => outputs
    case Reopen(floor, succeeded, _) =>
      if succeeded && floor < t.img.snap.index then [ApplySnapshot(t.img.snap)] else []
    case _ => []
  }

  /** Everything heard from state `i` to state `j`. */
  function HeardBetween(run: Run, i: nat, j: nat): seq<Output>
    requires i <= j <= |run.events| && |run.states| == |run.events| + 1
    decreases j
  {
    if i == j then [] else HeardBetween(run, i, j - 1) + Heard(run.events[j - 1], run.states[j])
  }

  ghost predicate Live(s: State) { s.Up? && !s.poisoned }

  lemma LivePoint(L: Lineage, s: State)
    requires Good(L, s) && Live(s)
    ensures NodeInv(L, s.node) && s.node.TermAt(s.node.commit).Some?
    ensures s.img.CommitPoint() == s.node.CommitPoint() && s.img.snap == s.node.snap
  {
    SyncedPoint(L, s.img, s.node, s.tail);
  }

  // ---------------------------------------------------------------------------
  // Between two restarts

  /** An event of a live node that does not restart it moves the cursor over what it tells. */
  lemma EventTells(L: Lineage, rules: Rules, s: State, e: Event, t: State)
    requires Good(L, s) && Next(L, rules, s, e, t) && !e.Reopen? && Live(t)
    ensures Live(s) && Tells(L, t.img.CommitPoint(), s.node.applied, Heard(e, t), t.node.applied)
  {
    hide NodeInv, ImageInv, Guarded, Tells, PendingCut, PayloadsMatch, IndexesFit, Stuck, Published, Recorded, Kept;
    LivePoint(L, s);
    LivePoint(L, t);
    match e
    case Step(moves, _, _) => StepTells(L, s.node, moves);
    case Drain(_) => DeliveryTells(L, s.node);
    case Compact(_, _, _) => QuietHere(L, t);
    case Crash =>
  }

  lemma QuietHere(L: Lineage, t: State)
    requires Good(L, t) && Live(t)
    ensures Tells(L, t.img.CommitPoint(), t.node.applied, [], t.node.applied)
  {
    SyncedPoint(L, t.img, t.node, t.tail);
  }

  /** As long as a node is neither restarted nor poisoned, what it has told since any earlier
      point is exactly what was committed between the cursor then and the cursor now. */
  lemma {:induction false} ToldSince(L: Lineage, rules: Rules, run: Run, i: nat, j: nat)
    requires Happens(L, rules, run) && i <= j < |run.states| && Live(run.states[j])
    requires forall k :: i <= k < j ==> !run.events[k].Reopen?
    ensures Live(run.states[i])
    ensures
      var t := run.states[j];
      Tells(L, t.img.CommitPoint(), run.states[i].node.applied, HeardBetween(run, i, j), t.node.applied)
    decreases j
  {
    hide Next, Good, Tells, Extends, Heard;
    DurableForever(L, rules, run, j, j);
    if i == j {
      QuietHere(L, run.states[j]);
    } else {
      var s, e, t := run.states[j - 1], run.events[j - 1], run.states[j];
      DurableForever(L, rules, run, j - 1, j);
      DurableForever(L, rules, run, j - 1, j - 1);
      assert Next(L, rules, s, e, t);
      EventTells(L, rules, s, e, t);
      ToldSince(L, rules, run, i, j - 1);
      HistoryGrows(L, s.img, t.img);
      var was := HeardBetween(run, i, j - 1);
      LongerTells(L, s.img.CommitPoint(), t.img.CommitPoint(), run.states[i].node.applied, was, s.node.applied);
      TellsOn(L, t.img.CommitPoint(), run.states[i].node.applied, was, s.node.applied, Heard(e, t), t.node.applied);
    }
  }

  lemma HistoryGrows(L: Lineage, a: Image, b: Image)
    requires Extends(L, a, b)
    ensures Ancestor(L, a.CommitPoint(), b.CommitPoint())
  {}

  /** Since the last restart: a committed index is covered by the snapshot or the floor that the
      restart began with, has been told since, or is among what a drain would tell now. */
  lemma ToldOrToBeTold(L: Lineage, rules: Rules, run: Run, b: nat, j: nat, n: nat)
    requires Happens(L, rules, run) && b < j < |run.states| && Live(run.states[j])
    requires run.events[b].Reopen? && forall k :: b < k < j ==> !run.events[k].Reopen?
    requires n <= run.states[j].img.Committed()
    ensures
      var t := run.states[j];
      var rest := OutputsFrom(DeliverMoves(t.node.log, t.node.applied, t.node.commit));
      && n <= t.img.CommitPoint().index
      && (|| n <= run.states[b + 1].img.snap.index
          || n <= run.events[b].floor
          || ToldOf(L, t.img.CommitPoint(), HeardBetween(run, b + 1, j) + rest, n))
  {
    hide Next, Good, Tells, Extends, Heard, ToldOf, OutputsFrom, DeliverMoves, NodeInv;
    var t := run.states[j];
    var rest := OutputsFrom(DeliverMoves(t.node.log, t.node.applied, t.node.commit));
    DurableForever(L, rules, run, j, j);
    ToldSince(L, rules, run, b + 1, j);
    var was, from := HeardBetween(run, b + 1, j), run.states[b + 1].node.applied;
    LivePoint(L, t);
    DeliveryTells(L, t.node);
    TellsOn(L, t.img.CommitPoint(), from, was, t.node.applied, rest, t.node.commit);
    BootedCursor(L, rules, run, b);
    if from < n {
      NothingLeftOut(L, t.img.CommitPoint(), from, was + rest, t.node.commit, n);
    }
  }

  lemma BootedCursor(L: Lineage, rules: Rules, run: Run, b: nat)
    requires Happens(L, rules, run) && b < |run.events| && run.events[b].Reopen? && run.states[b + 1].Up?
    ensures run.events[b].succeeded && run.events[b].floor <= run.states[b + 1].img.Committed()
    ensures run.states[b + 1].node.applied == Max(run.states[b + 1].img.snap.index, run.events[b].floor)
  {
    hide Good, Kept, Openable, Stuck, Settled, Settle, Recovered;
    assert Next(L, rules, run.states[b], run.events[b], run.states[b + 1]);
  }

  // ---------------------------------------------------------------------------
  // Across restarts

  /** Every restart is told exactly what the application holds, which began with everything
      through `from`, and nothing is drained from a poisoned node. */
  ghost predicate KeepsCount(run: Run, from: nat)
    requires |run.states| == |run.events| + 1
  {
    forall j :: 0 <= j < |run.events| ==>
      && (run.events[j].Reopen? ==> run.events[j].floor == Reached(from, HeardBetween(run, 0, j)))
      && (run.events[j].Drain? ==> Live(run.states[j]))
  }

  /** What an application that stands at `c` still has to hear from state `s`. */
  ghost predicate InStep(L: Lineage, s: State, c: nat) {
    c <= s.img.Committed() && (Live(s) ==> Quiet(L, s.img.CommitPoint(), c, s.node.applied))
  }

  /** One event more. */
  lemma HearsNext(L: Lineage, rules: Rules, s: State, e: Event, t: State, c: nat)
    requires Good(L, s) && Good(L, t) && Next(L, rules, s, e, t) && Extends(L, s.img, t.img) && InStep(L, s, c)
    requires (e.Reopen? ==> e.floor == c) && (e.Drain? ==> Live(s))
    ensures Tells(L, t.img.CommitPoint(), c, Heard(e, t), Reached(c, Heard(e, t)))
    ensures InStep(L, t, Reached(c, Heard(e, t)))
  {
    hide Good, Tells, Quiet, Reached, Heard, Next, Extends;
    var z, outs := t.img.CommitPoint(), Heard(e, t);
    HistoryGrows(L, s.img, t.img);
    if e.Reopen? {
      HearsReopen(L, rules, s, e, t);
    } else if Live(t) {
      EventTells(L, rules, s, e, t);
      LongerQuiet(L, s.img.CommitPoint(), z, c, s.node.applied);
      QuietThenTells(L, z, c, s.node.applied, outs, t.node.applied);
      QuietAfter(L, z, c, outs, t.node.applied);
      TellsWithin(L, z, c, outs, Reached(c, outs));
    } else {
      HearsNothing(L, rules, s, e, t);
      NothingTells(L, z, c);
    }
  }

  lemma TellsWithin(L: Lineage, z: Point, from: nat, outs: seq<Output>, end: nat)
    requires Tells(L, z, from, outs, end)
    ensures end <= z.index
    decreases |outs|
  {
    hide KindAt;
    if outs != [] {
      TellsWithin(L, z, if Reaches(outs[0]).Some? then Reaches(outs[0]).value else from, outs[1..], end);
    }
  }

  lemma NothingTells(L: Lineage, z: Point, c: nat)
    requires c <= z.index
    ensures Tells(L, z, c, [], c) && Reached(c, []) == c
  {}

  /** A call that leaves a node down or poisoned has told nothing. */
  lemma HearsNothing(L: Lineage, rules: Rules, s: State, e: Event, t: State)
    requires Next(L, rules, s, e, t) && !e.Reopen? && !Live(t) && (e.Drain? ==> Live(s))
    ensures Heard(e, t) == []
  {
    hide Good, Kept, Recorded, Guarded, Published, PendingCut, PayloadsMatch, IndexesFit, Stuck;
  }

  lemma HearsReopen(L: Lineage, rules: Rules, s: State, e: Event, t: State)
    requires Good(L, s) && Good(L, t) && Next(L, rules, s, e, t) && e.Reopen? && e.floor <= s.img.Committed()
    requires Ancestor(L, s.img.CommitPoint(), t.img.CommitPoint())
    ensures Tells(L, t.img.CommitPoint(), e.floor, Heard(e, t), Reached(e.floor, Heard(e, t)))
    ensures InStep(L, t, Reached(e.floor, Heard(e, t)))
  {
    hide Kept, Openable, Stuck, Settled, Settle, Recovered, NodeInv;
    var c, outs := e.floor, Heard(e, t);
    if outs != [] {
      BoundaryOnHistory(L, t.img);
      assert outs[1..] == [];
      assert Reached(c, outs) == Reached(t.img.snap.index, []);
      assert Tells(L, t.img.CommitPoint(), t.img.snap.index, [], t.img.snap.index);
    }
  }

  /** The whole life of a node: what its application has heard, from wherever it began, is
      exactly the committed history up to where it stands, in order and once; nothing it has
      heard is ever lost from the disk; and what a live node has passed over without telling
      carries nothing to tell. */
  lemma {:induction false} HeardExactly(L: Lineage, rules: Rules, run: Run, from: nat, j: nat)
    requires Happens(L, rules, run) && j < |run.states| && KeepsCount(run, from)
    requires run.states[0].Down? && from <= run.states[0].img.Committed()
    ensures
      var heard, t := HeardBetween(run, 0, j), run.states[j];
      && Tells(L, t.img.CommitPoint(), from, heard, Reached(from, heard))
      && InStep(L, t, Reached(from, heard))
    decreases j
  {
    hide Next, Good, Tells, InStep, Extends, Heard, Reached;
    DurableForever(L, rules, run, 0, 0);
    if j == 0 {
      FirstInStep(L, run.states[0], from);
    } else {
      var s, e, t := run.states[j - 1], run.events[j - 1], run.states[j];
      HeardExactly(L, rules, run, from, j - 1);
      DurableForever(L, rules, run, j - 1, j);
      DurableForever(L, rules, run, j - 1, j - 1);
      var was, now := HeardBetween(run, 0, j - 1), Heard(e, t);
      var c := Reached(from, was);
      assert Next(L, rules, s, e, t);
      HearsNext(L, rules, s, e, t, c);
      HistoryGrows(L, s.img, t.img);
      LongerTells(L, s.img.CommitPoint(), t.img.CommitPoint(), from, was, c);
      TellsOn(L, t.img.CommitPoint(), from, was, c, now, Reached(c, now));
      ReachedOn(from, was, now);
    }
  }

  /** Entry by entry: what a live node has passed since the application began was heard. */
  lemma EntriesHeard(L: Lineage, rules: Rules, run: Run, from: nat, j: nat, n: nat)
    requires Happens(L, rules, run) && j < |run.states| && KeepsCount(run, from)
    requires run.states[0].Down? && from <= run.states[0].img.Committed()
    requires Live(run.states[j]) && from < n <= run.states[j].node.applied
    ensures
      var z := run.states[j].img.CommitPoint();
      n <= z.index && ToldOf(L, z, HeardBetween(run, 0, j), n)
  {
    hide Next, Good, Extends, KindAt;
    var z, heard := run.states[j].img.CommitPoint(), HeardBetween(run, 0, j);
    HeardExactly(L, rules, run, from, j);
    if n <= Reached(from, heard) {
      NothingLeftOut(L, z, from, heard, Reached(from, heard), n);
    } else {
      assert KindAt(L, z, n).Noop?;
    }
  }

  lemma FirstInStep(L: Lineage, s: State, from: nat)
    requires s.Down? && from <= s.img.Committed()
    ensures Tells(L, s.img.CommitPoint(), from, [], from) && InStep(L, s, from) && Reached(from, []) == from
  {}

  lemma {:induction false} ReachedOn(from: nat, a: seq<Output>, b: seq<Output>)
    ensures Reached(from, a + b) == Reached(Reached(from, a), b)
    decreases |a|
  {
    if a == [] {
      assert a + b == b;
    } else {
      assert (a + b)[1..] == a[1..] + b;
      ReachedOn(if Reaches(a[0]).Some? then Reaches(a[0]).value else from, a[1..], b);
    }
  }

  /** So no restart is ever refused for the floor of an application that keeps count. */
  lemma FloorAlwaysFits(L: Lineage, rules: Rules, run: Run, from: nat, j: nat)
    requires Happens(L, rules, run) && j < |run.events| && KeepsCount(run, from) && run.events[j].Reopen?
    requires run.states[0].Down? && from <= run.states[0].img.Committed()
    ensures FloorFits(run.states[j].img, run.events[j].floor)
  {
    hide Next, Good, Tells, Extends, Quiet;
    HeardExactly(L, rules, run, from, j);
    SettleCommits(run.states[j].img);
  }

  lemma SettleCommits(img: Image)
    ensures img.Committed() <= Settle(img).Committed()
  {}
}
