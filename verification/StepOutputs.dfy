/** The snapshot work that a step's outputs ask for, in output order, and why staging, order
    and history never stand in its way. */
module StepOutputs {
  import opened Prelude
  import opened Raft
  import opened Kernel
  import opened Durable

  /** What the host is told of the entry committed at `i`. */
  function Announce(i: nat, kind: Kind): seq<Output> {
    match kind
    case Application(payload) => [ApplyEntry(i, payload)]
    case Configuration(id) => [ConfigurationCommitted(Config(i, id))]
    case Noop => []
  }

  function OutputsOf(m: Move): seq<Output> {
    match m
    case Deliver(i, kind) => Announce(i, kind)
    case Stage(chunk) => [StageSnapshotChunk(chunk)]
    case Install(chunk) => [StageSnapshotChunk(chunk), ApplySnapshot(chunk.snapshot)]
    case Emit(output) => [output]
    case _ => []
  }

  function OutputsFrom(ms: seq<Move>): seq<Output> {
    if ms == [] then [] else OutputsOf(ms[0]) + OutputsFrom(ms[1..])
  }

  lemma {:induction false} OutputsConcat(a: seq<Move>, b: seq<Move>)
    ensures OutputsFrom(a + b) == OutputsFrom(a) + OutputsFrom(b)
    decreases |a|
  {
    if a == [] {
      assert a + b == b;
    } else {
      assert (a + b)[1..] == a[1..] + b;
      OutputsConcat(a[1..], b);
    }
  }

  lemma NoMoveOutputs()
    ensures OutputsFrom([]) == []
  {}

  lemma OneMoveOutputs(m: Move)
    ensures OutputsFrom([m]) == OutputsOf(m)
  {
    hide OutputsOf;
    assert [m][1..] == [];
    assert OutputsFrom([]) == [];
  }

  /** Staging after the outputs, from staging `p` before them. */
  function PendingAfter(p: Option<Staged>, outs: seq<Output>): Option<Staged>
    decreases |outs|
  {
    if outs == [] then p
    else match outs[0]
         case StageSnapshotChunk(c) => PendingAfter(Some(Assembled(p, c)), outs[1..])
         case ApplySnapshot(_) => PendingAfter(None, outs[1..])
         case _ => PendingAfter(p, outs[1..])
  }

  function SnapAfter(s: Snapshot, outs: seq<Output>): Snapshot
    decreases |outs|
  {
    if outs == [] then s
    else SnapAfter(if outs[0].ApplySnapshot? then outs[0].snapshot else s, outs[1..])
  }

  /** Each chunk continues the staging before it; each complete one extends the committed
      history `cp`, and is applied at once or not at all. */
  ghost predicate Installable(L: Lineage, term: nat, cp: Point, p: Option<Staged>, outs: seq<Output>)
    decreases |outs|
  {
    outs == [] ||
    match outs[0]
    case StageSnapshotChunk(c) =>
      && Fits(p, c) && c.snapshot.hardStateTerm <= term
      && (c.done ==> cp.index < c.snapshot.index && Ancestor(L, cp, c.snapshot.Boundary()))
      && Installable(L, term, cp, Some(Assembled(p, c)), outs[1..])
    case ApplySnapshot(s) =>
      && Ready(p, s) && cp.index < s.index && Ancestor(L, cp, s.Boundary())
      && Installable(L, term, s.Boundary(), None, outs[1..])
    case _ => Installable(L, term, cp, p, outs[1..])
  }

  /** Every snapshot that the outputs apply has been staged with the checksum it declares. */
  predicate PayloadsMatch(p: Option<Staged>, outs: seq<Output>)
    decreases |outs|
  {
    outs == [] ||
    match outs[0]
    case StageSnapshotChunk(c) => PayloadsMatch(Some(Assembled(p, c)), outs[1..])
    case ApplySnapshot(_) => p.Some? && Genuine(p.value) && PayloadsMatch(None, outs[1..])
    case _ => PayloadsMatch(p, outs[1..])
  }

  /** Staging after one output. */
  function PendingAfterOne(p: Option<Staged>, o: Output): Option<Staged> {
    match o
    case StageSnapshotChunk(c) => Some(Assembled(p, c))
    case ApplySnapshot(_) => None
    case _ => p
  }

  /** Staging that a cut of the work on `outs` can leave: some output's, or none. */
  ghost predicate PendingCut(p: Option<Staged>, outs: seq<Output>, q: Option<Staged>)
    decreases |outs|
  {
    q == p || q == None || (outs != [] && PendingCut(PendingAfterOne(p, outs[0]), outs[1..], q))
  }

  /** The committed history and the staging after one move's outputs. */
  function HistoryAfter(cp: Point, m: Move): Point {
    if m.Install? then m.chunk.snapshot.Boundary() else cp
  }

  function StagedAfter(p: Option<Staged>, m: Move): Option<Staged> {
    match m
    case Stage(chunk) => Some(Assembled(p, chunk))
    case Install(_) => None
    case _ => p
  }

  lemma InstallOutputs(L: Lineage, k: Node, chunk: Chunk, cp: Point, p: Option<Staged>, term: nat, rest: seq<Output>)
    requires Receivable(k, chunk) && chunk.done && k.term <= term
    requires Ancestor(L, cp, k.CommitPoint()) && Ancestor(L, k.CommitPoint(), chunk.snapshot.Boundary())
    requires k.pending == None || k.pending == ProgressOf(p)
    requires Installable(L, term, chunk.snapshot.Boundary(), None, rest)
    ensures Installable(L, term, cp, p, [StageSnapshotChunk(chunk), ApplySnapshot(chunk.snapshot)] + rest)
  {
    AncestorTrans(L, cp, k.CommitPoint(), chunk.snapshot.Boundary());
    var outs := [StageSnapshotChunk(chunk), ApplySnapshot(chunk.snapshot)] + rest;
    assert outs[1..] == [ApplySnapshot(chunk.snapshot)] + rest;
    assert ([ApplySnapshot(chunk.snapshot)] + rest)[1..] == rest;
    assert Ready(Some(Assembled(p, chunk)), chunk.snapshot);
  }

  lemma MoveInstallable(L: Lineage, k: Node, m: Move, cp: Point, p: Option<Staged>, term: nat, rest: seq<Output>)
    requires NodeInv(L, k) && Guard(L, k, m) && k.term <= term
    requires k.TermAt(k.commit).Some? && Ancestor(L, cp, k.CommitPoint())
    requires k.pending == None || k.pending == ProgressOf(p)
    requires Installable(L, term, HistoryAfter(cp, m), StagedAfter(p, m), rest)
    ensures Installable(L, term, cp, p, OutputsOf(m) + rest)
  {
    match m
    case Install(chunk) => InstallOutputs(L, k, chunk, cp, p, term, rest);
    case Stage(_) => assert (OutputsOf(m) + rest)[1..] == rest;
    case Emit(_) => assert (OutputsOf(m) + rest)[1..] == rest;
    case Deliver(_, kind) =>
      assert if kind.Noop? then OutputsOf(m) + rest == rest else (OutputsOf(m) + rest)[1..] == rest;
    case _ => assert OutputsOf(m) + rest == rest;
  }

  lemma MoveEffects(L: Lineage, k: Node, m: Move, p: Option<Staged>, rest: seq<Output>)
    requires Guard(L, k, m)
    ensures PendingAfter(p, OutputsOf(m) + rest) == PendingAfter(StagedAfter(p, m), rest)
    ensures SnapAfter(k.snap, OutputsOf(m) + rest) == SnapAfter(Apply(k, m).snap, rest)
  {
    var outs := OutputsOf(m) + rest;
    match m
    case Install(chunk) =>
      assert outs[1..] == [ApplySnapshot(chunk.snapshot)] + rest;
      assert outs[1..][1..] == rest;
    case Stage(_) => assert outs[1..] == rest;
    case Emit(_) => assert outs[1..] == rest;
    case Deliver(_, kind) => assert if kind.Noop? then outs == rest else outs[1..] == rest;
    case _ => assert outs == rest;
  }

  /** One output at a time. */
  lemma FirstOutput(p: Option<Staged>, s: Snapshot, outs: seq<Output>, q: Option<Staged>)
    requires outs != []
    ensures PendingAfter(p, outs) == PendingAfter(PendingAfterOne(p, outs[0]), outs[1..])
    ensures SnapAfter(s, outs) == SnapAfter(if outs[0].ApplySnapshot? then outs[0].snapshot else s, outs[1..])
    ensures PayloadsMatch(p, outs) <==>
      && (outs[0].ApplySnapshot? ==> p.Some? && Genuine(p.value))
      && PayloadsMatch(PendingAfterOne(p, outs[0]), outs[1..])
    ensures q == p || q == None || q == PendingAfterOne(p, outs[0]) ==> PendingCut(p, outs, q)
  {}

  lemma UncutPending(p: Option<Staged>, outs: seq<Output>)
    ensures PendingCut(p, outs, p)
  {}

  lemma NoOutputs(p: Option<Staged>, s: Snapshot)
    ensures PendingAfter(p, []) == p && SnapAfter(s, []) == s && PayloadsMatch(p, [])
  {}

  lemma NothingInstallable(L: Lineage, k: Node, cp: Point, p: Option<Staged>)
    ensures Installable(L, k.term, cp, p, []) && PendingAfter(p, []) == p && SnapAfter(k.snap, []) == k.snap
  {}

  /** Staging goes on mirroring the kernel, or the kernel has given the transfer up. */
  lemma MoveMirrors(L: Lineage, k: Node, m: Move, p: Option<Staged>)
    requires Guard(L, k, m) && (k.pending == None || k.pending == ProgressOf(p))
    ensures Apply(k, m).pending == None || Apply(k, m).pending == ProgressOf(StagedAfter(p, m))
  {}

  /** Whatever moves a step makes, its outputs can be carried out from any staging that
      mirrors the kernel's and any committed history the kernel's continues; afterwards
      snapshot and staging are again the kernel's, or the kernel has given the transfer up. */
  lemma {:induction false} StepInstallable(L: Lineage, k: Node, ms: seq<Move>, cp: Point, p: Option<Staged>)
    requires NodeInv(L, k) && Guarded(L, k, ms)
    requires k.TermAt(k.commit).Some? && Ancestor(L, cp, k.CommitPoint())
    requires k.pending == None || k.pending == ProgressOf(p)
    ensures Installable(L, ApplyAll(k, ms).term, cp, p, OutputsFrom(ms))
    ensures ApplyAll(k, ms).pending == None || ApplyAll(k, ms).pending == ProgressOf(PendingAfter(p, OutputsFrom(ms)))
    ensures SnapAfter(k.snap, OutputsFrom(ms)) == ApplyAll(k, ms).snap
    decreases |ms|
  {
    hide Assembled, ProgressOf, Installable, PendingAfter, SnapAfter;
    if ms == [] {
      NothingInstallable(L, k, cp, p);
    } else {
      var m, next, rest := ms[0], Apply(k, ms[0]), OutputsFrom(ms[1..]);
      MoveMirrors(L, k, m, p);
      MoveStepKeeps(L, k, m);
      StepKept(L, next, ms[1..]);
      AncestorTrans(L, cp, k.CommitPoint(), next.CommitPoint());
      StepInstallable(L, next, ms[1..], HistoryAfter(cp, m), StagedAfter(p, m));
      MoveInstallable(L, k, m, cp, p, ApplyAll(k, ms).term, rest);
      MoveEffects(L, k, m, p, rest);
    }
  }
}
