/** Handing committed entries to the host (crates/rafter/src/node/commit/emit.rs): what a stream
    of outputs tells of the committed history. */
module Delivery {
  import opened Prelude
  import opened Raft
  import opened Kernel
  import opened Durable
  import opened StepOutputs

  /** Hands out the committed entries above the cursor `from`, one by one. */
  function DeliverMoves(log: Log, from: nat, end: nat): seq<Move>
    decreases end - from
  {
    if from >= end || !log.Has(from + 1) then []
    else [Deliver(from + 1, log.At(from + 1).kind)] + DeliverMoves(log, from + 1, end)
  }

  lemma {:induction false} Delivered(L: Lineage, k: Node, end: nat)
    requires k.log.base <= k.applied <= end <= k.commit <= k.log.Last()
    ensures Guarded(L, k, DeliverMoves(k.log, k.applied, end))
    ensures ApplyAll(k, DeliverMoves(k.log, k.applied, end)) == k.(applied := end)
    decreases end - k.applied
  {
    hide Guarded, ApplyAll;
    if k.applied < end {
      var at := k.applied + 1;
      var m, next := Deliver(at, k.log.At(at).kind), k.(applied := at);
      OneMove(L, k, m);
      Delivered(L, next, end);
      GuardedConcat(L, k, [m], DeliverMoves(k.log, at, end));
    } else {
      GuardedNothing(L, k);
    }
  }

  /** Delivery in two goes hands out what one go does: nothing twice, nothing left out, and
      what is appended between them does not matter. */
  lemma {:induction false} DeliveredInGoes(log: Log, more: Log, from: nat, mid: nat, end: nat)
    requires log.base <= from <= mid <= log.Last() && mid <= end <= more.Last() && more.base == log.base
    requires forall i: nat :: log.Has(i) ==> more.Has(i) && more.At(i) == log.At(i)
    ensures DeliverMoves(more, from, end) == DeliverMoves(log, from, mid) + DeliverMoves(more, mid, end)
    decreases mid - from
  {
    if from < mid {
      var at := from + 1;
      assert log.Has(at) && more.Has(at) && more.At(at) == log.At(at);
      DeliveredInGoes(log, more, at, mid, end);
      Regroup([Deliver(at, log.At(at).kind)], DeliverMoves(log, at, mid), DeliverMoves(more, mid, end));
    }
  }

  lemma Regroup(a: seq<Move>, b: seq<Move>, c: seq<Move>)
    ensures a + (b + c) == a + b + c
  {}

  /** Delivery tells the host of one entry after the other. */
  lemma DeliverOutputs(log: Log, from: nat, end: nat)
    requires from < end && log.Has(from + 1)
    ensures
      var at := from + 1;
      OutputsFrom(DeliverMoves(log, from, end)) ==
      (match log.At(at).kind
       case Application(payload) => [ApplyEntry(at, payload)]
       case Configuration(id) => [ConfigurationCommitted(Config(at, id))]
       case Noop => [])
      + OutputsFrom(DeliverMoves(log, at, end))
  {
    hide OutputsFrom;
    var m, rest := Deliver(from + 1, log.At(from + 1).kind), DeliverMoves(log, from + 1, end);
    OneMoveOutputs(m);
    OutputsConcat([m], rest);
  }

  lemma DeliverAnnounces(log: Log, from: nat, end: nat)
    requires from < end && log.Has(from + 1)
    ensures OutputsFrom(DeliverMoves(log, from, end)) ==
      Announce(from + 1, log.At(from + 1).kind) + OutputsFrom(DeliverMoves(log, from + 1, end))
  {
    hide OutputsFrom, DeliverMoves;
    DeliverOutputs(log, from, end);
  }

  lemma Rejoin(a: seq<Output>, b: seq<Output>, c: seq<Output>)
    ensures a + b + c == a + (b + c)
  {}

  /** Moves the cursor over the committed entries that the log holds. */
  method EmitCommittedOutputs(k: Node) returns (j: Node, outputs: seq<Output>)
    ensures j == k.(applied := j.applied)
    ensures outputs == OutputsFrom(DeliverMoves(k.log, k.applied, k.commit))
    ensures k.log.base <= k.applied <= k.commit <= k.log.Last() ==> j.applied == k.commit
  {
    hide OutputsFrom, Announce;
    j, outputs := k, [];
    while j.applied < j.commit && j.log.Has(j.applied + 1)
      invariant j == k.(applied := j.applied) && k.applied <= j.applied <= Max(k.applied, k.commit)
      invariant outputs + OutputsFrom(DeliverMoves(k.log, j.applied, k.commit)) ==
        OutputsFrom(DeliverMoves(k.log, k.applied, k.commit))
      decreases j.commit - j.applied
    {
      var at := j.applied + 1;
      var told := Announce(at, j.log.At(at).kind);
      DeliverAnnounces(j.log, j.applied, j.commit);
      Rejoin(outputs, told, OutputsFrom(DeliverMoves(j.log, at, j.commit)));
      outputs := outputs + told;
      j := j.(applied := at);
    }
    NoMoveOutputs();
  }

  // ---------------------------------------------------------------------------
  // What a stream of outputs tells of the history that ends at `z`

  /** What the history has at `i`. */
  ghost function KindAt(L: Lineage, z: Point, i: nat): Kind
    requires i <= z.index
  {
    L.kind(i, Back(L, z.index, z.term, i))
  }

  /** There is nothing to tell between two indexes. */
  ghost predicate Quiet(L: Lineage, z: Point, from: nat, end: nat) {
    from <= end <= z.index && forall i :: from < i <= end ==> KindAt(L, z, i).Noop?
  }

  /** The outputs tell everything above `from`, through `end`, in order and once: every
      application and configuration entry by itself, or under a snapshot of the history. */
  ghost predicate Tells(L: Lineage, z: Point, from: nat, outs: seq<Output>, end: nat)
    decreases |outs|
  {
    if outs == [] then Quiet(L, z, from, end)
    else
      match outs[0]
      case ApplyEntry(i, payload) =>
        && from < i <= z.index && Quiet(L, z, from, i - 1) && KindAt(L, z, i) == Application(payload)
        && Tells(L, z, i, outs[1..], end)
      case ConfigurationCommitted(c) =>
        && from < c.index <= z.index && Quiet(L, z, from, c.index - 1) && KindAt(L, z, c.index) == Configuration(c.id)
        && Tells(L, z, c.index, outs[1..], end)
      case ApplySnapshot(s) =>
        from < s.index && Ancestor(L, s.Boundary(), z) && Tells(L, z, s.index, outs[1..], end)
      case _ => Tells(L, z, from, outs[1..], end)
  }

  /** The index that an output brings its host to. */
  function Reaches(o: Output): Option<nat> {
    match o
    case ApplyEntry(i, _) => Some(i)
    case ConfigurationCommitted(c) => Some(c.index)
    case ApplySnapshot(s) => Some(s.index)
    case _ => None
  }

  /** Where a host stands that has been told `outs`, from `from` on. */
  function Reached(from: nat, outs: seq<Output>): nat
    decreases |outs|
  {
    if outs == [] then from
    else Reached(if Reaches(outs[0]).Some? then Reaches(outs[0]).value else from, outs[1..])
  }

  lemma LongerKind(L: Lineage, z: Point, y: Point, i: nat)
    requires Ancestor(L, z, y) && i <= z.index
    ensures KindAt(L, y, i) == KindAt(L, z, i)
  {
    BackTwice(L, y.index, y.term, z.index, i);
  }

  lemma LongerQuiet(L: Lineage, z: Point, y: Point, from: nat, end: nat)
    requires Ancestor(L, z, y) && Quiet(L, z, from, end)
    ensures Quiet(L, y, from, end)
  {
    forall i | from < i <= end ensures KindAt(L, y, i).Noop? {
      LongerKind(L, z, y, i);
    }
  }

  /** What was told of a history is true of every longer one. */
  lemma {:induction false} LongerTells(L: Lineage, z: Point, y: Point, from: nat, outs: seq<Output>, end: nat)
    requires Ancestor(L, z, y) && Tells(L, z, from, outs, end)
    ensures Tells(L, y, from, outs, end)
    decreases |outs|
  {
    hide Quiet, KindAt;
    if outs == [] {
      LongerQuiet(L, z, y, from, end);
    } else {
      var next := if Reaches(outs[0]).Some? then Reaches(outs[0]).value else from;
      LongerTells(L, z, y, next, outs[1..], end);
      match outs[0]
      case ApplyEntry(i, _) => LongerQuiet(L, z, y, from, i - 1); LongerKind(L, z, y, i);
      case ConfigurationCommitted(c) => LongerQuiet(L, z, y, from, c.index - 1); LongerKind(L, z, y, c.index);
      case ApplySnapshot(s) => AncestorTrans(L, s.Boundary(), z, y);
      case _ =>
    }
  }

  lemma {:induction false} QuietThenTells(L: Lineage, z: Point, from: nat, mid: nat, outs: seq<Output>, end: nat)
    requires Quiet(L, z, from, mid) && Tells(L, z, mid, outs, end)
    ensures Tells(L, z, from, outs, end)
    decreases |outs|
  {
    hide KindAt;
    if outs != [] && Reaches(outs[0]).None? {
      QuietThenTells(L, z, from, mid, outs[1..], end);
    }
  }

  /** One stream after the other. */
  lemma {:induction false} TellsOn(
    L: Lineage, z: Point, from: nat, a: seq<Output>, mid: nat, b: seq<Output>, end: nat)
    requires Tells(L, z, from, a, mid) && Tells(L, z, mid, b, end)
    ensures Tells(L, z, from, a + b, end)
    decreases |a|
  {
    hide Quiet, KindAt;
    if a == [] {
      assert a + b == b;
      QuietThenTells(L, z, from, mid, b, end);
    } else {
      assert (a + b)[1..] == a[1..] + b;
      TellsOn(L, z, if Reaches(a[0]).Some? then Reaches(a[0]).value else from, a[1..], mid, b, end);
    }
  }

  /** After the last thing told there is nothing more to tell. */
  lemma {:induction false} QuietAfter(L: Lineage, z: Point, from: nat, outs: seq<Output>, end: nat)
    requires Tells(L, z, from, outs, end)
    ensures from <= Reached(from, outs) && Quiet(L, z, Reached(from, outs), end)
    ensures Tells(L, z, from, outs, Reached(from, outs))
    decreases |outs|
  {
    hide KindAt;
    if outs != [] {
      QuietAfter(L, z, if Reaches(outs[0]).Some? then Reaches(outs[0]).value else from, outs[1..], end);
    }
  }

  // ---------------------------------------------------------------------------
  // What that means index by index

  /** The host has been told of the entry at `n`: by itself, by a snapshot that covers it, or
      there is nothing to tell. */
  ghost predicate ToldOf(L: Lineage, z: Point, outs: seq<Output>, n: nat)
    requires n <= z.index
  {
    || (exists s :: ApplySnapshot(s) in outs && n <= s.index)
    || match KindAt(L, z, n)
       case Application(payload) => ApplyEntry(n, payload) in outs
       case Configuration(id) => ConfigurationCommitted(Config(n, id)) in outs
       case Noop => true
  }

  /** Nothing between the ends is left out. */
  lemma {:induction false} NothingLeftOut(L: Lineage, z: Point, from: nat, outs: seq<Output>, end: nat, n: nat)
    requires Tells(L, z, from, outs, end) && from < n <= end
    ensures n <= z.index && ToldOf(L, z, outs, n)
    decreases |outs|
  {
    hide KindAt;
    if outs == [] {
      assert KindAt(L, z, n).Noop?;
    } else {
      QuietAfter(L, z, from, outs, end);
      var o, rest := outs[0], outs[1..];
      var next := if Reaches(o).Some? then Reaches(o).value else from;
      assert o in outs && forall x :: x in rest ==> x in outs;
      if next < n {
        NothingLeftOut(L, z, next, rest, end, n);
      } else if o.ApplySnapshot? {
        assert ApplySnapshot(o.snapshot) in outs;
      } else {
        assert n < next ==> KindAt(L, z, n).Noop?;
      }
    }
  }

  /** Nothing is told twice or out of order, and all of it is above `from` and on the
      history. */
  lemma {:induction false} ToldInOrder(L: Lineage, z: Point, from: nat, outs: seq<Output>, end: nat, p: nat, q: nat)
    requires Tells(L, z, from, outs, end) && p < q < |outs| && Reaches(outs[p]).Some? && Reaches(outs[q]).Some?
    ensures from < Reaches(outs[p]).value < Reaches(outs[q]).value
    decreases |outs|
  {
    hide KindAt, Quiet;
    var next := if Reaches(outs[0]).Some? then Reaches(outs[0]).value else from;
    if p > 0 {
      ToldInOrder(L, z, next, outs[1..], end, p - 1, q - 1);
    } else {
      ToldAbove(L, z, next, outs[1..], end, q - 1);
    }
  }

  lemma {:induction false} ToldAbove(L: Lineage, z: Point, from: nat, outs: seq<Output>, end: nat, q: nat)
    requires Tells(L, z, from, outs, end) && q < |outs| && Reaches(outs[q]).Some?
    ensures from < Reaches(outs[q]).value <= z.index
    ensures outs[q].ApplyEntry? ==> KindAt(L, z, outs[q].index) == Application(outs[q].payload)
    ensures outs[q].ConfigurationCommitted? ==> KindAt(L, z, outs[q].config.index) == Configuration(outs[q].config.id)
    decreases |outs|
  {
    hide KindAt, Quiet;
    if q > 0 {
      ToldAbove(L, z, if Reaches(outs[0]).Some? then Reaches(outs[0]).value else from, outs[1..], end, q - 1);
    }
  }

  // ---------------------------------------------------------------------------
  // Steps of the kernel

  lemma QuietOutput(L: Lineage, z: Point, at: nat, o: Output)
    requires at <= z.index && Reaches(o).None?
    ensures Tells(L, z, at, [o], at)
  {
    assert [o][1..] == [];
    assert Tells(L, z, at, [], at);
  }

  lemma DeliverTells(L: Lineage, k: Node, i: nat, kind: Kind)
    requires NodeInv(L, k) && Guard(L, k, Deliver(i, kind)) && k.TermAt(k.commit).Some?
    ensures Tells(L, k.CommitPoint(), k.applied, Announce(i, kind), i)
  {
    hide Chained, Grounded, TermsWithin;
    var z := k.CommitPoint();
    NodeLine(L, k, i, k.commit);
    HeldKind(L, k, i);
    assert KindAt(L, z, i) == kind;
    assert Quiet(L, z, k.applied, i - 1) && Quiet(L, z, i, i);
    if !kind.Noop? {
      assert Announce(i, kind)[1..] == [];
      assert Tells(L, z, i, [], i);
    }
  }

  lemma HeldKind(L: Lineage, k: Node, i: nat)
    requires NodeInv(L, k) && k.log.Has(i)
    ensures k.log.At(i).kind == L.kind(i, k.log.At(i).term)
  {
    assert Linked(L, k.log, i);
  }

  lemma InstallTells(L: Lineage, z: Point, from: nat, chunk: Chunk)
    requires z == chunk.snapshot.Boundary() && from < z.index
    ensures Tells(L, z, from, OutputsOf(Install(chunk)), z.index)
  {
    var outs := OutputsOf(Install(chunk));
    assert outs[1..] == [ApplySnapshot(chunk.snapshot)] && outs[1..][1..] == [];
    assert Tells(L, z, z.index, [], z.index);
    assert Tells(L, z, from, outs[1..], z.index);
  }

  lemma MoveTells(L: Lineage, k: Node, m: Move)
    requires NodeInv(L, k) && Guard(L, k, m)
    ensures
      var j := Apply(k, m);
      j.TermAt(j.commit).Some? && Tells(L, j.CommitPoint(), k.applied, OutputsOf(m), j.applied)
  {
    hide Tells, Chained, Grounded, TermsWithin, Ancestor;
    var j := Apply(k, m);
    MoveKeepsCommitted(L, k, m);
    match m
    case Deliver(i, kind) => DeliverTells(L, k, i, kind);
    case Install(chunk) => InstallTells(L, j.CommitPoint(), k.applied, chunk);
    case Stage(chunk) => QuietOutput(L, j.CommitPoint(), j.applied, StageSnapshotChunk(chunk));
    case Emit(output) => QuietOutput(L, j.CommitPoint(), j.applied, output);
    case _ => NoOutput(L, j.CommitPoint(), j.applied);
  }

  lemma NoOutput(L: Lineage, z: Point, at: nat)
    requires at <= z.index
    ensures Tells(L, z, at, [], at)
  {}

  /** Whatever moves a step makes, its outputs tell exactly what was committed between the
      cursor before it and the cursor after it. */
  lemma {:induction false} StepTells(L: Lineage, k: Node, ms: seq<Move>)
    requires NodeInv(L, k) && Guarded(L, k, ms)
    ensures
      var j := ApplyAll(k, ms);
      j.TermAt(j.commit).Some? && Tells(L, j.CommitPoint(), k.applied, OutputsFrom(ms), j.applied)
    decreases |ms|
  {
    hide NodeInv, Guard, Apply, Tells, OutputsOf, StepKeeps;
    if ms == [] {
      NothingToTell(L, k);
    } else {
      var m, next, j := ms[0], Apply(k, ms[0]), ApplyAll(k, ms);
      MoveTells(L, k, m);
      MoveStepKeeps(L, k, m);
      StepTells(L, next, ms[1..]);
      StepKept(L, next, ms[1..]);
      KeptPoint(L, next, j);
      LongerTells(L, next.CommitPoint(), j.CommitPoint(), k.applied, OutputsOf(m), next.applied);
      TellsOn(L, j.CommitPoint(), k.applied, OutputsOf(m), next.applied, OutputsFrom(ms[1..]), j.applied);
    }
  }

  lemma NothingToTell(L: Lineage, k: Node)
    requires NodeInv(L, k)
    ensures k.TermAt(k.commit).Some? && Tells(L, k.CommitPoint(), k.applied, [], k.applied)
  {}

  /** Delivery through the commit index tells all that is committed above the cursor. */
  lemma DeliveryTells(L: Lineage, k: Node)
    requires NodeInv(L, k)
    ensures k.TermAt(k.commit).Some?
    ensures Tells(L, k.CommitPoint(), k.applied, OutputsFrom(DeliverMoves(k.log, k.applied, k.commit)), k.commit)
  {
    hide Tells, Guarded, DeliverMoves;
    Delivered(L, k, k.commit);
    StepTells(L, k, DeliverMoves(k.log, k.applied, k.commit));
  }
}
