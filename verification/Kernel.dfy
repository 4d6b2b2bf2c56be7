/** The consensus kernel as the runtime sees it: its state, and the guarded moves that every
    input is made of.  Elections and quorums stay outside; what they guarantee appears as
    guards on moves. */
module Kernel {
  import opened Prelude
  import opened Raft

  type Bytes = seq<bv8>

  /** What a snapshot says was committed at its boundary: the membership, and the identity of
      the configuration entry it comes from, if any entry had been committed. */
  datatype Declaration = Declaration(membership: int, state: Option<Config>)

  /** A snapshot descriptor: the boundary, its author and the greatest term the author had
      seen, what it declares, the rest of its metadata as one opaque value, and the length and
      checksum of its payload. */
  datatype Snapshot = Snapshot(
    index: nat, term: nat, writer: nat, hardStateTerm: nat, declared: Option<Declaration>, meta: int, len: nat,
    crc: bv32)
  {
    function Boundary(): Point { Point(index, term) }

    /** The committed configuration that the snapshot has captured. */
    function Captured(): Option<Config> { if declared.Some? then declared.value.state else None }
  }

  /** A node that has no snapshot has this one. */
  const NO_SNAPSHOT: Snapshot := Snapshot(0, 0, 0, 0, None, 0, 0, 0)

  /** A transfer as the kernel tracks it: how much has arrived, not what. */
  datatype Transfer = Transfer(leader: nat, snapshot: Snapshot, received: nat)

  /** One piece of a snapshot payload. */
  datatype Chunk = Chunk(leader: nat, snapshot: Snapshot, offset: nat, bytes: Bytes, done: bool) {
    function End(): nat { offset + |bytes| }

    /** Ranges inside the payload; empty only at its end; final exactly at its end. */
    predicate WellFormed() {
      && End() <= snapshot.len
      && (bytes == [] ==> End() == snapshot.len)
      && (done <==> End() == snapshot.len)
    }

    predicate Continues(pending: Option<Transfer>) {
      pending.Some? && pending.value == Transfer(leader, snapshot, offset)
    }

    function After(): Transfer { Transfer(leader, snapshot, End()) }
  }

  datatype Node = Node(
    term: nat,
    vote: Option<nat>,
    commit: nat,
    applied: nat,
    config: Option<Config>,
    snap: Snapshot,
    log: Log,
    pending: Option<Transfer>)
  {
    function TermAt(i: nat): Option<nat> {
      if i == snap.index then Some(snap.term)
      else if log.Has(i) then Some(log.At(i).term)
      else None
    }

    function CommitPoint(): Point
      requires TermAt(commit).Some?
    {
      Point(commit, TermAt(commit).value)
    }
  }

  ghost predicate TermsWithin(log: Log, term: nat) {
    forall i :: log.Has(i) ==> 1 <= log.At(i).term <= term
  }

  ghost predicate NodeInv(L: Lineage, k: Node) {
    && k.log.base == k.snap.index <= k.applied <= k.commit <= k.log.Last()
    && Chained(L, k.log) && Grounded(L, k.log, k.snap.term)
    && TermsWithin(k.log, k.term)
    && (k.vote.Some? ==> k.term > 0)
    && (k.snap.index == 0 ==> k.snap.term == 0)
    && (k.pending.Some? ==>
          && k.pending.value.received < k.pending.value.snapshot.len
          && k.pending.value.snapshot.hardStateTerm <= k.term)
  }

  /** Every held point is on the history of every later one. */
  lemma NodeLine(L: Lineage, k: Node, j: nat, i: nat)
    requires NodeInv(L, k) && k.snap.index <= j <= i <= k.log.Last()
    ensures k.TermAt(i).Some? && k.TermAt(j).Some?
    ensures Ancestor(L, Point(j, k.TermAt(j).value), Point(i, k.TermAt(i).value))
  {
    if j < i && j == k.snap.index {
      GroundBack(L, k.log, k.snap.term, i);
    } else if j < i {
      ChainBack(L, k.log, j, i);
    }
  }

  // ---------------------------------------------------------------------------
  // Moves

  /** What a step asks of its host.  `Released` stands for every other output that needs
      nothing but the persistence of the step itself. */
  datatype Output =
    | StageSnapshotChunk(chunk: Chunk)
    | ApplySnapshot(snapshot: Snapshot)
    | ConfigurationCommitted(config: Config)
    | ApplyEntry(index: nat, payload: int)
    | Released(message: int)

  datatype Move =
    | SetTerm(term: nat, vote: Option<nat>)
    | Splice(from: nat, entries: seq<Entry>)
    | Commit(to: nat)
    | Deliver(index: nat, kind: Kind)
    | Stage(chunk: Chunk)
    | Install(chunk: Chunk)
    | Abandon
    | Emit(output: Output)

  /** The log after a snapshot install: the suffix stays if the log holds the boundary. */
  function Retained(k: Node, s: Snapshot): Log {
    if k.TermAt(s.index) == Some(s.term) then k.log.DropThrough(s.index) else Log(s.index, [])
  }

  function Apply(k: Node, m: Move): Node {
    match m
    case SetTerm(t, v) => k.(term := t, vote := v)
    case Splice(from, entries) =>
      k.(log := if k.log.base < from <= k.log.Next() then k.log.TruncateFrom(from).Append(entries) else k.log)
    case Commit(to) => k.(commit := to)
    case Deliver(i, _) => k.(applied := i)
    case Stage(chunk) => k.(pending := Some(chunk.After()))
    case Install(chunk) =>
      var s := chunk.snapshot;
      k.(commit := s.index, applied := s.index, config := s.Captured(), snap := s, log := Retained(k, s),
         pending := None)
    case Abandon => k.(pending := None)
    case Emit(_) => k
  }

  /** When the kernel makes a move.  The last conjuncts of `Splice` and `Install` are Log
      Matching and State Machine Safety: what a leader sends belongs to the one lineage, and a
      snapshot it sends continues everything this node knows to be committed. */
  ghost predicate Guard(L: Lineage, k: Node, m: Move) {
    match m
    case SetTerm(t, v) => k.term <= t && (t == k.term && k.vote.Some? ==> v == k.vote) && (v.Some? ==> t > 0)
    case Splice(from, entries) =>
      && k.commit < from <= k.log.Next()
      && Chained(L, Apply(k, m).log) && Grounded(L, Apply(k, m).log, k.snap.term)
      && TermsWithin(Apply(k, m).log, k.term)
    case Commit(to) => k.commit <= to <= k.log.Last()
    case Deliver(i, kind) => i == k.applied + 1 && i <= k.commit && k.log.Has(i) && k.log.At(i).kind == kind
    case Stage(chunk) => Receivable(k, chunk) && !chunk.done
    case Install(chunk) =>
      Receivable(k, chunk) && chunk.done && Ancestor(L, k.CommitPoint(), chunk.snapshot.Boundary())
    case Abandon => true
    case Emit(output) => output.Released?
  }

  /** A chunk the kernel accepts: past everything covered, and next in its transfer. */
  predicate Receivable(k: Node, chunk: Chunk) {
    && k.TermAt(k.commit).Some?
    && k.commit < chunk.snapshot.index
    && chunk.snapshot.hardStateTerm <= k.term
    && chunk.WellFormed()
    && (chunk.offset == 0 || chunk.Continues(k.pending))
  }

  lemma MoveKeepsInv(L: Lineage, k: Node, m: Move)
    requires NodeInv(L, k) && Guard(L, k, m)
    ensures NodeInv(L, Apply(k, m))
  {
    if m.Install? {
      ChainedDrop(L, k.log, m.chunk.snapshot.index);
    }
  }

  /** A move never leaves the committed history. */
  lemma MoveKeepsCommitted(L: Lineage, k: Node, m: Move)
    requires NodeInv(L, k) && Guard(L, k, m)
    ensures NodeInv(L, Apply(k, m))
    ensures Apply(k, m).TermAt(Apply(k, m).commit).Some?
    ensures k.TermAt(k.commit).Some? && Ancestor(L, k.CommitPoint(), Apply(k, m).CommitPoint())
  {
    MoveKeepsInv(L, k, m);
    if m.Commit? {
      NodeLine(L, k, k.commit, m.to);
    }
  }

  // ---------------------------------------------------------------------------
  // Steps: any number of moves

  ghost predicate Guarded(L: Lineage, k: Node, ms: seq<Move>)
    decreases |ms|
  {
    ms == [] || (Guard(L, k, ms[0]) && Guarded(L, Apply(k, ms[0]), ms[1..]))
  }

  function ApplyAll(k: Node, ms: seq<Move>): Node
    decreases |ms|
  {
    if ms == [] then k else ApplyAll(Apply(k, ms[0]), ms[1..])
  }

  ghost predicate StepKeeps(L: Lineage, k: Node, after: Node) {
    && k.term <= after.term
    && (k.term == after.term && k.vote.Some? ==> after.vote == k.vote)
    && k.snap.index <= after.snap.index
    && (after.snap.index == k.snap.index ==> after.snap == k.snap)
    && (after.snap.index == k.snap.index || k.commit < after.snap.index)
    && k.TermAt(k.commit).Some? && after.TermAt(after.commit).Some?
    && Ancestor(L, k.CommitPoint(), after.CommitPoint())
    && (forall i: nat :: k.log.Has(i) && i <= k.commit && after.snap.index == k.snap.index ==>
          after.log.Has(i) && after.log.At(i) == k.log.At(i))
  }

  lemma MoveStepKeeps(L: Lineage, k: Node, m: Move)
    requires NodeInv(L, k) && Guard(L, k, m)
    ensures NodeInv(L, Apply(k, m)) && StepKeeps(L, k, Apply(k, m))
  {
    MoveKeepsCommitted(L, k, m);
  }

  lemma StepKeepsTrans(L: Lineage, a: Node, b: Node, c: Node)
    requires NodeInv(L, b) && StepKeeps(L, a, b) && StepKeeps(L, b, c)
    ensures StepKeeps(L, a, c)
  {
    AncestorTrans(L, a.CommitPoint(), b.CommitPoint(), c.CommitPoint());
  }

  lemma KeptPoint(L: Lineage, k: Node, j: Node)
    requires StepKeeps(L, k, j)
    ensures k.TermAt(k.commit).Some? && j.TermAt(j.commit).Some? && Ancestor(L, k.CommitPoint(), j.CommitPoint())
  {}

  /** Whatever a step does, terms and votes only move forward, and what was committed before
      it is committed after it. */
  lemma {:induction false} StepKept(L: Lineage, k: Node, ms: seq<Move>)
    requires NodeInv(L, k) && Guarded(L, k, ms)
    ensures NodeInv(L, ApplyAll(k, ms)) && StepKeeps(L, k, ApplyAll(k, ms))
    decreases |ms|
  {
    if ms != [] {
      var next := Apply(k, ms[0]);
      MoveStepKeeps(L, k, ms[0]);
      StepKept(L, next, ms[1..]);
      StepKeepsTrans(L, k, next, ApplyAll(k, ms));
    }
  }

  /** A step can be looked at after any of its moves. */
  lemma {:induction false} GuardedPrefix(L: Lineage, k: Node, ms: seq<Move>, p: nat)
    requires Guarded(L, k, ms) && p <= |ms|
    ensures Guarded(L, k, ms[..p]) && Guarded(L, ApplyAll(k, ms[..p]), ms[p..])
    ensures ApplyAll(ApplyAll(k, ms[..p]), ms[p..]) == ApplyAll(k, ms)
    decreases p
  {
    hide Guard, Apply;
    if p == 0 {
      assert ms[..0] == [] && ms[0..] == ms;
    } else {
      GuardedPrefix(L, Apply(k, ms[0]), ms[1..], p - 1);
      assert ms[..p][1..] == ms[1..][..p - 1] && ms[1..][p - 1..] == ms[p..];
    }
  }

  lemma GuardedNothing(L: Lineage, k: Node)
    ensures Guarded(L, k, []) && ApplyAll(k, []) == k
  {}

  lemma OneMove(L: Lineage, k: Node, m: Move)
    ensures ApplyAll(k, [m]) == Apply(k, m)
    ensures Guard(L, k, m) ==> Guarded(L, k, [m])
  {
    hide Apply, Guard;
    assert [m][1..] == [];
    assert Guarded(L, Apply(k, m), []);
    assert ApplyAll(Apply(k, m), []) == Apply(k, m);
  }

  lemma {:induction false} ApplyConcat(k: Node, a: seq<Move>, b: seq<Move>)
    ensures ApplyAll(k, a + b) == ApplyAll(ApplyAll(k, a), b)
    decreases |a|
  {
    hide Apply;
    if a == [] {
      assert a + b == b;
    } else {
      assert (a + b)[1..] == a[1..] + b;
      ApplyConcat(Apply(k, a[0]), a[1..], b);
    }
  }

  lemma {:induction false} GuardedConcat(L: Lineage, k: Node, a: seq<Move>, b: seq<Move>)
    requires Guarded(L, k, a) && Guarded(L, ApplyAll(k, a), b)
    ensures Guarded(L, k, a + b) && ApplyAll(k, a + b) == ApplyAll(ApplyAll(k, a), b)
    decreases |a|
  {
    hide Apply, Guard;
    if a == [] {
      assert a + b == b;
    } else {
      assert (a + b)[1..] == a[1..] + b;
      GuardedConcat(L, Apply(k, a[0]), a[1..], b);
    }
  }
}
