/** A node served over a whole life: any reactions of the kernel, compactions, crashes and
    restarts, through the runtime's own methods. */
module Serving {
  import opened Prelude
  import opened Raft
  import opened Kernel
  import opened KernelReceive
  import opened Durable
  import opened Stores
  import opened StepOutputs
  import opened Runtime
  import opened DurableNode
  import opened Reopen
  import opened Runs
  import opened CommittedConfig

  // ---------------------------------------------------------------------------
  // The committed history of the cluster, as one point `z`

  /** A node that has committed nothing beyond that history. */
  ghost predicate OnWay(L: Lineage, z: Point, k: Node) {
    NodeInv(L, k) && k.TermAt(k.commit).Some? && Ancestor(L, k.CommitPoint(), z)
  }

  /** The moves are allowed, and commit only what the cluster has. */
  ghost predicate StaysOnWay(L: Lineage, z: Point, k: Node, ms: seq<Move>) {
    Guarded(L, k, ms) && OnWay(L, z, ApplyAll(k, ms))
  }

  lemma SameCommitOnWay(L: Lineage, z: Point, k: Node, j: Node)
    requires OnWay(L, z, k) && NodeInv(L, j) && StepKeeps(L, k, j) && j.commit == k.commit
    ensures OnWay(L, z, j)
  {}

  /** Two reactions in a row make one. */
  lemma StaysInTurn(L: Lineage, z: Point, k: Node, a: seq<Move>, b: seq<Move>)
    requires StaysOnWay(L, z, k, a) && StaysOnWay(L, z, ApplyAll(k, a), b)
    ensures StaysOnWay(L, z, k, a + b)
  {
    GuardedConcat(L, k, a, b);
  }

  /** What the request lets its receiver commit is on the history: the leader's own point at
      the index it confirms. */
  ghost predicate Confirms(L: Lineage, z: Point, req: AppendRequest) {
    var m := Min(req.leaderCommit, req.MatchIndex());
    Ancestor(L, Point(m, Back(L, req.MatchIndex(), req.LastTerm(), m)), z)
  }

  /** After taking a request in, a node holds the leader's point at the request's end. */
  lemma EndHeld(L: Lineage, k: Node, req: AppendRequest)
    requires NodeInv(L, k) && Sendable(L, req) && req.term == k.term && LetsIn(k, req)
    ensures
      var j := k.(log := LogAfter(k, req));
      k.snap.index <= req.MatchIndex() <= j.log.Last() && j.TermAt(req.MatchIndex()) == Some(req.LastTerm())
  {
    hide SpliceMoves, Sendable, Chained;
    LogAfterSound(L, k, req);
    if req.entries == [] {
      AppendsNothing(k, req);
    } else {
      LogAfterHolds(L, k, req, req.MatchIndex());
    }
  }

  lemma AppendsNothing(k: Node, req: AppendRequest)
    requires req.entries == []
    ensures LogAfter(k, req) == k.log
  {}

  lemma AppendCommits(L: Lineage, z: Point, k: Node, req: AppendRequest)
    requires OnWay(L, z, k) && Sendable(L, req) && req.term == k.term && LetsIn(k, req) && Confirms(L, z, req)
    requires NodeInv(L, Taken(k, req)) && StepKeeps(L, k, Taken(k, req))
    ensures OnWay(L, z, Taken(k, req))
  {
    hide SpliceMoves, LogAfter, Sendable, LetsIn, Chained, Grounded;
    var j, m := Taken(k, req), Min(req.leaderCommit, req.MatchIndex());
    if j.commit == k.commit {
      SameCommitOnWay(L, z, k, j);
    } else {
      EndHeld(L, k, req);
      NodeLine(L, j, m, req.MatchIndex());
    }
  }

  /** A follower that is sent a stretch of a leader's log, and told to commit what the cluster
      has committed, stays on the way. */
  lemma AppendStays(L: Lineage, z: Point, k: Node, req: AppendRequest)
    requires OnWay(L, z, k) && Sendable(L, req) && Confirms(L, z, req)
    ensures StaysOnWay(L, z, k, HandleAppend(k, req))
  {
    hide NodeInv, Sendable, Guarded, ApplyAll, SpliceMoves, LogAfter, Confirms, Taken, StepKeeps;
    AppendIsGuarded(L, k, req);
    StepKept(L, k, HandleAppend(k, req));
    if req.term >= k.term && LetsIn(k, req) {
      var adopted := Adopted(k, req.term);
      NodeShaped(L, k);
      AppendResult(L, k, req);
      AdoptResult(L, k, req);
      AdoptGuarded(L, k, req.term);
      AdoptedOnWay(L, z, k, req.term);
      SameSplice(k, adopted, req);
      LetInAdopted(k, req);
      TakenTerm(k, req);
      AdoptedKeeps(L, k, req.term, Taken(k, req));
      AppendCommits(L, z, adopted, req);
    } else {
      RefusedCommit(k, req);
      GuardedNothing(L, k);
      SameCommitOnWay(L, z, k, ApplyAll(k, HandleAppend(k, req)));
    }
  }

  lemma AdoptedOnWay(L: Lineage, z: Point, k: Node, term: nat)
    requires OnWay(L, z, k) && k.term <= term
    ensures OnWay(L, z, Adopted(k, term))
  {}

  lemma LetInAdopted(k: Node, req: AppendRequest)
    requires LetsIn(k, req) && SpliceMoves(k, req) == SpliceMoves(Adopted(k, req.term), req)
    ensures LetsIn(Adopted(k, req.term), req)
  {}

  /** Adopting a term takes nothing away from what a step keeps. */
  lemma AdoptedKeeps(L: Lineage, k: Node, term: nat, j: Node)
    requires NodeInv(L, k) && StepKeeps(L, k, j) && j.term == term >= k.term && j.vote == Adopted(k, term).vote
    ensures StepKeeps(L, Adopted(k, term), j)
  {}

  lemma TakenTerm(k: Node, req: AppendRequest)
    ensures Taken(k, req).term == req.term && Taken(k, req).vote == Adopted(k, req.term).vote
  {}

  lemma RefusedCommit(k: Node, req: AppendRequest)
    requires !(req.term >= k.term && LetsIn(k, req))
    ensures ApplyAll(k, HandleAppend(k, req)).commit == k.commit
  {
    hide SpliceMoves, CommitMoves;
    if req.term > k.term {
      assert AdoptMoves(k, req.term)[1..] == [];
    }
  }

  /** So does one that is sent a chunk of a snapshot of that history. */
  lemma ChunkStays(L: Lineage, z: Point, rules: Rules, k: Node, term: nat, chunk: Chunk)
    requires OnWay(L, z, k) && Ancestor(L, chunk.snapshot.Boundary(), z)
    ensures StaysOnWay(L, z, k, HandleChunk(rules, k, term, chunk))
  {
    hide NodeInv, Guarded, ApplyAll, StepKeeps;
    var moves := HandleChunk(rules, k, term, chunk);
    if k.commit < chunk.snapshot.index {
      AncestorsOrdered(L, k.CommitPoint(), chunk.snapshot.Boundary(), z);
    }
    ChunkIsGuarded(L, rules, k, term, chunk);
    StepKept(L, k, moves);
    ChunkCommits(L, rules, k, term, chunk);
    if ApplyAll(k, moves).commit == k.commit {
      SameCommitOnWay(L, z, k, ApplyAll(k, moves));
    }
  }

  lemma ChunkCommits(L: Lineage, rules: Rules, k: Node, term: nat, chunk: Chunk)
    ensures
      var j := ApplyAll(k, HandleChunk(rules, k, term, chunk));
      j.commit == k.commit || (j.snap == chunk.snapshot && j.commit == chunk.snapshot.index)
  {
    hide ApplyAll, Guarded;
    GuardedNothing(L, k);
    if term >= k.term {
      var adopt, moves := AdoptMoves(k, term), ChunkMoves(rules, Adopted(k, term), chunk);
      ApplyConcat(k, adopt, moves);
      if adopt != [] { OneMove(L, k, adopt[0]); }
      GuardedNothing(L, Adopted(k, term));
      if moves != [] { OneMove(L, Adopted(k, term), moves[0]); }
    }
  }

  /** And one that is sent such a snapshot whole. */
  lemma WholeStays(
    L: Lineage, z: Point, rules: Rules, k: Node, term: nat, leader: nat, metadata: Snapshot, payload: Bytes)
    requires OnWay(L, z, k) && Ancestor(L, metadata.Boundary(), z)
    ensures StaysOnWay(L, z, k, HandleSnapshot(rules, k, term, leader, metadata, payload))
  {
    hide NodeInv, Guarded, ApplyAll, StepKeeps, HandleSnapshot;
    var moves := HandleSnapshot(rules, k, term, leader, metadata, payload);
    if k.commit < metadata.index {
      AncestorsOrdered(L, k.CommitPoint(), metadata.Boundary(), z);
    }
    WholeIsGuarded(L, rules, k, term, leader, metadata, payload);
    StepKept(L, k, moves);
    WholeCommits(L, rules, k, term, leader, metadata, payload);
    if ApplyAll(k, moves).commit == k.commit {
      SameCommitOnWay(L, z, k, ApplyAll(k, moves));
    }
  }

  lemma WholeCommits(L: Lineage, rules: Rules, k: Node, term: nat, leader: nat, metadata: Snapshot, payload: Bytes)
    ensures
      var j := ApplyAll(k, HandleSnapshot(rules, k, term, leader, metadata, payload));
      j.commit == k.commit || (j.snap.Boundary() == metadata.Boundary() && j.commit == metadata.index)
  {
    hide ApplyAll, Guarded;
    GuardedNothing(L, k);
    if term >= k.term {
      var chunk := WholeChunk(leader, metadata, payload);
      var adopt, adopted := AdoptMoves(k, term), Adopted(k, term);
      var moves := WholeMoves(rules, adopted, chunk);
      ApplyConcat(k, adopt, moves);
      if adopt != [] { OneMove(L, k, adopt[0]); }
      GuardedNothing(L, adopted);
      OneMove(L, adopted, Abandon);
      OneMove(L, Apply(adopted, Abandon), Install(chunk));
      ApplyConcat(adopted, [Abandon], [Install(chunk)]);
      assert [Abandon, Install(chunk)] == [Abandon] + [Install(chunk)];
    }
  }

  // ---------------------------------------------------------------------------
  // Disk and history

  /** Nothing on disk is committed, or waits to be installed, beyond the history. */
  ghost predicate DiskOnWay(L: Lineage, z: Point, img: Image) {
    && Ancestor(L, img.CommitPoint(), z)
    && (!Settled(img) ==> Ancestor(L, img.pending.value.snapshot.Boundary(), z))
  }

  /** A snapshot that a step applies is on the committed history it ends with. */
  lemma {:induction false} AppliedOnWay(L: Lineage, k: Node, ms: seq<Move>, s: Snapshot)
    requires NodeInv(L, k) && Guarded(L, k, ms) && ApplySnapshot(s) in OutputsFrom(ms)
    ensures ApplyAll(k, ms).TermAt(ApplyAll(k, ms).commit).Some?
    ensures Ancestor(L, s.Boundary(), ApplyAll(k, ms).CommitPoint())
    decreases |ms|
  {
    hide NodeInv, StepKeeps;
    var next := Apply(k, ms[0]);
    MoveStepKeeps(L, k, ms[0]);
    StepKept(L, next, ms[1..]);
    if ApplySnapshot(s) in OutputsFrom(ms[1..]) {
      AppliedOnWay(L, next, ms[1..], s);
    } else {
      InstalledHere(L, k, ms[0], s);
      KeptPoint(L, next, ApplyAll(k, ms));
    }
  }

  lemma InstalledHere(L: Lineage, k: Node, m: Move, s: Snapshot)
    requires Guard(L, k, m) && ApplySnapshot(s) in OutputsOf(m)
    ensures Apply(k, m).TermAt(Apply(k, m).commit).Some? && Apply(k, m).CommitPoint() == s.Boundary()
  {}

  /** A transfer that a step completes is one that it applies. */
  lemma {:induction false} CompleteIsApplied(L: Lineage, k: Node, ms: seq<Move>, p: Option<Staged>, q: Option<Staged>)
    requires NodeInv(L, k) && Guarded(L, k, ms) && (k.pending == None || k.pending == ProgressOf(p))
    requires PendingCut(p, OutputsFrom(ms), q) && q.Some? && q.value.Complete()
    ensures q == p || ApplySnapshot(q.value.snapshot) in OutputsFrom(ms)
    decreases |ms|
  {
    hide NodeInv, PendingCut, Guard;
    if ms == [] {
      NothingCut(p, q);
    } else {
      var m, next, rest := ms[0], Apply(k, ms[0]), OutputsFrom(ms[1..]);
      MoveStepKeeps(L, k, m);
      MoveMirrors(L, k, m, p);
      FirstCut(L, k, m, p, q, rest);
      if q != p && ApplySnapshot(q.value.snapshot) !in OutputsOf(m) {
        CompleteIsApplied(L, next, ms[1..], StagedAfter(p, m), q);
        StagedIncomplete(L, k, m, p);
      }
    }
  }

  lemma NothingCut(p: Option<Staged>, q: Option<Staged>)
    requires PendingCut(p, [], q)
    ensures q == p || q == None
  {}

  /** What the first move's outputs leave room for. */
  lemma FirstCut(L: Lineage, k: Node, m: Move, p: Option<Staged>, q: Option<Staged>, rest: seq<Output>)
    requires Guard(L, k, m) && PendingCut(p, OutputsOf(m) + rest, q)
    ensures q == p || q == None || PendingCut(StagedAfter(p, m), rest, q)
      || (m.Install? && q == Some(Assembled(p, m.chunk)))
  {
    var outs := OutputsOf(m) + rest;
    match m
    case Install(chunk) =>
      assert outs[1..] == [ApplySnapshot(chunk.snapshot)] + rest;
      assert outs[1..][1..] == rest;
    case Stage(_) => assert outs[1..] == rest;
    case Emit(_) => assert outs[1..] == rest;
    case Deliver(_, kind) => assert if kind.Noop? then outs == rest else outs[1..] == rest;
    case _ => assert outs == rest;
  }

  /** Only the last chunk completes a transfer, and that one is installed at once. */
  lemma StagedIncomplete(L: Lineage, k: Node, m: Move, p: Option<Staged>)
    requires Guard(L, k, m) && (k.pending == None || k.pending == ProgressOf(p))
    ensures StagedAfter(p, m) == p || StagedAfter(p, m) == None || !StagedAfter(p, m).value.Complete()
  {}

  /** The same commit index on a longer history is the same point. */
  lemma SamePoint(L: Lineage, a: Image, b: Image)
    requires Extends(L, a, b) && a.Committed() == b.Committed()
    ensures a.CommitPoint() == b.CommitPoint()
  {}

  /** Wherever a step is cut, the disk has committed nothing that the stepped kernel has not. */
  lemma StepCommitCut(L: Lineage, s: State, moves: seq<Move>, t: State)
    requires Good(L, s) && s.Up? && !s.poisoned && t.Up? && t.node == ApplyAll(s.node, moves)
    requires Guarded(L, s.node, moves) && Extends(L, s.img, t.img) && Published(s.img.hard, t.img, t.node)
    requires t.img.snap == s.img.snap || ApplySnapshot(t.img.snap) in OutputsFrom(moves)
    ensures t.node.TermAt(t.node.commit).Some? && Ancestor(L, t.img.CommitPoint(), t.node.CommitPoint())
  {
    hide ImageInv, Guarded, NodeInv, StepKeeps, Extends;
    SyncedPoint(L, s.img, s.node, s.tail);
    StepKept(L, s.node, moves);
    KeptPoint(L, s.node, t.node);
    ForwardSnapshot(L, s.img, t.img);
    if t.img.CommitPoint() != t.node.CommitPoint() {
      if t.img.snap == s.img.snap || t.img.snap.index <= t.img.hard.commit {
        SamePoint(L, s.img, t.img);
      } else {
        AppliedOnWay(L, s.node, moves, t.img.snap);
      }
    }
  }

  lemma ForwardSnapshot(L: Lineage, a: Image, b: Image)
    requires Extends(L, a, b)
    ensures a.snap.index <= b.snap.index
  {}

  lemma StepOnWay(L: Lineage, z: Point, s: State, moves: seq<Move>, released: Option<seq<Output>>, writeFailed: bool,
    t: State)
    requires Good(L, s) && StepMay(L, s, moves, released, writeFailed, t) && DiskOnWay(L, z, s.img)
    requires !s.poisoned ==> StaysOnWay(L, z, s.node, moves)
    ensures DiskOnWay(L, z, t.img)
  {
    hide Guarded, NodeInv, StepKeeps, PendingCut, ImageInv, PayloadsMatch, IndexesFit, Stuck, Published;
    if !s.poisoned {
      StepCommitCut(L, s, moves, t);
      AncestorTrans(L, t.img.CommitPoint(), t.node.CommitPoint(), z);
      if !Settled(t.img) {
        Untransferred(L, s);
        SyncedMirror(L, s);
        CompleteIsApplied(L, s.node, moves, s.img.pending, t.img.pending);
        AppliedOnWay(L, s.node, moves, t.img.pending.value.snapshot);
        AncestorTrans(L, t.img.pending.value.snapshot.Boundary(), t.node.CommitPoint(), z);
      }
    }
  }

  lemma SyncedMirror(L: Lineage, s: State)
    requires Good(L, s) && s.Up? && !s.poisoned
    ensures NodeInv(L, s.node) && s.node.pending == ProgressOf(s.img.pending)
  {}

  lemma Untransferred(L: Lineage, s: State)
    requires Good(L, s) && s.Up? && !s.poisoned
    ensures s.img.pending.Some? ==> !s.img.pending.value.Complete()
  {}

  lemma CompactOnWay(L: Lineage, z: Point, rules: Rules, s: State, given: Snapshot, done: bool,
    writeFailed: bool, t: State)
    requires Good(L, s) && CompactMay(L, rules, s, given, done, writeFailed, t) && DiskOnWay(L, z, s.img)
    ensures DiskOnWay(L, z, t.img)
  {
    hide NodeInv, ImageInv, Stamped;
    if !s.poisoned {
      Untransferred(L, s);
      SyncedPoint(L, s.img, s.node, s.tail);
      SamePoint(L, s.img, t.img);
    }
  }

  lemma ReopenOnWay(
    L: Lineage, z: Point, rules: Rules, s: State, floor: nat, succeeded: bool, writeFailed: bool, t: State)
    requires Good(L, s) && ReopenMay(L, rules, s, floor, succeeded, writeFailed, t) && DiskOnWay(L, z, s.img)
    ensures DiskOnWay(L, z, t.img)
  {
    hide NodeInv, Openable, Booted, Stuck;
    if t.img.snap == s.img.snap { SamePoint(L, s.img, t.img); }
  }

  // ---------------------------------------------------------------------------
  // Requests

  /** What may be asked of a node: to react to an input, to compact, to hand out what is
      committed, to restart.  A crash may come at any time; one inside a call is a failed
      write before it. */
  datatype Request =
    | React(reaction: Node -> seq<Move>)
    | CompactTo(snapshot: Snapshot)
    | DrainAll
    | Kill
    | Start(floor: nat)

  /** Wherever the node is on the way, the kernel reacts with moves that stay on it. */
  ghost predicate Reacts(L: Lineage, z: Point, request: Request) {
    request.React? ==> forall k: Node :: OnWay(L, z, k) ==> StaysOnWay(L, z, k, request.reaction(k))
  }

  /** Appends, chunks and whole snapshots of the committed history are such requests. */
  lemma HandlersReact(
    L: Lineage, z: Point, rules: Rules, req: AppendRequest, term: nat, chunk: Chunk, leader: nat, metadata: Snapshot,
    payload: Bytes)
    ensures Sendable(L, req) && Confirms(L, z, req) ==> Reacts(L, z, React(k => HandleAppend(k, req)))
    ensures Ancestor(L, chunk.snapshot.Boundary(), z) ==> Reacts(L, z, React(k => HandleChunk(rules, k, term, chunk)))
    ensures Ancestor(L, metadata.Boundary(), z) ==>
      Reacts(L, z, React(k => HandleSnapshot(rules, k, term, leader, metadata, payload)))
  {
    hide OnWay, StaysOnWay, Sendable, Confirms, HandleAppend, HandleChunk, HandleSnapshot;
    forall k: Node | OnWay(L, z, k)
      ensures Sendable(L, req) && Confirms(L, z, req) ==> StaysOnWay(L, z, k, HandleAppend(k, req))
      ensures Ancestor(L, chunk.snapshot.Boundary(), z) ==> StaysOnWay(L, z, k, HandleChunk(rules, k, term, chunk))
      ensures Ancestor(L, metadata.Boundary(), z) ==>
        StaysOnWay(L, z, k, HandleSnapshot(rules, k, term, leader, metadata, payload))
    {
      if Sendable(L, req) && Confirms(L, z, req) { AppendStays(L, z, k, req); }
      if Ancestor(L, chunk.snapshot.Boundary(), z) { ChunkStays(L, z, rules, k, term, chunk); }
      if Ancestor(L, metadata.Boundary(), z) { WholeStays(L, z, rules, k, term, leader, metadata, payload); }
    }
  }

  /** One reaction after the other. */
  function InTurn(f: Node -> seq<Move>, g: Node -> seq<Move>): Node -> seq<Move> {
    k => f(k) + g(ApplyAll(k, f(k)))
  }

  lemma EndsOnWay(L: Lineage, z: Point, k: Node, ms: seq<Move>)
    requires StaysOnWay(L, z, k, ms)
    ensures OnWay(L, z, ApplyAll(k, ms))
  {}

  lemma ReactsAt(L: Lineage, z: Point, f: Node -> seq<Move>, k: Node)
    requires Reacts(L, z, React(f)) && OnWay(L, z, k)
    ensures StaysOnWay(L, z, k, f(k))
  {
    hide OnWay, StaysOnWay;
    assert StaysOnWay(L, z, k, React(f).reaction(k));
  }

  /** Two requests handled as one batch are one request. */
  lemma BatchReacts(L: Lineage, z: Point, f: Node -> seq<Move>, g: Node -> seq<Move>)
    requires Reacts(L, z, React(f)) && Reacts(L, z, React(g))
    ensures Reacts(L, z, React(InTurn(f, g)))
  {
    hide OnWay, StaysOnWay, ApplyAll;
    forall k: Node | OnWay(L, z, k) ensures StaysOnWay(L, z, k, InTurn(f, g)(k)) {
      ReactsAt(L, z, f, k);
      EndsOnWay(L, z, k, f(k));
      ReactsAt(L, z, g, ApplyAll(k, f(k)));
      StaysInTurn(L, z, k, f(k), g(ApplyAll(k, f(k))));
    }
  }

  // ---------------------------------------------------------------------------
  // Serving

  /** The event that a request causes at a node in state `s`, if it causes one: a live node is not
      started, and one that is down only that. */
  ghost predicate Causes(request: Request, s: State, e: Event) {
    match request
    case React(reaction) => s.Up? && e.Step? && e.moves == reaction(s.node)
    case CompactTo(snapshot) => s.Up? && e.Compact? && e.snapshot == snapshot
    case DrainAll => s.Up? && e.Drain?
    case Kill => s.Up? && e.Crash?
    case Start(floor) => s.Down? && e.Reopen? && e.floor == floor
  }

  predicate Idle(request: Request, s: State) { if s.Up? then request.Start? else !request.Start? }

  /** The run is what the requests cause, one after the other. */
  ghost predicate Follows(run: Run, requests: seq<Request>)
    decreases |requests|
  {
    |run.states| == |run.events| + 1 &&
    if requests == [] then run.events == []
    else
      var n, m, last := |requests| - 1, |run.events|, requests[|requests| - 1];
      if Idle(last, run.states[m]) && Follows(run, requests[..n]) then true
      else
        && m > 0 && Causes(last, run.states[m - 1], run.events[m - 1])
        && Follows(Run(run.states[..m], run.events[..m - 1]), requests[..n])
  }

  lemma FollowsIdle(run: Run, requests: seq<Request>, request: Request)
    requires Follows(run, requests) && |run.states| == |run.events| + 1 && Idle(request, run.states[|run.events|])
    ensures Follows(run, requests + [request])
  {
    assert (requests + [request])[..|requests|] == requests;
  }

  lemma FollowsOn(run: Run, requests: seq<Request>, request: Request, e: Event, t: State)
    requires Follows(run, requests) && |run.states| == |run.events| + 1
    requires Causes(request, run.states[|run.events|], e)
    ensures Follows(Run(run.states + [t], run.events + [e]), requests + [request])
  {
    hide Idle;
    var m := |run.events|;
    assert (requests + [request])[..|requests|] == requests;
    assert (run.states + [t])[..m + 1] == run.states && (run.events + [e])[..m] == run.events;
    assert Run((run.states + [t])[..m + 1], (run.events + [e])[..m]) == run;
  }

  ghost predicate AtEnd(run: Run, t: State) { |run.states| == |run.events| + 1 && run.states[|run.events|] == t }

  lemma Crashes(L: Lineage, rules: Rules, s: State)
    ensures Next(L, rules, s, Crash, Down(s.img))
  {}

  lemma LiveOnWay(L: Lineage, z: Point, n: DurableRaftNode)
    requires n.Valid(L) && n.fatal.None? && DiskOnWay(L, z, n.Img())
    ensures OnWay(L, z, n.node)
  {
    SyncedPoint(L, n.Img(), n.node, n.tail);
  }

  /** The run goes on with what a request has caused. */
  lemma Extended(
    L: Lineage, z: Point, rules: Rules, was: Run, before: seq<Request>, request: Request, s: State, e: Event, t: State)
    requires Happens(L, rules, was) && AtEnd(was, s) && Follows(was, before)
    requires Good(L, s) && Next(L, rules, s, e, t) && DiskOnWay(L, z, s.img) && Causes(request, s, e)
    requires e.Step? && s.Up? && !s.poisoned ==> StaysOnWay(L, z, s.node, e.moves)
    ensures
      var run := Run(was.states + [t], was.events + [e]);
      && Happens(L, rules, run) && AtEnd(run, t) && Follows(run, before + [request]) && DiskOnWay(L, z, t.img)
      && FailedCalls(run.events) == FailedCalls(was.events) + (if HasFailed(e) then 1 else 0)
      && run.states[0] == was.states[0]
  {
    hide Next, Good, Follows, Causes, DiskOnWay, StaysOnWay, Happens;
    HappensLength(L, rules, was);
    StepEventOnWay(L, z, rules, s, e, t);
    OneMore(L, rules, was, e, t);
    FollowsOn(was, before, request, e, t);
  }

  lemma GoodView(L: Lineage, n: DurableRaftNode)
    requires n.Valid(L)
    ensures Good(L, View(n))
  {}

  /** One request to a live node. */
  method ServeUp(ghost L: Lineage, ghost z: Point, ghost rules: Rules, node: DurableRaftNode, request: Request,
    ghost was: Run, ghost before: seq<Request>)
    returns (n: Option<DurableRaftNode>, ghost run: Run)
    requires node.Valid(L) && node.rules == rules && DiskOnWay(L, z, node.Img()) && Reacts(L, z, request)
    requires Happens(L, rules, was) && AtEnd(was, View(node)) && Follows(was, before)
    modifies node, node.hard, node.log, node.snaps
    ensures node.Valid(L) && DiskOnWay(L, z, node.Img()) && (n.Some? ==> n.value == node)
    ensures Happens(L, rules, run) && run.states[0] == was.states[0]
    ensures AtEnd(run, if n.Some? then View(node) else Down(node.Img())) && Follows(run, before + [request])
    ensures node.FailedWrites() - old(node.FailedWrites()) == FailedCalls(run.events) - FailedCalls(was.events)
  {
    hide ImageInv, Next, Guarded, NodeInv, OnWay, ApplyAll, DiskOnWay, Follows, Good, FailedCalls, Synced;
    ghost var s := View(node);
    GoodView(L, node);
    match request {
      case React(reaction) =>
        if node.fatal.None? { LiveOnWay(L, z, node); }
        var moves := reaction(node.node);
        var released, writeFailed := DoStep(L, node, moves);
        ghost var e := Step(moves, released, writeFailed);
        Extended(L, z, rules, was, before, request, s, e, View(node));
        return Some(node), Run(was.states + [View(node)], was.events + [e]);
      case CompactTo(snapshot) =>
        var done, writeFailed := DoCompact(L, node, snapshot);
        ghost var e := Compact(snapshot, done, writeFailed);
        Extended(L, z, rules, was, before, request, s, e, View(node));
        return Some(node), Run(was.states + [View(node)], was.events + [e]);
      case DrainAll =>
        var outputs := DoDrain(L, node);
        Extended(L, z, rules, was, before, request, s, Drain(outputs), View(node));
        return Some(node), Run(was.states + [View(node)], was.events + [Drain(outputs)]);
      case Kill =>
        Crashes(L, rules, s);
        Extended(L, z, rules, was, before, request, s, Crash, Down(node.Img()));
        return None, Run(was.states + [Down(node.Img())], was.events + [Crash]);
      case Start(_) =>
        FollowsIdle(was, before, request);
        return Some(node), was;
    }
  }

  /** No event of a run takes the disk off the way. */
  lemma StepEventOnWay(L: Lineage, z: Point, rules: Rules, s: State, e: Event, t: State)
    requires Good(L, s) && Next(L, rules, s, e, t) && DiskOnWay(L, z, s.img)
    requires e.Step? && s.Up? && !s.poisoned ==> StaysOnWay(L, z, s.node, e.moves)
    ensures DiskOnWay(L, z, t.img)
  {
    hide Good, StepMay, CompactMay, DrainMay, ReopenMay, StaysOnWay, DiskOnWay;
    match e
    case Step(moves, released, writeFailed) =>
      StepIsUp(L, s, moves, released, writeFailed, t);
      StepOnWay(L, z, s, moves, released, writeFailed, t);
    case Compact(given, done, writeFailed) => CompactOnWay(L, z, rules, s, given, done, writeFailed, t);
    case Drain(outputs) => DrainsInMemory(L, s, outputs, t);
    case Crash =>
    case Reopen(floor, succeeded, writeFailed) => ReopenOnWay(L, z, rules, s, floor, succeeded, writeFailed, t);
  }

  lemma DrainsInMemory(L: Lineage, s: State, outputs: seq<Output>, t: State)
    requires DrainMay(L, s, outputs, t)
    ensures t.img == s.img
  {}

  lemma StepIsUp(L: Lineage, s: State, moves: seq<Move>, released: Option<seq<Output>>, writeFailed: bool, t: State)
    requires StepMay(L, s, moves, released, writeFailed, t)
    ensures s.Up?
  {}

  /** Any requests along the committed history, served by the runtime over three stores with
      any write failing, make a run, and the disk never leaves that history. */
  method Serve(ghost L: Lineage, ghost z: Point, rules: Rules, hard: HardStateStore, log: LogSegment,
    snaps: SnapshotStore, requests: seq<Request>)
    returns (n: Option<DurableRaftNode>, ghost run: Run)
    requires log.Valid() && ImageInv(L, ImageOf(hard, log, snaps)) && DiskOnWay(L, z, ImageOf(hard, log, snaps))
    requires forall request :: request in requests ==> Reacts(L, z, request)
    modifies hard, log, snaps
    ensures Happens(L, rules, run) && run.states[0] == Down(old(ImageOf(hard, log, snaps)))
    ensures n.Some? ==> n.value.hard == hard && n.value.log == log && n.value.snaps == snaps
    ensures AtEnd(run, if n.Some? then View(n.value) else Down(ImageOf(hard, log, snaps)))
    ensures DiskOnWay(L, z, ImageOf(hard, log, snaps)) && Follows(run, requests)
    ensures Failures(hard, log, snaps) == old(Failures(hard, log, snaps)) + FailedCalls(run.events)
  {
    hide ImageInv, Next, Guarded, NodeInv, Reacts, DiskOnWay, Follows, FailedCalls;
    n, run := None, Run([Down(ImageOf(hard, log, snaps))], []);
    var i := 0;
    FollowsNothing(run);
    assert requests[..0] == [];
    while i < |requests|
      invariant 0 <= i <= |requests| && Follows(run, requests[..i])
      invariant log.Valid() && ImageInv(L, ImageOf(hard, log, snaps)) && DiskOnWay(L, z, ImageOf(hard, log, snaps))
      invariant n.Some? ==>
        && fresh(n.value) && n.value.Valid(L) && n.value.rules == rules
        && n.value.hard == hard && n.value.log == log && n.value.snaps == snaps
      invariant Happens(L, rules, run) && run.states[0] == Down(old(ImageOf(hard, log, snaps)))
      invariant AtEnd(run, if n.Some? then View(n.value) else Down(ImageOf(hard, log, snaps)))
      invariant Failures(hard, log, snaps) == old(Failures(hard, log, snaps)) + FailedCalls(run.events)
    {
      assert Reacts(L, z, requests[i]) && requests[..i + 1] == requests[..i] + [requests[i]];
      if n.Some? {
        n, run := ServeUp(L, z, rules, n.value, requests[i], run, requests[..i]);
      } else if requests[i].Start? {
        ghost var s := Down(ImageOf(hard, log, snaps));
        var started, writeFailed := DoReopen(L, rules, hard, log, snaps, requests[i].floor);
        ghost var now := if started.Some? then View(started.value) else Down(ImageOf(hard, log, snaps));
        ghost var e := Reopen(requests[i].floor, started.Some?, writeFailed);
        Extended(L, z, rules, run, requests[..i], requests[i], s, e, now);
        NextKeeps(L, rules, s, e, now);
        n, run := started, Run(run.states + [now], run.events + [e]);
      } else {
        FollowsIdle(run, requests[..i], requests[i]);
      }
      i := i + 1;
    }
    assert requests[..i] == requests;
  }

  lemma FollowsNothing(run: Run)
    requires run.events == [] && |run.states| == 1
    ensures Follows(run, []) && FailedCalls(run.events) == 0
  {}
}
