/** Admission of a contiguous batch of queued peer messages
    (crates/rafter-runtime/src/peer_batch.rs). */
module PeerBatch {
  import opened Prelude
  import opened Raft
  import opened Kernel
  import opened KernelReceive
  import opened Delivery
  import opened StepOutputs
  import opened CommittedConfig

  datatype Role = Leader | Follower | Candidate

  datatype Message =
    | Append(request: AppendRequest)
    | AppendResponse(term: nat, follower: nat, success: bool)
    | Special

  /** A queued message and the peer it came from. */
  datatype Queued = Queued(from: nat, message: Message)

  datatype Gate = Gate(
    term: nat, role: Role, leader: Option<nat>, tail: nat, tailTerm: nat, events: nat, bytes: nat, closed: bool)

  function SaturatingAdd(a: nat, b: nat, max: nat): nat { if a + b <= max then a + b else max }

  /** 64 bytes plus the entries' sizes, saturating. */
  function ChargeOf(entries: seq<Entry>, size: Entry -> nat): nat {
    if entries == [] then 64
    else SaturatingAdd(ChargeOf(entries[..|entries| - 1], size), size(entries[|entries| - 1]), USIZE_MAX)
  }

  /** The conditions under which a message may join the batch, and its charge. */
  function Charge(g: Gate, q: Queued, size: Entry -> nat): Option<nat> {
    match q.message
    case AppendResponse(term, follower, success) =>
      if g.role.Leader? && success && term == g.term && follower == q.from then Some(64) else None
    case Append(r) =>
      if && g.role.Follower? && r.term == g.term && g.leader == Some(q.from) && r.leader == q.from
         && r.prevIndex == g.tail && r.prevTerm == g.tailTerm && r.entries != []
         && (forall e :: e in r.entries ==> e.kind.Application?)
      then Some(ChargeOf(r.entries, size)) else None
    case Special => None
  }

  predicate Admits(g: Gate, q: Queued, size: Entry -> nat) {
    !g.closed && g.events > 0 && Charge(g, q, size).Some? && Charge(g, q, size).value <= g.bytes
  }

  function After(g: Gate, q: Queued, size: Entry -> nat): Gate {
    if !Admits(g, q, size) then g.(closed := true)
    else
      var rest := g.(events := g.events - 1, bytes := g.bytes - Charge(g, q, size).value);
      match q.message
      case Append(r) =>
        rest.(tail := SaturatingAdd(g.tail, |r.entries|, U64_MAX), tailTerm := r.entries[|r.entries| - 1].term)
      case _ => rest
  }

  class PeerBatchGate {
    const term: nat
    const role: Role
    const leader: Option<nat>
    var tail: nat
    var tailTerm: nat
    var remainingEvents: nat
    var remainingBytes: nat
    var closed: bool

    ghost function Value(): Gate
      reads this
    {
      Gate(term, role, leader, tail, tailTerm, remainingEvents, remainingBytes, closed)
    }

    /** The gate captured from a node: shut from the start if the runtime is poisoned, a
        configuration is not yet committed, or a snapshot is being sent or received. */
    constructor (
      k: Node, role: Role, leader: Option<nat>, maxEvents: nat, maxBytes: nat, poisoned: bool, sending: bool)
      ensures Value() == GateOf(k, role, leader, maxEvents, maxBytes, poisoned, sending)
      ensures this.role == role && this.leader == leader && term == k.term
      ensures remainingEvents == maxEvents && remainingBytes == maxBytes
      ensures closed <==> poisoned || sending || k.pending.Some? || ConfigIn(k, k.log.Last()) != ConfigIn(k, k.commit)
    {
      term, this.role, this.leader := k.term, role, leader;
      tail := k.log.Last();
      tailTerm := if k.TermAt(k.log.Last()).Some? then k.TermAt(k.log.Last()).value else 0;
      remainingEvents, remainingBytes := maxEvents, maxBytes;
      closed := poisoned || ConfigIn(k, k.log.Last()) != ConfigIn(k, k.commit) || sending || k.pending.Some?;
    }

    method Admit(q: Queued, size: Entry -> nat) returns (accepted: bool)
      modifies this
      ensures Value() == After(old(Value()), q, size)
      ensures accepted <==> Admits(old(Value()), q, size)
    {
      var nextTail, nextTerm := tail, tailTerm;
      var bytes: Option<nat> := None;
      match q.message {
        case AppendResponse(t, follower, success) =>
          if role.Leader? && success && t == term && follower == q.from { bytes := Some(64); }
        case Append(r) =>
          if && role.Follower? && r.term == term && leader == Some(q.from) && r.leader == q.from
             && r.prevIndex == tail && r.prevTerm == tailTerm && r.entries != []
             && (forall e :: e in r.entries ==> e.kind.Application?) {
            var sum := 64;
            for i := 0 to |r.entries|
              invariant sum == ChargeOf(r.entries[..i], size)
            {
              assert r.entries[..i + 1][..i] == r.entries[..i];
              sum := SaturatingAdd(sum, size(r.entries[i]), USIZE_MAX);
            }
            assert r.entries[..|r.entries|] == r.entries;
            bytes := Some(sum);
            nextTail := SaturatingAdd(tail, |r.entries|, U64_MAX);
            nextTerm := r.entries[|r.entries| - 1].term;
          }
        case Special =>
      }
      accepted := !closed && remainingEvents > 0 && bytes.Some? && bytes.value <= remainingBytes;
      if accepted {
        remainingEvents := remainingEvents - 1;
        remainingBytes := remainingBytes - bytes.value;
        tail, tailTerm := nextTail, nextTerm;
      } else {
        closed := true;
      }
    }
  }

  /** The configuration of the last entry at or below `i` that carries one. */
  function ConfigIn(k: Node, i: nat): Option<int> {
    var newest := NewestThrough(k.log, i);
    if newest.Some? then Some(newest.value.id) else None
  }

  function GateOf(
    k: Node, role: Role, leader: Option<nat>, maxEvents: nat, maxBytes: nat, poisoned: bool, sending: bool): Gate
  {
    Gate(k.term, role, leader, k.log.Last(),
         if k.TermAt(k.log.Last()).Some? then k.TermAt(k.log.Last()).value else 0, maxEvents, maxBytes,
         poisoned || ConfigIn(k, k.log.Last()) != ConfigIn(k, k.commit) || sending || k.pending.Some?)
  }

  // ---------------------------------------------------------------------------
  // A whole queue

  function AfterAll(g: Gate, queue: seq<Queued>, size: Entry -> nat): Gate
    decreases |queue|
  {
    if queue == [] then g else AfterAll(After(g, queue[0], size), queue[1..], size)
  }

  /** How many messages are admitted before the first refusal. */
  function Admitted(g: Gate, queue: seq<Queued>, size: Entry -> nat): (n: nat)
    ensures n <= |queue|
    decreases |queue|
  {
    if queue == [] || !Admits(g, queue[0], size) then 0 else 1 + Admitted(After(g, queue[0], size), queue[1..], size)
  }

  lemma {:induction false} ClosedForever(g: Gate, queue: seq<Queued>, size: Entry -> nat)
    requires g.closed
    ensures AfterAll(g, queue, size).closed
    decreases |queue|
  {
    if queue != [] {
      ClosedForever(After(g, queue[0], size), queue[1..], size);
    }
  }

  /** Offer the whole queue: exactly the first `Admitted` messages are let in. */
  lemma {:induction false} AdmittedIsPrefix(g: Gate, queue: seq<Queued>, size: Entry -> nat, i: nat)
    requires i < |queue|
    ensures Admits(AfterAll(g, queue[..i], size), queue[i], size) <==> i < Admitted(g, queue, size)
    decreases |queue|
  {
    if i == 0 {
      assert queue[..0] == [];
    } else {
      var next := After(g, queue[0], size);
      assert queue[..i][1..] == queue[1..][..i - 1] && queue[..i][0] == queue[0];
      if Admits(g, queue[0], size) {
        AdmittedIsPrefix(next, queue[1..], size, i - 1);
      } else {
        ClosedForever(next, queue[1..][..i - 1], size);
      }
    }
  }

  function SizeOf(entries: seq<Entry>, size: Entry -> nat): nat {
    if entries == [] then 0 else SizeOf(entries[..|entries| - 1], size) + size(entries[|entries| - 1])
  }

  /** What a message weighs: 64 bytes and its entries, counted up to the machine's limit. */
  function Weight(q: Queued, size: Entry -> nat): nat { Min(64 + SizeOf(EntriesOf(q), size), USIZE_MAX) }

  function TotalWeight(queue: seq<Queued>, size: Entry -> nat): nat {
    if queue == [] then 0 else Weight(queue[0], size) + TotalWeight(queue[1..], size)
  }

  lemma {:induction false} ChargeIsWeight(entries: seq<Entry>, size: Entry -> nat)
    ensures ChargeOf(entries, size) == Min(64 + SizeOf(entries, size), USIZE_MAX)
    decreases |entries|
  {
    if entries != [] {
      ChargeIsWeight(entries[..|entries| - 1], size);
    }
  }

  /** Neither budget is exceeded, by what the messages weigh, and what is left of them is what
      has not been used. */
  lemma {:induction false} WithinBudgets(g: Gate, queue: seq<Queued>, size: Entry -> nat)
    ensures
      var n := Admitted(g, queue, size);
      var left := AfterAll(g, queue[..n], size);
      && n <= g.events && TotalWeight(queue[..n], size) <= g.bytes
      && left.events == g.events - n && left.bytes == g.bytes - TotalWeight(queue[..n], size)
    decreases |queue|
  {
    if queue != [] && Admits(g, queue[0], size) {
      ChargeIsWeight(EntriesOf(queue[0]), size);
      var next, rest := After(g, queue[0], size), queue[1..];
      WithinBudgets(next, rest, size);
      var n := Admitted(g, queue, size);
      assert queue[..n][1..] == rest[..n - 1] && queue[..n][0] == queue[0];
    }
  }

  /** A message is admitted exactly if the node could take it as it stands: from the leader it
      follows, at the end of its log, nothing but application entries; or, at a leader, a
      success of its own term; with room for it in both budgets. */
  lemma AdmittedExactly(g: Gate, k: Node, q: Queued, size: Entry -> nat)
    requires Tracks(g, k)
    ensures Admits(g, q, size) <==>
      && !g.closed && g.events > 0 && Weight(q, size) <= g.bytes
      && match q.message
         case Append(r) =>
           && g.role.Follower? && AtTail(k, r) && r.entries != []
           && g.leader == Some(q.from) && r.leader == q.from
         case AppendResponse(term, follower, success) =>
           g.role.Leader? && success && term == k.term && follower == q.from
         case Special => false
  {
    if q.message.Append? { ChargeIsWeight(q.message.request.entries, size); }
  }

  /** All admitted messages are of the captured term, and follower appends of the captured
      leader; no admitted message is of any other kind. */
  lemma {:induction false} OneTermOneLeader(g: Gate, queue: seq<Queued>, size: Entry -> nat, i: nat)
    requires i < Admitted(g, queue, size)
    ensures
      match queue[i].message
      case Append(r) => g.role.Follower? && r.term == g.term && g.leader == Some(r.leader) && queue[i].from == r.leader
      case AppendResponse(term, _, success) => g.role.Leader? && term == g.term && success
      case Special => false
    decreases |queue|
  {
    if i > 0 {
      OneTermOneLeader(After(g, queue[0], size), queue[1..], size, i - 1);
    }
  }

  // ---------------------------------------------------------------------------
  // One batched append

  function EntriesOf(q: Queued): seq<Entry> { if q.message.Append? then q.message.request.entries else [] }

  function AllEntries(queue: seq<Queued>): seq<Entry> {
    if queue == [] then [] else EntriesOf(queue[0]) + AllEntries(queue[1..])
  }

  /** The greatest commit index that any single message confirms, from a log ending at
      `tail`. */
  function BestCommit(tail: nat, queue: seq<Queued>): nat
    decreases |queue|
  {
    if queue == [] then 0
    else
      var match1 := tail + |EntriesOf(queue[0])|;
      var rest := BestCommit(match1, queue[1..]);
      if queue[0].message.Append? then Max(Min(queue[0].message.request.leaderCommit, match1), rest) else rest
  }

  /** One request that carries the entries of the whole queue. */
  function Together(g: Gate, k: Node, queue: seq<Queued>): AppendRequest {
    AppendRequest(g.term, if g.leader.Some? then g.leader.value else 0, k.log.Last(), g.tailTerm, AllEntries(queue),
                  BestCommit(k.log.Last(), queue))
  }

  /** The follower after handling the messages one at a time, and what it told its host. */
  function OneByOne(k: Node, queue: seq<Queued>): Node
    decreases |queue|
  {
    if queue == [] then k
    else OneByOne(ApplyAll(k, MovesFor(k, queue[0])), queue[1..])
  }

  function OutputsOneByOne(k: Node, queue: seq<Queued>): seq<Output>
    decreases |queue|
  {
    if queue == [] then []
    else
      OutputsFrom(MovesFor(k, queue[0]))
      + OutputsOneByOne(ApplyAll(k, MovesFor(k, queue[0])), queue[1..])
  }

  function MovesFor(k: Node, q: Queued): seq<Move> {
    if q.message.Append? then HandleAppend(k, q.message.request) else []
  }

  lemma AppendsAtEnd(k: Node, r: AppendRequest)
    requires k.log.base == k.snap.index && r.prevIndex == k.log.Last()
    ensures LogAfter(k, r) == k.log.Append(r.entries)
    ensures r.entries != [] ==> FirstDivergent(k, r.prevIndex, r.entries, 0) == 0
  {
    var o := FirstDivergent(k, r.prevIndex, r.entries, 0);
    if r.entries != [] {
      assert !Holds(k, r.prevIndex, r.entries, 0);
      assert o == 0 && r.entries[0..] == r.entries;
      assert k.log.TruncateFrom(k.log.Next()) == k.log;
    } else {
      assert k.log.entries + [] == k.log.entries;
    }
  }

  lemma AppendTwice(log: Log, a: seq<Entry>, b: seq<Entry>)
    ensures log.Append(a).Append(b) == log.Append(a + b)
  {
    assert log.entries + a + b == log.entries + (a + b);
  }

  /** The gate's cursor follows the log. */
  ghost predicate Tracks(g: Gate, k: Node) {
    && Shaped(k)
    && g.term == k.term && g.tail == k.log.Last() && k.TermAt(g.tail) == Some(g.tailTerm)
  }

  /** A request of application entries that starts where the log ends. */
  ghost predicate AtTail(k: Node, r: AppendRequest) {
    && r.term == k.term && r.prevIndex == k.log.Last() && k.TermAt(r.prevIndex) == Some(r.prevTerm)
    && forall e :: e in r.entries ==> e.kind.Application?
  }

  lemma TailLetIn(k: Node, r: AppendRequest)
    requires Shaped(k) && AtTail(k, r)
    ensures LetsIn(k, r) && LogAfter(k, r) == k.log.Append(r.entries)
  {
    AppendsAtEnd(k, r);
    assert forall i :: r.Carried().Has(i) ==> r.Carried().At(i) in r.entries;
  }

  lemma {:induction false} BestWithin(tail: nat, queue: seq<Queued>)
    ensures BestCommit(tail, queue) <= tail + |AllEntries(queue)|
    decreases |queue|
  {
    if queue != [] {
      BestWithin(tail + |EntriesOf(queue[0])|, queue[1..]);
    }
  }

  /** The first message leaves the gate on the node's track. */
  lemma StaysOnTrack(L: Lineage, g: Gate, k: Node, q: Queued, size: Entry -> nat)
    requires Tracks(g, k) && g.role.Follower? && Admits(g, q, size)
    requires k.log.Last() + |EntriesOf(q)| <= U64_MAX
    ensures q.message.Append? && AtTail(k, q.message.request) && q.message.request.entries != []
    ensures After(g, q, size).role == g.role
    ensures
      var r := q.message.request;
      && ApplyAll(k, MovesFor(k, q)) == Taken(k, r)
      && LogAfter(k, r) == k.log.Append(r.entries)
      && Tracks(After(g, q, size), Taken(k, r))
  {
    hide ApplyAll, HandleAppend, LogAfter, SpliceMoves;
    var r := q.message.request;
    TailLetIn(k, r);
    AppendResult(L, k, r);
    TakenShaped(L, k, r);
    var next := Taken(k, r);
    assert next.log.At(next.log.Last()) == r.entries[|r.entries| - 1];
  }

  lemma {:induction false} AllAtTail(L: Lineage, g: Gate, k: Node, queue: seq<Queued>, size: Entry -> nat)
    requires Tracks(g, k) && g.role.Follower? && Admitted(g, queue, size) == |queue|
    requires k.log.Last() + |AllEntries(queue)| <= U64_MAX
    ensures AtTail(k, Together(g, k, queue))
    decreases |queue|
  {
    hide ApplyAll, HandleAppend, LogAfter, SpliceMoves;
    if queue != [] {
      StaysOnTrack(L, g, k, queue[0], size);
      var next := Taken(k, queue[0].message.request);
      AllAtTail(L, After(g, queue[0], size), next, queue[1..], size);
    }
  }

  /** Taking in one request and then the rest is taking in all of them. */
  lemma TakenTogether(L: Lineage, k: Node, r: AppendRequest, rest: AppendRequest, all: AppendRequest)
    requires Shaped(k) && AtTail(k, r) && r.entries != [] && AtTail(k, all) && all.entries == r.entries + rest.entries
    requires
      var next := Taken(k, r);
      && AtTail(next, rest) && rest.leaderCommit <= rest.MatchIndex()
      && all.leaderCommit == Max(Min(r.leaderCommit, r.MatchIndex()), rest.leaderCommit)
    ensures Taken(Taken(k, r), rest) == Taken(k, all)
  {
    hide LogAfter, SpliceMoves;
    TailLetIn(k, r);
    TailLetIn(k, all);
    TakenShaped(L, k, r);
    TailLetIn(Taken(k, r), rest);
    AppendTwice(k.log, r.entries, rest.entries);
  }

  /** A follower that handles the admitted messages one at a time ends as one that handles a
      single request with all their entries, confirming the best of their commit indexes. */
  lemma {:induction false} BatchEqualsOneByOne(
    L: Lineage, g: Gate, k: Node, queue: seq<Queued>, size: Entry -> nat)
    requires Tracks(g, k) && g.role.Follower? && Admitted(g, queue, size) == |queue|
    requires k.log.Last() + |AllEntries(queue)| <= U64_MAX
    ensures OneByOne(k, queue) == ApplyAll(k, HandleAppend(k, Together(g, k, queue)))
    decreases |queue|
  {
    hide ApplyAll, HandleAppend, LogAfter, SpliceMoves, Taken, Admits, After;
    AllAtTail(L, g, k, queue, size);
    TailLetIn(k, Together(g, k, queue));
    AppendResult(L, k, Together(g, k, queue));
    if queue == [] {
      NothingTaken(k, Together(g, k, queue));
    } else {
      var q, later, rest := queue[0], After(g, queue[0], size), queue[1..];
      StaysOnTrack(L, g, k, q, size);
      var r, next := q.message.request, Taken(k, q.message.request);
      TakenEnd(k, r);
      BatchEqualsOneByOne(L, later, next, rest, size);
      AllAtTail(L, later, next, rest, size);
      TailLetIn(next, Together(later, next, rest));
      AppendResult(L, next, Together(later, next, rest));
      BestWithin(next.log.Last(), rest);
      TakenTogether(L, k, r, Together(later, next, rest), Together(g, k, queue));
    }
  }

  lemma DeliveredTogether(L: Lineage, k: Node, r: AppendRequest, rest: AppendRequest, all: AppendRequest)
    requires Shaped(k) && AtTail(k, r) && r.entries != [] && AtTail(k, all) && all.entries == r.entries + rest.entries
    requires
      var next := Taken(k, r);
      && AtTail(next, rest) && rest.leaderCommit <= rest.MatchIndex()
      && all.leaderCommit == Max(Min(r.leaderCommit, r.MatchIndex()), rest.leaderCommit)
    ensures Deliveries(k, r) + Deliveries(Taken(k, r), rest) == Deliveries(k, all)
  {
    hide LogAfter, SpliceMoves, DeliverMoves, OutputsFrom;
    var next := Taken(k, r);
    TailLetIn(k, r);
    TailLetIn(k, all);
    TakenShaped(L, k, r);
    TailLetIn(next, rest);
    AppendTwice(k.log, r.entries, rest.entries);
    var first, whole := LogAfter(k, r), LogAfter(k, all);
    assert whole == first.Append(rest.entries);
    if r.leaderCommit > k.commit {
      var mid, end := Confirmed(k, r), Confirmed(k, all);
      DeliveredInGoes(first, whole, k.applied, mid, end);
      OutputsConcat(DeliverMoves(first, k.applied, mid), DeliverMoves(whole, mid, end));
      NothingDelivered(whole, mid);
    }
  }

  lemma NothingDelivered(log: Log, at: nat)
    ensures OutputsFrom(DeliverMoves(log, at, at)) == []
  {}

  /** The first message's deliveries and those of the rest are those of all together. */
  lemma DeliversFirst(
    L: Lineage, g: Gate, k: Node, queue: seq<Queued>, size: Entry -> nat)
    requires Tracks(g, k) && g.role.Follower? && Admitted(g, queue, size) == |queue| > 0
    requires k.log.Last() + |AllEntries(queue)| <= U64_MAX
    ensures
      var later, next := After(g, queue[0], size), ApplyAll(k, MovesFor(k, queue[0]));
      && Tracks(later, next) && later.role.Follower?
      && next.log.Last() == k.log.Last() + |EntriesOf(queue[0])|
      && OutputsFrom(HandleAppend(k, Together(g, k, queue))) ==
         OutputsFrom(MovesFor(k, queue[0]))
         + OutputsFrom(HandleAppend(next, Together(later, next, queue[1..])))
  {
    hide ApplyAll, HandleAppend, LogAfter, LetsIn, Taken, Admits, After, Deliveries, OutputsFrom;
    var q, later, rest := queue[0], After(g, queue[0], size), queue[1..];
    StaysOnTrack(L, g, k, q, size);
    var r, next := q.message.request, Taken(k, q.message.request);
    TakenEnd(k, r);
    AllAtTail(L, g, k, queue, size);
    AllAtTail(L, later, next, rest, size);
    TailAnnounces(k, r);
    TailAnnounces(k, Together(g, k, queue));
    TailAnnounces(next, Together(later, next, rest));
    BestWithin(next.log.Last(), rest);
    DeliveredTogether(L, k, r, Together(later, next, rest), Together(g, k, queue));
  }

  lemma TailAnnounces(k: Node, r: AppendRequest)
    requires Shaped(k) && AtTail(k, r)
    ensures OutputsFrom(HandleAppend(k, r)) == Deliveries(k, r)
  {
    hide HandleAppend, LogAfter, LetsIn, Deliveries, OutputsFrom;
    TailLetIn(k, r);
    AppendAnnounces(k, r);
  }

  /** And it delivers the same entries to its host, in the same order. */
  lemma {:induction false} BatchDeliversOneByOne(
    L: Lineage, g: Gate, k: Node, queue: seq<Queued>, size: Entry -> nat)
    requires Tracks(g, k) && g.role.Follower? && Admitted(g, queue, size) == |queue|
    requires k.log.Last() + |AllEntries(queue)| <= U64_MAX
    ensures OutputsOneByOne(k, queue) == OutputsFrom(HandleAppend(k, Together(g, k, queue)))
    decreases |queue|
  {
    hide ApplyAll, HandleAppend, OutputsFrom, Admits, After, Tracks, MovesFor;
    if queue == [] {
      NothingAnnounced(g, k);
    } else {
      DeliversFirst(L, g, k, queue, size);
      var later, next := After(g, queue[0], size), ApplyAll(k, MovesFor(k, queue[0]));
      BatchDeliversOneByOne(L, later, next, queue[1..], size);
    }
  }

  lemma NothingAnnounced(g: Gate, k: Node)
    requires Tracks(g, k)
    ensures OutputsFrom(HandleAppend(k, Together(g, k, []))) == []
  {
    hide HandleAppend, LogAfter, OutputsFrom;
    TailAnnounces(k, Together(g, k, []));
  }

  lemma TakenEnd(k: Node, r: AppendRequest)
    requires LogAfter(k, r) == k.log.Append(r.entries)
    ensures Taken(k, r).log.Last() == k.log.Last() + |r.entries|
  {}

  lemma NothingTaken(k: Node, r: AppendRequest)
    requires Shaped(k) && AtTail(k, r) && r.entries == [] && r.leaderCommit == 0
    ensures Taken(k, r) == k
  {
    AppendsAtEnd(k, r);
    assert k.log.entries + [] == k.log.entries;
  }

  lemma CapturedGateTracks(
    k: Node, role: Role, leader: Option<nat>, maxEvents: nat, maxBytes: nat, poisoned: bool, sending: bool)
    requires Shaped(k)
    ensures Tracks(GateOf(k, role, leader, maxEvents, maxBytes, poisoned, sending), k)
  {}
}
