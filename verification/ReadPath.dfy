/** The read path of the key-value host (crates/rafter-maelstrom/src/raft.rs and client.rs):
    a read waits until the applied state has reached the floor of its granted index. */
module ReadPath {
  import opened Prelude
  import opened Raft
  import opened Kernel
  import opened CommittedConfig
  import opened KernelReceive
  import opened Delivery
  import opened Runtime
  import opened ReadFloor
  import StepOutputs

  type Kv = map<int, int>

  datatype Mutation = Write(key: int, value: int) | Cas(key: int, from: int, to: int)

  function Mutate(kv: Kv, m: Mutation): Kv {
    match m
    case Write(key, value) => kv[key := value]
    case Cas(key, from, to) => if key in kv && kv[key] == from then kv[key := to] else kv
  }

  /** The commands of the committed log, by index; `None` where the committed entry carries
      no command this host can decode. */
  type History = nat -> Option<Mutation>

  /** The key-value state after every command at or below `n`. */
  ghost function Replay(H: History, n: nat): Kv {
    if n == 0 then map[]
    else if H(n).Some? then Mutate(Replay(H, n - 1), H(n).value)
    else Replay(H, n - 1)
  }

  lemma {:induction false} ReplaySkips(H: History, a: nat, b: nat)
    requires a <= b && forall j :: a < j <= b ==> H(j).None?
    ensures Replay(H, b) == Replay(H, a)
    decreases b
  {
    if a < b {
      ReplaySkips(H, a, b - 1);
    }
  }

  /** The committed part of the retained log holds the history's commands. */
  ghost predicate Describes(H: History, k: Node) {
    k.log.base == k.snap.index && forall j: nat :: k.log.Has(j) && j <= k.commit && H(j).Some? ==> ApplicationAt(k, j)
  }

  /** What the cluster has committed up to `z`, as far as this host can decode it. */
  ghost predicate CommittedTo(L: Lineage, z: Point, decode: Kind -> Option<Mutation>, H: History) {
    && (forall kind :: decode(kind).Some? ==> kind.Application?)
    && (forall j: nat {:trigger H(j)} ::
          H(j) == if 1 <= j <= z.index then decode(L.kind(j, Back(L, z.index, z.term, j))) else None)
  }

  /** The history is what the host decodes from the committed part of the log. */
  ghost predicate Decodes(H: History, decode: Kind -> Option<Mutation>, k: Node) {
    forall j: nat :: k.log.Has(j) && j <= k.commit ==> H(j) == decode(k.log.At(j).kind)
  }

  /** A node whose commit point lies on that history holds its commands. */
  lemma HistoryDescribes(L: Lineage, z: Point, decode: Kind -> Option<Mutation>, H: History, k: Node)
    requires CommittedTo(L, z, decode, H) && NodeInv(L, k)
    requires k.TermAt(k.commit).Some? && Ancestor(L, k.CommitPoint(), z)
    ensures Describes(H, k) && Decodes(H, decode, k) && H(0).None?
  {
    forall j: nat | k.log.Has(j) && j <= k.commit ensures H(j) == decode(k.log.At(j).kind) {
      NodeLine(L, k, j, k.commit);
      BackTwice(L, z.index, z.term, k.commit, j);
      assert Linked(L, k.log, j);
    }
  }

  /** No command at or below `bound` is missing from a state applied through `a`. */
  ghost predicate Covers(H: History, bound: nat, a: nat) {
    forall j: nat :: j <= bound && H(j).Some? ==> j <= a
  }

  lemma FloorCovers(H: History, k: Node, i: nat)
    requires Describes(H, k) && H(0).None? && i <= k.commit <= k.log.Last()
    ensures Covers(H, i, FloorThrough(k, i))
  {
    FloorIsHighest(k, i);
    forall j: nat | j <= i && H(j).Some?
      ensures j <= FloorThrough(k, i)
    {
      if k.snap.index < j {
        assert k.log.Has(j) && ApplicationAt(k, j);
      }
    }
  }

  datatype Waiter = Waiter(key: int, floor: Option<nat>)

  datatype Reply = Value(value: int) | Missing

  function ReadValue(kv: Kv, key: int): Reply { if key in kv then Value(kv[key]) else Missing }

  /** Reads see writes: a write is read back, a compare-and-set takes effect exactly on the value
      it compares with, nothing else changes, and what was never written is missing. */
  lemma ReadsSeeWrites(kv: Kv, key: int, other: int, from: int, value: int)
    ensures ReadValue(map[], key) == Missing
    ensures ReadValue(Mutate(kv, Write(key, value)), key) == Value(value)
    ensures ReadValue(Mutate(kv, Cas(key, from, value)), key) ==
      if ReadValue(kv, key) == Value(from) then Value(value) else ReadValue(kv, key)
    ensures other != key ==>
      && ReadValue(Mutate(kv, Write(key, value)), other) == ReadValue(kv, other)
      && ReadValue(Mutate(kv, Cas(key, from, value)), other) == ReadValue(kv, other)
  {}

  datatype HostOutput =
    | Apply(index: nat, command: Option<Mutation>)
    | TakeSnapshot(index: nat, payload: Option<Kv>, saved: bool)
    | ReadIndexGranted(read: nat, index: nat)
    | ReadIndexRejected(read: nat)
    | ReadIndexCanceled(read: nat)
    | Unrelated

  /** A read value and the applied index it was read at. */
  datatype Answer = Answer(key: int, reply: Reply, applied: nat)

  /** What the kernel promises of an output: commands arrive in order and are those of the
      history, a snapshot payload is the state at its boundary, and a granted index is
      committed here. */
  ghost predicate Delivers(H: History, k: Node, applied: nat, o: HostOutput) {
    match o
    case Apply(i, command) => command == H(i) && forall j :: applied < j < i ==> H(j).None?
    case TakeSnapshot(i, payload, _) => payload.Some? ==> payload.value == Replay(H, i)
    case ReadIndexGranted(_, i) => i <= k.commit
    case _ => true
  }

  predicate Ready(w: Waiter, applied: nat) { w.floor.Some? && w.floor.value <= applied }

  /** A waiter's floor covers the index it was granted and asks for no more than this node
      can reach. */
  ghost predicate WaiterOk(H: History, k: Node, w: Waiter, granted: Option<nat>) {
    w.floor.Some? ==>
      && granted.Some? && Covers(H, granted.value, w.floor.value)
      && w.floor.value <= FloorThrough(k, k.commit)
  }

  /** An answer reflects every command at or below the granted index. */
  ghost predicate Fresh(H: History, a: Answer, granted: Option<nat>) {
    && granted.Some? && Covers(H, granted.value, a.applied)
    && a.reply == ReadValue(Replay(H, a.applied), a.key)
  }

  ghost function Lookup(m: map<nat, nat>, r: nat): Option<nat> { if r in m then Some(m[r]) else None }

  /** How far the state machine is after one output. */
  function AppliedAfter(applied: nat, o: HostOutput): nat {
    match o
    case Apply(i, command) => if command.Some? && applied < i then i else applied
    case TakeSnapshot(i, payload, _) => if payload.Some? then i else applied
    case _ => applied
  }

  function AppliedAfterAll(applied: nat, outs: seq<HostOutput>): nat
    decreases |outs|
  {
    if outs == [] then applied else AppliedAfterAll(AppliedAfter(applied, outs[0]), outs[1..])
  }

  ghost predicate DeliversAll(H: History, k: Node, applied: nat, outs: seq<HostOutput>)
    decreases |outs|
  {
    outs == [] || (Delivers(H, k, applied, outs[0]) && DeliversAll(H, k, AppliedAfter(applied, outs[0]), outs[1..]))
  }

  // ---------------------------------------------------------------------------
  // What becomes of reads

  /** Reads that wait, reads that were answered with a value, and reads that were answered as
      temporarily unavailable. */
  datatype Reads = Reads(pending: map<nat, Waiter>, answers: map<nat, Answer>, unavailable: set<nat>)

  predicate TurnsAway(o: HostOutput, r: nat) { o == ReadIndexRejected(r) || o == ReadIndexCanceled(r) }

  predicate Grants(o: HostOutput, r: nat) { o.ReadIndexGranted? && o.read == r }

  function FloorAfter(k: Node, o: HostOutput, r: nat, floor: Option<nat>): Option<nat> {
    if Grants(o, r) then Some(FloorThrough(k, o.index)) else floor
  }

  /** After this output the waiting reads are looked through. */
  predicate Flushes(o: HostOutput, before: nat, after: nat) {
    || o.ReadIndexGranted?
    || (o.Apply? && before < after)
    || (o.TakeSnapshot? && o.payload.Some? && o.saved)
  }

  /** A read that one output does not concern is left alone; one that it turns away is told so;
      one that it grants, or that waits already, is answered at the state reached, if the
      output has the reads looked through and the floor is reached, and waits on otherwise. */
  ghost predicate Treats(o: HostOutput, k: Node, before: nat, after: nat, was: Reads, now: Reads, r: nat) {
    if r !in was.pending then SameRead(was, now, r)
    else if TurnsAway(o, r) then r !in now.pending && r !in now.answers && r in now.unavailable
    else
      var w := Waiter(was.pending[r].key, FloorAfter(k, o, r, was.pending[r].floor));
      && r !in now.unavailable
      && if Flushes(o, before, after) && w.floor.Some? && w.floor.value <= after then
           r !in now.pending && r in now.answers && now.answers[r].key == w.key && now.answers[r].applied == after
         else
           r in now.pending && now.pending[r] == w && r !in now.answers
  }

  ghost predicate SameRead(was: Reads, now: Reads, r: nat) {
    && r !in now.pending && (r in now.unavailable <==> r in was.unavailable)
    && (r in now.answers <==> r in was.answers) && (r in was.answers ==> now.answers[r] == was.answers[r])
  }

  ghost predicate TreatsAll(o: HostOutput, k: Node, before: nat, after: nat, was: Reads, now: Reads) {
    forall r: nat :: Treats(o, k, before, after, was, now, r)
  }

  predicate TurnedAway(outs: seq<HostOutput>, r: nat) { exists o :: o in outs && TurnsAway(o, r) }

  predicate Granted(outs: seq<HostOutput>, r: nat) { exists o :: o in outs && Grants(o, r) }

  /** The floor that the last grant among the outputs sets. */
  function FloorAfterAll(k: Node, outs: seq<HostOutput>, r: nat, floor: Option<nat>): Option<nat> {
    if outs == [] then floor
    else FloorAfter(k, outs[|outs| - 1], r, FloorAfterAll(k, outs[..|outs| - 1], r, floor))
  }

  /** What becomes of a read over a list of outputs: it waits, under the floor of its last
      grant, or is answered, which takes a grant, or is told that it was turned away, which
      takes that; and never is it forgotten. */
  ghost predicate Served(k: Node, outs: seq<HostOutput>, was: Reads, now: Reads, r: nat) {
    if r !in was.pending then SameRead(was, now, r)
    else
      var w := was.pending[r];
      && (r in now.pending ==>
            && !TurnedAway(outs, r) && r !in now.answers && r !in now.unavailable
            && now.pending[r] == Waiter(w.key, FloorAfterAll(k, outs, r, w.floor)))
      && (r in now.answers ==>
            now.answers[r].key == w.key && r !in now.unavailable && (w.floor.Some? || Granted(outs, r)))
      && (r in now.unavailable ==> TurnedAway(outs, r))
      && (r in now.pending || r in now.answers || r in now.unavailable)
  }

  ghost predicate ServedAll(k: Node, outs: seq<HostOutput>, was: Reads, now: Reads) {
    forall r: nat :: Served(k, outs, was, now, r)
  }

  /** No read waits whose floor has been reached. */
  ghost predicate Flushed(pending: map<nat, Waiter>, applied: nat) {
    forall r :: r in pending ==> !Ready(pending[r], applied)
  }

  /** A snapshot that was taken over and could not be saved. */
  predicate Unsaved(o: HostOutput) { o.TakeSnapshot? && o.payload.Some? && !o.saved }

  predicate AllSaved(outs: seq<HostOutput>) { forall o :: o in outs ==> !Unsaved(o) }

  lemma ServedNothing(k: Node, was: Reads)
    requires was.pending.Keys !! was.answers.Keys && was.pending.Keys !! was.unavailable
    ensures ServedAll(k, [], was, was)
  {}

  lemma ServedOneMore(
    k: Node, outs: seq<HostOutput>, o: HostOutput, before: nat, after: nat, was: Reads, mid: Reads, now: Reads, r: nat)
    requires Served(k, outs, was, mid, r) && Treats(o, k, before, after, mid, now, r)
    requires r in was.pending ==> mid.pending.Keys !! mid.answers.Keys
    ensures Served(k, outs + [o], was, now, r)
  {
    hide FloorThrough, Flushes, TurnsAway, Grants, TurnedAway, Granted;
    var all := outs + [o];
    assert all[..|outs|] == outs && all[|outs|] == o;
    OneMoreOutput(outs, o, r);
    if r in was.pending {
      FloorFromGrant(k, outs, r, was.pending[r].floor);
    }
  }

  lemma OneMoreOutput(outs: seq<HostOutput>, o: HostOutput, r: nat)
    ensures TurnedAway(outs + [o], r) <==> TurnedAway(outs, r) || TurnsAway(o, r)
    ensures Granted(outs + [o], r) <==> Granted(outs, r) || Grants(o, r)
  {
    assert o in outs + [o] && forall x :: x in outs ==> x in outs + [o];
  }

  lemma {:induction false} FloorFromGrant(k: Node, outs: seq<HostOutput>, r: nat, floor: Option<nat>)
    ensures FloorAfterAll(k, outs, r, floor).Some? ==> floor.Some? || Granted(outs, r)
    decreases |outs|
  {
    hide FloorThrough, Granted, Grants;
    if outs != [] {
      var n := |outs| - 1;
      FloorFromGrant(k, outs[..n], r, floor);
      OneMoreOutput(outs[..n], outs[n], r);
      assert outs[..n] + [outs[n]] == outs;
    }
  }

  /** What becomes of a granted read over a list of outputs, if it is not turned away: it is
      answered as soon as the host has reached the floor of a grant. */
  lemma GrantedAnswered(k: Node, outs: seq<HostOutput>, was: Reads, now: Reads, applied: nat, r: nat, index: nat)
    requires ServedAll(k, outs, was, now) && Flushed(now.pending, applied)
    requires r in was.pending && ReadIndexGranted(r, index) in outs
    requires ReadIndexRejected(r) !in outs && ReadIndexCanceled(r) !in outs
    ensures r in now.answers <==> r !in now.pending
    ensures r in now.pending ==> exists i ::
      ReadIndexGranted(r, i) in outs && now.pending[r].floor == Some(FloorThrough(k, i)) && FloorThrough(k, i) > applied
  {
    hide FloorThrough;
    assert Grants(ReadIndexGranted(r, index), r);
    assert Served(k, outs, was, now, r);
    if r in now.pending {
      var o := LastGrant(k, outs, r, was.pending[r].floor);
      assert !Ready(now.pending[r], applied);
      assert o == ReadIndexGranted(r, o.index);
    }
  }

  lemma {:induction false} LastGrant(k: Node, outs: seq<HostOutput>, r: nat, floor: Option<nat>) returns (o: HostOutput)
    requires Granted(outs, r)
    ensures o in outs && Grants(o, r) && FloorAfterAll(k, outs, r, floor) == Some(FloorThrough(k, o.index))
    decreases |outs|
  {
    hide FloorThrough;
    var n := |outs| - 1;
    o := outs[n];
    if !Grants(o, r) {
      assert outs == outs[..n] + [outs[n]];
      o := LastGrant(k, outs[..n], r, floor);
    }
  }

  /** The one way for a read to wait although its floor has been reached. */
  lemma UnsavedLeavesReady(o: HostOutput, k: Node, before: nat, after: nat, was: Reads, now: Reads, r: nat)
    requires Treats(o, k, before, after, was, now, r) && r in was.pending && !TurnsAway(o, r)
    requires !Ready(was.pending[r], before) && after == AppliedAfter(before, o)
    ensures r in now.pending && Ready(now.pending[r], after) <==> Unsaved(o) && Ready(was.pending[r], after)
  {
    hide FloorThrough;
  }

  /** The reads after they were looked through. */
  function LookedThrough(all: Reads, kv: Kv, applied: nat): Reads {
    var ready := ReadyReads(all.pending, applied);
    all.(pending := all.pending - ready, answers := all.answers + AnswersFor(all.pending, ready, kv, applied))
  }

  lemma FlushTreats(o: HostOutput, k: Node, before: nat, after: nat, was: Reads, kv: Kv, mid: Reads)
    requires Flushes(o, before, after) && mid == was.(pending := mid.pending)
    requires was.pending.Keys !! was.answers.Keys && was.pending.Keys !! was.unavailable
    requires mid.pending.Keys == was.pending.Keys
    requires forall r :: r in mid.pending ==>
      mid.pending[r] == Waiter(was.pending[r].key, FloorAfter(k, o, r, was.pending[r].floor))
    ensures TreatsAll(o, k, before, after, was, LookedThrough(mid, kv, after))
  {
    hide FloorThrough, ReadValue, FloorAfter;
    forall r: nat ensures Treats(o, k, before, after, was, LookedThrough(mid, kv, after), r) {}
  }

  lemma NoFlushTreats(o: HostOutput, k: Node, before: nat, after: nat, was: Reads)
    requires !Flushes(o, before, after) && !o.ReadIndexRejected? && !o.ReadIndexCanceled?
    requires was.pending.Keys !! was.answers.Keys && was.pending.Keys !! was.unavailable
    ensures TreatsAll(o, k, before, after, was, was)
  {
    forall r: nat ensures Treats(o, k, before, after, was, was, r) {}
  }

  lemma TurnAwayTreats(o: HostOutput, k: Node, at: nat, was: Reads, r: nat)
    requires o == ReadIndexRejected(r) || o == ReadIndexCanceled(r)
    requires was.pending.Keys !! was.answers.Keys && was.pending.Keys !! was.unavailable
    ensures TreatsAll(o, k, at, at, was, Without(was, r))
  {
    forall q: nat ensures Treats(o, k, at, at, was, Without(was, r), q) {}
  }

  function Without(all: Reads, r: nat): Reads {
    if r in all.pending then all.(pending := all.pending - {r}, unavailable := all.unavailable + {r}) else all
  }

  /** Reads stay looked through, but for a snapshot that could not be saved. */
  lemma StaysFlushed(o: HostOutput, k: Node, before: nat, was: Reads, now: Reads)
    requires TreatsAll(o, k, before, AppliedAfter(before, o), was, now)
    requires Flushed(was.pending, before) && !Unsaved(o)
    ensures Flushed(now.pending, AppliedAfter(before, o))
  {
    hide FloorThrough;
    forall r | r in now.pending ensures !Ready(now.pending[r], AppliedAfter(before, o)) {
      assert Treats(o, k, before, AppliedAfter(before, o), was, now, r);
    }
  }

  class Host {
    var node: Node
    var applied: nat
    var kv: Kv
    var pending: map<nat, Waiter>
    var answers: map<nat, Answer>
    var unavailable: set<nat>
    /** The index each read was granted. */
    ghost var granted: map<nat, nat>

    ghost predicate Valid(H: History)
      reads this
    {
      && Describes(H, node) && H(0).None? && node.commit <= node.log.Last()
      && kv == Replay(H, applied)
      && pending.Keys !! answers.Keys && pending.Keys !! unavailable && answers.Keys !! unavailable
      && (forall r :: r in pending ==> WaiterOk(H, node, pending[r], Lookup(granted, r)))
      && (forall r :: r in answers ==> Fresh(H, answers[r], Lookup(granted, r)))
    }

    ghost function AllReads(): Reads
      reads this
    {
      Reads(pending, answers, unavailable)
    }

    /** Answers every read whose floor has been reached, keeps the others waiting, and
        touches no earlier answer. */
    method FlushReads(ghost H: History)
      requires Valid(H)
      modifies this`pending, this`answers
      ensures Valid(H)
      ensures AllReads() == LookedThrough(old(AllReads()), kv, applied)
    {
      hide Valid, ReadValue, Ready;
      var ready := ReadyReads(pending, applied);
      ghost var all, done: set<nat> := ready, {};
      while ready != {}
        invariant done + ready == all && done !! ready
        invariant pending == old(pending) - done
        invariant answers == old(answers) + AnswersFor(old(pending), done, kv, applied)
        decreases |ready|
      {
        var r :| r in ready;
        var waiter := pending[r];
        AnsweredOneMore(old(answers), old(pending), done, r, kv, applied);
        answers := answers[r := Answer(waiter.key, ReadValue(kv, waiter.key), applied)];
        pending := pending - {r};
        ready, done := ready - {r}, done + {r};
      }
      assert done == all;
      FlushKeeps(H);
    }

    /** Opens a read under an identifier never used before. */
    method StartRead(ghost H: History, r: nat, key: int)
      requires Valid(H) && r !in pending && r !in answers && r !in unavailable
      modifies this`pending
      ensures Valid(H) && pending == old(pending)[r := Waiter(key, None)]
    {
      pending := pending[r := Waiter(key, None)];
    }

    /** Resolves a granted read's floor once. */
    method SetFloor(ghost H: History, r: nat, index: nat)
      requires Valid(H) && index <= node.commit
      modifies this`pending, this`granted
      ensures Valid(H)
      ensures r in old(pending) ==>
        && granted == old(granted)[r := index]
        && pending == old(pending)[r := Waiter(old(pending)[r].key, Some(FloorThrough(node, index)))]
      ensures r !in old(pending) ==> granted == old(granted) && pending == old(pending)
    {
      hide FloorThrough;
      FloorCovers(H, node, index);
      FloorMonotone(node, index, node.commit);
      var floor := FloorThrough(node, index);
      if r in pending {
        granted := granted[r := index];
        pending := pending[r := pending[r].(floor := Some(floor))];
      }
    }

    /** Then answers what can be answered. */
    method Grant(ghost H: History, r: nat, index: nat)
      requires Valid(H) && index <= node.commit
      modifies this`pending, this`answers, this`granted
      ensures Valid(H)
      ensures granted == if r in old(pending) then old(granted)[r := index] else old(granted)
      ensures TreatsAll(ReadIndexGranted(r, index), node, applied, applied, old(AllReads()), AllReads())
    {
      hide FloorThrough, Treats, LookedThrough, TreatsAll, Valid;
      ReadsApart(H);
      SetFloor(H, r, index);
      FlushTreats(ReadIndexGranted(r, index), node, applied, applied, old(AllReads()), kv, AllReads());
      FlushReads(H);
    }

    method HandleApply(ghost H: History, index: nat, command: Option<Mutation>)
      requires Valid(H) && Delivers(H, node, applied, Apply(index, command))
      modifies this`applied, this`kv, this`pending, this`answers
      ensures Valid(H) && applied == AppliedAfter(old(applied), Apply(index, command))
      ensures TreatsAll(Apply(index, command), node, old(applied), applied, old(AllReads()), AllReads())
    {
      hide Treats, LookedThrough, TreatsAll;
      if command.None? || index <= applied {
        NoFlushTreats(Apply(index, command), node, applied, applied, AllReads());
        return;
      }
      ReplaySkips(H, applied, index - 1);
      kv := Mutate(kv, command.value);
      applied := index;
      FlushTreats(Apply(index, command), node, old(applied), applied, AllReads(), kv, AllReads());
      FlushReads(H);
    }

    /** A snapshot from the leader: taken over if it can be read; the reads are looked through
        once it is saved. */
    method HandleSnapshot(ghost H: History, index: nat, payload: Option<Kv>, saved: bool)
      requires Valid(H) && Delivers(H, node, applied, TakeSnapshot(index, payload, saved))
      modifies this`applied, this`kv, this`pending, this`answers
      ensures Valid(H) && applied == AppliedAfter(old(applied), TakeSnapshot(index, payload, saved))
      ensures payload.Some? ==> kv == payload.value
      ensures TreatsAll(TakeSnapshot(index, payload, saved), node, old(applied), applied, old(AllReads()), AllReads())
    {
      hide Treats, LookedThrough, TreatsAll;
      ghost var o := TakeSnapshot(index, payload, saved);
      if payload.Some? {
        kv, applied := payload.value, index;
        if saved {
          FlushTreats(o, node, old(applied), applied, AllReads(), kv, AllReads());
          FlushReads(H);
          return;
        }
      }
      NoFlushTreats(o, node, old(applied), applied, AllReads());
    }

    /** A read that the kernel will not grant is told so. */
    method TurnAway(ghost H: History, r: nat)
      requires Valid(H)
      modifies this`pending, this`unavailable
      ensures Valid(H) && AllReads() == Without(old(AllReads()), r)
    {
      if r in pending {
        unavailable := unavailable + {r};
        pending := pending - {r};
      }
    }

    /** One output: where the state machine is afterwards, what becomes of every read, and
        that none waits whose floor has been reached unless a snapshot could not be saved. */
    method HandleOutput(ghost H: History, o: HostOutput)
      requires Valid(H) && Delivers(H, node, applied, o)
      modifies this`applied, this`kv, this`pending, this`answers, this`unavailable, this`granted
      ensures Valid(H) && applied == AppliedAfter(old(applied), o)
      ensures o.Apply? && o.command.Some? && old(applied) < o.index ==> applied == o.index
      ensures o.TakeSnapshot? && o.payload.Some? ==> applied == o.index && kv == o.payload.value
      ensures TreatsAll(o, node, old(applied), applied, old(AllReads()), AllReads())
      ensures o.ReadIndexGranted? && o.read in old(pending) ==> granted == old(granted)[o.read := o.index]
      ensures !(o.ReadIndexGranted? && o.read in old(pending)) ==> granted == old(granted)
      ensures old(Flushed(pending, applied)) && !Unsaved(o) ==> Flushed(pending, applied)
    {
      hide Valid, FloorThrough, Treats, TreatsAll, Flushed, Without;
      ReadsApart(H);
      match o {
      case Apply(index, command) => HandleApply(H, index, command);
      case TakeSnapshot(index, payload, saved) => HandleSnapshot(H, index, payload, saved);
      case ReadIndexGranted(r, index) => Grant(H, r, index);
      case ReadIndexRejected(r) => TurnAwayTreats(o, node, applied, AllReads(), r); TurnAway(H, r);
      case ReadIndexCanceled(r) => TurnAwayTreats(o, node, applied, AllReads(), r); TurnAway(H, r);
      case Unrelated => NoFlushTreats(o, node, applied, applied, AllReads());
      }
      if old(Flushed(pending, applied)) && !Unsaved(o) {
        StaysFlushed(o, node, old(applied), old(AllReads()), AllReads());
      }
    }

    /** The outputs of one step, in order. */
    method HandleOutputs(ghost H: History, outputs: seq<HostOutput>)
      requires Valid(H) && DeliversAll(H, node, applied, outputs)
      modifies this`applied, this`kv, this`pending, this`answers, this`unavailable, this`granted
      ensures Valid(H) && applied == AppliedAfterAll(old(applied), outputs)
      ensures ServedAll(node, outputs, old(AllReads()), AllReads())
      ensures old(Flushed(pending, applied)) && AllSaved(outputs) ==> Flushed(pending, applied)
    {
      hide Valid, Delivers, AppliedAfter, ServedAll, Flushed, TreatsAll;
      var i := 0;
      ReadsApart(H);
      ServedNothing(node, AllReads());
      assert outputs[0..] == outputs && outputs[..0] == [];
      while i < |outputs|
        invariant 0 <= i <= |outputs|
        invariant Valid(H) && DeliversAll(H, node, applied, outputs[i..])
        invariant AppliedAfterAll(applied, outputs[i..]) == AppliedAfterAll(old(applied), outputs)
        invariant ServedAll(node, outputs[..i], old(AllReads()), AllReads())
        invariant old(Flushed(pending, applied)) && AllSaved(outputs) ==> Flushed(pending, applied)
      {
        ghost var mid, before := AllReads(), applied;
        ReadsApart(H);
        assert outputs[i..][1..] == outputs[i + 1..] && outputs[i] in outputs;
        HandleOutput(H, outputs[i]);
        ServedAllMore(node, outputs[..i], outputs[i], before, applied, old(AllReads()), mid, AllReads());
        assert outputs[..i] + [outputs[i]] == outputs[..i + 1];
        i := i + 1;
      }
      assert outputs[..i] == outputs;
    }

    lemma ReadsApart(H: History)
      requires Valid(H)
      ensures pending.Keys !! answers.Keys && pending.Keys !! unavailable
    {}

    /** The kernel moves on along the committed history: no waiter's floor moves out of its
        reach. */
    method Advance(
      ghost H: History, ghost L: Lineage, ghost z: Point, ghost decode: Kind -> Option<Mutation>, ms: seq<Move>)
      requires Valid(H) && NodeInv(L, node) && Guarded(L, node, ms) && CommittedTo(L, z, decode, H)
      requires
        var after := ApplyAll(node, ms);
        after.TermAt(after.commit).Some? ==> Ancestor(L, after.CommitPoint(), z)
      modifies this`node
      ensures Valid(H) && node == ApplyAll(old(node), ms)
    {
      hide CommittedTo;
      ghost var c := node.commit;
      StepKept(L, node, ms);
      HistoryDescribes(L, z, decode, H, ApplyAll(node, ms));
      FloorGrows(L, node, ms, c);
      node := ApplyAll(node, ms);
      FloorMonotone(node, c, node.commit);
    }

    /** The host compacts its own log: floors stay within reach. */
    method Compact(ghost H: History, ghost L: Lineage, ghost rules: Rules, s: Snapshot)
      requires Valid(H) && NodeInv(L, node) && LocalSnapshotRefusal(rules, node, s).None?
      modifies this`node
      ensures Valid(H) && node == LocallyCompacted(old(node), s)
    {
      FloorCompacts(L, rules, node, s, node.commit);
      node := LocallyCompacted(node, s);
    }

    twostate lemma FlushKeeps(H: History)
      requires old(Valid(H))
      requires unchanged(`node, `applied, `kv, `granted, `unavailable)
      requires pending == old(pending) - ReadyReads(old(pending), applied)
      requires answers == old(answers) + AnswersFor(old(pending), ReadyReads(old(pending), applied), kv, applied)
      ensures Valid(H)
    {
      hide Covers, FloorThrough, Replay;
      forall r | r in answers ensures Fresh(H, answers[r], Lookup(granted, r)) {
        if r in ReadyReads(old(pending), applied) {
          ReadyIsFresh(H, node, old(pending[r]), Lookup(granted, r), applied);
        }
      }
    }
  }

  lemma ServedAllMore(
    k: Node, outs: seq<HostOutput>, o: HostOutput, before: nat, after: nat, was: Reads, mid: Reads, now: Reads)
    requires ServedAll(k, outs, was, mid) && TreatsAll(o, k, before, after, mid, now)
    requires mid.pending.Keys !! mid.answers.Keys
    ensures ServedAll(k, outs + [o], was, now)
  {
    hide Served, Treats;
    forall r: nat ensures Served(k, outs + [o], was, now, r) {
      ServedOneMore(k, outs, o, before, after, was, mid, now, r);
    }
  }

  function ReadyReads(pending: map<nat, Waiter>, applied: nat): set<nat> {
    set r | r in pending && Ready(pending[r], applied)
  }

  function AnswersFor(pending: map<nat, Waiter>, ids: set<nat>, kv: Kv, applied: nat): map<nat, Answer> {
    map r | r in ids && r in pending :: Answer(pending[r].key, ReadValue(kv, pending[r].key), applied)
  }

  lemma AnsweredOneMore(before: map<nat, Answer>, pending: map<nat, Waiter>, done: set<nat>, r: nat, kv: Kv,
    applied: nat)
    requires r in pending
    ensures
      var a := Answer(pending[r].key, ReadValue(kv, pending[r].key), applied);
      (before + AnswersFor(pending, done, kv, applied))[r := a] == before + AnswersFor(pending, done + {r}, kv, applied)
    ensures (pending - done) - {r} == pending - (done + {r})
  {
    hide ReadValue;
    var a := Answer(pending[r].key, ReadValue(kv, pending[r].key), applied);
    assert AnswersFor(pending, done + {r}, kv, applied) == AnswersFor(pending, done, kv, applied)[r := a];
  }

  /** A host that has applied every committed application entry and its snapshot boundary
      has reached every floor, so a flush leaves no granted read waiting. */
  lemma CaughtUp(k: Node, applied: nat)
    requires k.log.base == k.snap.index && k.snap.index <= applied
    requires forall j: nat :: ApplicationAt(k, j) && j <= k.commit ==> j <= applied
    ensures FloorThrough(k, k.commit) <= applied
  {
    FloorIsHighest(k, k.commit);
  }

  lemma NoneLeftWaiting(H: History, k: Node, pending: map<nat, Waiter>, granted: map<nat, nat>, applied: nat)
    requires k.log.base == k.snap.index && k.snap.index <= applied
    requires forall j: nat :: ApplicationAt(k, j) && j <= k.commit ==> j <= applied
    requires forall r :: r in pending ==> WaiterOk(H, k, pending[r], Lookup(granted, r))
    ensures forall r :: r in pending - ReadyReads(pending, applied) ==> pending[r].floor.None?
  {
    CaughtUp(k, applied);
  }

  /** A host that has been told of everything committed up to `n`: it stands at the snapshot
      boundary or at the last command it could decode. */
  ghost predicate HandledThrough(H: History, k: Node, n: nat, applied: nat) {
    && k.snap.index <= applied
    && (applied > k.snap.index ==> H(applied).Some? && applied <= n)
    && forall j: nat :: k.snap.index < j <= n && H(j).Some? ==> j <= applied
  }

  /** What the host makes of an output that delivers an entry. */
  function Told(decode: Kind -> Option<Mutation>, o: Output): HostOutput {
    if o.ApplyEntry? then Apply(o.index, decode(Application(o.payload))) else Unrelated
  }

  function ToldAll(decode: Kind -> Option<Mutation>, outs: seq<Output>): seq<HostOutput> {
    if outs == [] then [] else [Told(decode, outs[0])] + ToldAll(decode, outs[1..])
  }

  /** What the kernel's delivery of the entries above `from`, through `end`, tells the host. */
  function HostDeliveries(decode: Kind -> Option<Mutation>, k: Node, from: nat, end: nat): seq<HostOutput> {
    ToldAll(decode, StepOutputs.OutputsFrom(DeliverMoves(k.log, from, end)))
  }

  lemma DeliveredFirst(decode: Kind -> Option<Mutation>, k: Node, from: nat, end: nat)
    requires from < end && k.log.Has(from + 1)
    ensures
      var at := from + 1;
      HostDeliveries(decode, k, from, end) ==
      (match k.log.At(at).kind
       case Application(payload) => [Apply(at, decode(Application(payload)))]
       case Configuration(_) => [Unrelated]
       case Noop => [])
      + HostDeliveries(decode, k, at, end)
  {
    hide StepOutputs.OutputsFrom, DeliverMoves;
    DeliverOutputs(k.log, from, end);
    var rest := StepOutputs.OutputsFrom(DeliverMoves(k.log, from + 1, end));
    var all := StepOutputs.OutputsFrom(DeliverMoves(k.log, from, end));
    if k.log.At(from + 1).kind.Noop? {
      assert all == rest;
    } else {
      assert all[1..] == rest;
    }
  }

  /** Handling what the kernel delivers brings a host there. */
  lemma {:induction false} AppliesHandled(
    H: History, decode: Kind -> Option<Mutation>, k: Node, from: nat, end: nat, applied: nat)
    requires Describes(H, k) && Decodes(H, decode, k) && k.snap.index <= from <= end <= k.commit <= k.log.Last()
    requires HandledThrough(H, k, from, applied)
    ensures DeliversAll(H, k, applied, HostDeliveries(decode, k, from, end))
    ensures HandledThrough(H, k, end, AppliedAfterAll(applied, HostDeliveries(decode, k, from, end)))
    decreases end - from
  {
    hide HostDeliveries;
    if from == end {
      NothingTold(decode, k, end);
    } else {
      var at := from + 1;
      var outs, rest := HostDeliveries(decode, k, from, end), HostDeliveries(decode, k, at, end);
      assert k.log.Has(at);
      DeliveredFirst(decode, k, from, end);
      if k.log.At(at).kind.Noop? {
        assert outs == rest;
        AppliesHandled(H, decode, k, at, end, applied);
      } else {
        assert outs[1..] == rest;
        AppliesHandled(H, decode, k, at, end, AppliedAfter(applied, outs[0]));
      }
    }
  }

  lemma NothingTold(decode: Kind -> Option<Mutation>, k: Node, at: nat)
    ensures HostDeliveries(decode, k, at, at) == []
  {}

  /** Exactly when a read granted at `i` still waits on a host that has handled everything:
      its floor is an application entry that cannot be decoded, with nothing after it that
      can. */
  lemma WaitsIff(H: History, k: Node, i: nat, applied: nat)
    requires Describes(H, k) && i <= k.commit && HandledThrough(H, k, k.commit, applied)
    ensures
      var f := FloorThrough(k, i);
      f > applied <==> k.snap.index < f && forall j :: f <= j <= k.commit ==> H(j).None?
  {
    FloorIsHighest(k, i);
  }

  const UNREADABLE := Node(1, None, 1, 1, None, NO_SNAPSHOT, Log(0, [Entry(1, Application(0))]), None)

  /** Such a read exists: one committed entry that no host can decode. */
  lemma ReadStalls(H: History)
    requires forall j :: H(j).None?
    ensures Describes(H, UNREADABLE) && HandledThrough(H, UNREADABLE, UNREADABLE.commit, 0)
    ensures FloorThrough(UNREADABLE, 1) > 0
  {
    FloorIsHighest(UNREADABLE, 1);
    assert ApplicationAt(UNREADABLE, 1);
  }

  lemma ReadyIsFresh(H: History, k: Node, w: Waiter, granted: Option<nat>, applied: nat)
    requires WaiterOk(H, k, w, granted) && Ready(w, applied)
    ensures Fresh(H, Answer(w.key, ReadValue(Replay(H, applied), w.key), applied), granted)
  {}
}
