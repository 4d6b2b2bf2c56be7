/** Credit accounting of the log-retirement worker
    (crates/rafter-runtime/src/log_retirement.rs): any number of submitters and one worker,
    interleaved at their atomic operations. */
module LogRetirement {

  import opened Prelude

  /** The size of a retired prefix. */
  datatype Prefix = Prefix(entries: nat, bytes: nat)

  datatype Refusal = Full | Stopped

  /** Where one submitted prefix is. */
  datatype Phase =
    // with its submitter
    | Called                       // sized, nothing reserved
    | HoldsEntries                 // entry credits reserved
    | ReturnsEntries               // byte credits refused, entry credits still held
    | HoldsBoth                    // ready to send
    | ReleasesBoth                 // could not send, both credits still held
    | ReleasesBytes                // entry credits released, byte credits still held
    | HandedBack(why: Refusal)
    | Empty                        // an empty prefix, accepted without credits
    // with the worker
    | Queued
    | Dropping                     // received, not yet dropped
    | Dropped                      // dropped, both credits still held
    | Settling                     // entry credits released
    | Retired
    | Abandoned                    // lost to a panic of the worker

  /** `drops` counts how often the worker has dropped the prefix. */
  datatype Submission = Submission(prefix: Prefix, phase: Phase, drops: nat)

  datatype Worker = Waiting | Busy(job: nat) | Exited | Panicked

  /** Submissions are named by their position. */
  datatype Pool = Pool(
    maxEntries: nat, maxBytes: nat,
    entries: nat, bytes: nat,
    subs: seq<Submission>, queue: seq<nat>, worker: Worker, open: bool)

  /** A new call; the next atomic operation of one submitter; the next of the worker; the
      worker leaving its loop or unwinding; the owner closing the channel, which it can do
      only while no submission is in progress. */
  datatype Action = Call(prefix: Prefix) | Submit(i: nat) | Work | Exit | Panic | Close

  /** `fetch_sub` wraps around. */
  function WrapSub(a: nat, b: nat): nat {
    if b <= a then a - b else (a - b) % (USIZE_MAX + 1)
  }

  /** `reserve`: the counter moves only if it stays within its limit. */
  predicate Fits(counter: nat, amount: nat, limit: nat) {
    counter + amount <= USIZE_MAX && counter + amount <= limit
  }

  predicate InHand(s: Submission) {
    match s.phase
    case Called | HoldsEntries | ReturnsEntries | HoldsBoth | ReleasesBoth | ReleasesBytes => true
    case _ => false
  }

  predicate WithWorker(s: Submission) { s.phase.Dropping? || s.phase.Dropped? || s.phase.Settling? }

  function To(p: Pool, i: nat, phase: Phase): Pool
    requires i < |p.subs|
  {
    p.(subs := p.subs[i := p.subs[i].(phase := phase)])
  }

  /** The next operation of submission `i`. */
  function SubmitStep(p: Pool, i: nat): Pool
    requires i < |p.subs| && InHand(p.subs[i])
  {
    var size := p.subs[i].prefix;
    match p.subs[i].phase
    case Called =>
      if Fits(p.entries, size.entries, p.maxEntries)
      then To(p, i, HoldsEntries).(entries := p.entries + size.entries) else To(p, i, HandedBack(Full))
    case HoldsEntries =>
      if Fits(p.bytes, size.bytes, p.maxBytes)
      then To(p, i, HoldsBoth).(bytes := p.bytes + size.bytes) else To(p, i, ReturnsEntries)
    case ReturnsEntries => To(p, i, HandedBack(Full)).(entries := WrapSub(p.entries, size.entries))
    case HoldsBoth =>
      if p.open && !p.worker.Panicked? then To(p, i, Queued).(queue := p.queue + [i]) else To(p, i, ReleasesBoth)
    case ReleasesBoth => To(p, i, ReleasesBytes).(entries := WrapSub(p.entries, size.entries))
    case ReleasesBytes => To(p, i, HandedBack(Stopped)).(bytes := WrapSub(p.bytes, size.bytes))
  }

  /** The next operation of the worker on its job. */
  function JobStep(p: Pool, i: nat): Pool
    requires i < |p.subs| && WithWorker(p.subs[i])
  {
    var size := p.subs[i].prefix;
    match p.subs[i].phase
    case Dropping => p.(subs := p.subs[i := p.subs[i].(phase := Dropped, drops := p.subs[i].drops + 1)])
    case Dropped => To(p, i, Settling).(entries := WrapSub(p.entries, size.entries))
    case Settling => To(p, i, Retired).(worker := Waiting, bytes := WrapSub(p.bytes, size.bytes))
  }

  predicate Enabled(p: Pool, a: Action) {
    match a
    case Call(_) => true
    case Submit(i) => i < |p.subs| && InHand(p.subs[i])
    case Work =>
      || (p.worker.Waiting? && p.queue != [] && p.queue[0] < |p.subs|)
      || (p.worker.Busy? && p.worker.job < |p.subs| && WithWorker(p.subs[p.worker.job]))
    case Exit => p.worker.Waiting? && p.queue == [] && !p.open
    case Panic => p.worker.Busy? && p.worker.job < |p.subs| && p.subs[p.worker.job].phase.Dropping?
    case Close => p.open && forall s :: s in p.subs ==> !InHand(s)
  }

  function Step(p: Pool, a: Action): Pool
    requires Enabled(p, a)
  {
    match a
    case Call(prefix) => p.(subs := p.subs + [Submission(prefix, if prefix.entries == 0 then Empty else Called, 0)])
    case Submit(i) => SubmitStep(p, i)
    case Work =>
      if p.worker.Busy? then JobStep(p, p.worker.job)
      else To(p, p.queue[0], Dropping).(worker := Busy(p.queue[0]), queue := p.queue[1..])
    case Exit => p.(worker := Exited)
    case Panic => p.(worker := Panicked, queue := [], subs := Abandon(p.subs))
    case Close => p.(open := false)
  }

  /** A panic unwinds the worker: its job and everything queued are gone, unsettled. */
  function Abandon(subs: seq<Submission>): (r: seq<Submission>)
    ensures |r| == |subs|
    ensures forall i :: 0 <= i < |subs| ==>
      r[i] == if subs[i].phase.Queued? || subs[i].phase.Dropping? then subs[i].(phase := Abandoned) else subs[i]
  {
    seq(|subs|, i requires 0 <= i < |subs| =>
      if subs[i].phase.Queued? || subs[i].phase.Dropping? then subs[i].(phase := Abandoned) else subs[i])
  }

  // ---------------------------------------------------------------------------
  // Outstanding reservations

  function HeldEntries(s: Submission): nat {
    match s.phase
    case HoldsEntries | ReturnsEntries | HoldsBoth | ReleasesBoth => s.prefix.entries
    case Queued | Dropping | Dropped | Abandoned => s.prefix.entries
    case _ => 0
  }

  function HeldBytes(s: Submission): nat {
    match s.phase
    case HoldsBoth | ReleasesBoth | ReleasesBytes | Queued | Dropping | Dropped | Settling | Abandoned => s.prefix.bytes
    case _ => 0
  }

  function Sum(subs: seq<Submission>, held: Submission -> nat): nat {
    if subs == [] then 0 else held(subs[0]) + Sum(subs[1..], held)
  }

  lemma {:induction false} SumUpdate(subs: seq<Submission>, i: nat, s: Submission, held: Submission -> nat)
    requires i < |subs|
    ensures Sum(subs[i := s], held) == Sum(subs, held) - held(subs[i]) + held(s)
    ensures held(subs[i]) <= Sum(subs, held)
    decreases |subs|
  {
    if i == 0 {
      assert subs[0 := s][1..] == subs[1..];
    } else {
      assert subs[i := s][1..] == subs[1..][i - 1 := s];
      SumUpdate(subs[1..], i - 1, s, held);
    }
  }

  lemma {:induction false} SumSame(a: seq<Submission>, b: seq<Submission>, held: Submission -> nat)
    requires |a| == |b| && forall i :: 0 <= i < |a| ==> held(a[i]) == held(b[i])
    ensures Sum(a, held) == Sum(b, held)
    decreases |a|
  {
    if a != [] {
      SumSame(a[1..], b[1..], held);
    }
  }

  lemma {:induction false} SumAppend(subs: seq<Submission>, s: Submission, held: Submission -> nat)
    ensures Sum(subs + [s], held) == Sum(subs, held) + held(s)
    decreases |subs|
  {
    if subs == [] {
      assert [s][1..] == [];
    } else {
      assert (subs + [s])[1..] == subs[1..] + [s];
      SumAppend(subs[1..], s, held);
    }
  }

  lemma {:induction false} SumZero(subs: seq<Submission>, held: Submission -> nat)
    requires forall i :: 0 <= i < |subs| ==> held(subs[i]) == 0
    ensures Sum(subs, held) == 0
    decreases |subs|
  {
    if subs != [] {
      SumZero(subs[1..], held);
    }
  }

  /** Both counters are exactly the outstanding reservations, within their limits. */
  ghost predicate Balanced(p: Pool) {
    && p.entries == Sum(p.subs, HeldEntries) && p.entries <= p.maxEntries && p.entries <= USIZE_MAX
    && p.bytes == Sum(p.subs, HeldBytes) && p.bytes <= p.maxBytes && p.bytes <= USIZE_MAX
  }

  /** The queue holds each queued submission once. */
  ghost predicate QueueOk(p: Pool) {
    && (forall n :: 0 <= n < |p.queue| ==> p.queue[n] < |p.subs| && p.subs[p.queue[n]].phase.Queued?)
    && (forall m, n :: 0 <= m < n < |p.queue| ==> p.queue[m] != p.queue[n])
    && (forall i :: 0 <= i < |p.subs| && p.subs[i].phase.Queued? ==> i in p.queue)
  }

  /** The worker's phases belong to its one job, and only a panic abandons anything. */
  ghost predicate WorkerOk(p: Pool) {
    && (forall i :: 0 <= i < |p.subs| && WithWorker(p.subs[i]) ==> p.worker == Busy(i))
    && (p.worker.Busy? ==> p.worker.job < |p.subs| && WithWorker(p.subs[p.worker.job]))
    && (forall i :: 0 <= i < |p.subs| && p.subs[i].phase.Abandoned? ==> p.worker.Panicked?)
    && (p.worker.Exited? ==> p.queue == [] && !p.open)
    && (p.worker.Panicked? ==> p.queue == [] && exists i :: 0 <= i < |p.subs| && p.subs[i].phase.Abandoned?)
  }

  /** A prefix has been dropped once if the worker is past it, and never otherwise; only
      non-empty prefixes take part. */
  ghost predicate DropOk(s: Submission) {
    && s.drops == (if s.phase.Dropped? || s.phase.Settling? || s.phase.Retired? then 1 else 0)
    && (s.phase.Empty? <==> s.prefix.entries == 0)
  }

  ghost predicate Inv(p: Pool) {
    && Balanced(p) && QueueOk(p) && WorkerOk(p)
    && (forall i :: 0 <= i < |p.subs| ==> DropOk(p.subs[i]))
  }

  /** One submission changed, and each counter moved by what its reservation did. */
  lemma Rebalance(p: Pool, q: Pool, i: nat)
    requires Balanced(p) && i < |p.subs| && |q.subs| == |p.subs| && q.subs == p.subs[i := q.subs[i]]
    requires q.maxEntries == p.maxEntries && q.maxBytes == p.maxBytes
    requires q.entries <= q.maxEntries && q.entries <= USIZE_MAX && q.bytes <= q.maxBytes && q.bytes <= USIZE_MAX
    requires q.entries == p.entries - HeldEntries(p.subs[i]) + HeldEntries(q.subs[i])
    requires q.bytes == p.bytes - HeldBytes(p.subs[i]) + HeldBytes(q.subs[i])
    ensures Balanced(q)
  {
    SumUpdate(p.subs, i, q.subs[i], HeldEntries);
    SumUpdate(p.subs, i, q.subs[i], HeldBytes);
  }

  /** A reservation is at most its counter, so releasing it never wraps. */
  lemma NoUnderflow(p: Pool, i: nat)
    requires Balanced(p) && i < |p.subs|
    ensures HeldEntries(p.subs[i]) <= p.entries && HeldBytes(p.subs[i]) <= p.bytes
  {
    SumUpdate(p.subs, i, p.subs[i], HeldEntries);
    SumUpdate(p.subs, i, p.subs[i], HeldBytes);
  }

  lemma SubmitBalanced(p: Pool, i: nat)
    requires Balanced(p) && i < |p.subs| && InHand(p.subs[i])
    ensures Balanced(SubmitStep(p, i))
  {
    NoUnderflow(p, i);
    Rebalance(p, SubmitStep(p, i), i);
  }

  lemma JobBalanced(p: Pool, i: nat)
    requires Balanced(p) && i < |p.subs| && WithWorker(p.subs[i])
    ensures Balanced(JobStep(p, i))
  {
    NoUnderflow(p, i);
    Rebalance(p, JobStep(p, i), i);
  }

  lemma CallBalanced(p: Pool, prefix: Prefix)
    requires Balanced(p)
    ensures Balanced(Step(p, Call(prefix)))
  {
    var q := Step(p, Call(prefix));
    SumAppend(p.subs, q.subs[|p.subs|], HeldEntries);
    SumAppend(p.subs, q.subs[|p.subs|], HeldBytes);
  }

  lemma ReceiveBalanced(p: Pool)
    requires Balanced(p) && p.worker.Waiting?
    requires p.queue != [] && p.queue[0] < |p.subs| && p.subs[p.queue[0]].phase.Queued?
    ensures Balanced(Step(p, Work))
  {
    Rebalance(p, Step(p, Work), p.queue[0]);
  }

  lemma PanicBalanced(p: Pool)
    requires Balanced(p) && Enabled(p, Panic)
    ensures Balanced(Step(p, Panic))
  {
    SumSame(p.subs, Abandon(p.subs), HeldEntries);
    SumSame(p.subs, Abandon(p.subs), HeldBytes);
  }

  lemma StepBalanced(p: Pool, a: Action)
    requires Balanced(p) && QueueOk(p) && Enabled(p, a)
    ensures Balanced(Step(p, a))
  {
    match a
    case Call(prefix) => CallBalanced(p, prefix);
    case Submit(i) => SubmitBalanced(p, i);
    case Work =>
      if p.worker.Busy? {
        JobBalanced(p, p.worker.job);
      } else {
        ReceiveBalanced(p);
      }
    case Panic => PanicBalanced(p);
    case _ =>
  }

  /** A change that neither starts nor ends in the queue. */
  lemma QueueUntouched(p: Pool, q: Pool, i: nat)
    requires QueueOk(p) && i < |p.subs| && |q.subs| == |p.subs| && q.subs == p.subs[i := q.subs[i]]
    requires q.queue == p.queue && !p.subs[i].phase.Queued? && !q.subs[i].phase.Queued?
    ensures QueueOk(q)
  {
    forall n | 0 <= n < |q.queue| ensures q.queue[n] < |q.subs| && q.subs[q.queue[n]].phase.Queued? {
      assert p.subs[p.queue[n]].phase.Queued?;
    }
  }

  lemma QueuePushed(p: Pool, q: Pool, i: nat)
    requires QueueOk(p) && i < |p.subs| && |q.subs| == |p.subs| && q.subs == p.subs[i := q.subs[i]]
    requires q.queue == p.queue + [i] && !p.subs[i].phase.Queued? && q.subs[i].phase.Queued?
    ensures QueueOk(q)
  {
    forall n | 0 <= n < |p.queue| ensures p.queue[n] != i && q.queue[n] == p.queue[n] {
      assert p.subs[p.queue[n]].phase.Queued?;
    }
  }

  lemma SubmitQueue(p: Pool, i: nat)
    requires QueueOk(p) && i < |p.subs| && InHand(p.subs[i])
    ensures QueueOk(SubmitStep(p, i))
  {
    hide WrapSub, Fits, QueueOk;
    var q := SubmitStep(p, i);
    if q.subs[i].phase.Queued? { QueuePushed(p, q, i); } else { QueueUntouched(p, q, i); }
  }

  lemma ReceiveQueue(p: Pool)
    requires QueueOk(p) && p.queue != [] && p.worker.Waiting?
    ensures QueueOk(Step(p, Work))
  {
    hide WrapSub, Fits;
    var q := Step(p, Work);
    forall i | 0 <= i < |q.subs| && q.subs[i].phase.Queued? ensures i in q.queue {
      assert i in p.queue && p.queue == [p.queue[0]] + p.queue[1..];
    }
  }

  lemma StepQueue(p: Pool, a: Action)
    requires QueueOk(p) && WorkerOk(p) && Enabled(p, a)
    ensures QueueOk(Step(p, a))
  {
    hide WrapSub, Fits;
    match a
    case Submit(i) => SubmitQueue(p, i);
    case Work => if p.worker.Waiting? { ReceiveQueue(p); } else { JobQueue(p, p.worker.job); }
    case _ =>
  }

  lemma JobQueue(p: Pool, i: nat)
    requires QueueOk(p) && i < |p.subs| && WithWorker(p.subs[i])
    ensures QueueOk(JobStep(p, i))
  {
    hide WrapSub, QueueOk;
    QueueUntouched(p, JobStep(p, i), i);
  }

  lemma SubmitWorker(p: Pool, i: nat)
    requires WorkerOk(p) && i < |p.subs| && InHand(p.subs[i])
    ensures WorkerOk(SubmitStep(p, i))
  {
    hide WrapSub, Fits;
    var q := SubmitStep(p, i);
    if p.worker.Panicked? {
      var j :| 0 <= j < |p.subs| && p.subs[j].phase.Abandoned?;
      assert q.subs[j].phase.Abandoned?;
    }
  }

  lemma StepWorker(p: Pool, a: Action)
    requires QueueOk(p) && WorkerOk(p) && Enabled(p, a)
    ensures WorkerOk(Step(p, a))
  {
    hide WrapSub, SubmitStep;
    match a
    case Submit(i) => SubmitWorker(p, i);
    case Panic => assert Step(p, a).subs[p.worker.job].phase.Abandoned?;
    case Call(_) =>
      if p.worker.Panicked? {
        var j :| 0 <= j < |p.subs| && p.subs[j].phase.Abandoned?;
        assert Step(p, a).subs[j].phase.Abandoned?;
      }
    case _ =>
  }

  lemma SubmitDrops(p: Pool, i: nat)
    requires i < |p.subs| && InHand(p.subs[i]) && DropOk(p.subs[i])
    ensures SubmitStep(p, i).subs == p.subs[i := SubmitStep(p, i).subs[i]] && DropOk(SubmitStep(p, i).subs[i])
  {
    hide WrapSub, Fits;
  }

  lemma JobDrops(p: Pool, i: nat)
    requires i < |p.subs| && WithWorker(p.subs[i]) && DropOk(p.subs[i])
    ensures JobStep(p, i).subs == p.subs[i := JobStep(p, i).subs[i]] && DropOk(JobStep(p, i).subs[i])
  {
    hide WrapSub;
  }

  lemma StepDrops(p: Pool, a: Action)
    requires QueueOk(p) && Enabled(p, a) && forall i :: 0 <= i < |p.subs| ==> DropOk(p.subs[i])
    ensures forall i :: 0 <= i < |Step(p, a).subs| ==> DropOk(Step(p, a).subs[i])
  {
    hide SubmitStep, JobStep;
    match a
    case Submit(i) => SubmitDrops(p, i);
    case Work => if p.worker.Busy? { JobDrops(p, p.worker.job); }
    case _ =>
  }

  lemma StepKeepsInv(p: Pool, a: Action)
    requires Inv(p) && Enabled(p, a)
    ensures Inv(Step(p, a))
  {
    StepBalanced(p, a);
    StepQueue(p, a);
    StepWorker(p, a);
    StepDrops(p, a);
  }

  // ---------------------------------------------------------------------------
  // Every interleaving

  function Start(maxEntries: nat, maxBytes: nat): Pool { Pool(maxEntries, maxBytes, 0, 0, [], [], Waiting, true) }

  /** The pool after a sequence of atomic operations, each possible when it happens. */
  ghost predicate Reaches(p: Pool, actions: seq<Action>, q: Pool)
    decreases |actions|
  {
    if actions == [] then q == p
    else Enabled(p, actions[0]) && Reaches(Step(p, actions[0]), actions[1..], q)
  }

  lemma {:induction false} AlwaysInv(p: Pool, actions: seq<Action>, q: Pool)
    requires Inv(p) && Reaches(p, actions, q)
    ensures Inv(q)
    decreases |actions|
  {
    if actions != [] {
      StepKeepsInv(p, actions[0]);
      AlwaysInv(Step(p, actions[0]), actions[1..], q);
    }
  }

  /** Under every interleaving the counters are the outstanding reservations, within their
      limits, and no prefix is dropped twice or both dropped and handed back. */
  lemma CreditsConserved(maxEntries: nat, maxBytes: nat, actions: seq<Action>, q: Pool)
    requires Reaches(Start(maxEntries, maxBytes), actions, q)
    ensures Inv(q)
    ensures forall i :: 0 <= i < |q.subs| ==>
      q.subs[i].drops <= 1 && (q.subs[i].phase.HandedBack? ==> q.subs[i].drops == 0)
  {
    AlwaysInv(Start(maxEntries, maxBytes), actions, q);
  }

  /** Once the channel is closed and the worker has left its loop, with no call in progress,
      both counters are zero and every non-empty prefix was either dropped exactly once or
      handed back undropped. */
  lemma DrainedIsZero(maxEntries: nat, maxBytes: nat, actions: seq<Action>, q: Pool)
    requires Reaches(Start(maxEntries, maxBytes), actions, q)
    requires q.worker.Exited? && forall s :: s in q.subs ==> !InHand(s)
    ensures q.entries == 0 && q.bytes == 0
    ensures forall i :: 0 <= i < |q.subs| && q.subs[i].prefix.entries > 0 ==>
      (q.subs[i].phase.Retired? && q.subs[i].drops == 1) || (q.subs[i].phase.HandedBack? && q.subs[i].drops == 0)
  {
    AlwaysInv(Start(maxEntries, maxBytes), actions, q);
    forall i | 0 <= i < |q.subs|
      ensures DropOk(q.subs[i]) && (q.subs[i].phase.Retired? || q.subs[i].phase.HandedBack? || q.subs[i].phase.Empty?)
    {
      assert q.subs[i] in q.subs;
    }
    SumZero(q.subs, HeldEntries);
    SumZero(q.subs, HeldBytes);
  }

  // ---------------------------------------------------------------------------
  // What is let in, and in which order

  /** A submission is refused exactly where what is outstanding leaves no room for it, or where
      the channel or the worker is gone; otherwise its next operation takes it on. */
  lemma LetInExactly(maxEntries: nat, maxBytes: nat, actions: seq<Action>, q: Pool, i: nat)
    requires Reaches(Start(maxEntries, maxBytes), actions, q) && i < |q.subs| && InHand(q.subs[i])
    ensures
      var size, after := q.subs[i].prefix, Step(q, Submit(i)).subs[i].phase;
      match q.subs[i].phase
      case Called =>
        after == if Sum(q.subs, HeldEntries) + size.entries <= Min(maxEntries, USIZE_MAX) then HoldsEntries
                 else HandedBack(Full)
      case HoldsEntries =>
        after == if Sum(q.subs, HeldBytes) + size.bytes <= Min(maxBytes, USIZE_MAX) then HoldsBoth
                 else ReturnsEntries
      case HoldsBoth => after == if q.open && !q.worker.Panicked? then Queued else ReleasesBoth
      case ReturnsEntries => after == HandedBack(Full)
      case ReleasesBoth => after == ReleasesBytes
      case ReleasesBytes => after == HandedBack(Stopped)
  {
    AlwaysInv(Start(maxEntries, maxBytes), actions, q);
    SameLimits(Start(maxEntries, maxBytes), actions, q);
  }

  lemma {:induction false} SameLimits(p: Pool, actions: seq<Action>, q: Pool)
    requires Reaches(p, actions, q)
    ensures q.maxEntries == p.maxEntries && q.maxBytes == p.maxBytes
    decreases |actions|
  {
    if actions != [] {
      SameLimits(Step(p, actions[0]), actions[1..], q);
    }
  }

  /** One submission waits before another. */
  ghost predicate Before(p: Pool, i: nat, j: nat) {
    exists m, n :: 0 <= m < n < |p.queue| && p.queue[m] == i && p.queue[n] == j
  }

  /** The queue grows at its end, loses its first, or is lost as a whole. */
  lemma QueueMoves(p: Pool, a: Action)
    requires Enabled(p, a)
    ensures
      var q := Step(p, a).queue;
      p.queue <= q || (a.Work? && p.queue != [] && q == p.queue[1..]) || (a.Panic? && q == [])
  {
    hide WrapSub, Fits;
  }

  lemma StaysBefore(p: Pool, a: Action, i: nat, j: nat)
    requires Enabled(p, a) && Before(p, i, j) && QueueOk(p) && QueueOk(Step(p, a))
    requires i < |Step(p, a).subs| && Step(p, a).subs[i].phase.Queued?
    ensures Before(Step(p, a), i, j)
  {
    hide Step, Enabled;
    QueueMoves(p, a);
    var m, n :| 0 <= m < n < |p.queue| && p.queue[m] == i && p.queue[n] == j;
    var q := Step(p, a);
    assert i in q.queue;
    if p.queue <= q.queue {
      assert q.queue[m] == i && q.queue[n] == j;
    } else {
      assert m > 0 && q.queue[m - 1] == i && q.queue[n - 1] == j;
    }
  }

  /** What leaves the queue goes to the worker or is lost. */
  lemma LeavesQueue(p: Pool, a: Action, i: nat)
    requires Inv(p) && Enabled(p, a) && i < |p.subs| && p.subs[i].phase.Queued?
    ensures i < |Step(p, a).subs| && (Step(p, a).subs[i].phase.Queued? || PastQueue(Step(p, a).subs[i]))
  {
    hide SubmitStep, JobStep, Balanced;
    OthersUntouched(p, a, i);
  }

  /** A submitter's operation touches its own submission, the worker's its job. */
  lemma OthersUntouched(p: Pool, a: Action, i: nat)
    requires Inv(p) && Enabled(p, a) && i < |p.subs|
    ensures a.Submit? && a.i != i ==> |Step(p, a).subs| == |p.subs| && Step(p, a).subs[i] == p.subs[i]
    ensures a.Work? && p.worker.Busy? && p.worker.job != i ==>
      |Step(p, a).subs| == |p.subs| && Step(p, a).subs[i] == p.subs[i]
    ensures a.Work? && p.worker == Busy(i) ==>
      |Step(p, a).subs| == |p.subs| && (WithWorker(Step(p, a).subs[i]) || Step(p, a).subs[i].phase.Retired?)
  {
    hide WrapSub, Fits, Balanced, QueueOk, WorkerOk;
  }

  /** The worker takes submissions in the order in which they were sent: as long as one waits,
      nothing that was sent after it has been taken. */
  lemma {:induction false} FirstInFirstOut(p: Pool, actions: seq<Action>, q: Pool, i: nat, j: nat)
    requires Inv(p) && Reaches(p, actions, q) && Before(p, i, j)
    ensures i < |q.subs| && (q.subs[i].phase.Queued? ==> Before(q, i, j))
    decreases |actions|
  {
    hide Inv, Step, Enabled, Before;
    if actions == [] {
      BeforeIsQueued(p, i, j);
    } else {
      var next := Step(p, actions[0]);
      StepKeepsInv(p, actions[0]);
      BeforeIsQueued(p, i, j);
      LeavesQueue(p, actions[0], i);
      if next.subs[i].phase.Queued? { NextBefore(p, actions[0], i, j); }
      if next.subs[i].phase.Queued? {
        FirstInFirstOut(next, actions[1..], q, i, j);
      } else {
        NeverQueuedAgain(next, actions[1..], q, i);
      }
    }
  }

  lemma NextBefore(p: Pool, a: Action, i: nat, j: nat)
    requires Inv(p) && Enabled(p, a) && Inv(Step(p, a)) && Before(p, i, j)
    requires i < |Step(p, a).subs| && Step(p, a).subs[i].phase.Queued?
    ensures Before(Step(p, a), i, j)
  {
    hide Step, Enabled, Before, QueueOk, WorkerOk, Balanced;
    StaysBefore(p, a, i, j);
  }

  lemma BeforeIsQueued(p: Pool, i: nat, j: nat)
    requires Inv(p) && Before(p, i, j)
    ensures i < |p.subs| && p.subs[i].phase.Queued?
  {}

  /** Past the queue there is no way back to it. */
  predicate PastQueue(s: Submission) {
    WithWorker(s) || s.phase.Retired? || s.phase.Abandoned?
  }

  lemma StaysPast(p: Pool, a: Action, i: nat)
    requires Inv(p) && Enabled(p, a) && i < |p.subs| && PastQueue(p.subs[i])
    ensures i < |Step(p, a).subs| && PastQueue(Step(p, a).subs[i])
  {
    hide SubmitStep, JobStep, Balanced;
    OthersUntouched(p, a, i);
  }

  lemma {:induction false} NeverQueuedAgain(p: Pool, actions: seq<Action>, q: Pool, i: nat)
    requires Inv(p) && Reaches(p, actions, q) && i < |p.subs| && PastQueue(p.subs[i])
    ensures i < |q.subs| && PastQueue(q.subs[i])
    decreases |actions|
  {
    hide Inv, Step, Enabled;
    if actions != [] {
      StepKeepsInv(p, actions[0]);
      StaysPast(p, actions[0], i);
      NeverQueuedAgain(Step(p, actions[0]), actions[1..], q, i);
    }
  }

  /** How many operations a submission still has before it. */
  function Ahead(s: Submission): nat {
    match s.phase
    case Called => 7
    case HoldsEntries => 6
    case HoldsBoth => 5
    case Queued => 4
    case Dropping => 3
    case Dropped | ReleasesBoth => 2
    case Settling | ReleasesBytes | ReturnsEntries => 1
    case HandedBack(_) | Empty | Retired | Abandoned => 0
  }

  /** As long as the pool is not at rest and its worker lives, some submitter or the worker has
      an operation to do. */
  lemma NeverStuck(p: Pool) returns (a: Action)
    requires Inv(p) && !AtRest(p) && (p.worker.Waiting? || p.worker.Busy?)
    ensures (a.Submit? || a.Work?) && Enabled(p, a)
    ensures Step(p, a).worker.Waiting? || Step(p, a).worker.Busy?
  {
    hide Balanced;
    a := Work;
    if p.queue == [] && !p.worker.Busy? {
      var i :| 0 <= i < |p.subs| && InHand(p.subs[i]);
      a := Submit(i);
    } else if p.worker.Waiting? {
      assert p.queue[0] < |p.subs|;
    }
  }

  /** Each such operation brings the pool closer to rest. */
  lemma CloserToRest(p: Pool, a: Action)
    requires Inv(p) && Enabled(p, a) && (a.Submit? || a.Work?)
    ensures Sum(Step(p, a).subs, Ahead) < Sum(p.subs, Ahead)
  {
    hide WrapSub, Fits, Balanced;
    var q := Step(p, a);
    var i := if a.Submit? then a.i else if p.worker.Busy? then p.worker.job else p.queue[0];
    assert q.subs == p.subs[i := q.subs[i]] && Ahead(q.subs[i]) < Ahead(p.subs[i]);
    SumUpdate(p.subs, i, q.subs[i], Ahead);
  }

  /** So no interleaving gets stuck: wherever it has got to, without new calls and with its
      worker alive, the pool comes to rest, with every credit returned. */
  lemma {:induction false} ComesToRest(p: Pool) returns (actions: seq<Action>, q: Pool)
    requires Inv(p) && (p.worker.Waiting? || p.worker.Busy?)
    ensures Reaches(p, actions, q) && AtRest(q) && q.entries == 0 && q.bytes == 0
    ensures forall a :: a in actions ==> a.Submit? || a.Work?
    decreases Sum(p.subs, Ahead)
  {
    hide Inv, Step, Enabled, Ahead;
    if AtRest(p) {
      NothingHeldAtRest(p);
      return [], p;
    }
    var a := NeverStuck(p);
    StepKeepsInv(p, a);
    CloserToRest(p, a);
    var rest, end := ComesToRest(Step(p, a));
    Then(p, a, rest, end);
    return [a] + rest, end;
  }

  lemma NothingHeldAtRest(p: Pool)
    requires Inv(p) && AtRest(p) && !p.worker.Panicked?
    ensures p.entries == 0 && p.bytes == 0
  {
    forall i | 0 <= i < |p.subs| ensures HeldEntries(p.subs[i]) == 0 && HeldBytes(p.subs[i]) == 0 {
      assert !InHand(p.subs[i]) && !WithWorker(p.subs[i]);
    }
    SumZero(p.subs, HeldEntries);
    SumZero(p.subs, HeldBytes);
  }

  // ---------------------------------------------------------------------------
  // A panic of the worker

  /** A panicked worker leaves credits outstanding. */
  lemma PanicLeaks(maxEntries: nat, maxBytes: nat, actions: seq<Action>, q: Pool)
    requires Reaches(Start(maxEntries, maxBytes), actions, q)
    ensures q.worker.Panicked? ==> q.entries > 0
  {
    AlwaysInv(Start(maxEntries, maxBytes), actions, q);
    if q.worker.Panicked? {
      var i :| 0 <= i < |q.subs| && q.subs[i].phase.Abandoned?;
      assert DropOk(q.subs[i]);
      NoUnderflow(q, i);
    }
  }

  /** A pool at rest: nobody holds a prefix and none is on its way to the worker. */
  ghost predicate AtRest(p: Pool) {
    p.queue == [] && !p.worker.Busy? && forall i :: 0 <= i < |p.subs| ==> !InHand(p.subs[i])
  }

  /** Credits are missing from a pool at rest if and only if its worker has panicked. */
  lemma LeakedIffPanicked(maxEntries: nat, maxBytes: nat, actions: seq<Action>, q: Pool)
    requires Reaches(Start(maxEntries, maxBytes), actions, q) && AtRest(q)
    ensures q.entries > 0 <==> q.worker.Panicked?
    ensures !q.worker.Panicked? ==> q.bytes == 0
  {
    AlwaysInv(Start(maxEntries, maxBytes), actions, q);
    PanicLeaks(maxEntries, maxBytes, actions, q);
    if !q.worker.Panicked? {
      NothingHeldAtRest(q);
    }
  }

  lemma AbandonedStays(p: Pool, a: Action, i: nat)
    requires Enabled(p, a) && p.worker.Panicked? && i < |p.subs| && p.subs[i].phase.Abandoned?
    ensures Step(p, a).worker.Panicked? && i < |Step(p, a).subs| && Step(p, a).subs[i] == p.subs[i]
  {}

  /** No action restarts the worker, and what a panic lost never comes back. */
  lemma {:induction false} LostForever(p: Pool, actions: seq<Action>, q: Pool, i: nat)
    requires Inv(p) && Reaches(p, actions, q) && p.worker.Panicked? && i < |p.subs| && p.subs[i].phase.Abandoned?
    ensures q.worker.Panicked? && i < |q.subs| && q.subs[i] == p.subs[i]
    ensures p.subs[i].prefix.entries <= q.entries && p.subs[i].prefix.bytes <= q.bytes
    decreases |actions|
  {
    hide Inv, Step, Enabled;
    if actions == [] {
      HeldByAbandoned(p, i);
    } else {
      StepKeepsInv(p, actions[0]);
      AbandonedStays(p, actions[0], i);
      LostForever(Step(p, actions[0]), actions[1..], q, i);
    }
  }

  lemma HeldByAbandoned(p: Pool, i: nat)
    requires Inv(p) && i < |p.subs| && p.subs[i].phase.Abandoned?
    ensures p.subs[i].prefix.entries <= p.entries && p.subs[i].prefix.bytes <= p.bytes
  {
    NoUnderflow(p, i);
  }

  const ONE_LOST := [Call(Prefix(1, 1)), Submit(0), Submit(0), Submit(0), Work, Panic]

  /** A pool with one submission of one entry and one byte. */
  function WithOne(start: Pool, entries: nat, bytes: nat, phase: Phase): Pool {
    start.(entries := entries, bytes := bytes, subs := [Submission(Prefix(1, 1), phase, 0)])
  }

  lemma OneSubmitted(p: Pool)
    requires p == Start(p.maxEntries, p.maxBytes) && p.maxEntries >= 1 && p.maxBytes >= 1
    ensures Step(p, Call(Prefix(1, 1))) == WithOne(p, 0, 0, Called)
    ensures SubmitStep(WithOne(p, 0, 0, Called), 0) == WithOne(p, 1, 0, HoldsEntries)
    ensures SubmitStep(WithOne(p, 1, 0, HoldsEntries), 0) == WithOne(p, 1, 1, HoldsBoth)
    ensures SubmitStep(WithOne(p, 1, 1, HoldsBoth), 0) == WithOne(p, 1, 1, Queued).(queue := [0])
  {}

  lemma OneLost(p: Pool)
    requires p == Start(p.maxEntries, p.maxBytes)
    ensures
      var queued := WithOne(p, 1, 1, Queued).(queue := [0]);
      var dropping := WithOne(p, 1, 1, Dropping).(worker := Busy(0));
      && Enabled(queued, Work) && Step(queued, Work) == dropping
      && Enabled(dropping, Panic) && Step(dropping, Panic) == WithOne(p, 1, 1, Abandoned).(worker := Panicked)
  {}

  /** It happens: the worker panics while it drops the only prefix it was given. */
  lemma PanicReached(maxEntries: nat, maxBytes: nat)
    requires maxEntries >= 1 && maxBytes >= 1
    ensures
      var lost := WithOne(Start(maxEntries, maxBytes), 1, 1, Abandoned).(worker := Panicked);
      Reaches(Start(maxEntries, maxBytes), ONE_LOST, lost) && AtRest(lost)
  {
    hide Reaches, SubmitStep, Abandon;
    var p := Start(maxEntries, maxBytes);
    var queued, dropping := WithOne(p, 1, 1, Queued).(queue := [0]), WithOne(p, 1, 1, Dropping).(worker := Busy(0));
    var lost := WithOne(p, 1, 1, Abandoned).(worker := Panicked);
    OneSubmitted(p);
    OneLost(p);
    var end := [Work] + ([Panic] + []);
    Last(lost);
    Then(dropping, Panic, [], lost);
    Then(queued, Work, [Panic] + [], lost);
    Then(WithOne(p, 1, 1, HoldsBoth), Submit(0), end, lost);
    Then(WithOne(p, 1, 0, HoldsEntries), Submit(0), [Submit(0)] + end, lost);
    Then(WithOne(p, 0, 0, Called), Submit(0), [Submit(0)] + ([Submit(0)] + end), lost);
    Then(p, Call(Prefix(1, 1)), [Submit(0)] + ([Submit(0)] + ([Submit(0)] + end)), lost);
    assert ONE_LOST == [Call(Prefix(1, 1))] + ([Submit(0)] + ([Submit(0)] + ([Submit(0)] + end)));
  }

  lemma Last(q: Pool)
    ensures Reaches(q, [], q)
  {}

  lemma Then(p: Pool, a: Action, rest: seq<Action>, q: Pool)
    requires Enabled(p, a) && Reaches(Step(p, a), rest, q)
    ensures Reaches(p, [a] + rest, q)
  {
    hide Enabled, Step;
    assert ([a] + rest)[1..] == rest;
  }
}
