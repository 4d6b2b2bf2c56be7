/** The simulator's recovery images and lossy restarts
    (crates/rafter-sim/src/disk_fault.rs and restart.rs). */
module SimDisk {
  import opened Prelude
  import opened Raft
  import opened Kernel

  datatype BootEntry = BootEntry(index: nat, term: nat, kind: Kind)

  datatype Boot = Boot(
    term: nat, vote: Option<nat>, commit: nat, config: Option<int>, snapshot: Option<Snapshot>, log: seq<BootEntry>)
  {
    function Boundary(): nat { if snapshot.Some? then snapshot.value.index else 0 }
  }

  // ---------------------------------------------------------------------------
  // What a kernel accepts

  /** Entry by entry, as the kernel's validation reads the log: an entry at the boundary must
      carry its term and is skipped; any other must be the next one. */
  ghost predicate ValidFrom(b: Boot, log: seq<BootEntry>, expected: nat)
    decreases |log|
  {
    log == [] ||
    var e := log[0];
    if b.snapshot.Some? && e.index == b.Boundary() then
      e.term == b.snapshot.value.term && ValidFrom(b, log[1..], expected)
    else e.index == expected && 1 <= e.term <= b.term && ValidFrom(b, log[1..], expected + 1)
  }

  /** The first index the log does not hold. */
  ghost function EndFrom(b: Boot, log: seq<BootEntry>, expected: nat): nat
    decreases |log|
  {
    if log == [] then expected
    else EndFrom(b, log[1..], if b.snapshot.Some? && log[0].index == b.Boundary() then expected else expected + 1)
  }

  ghost predicate Valid(b: Boot) {
    && (b.vote.Some? ==> b.term > 0)
    && (b.snapshot.Some? ==> b.snapshot.value.hardStateTerm <= b.term)
    && ValidFrom(b, b.log, b.Boundary() + 1)
    && b.commit < EndFrom(b, b.log, b.Boundary() + 1)
  }

  /** A log that a kernel accepts is numbered on from its snapshot, or from one. */
  lemma {:induction false} Numbered(b: Boot, i: nat)
    requires Valid(b) && i < |b.log|
    ensures b.snapshot.None? ==> b.log[i].index == i + 1
    ensures b.snapshot.Some? && (forall e :: e in b.log ==> e.index != b.snapshot.value.index) ==>
      b.log[i].index == b.snapshot.value.index + 1 + i
  {
    if b.snapshot.None? || forall e :: e in b.log ==> e.index != b.snapshot.value.index {
      NumberedFrom(b, b.log, b.Boundary() + 1, i);
    }
  }

  lemma {:induction false} NumberedFrom(b: Boot, log: seq<BootEntry>, expected: nat, i: nat)
    requires ValidFrom(b, log, expected) && i < |log|
    requires b.snapshot.Some? ==> forall e :: e in log ==> e.index != b.Boundary()
    ensures log[i].index == expected + i
    decreases i
  {
    assert log[0] in log;
    if i > 0 {
      NumberedFrom(b, log[1..], expected + 1, i - 1);
    }
  }

  lemma {:induction false} EndGrows(b: Boot, log: seq<BootEntry>, expected: nat)
    ensures expected <= EndFrom(b, log, expected)
    decreases |log|
  {
    if log != [] {
      EndGrows(b, log[1..], if b.snapshot.Some? && log[0].index == b.Boundary() then expected else expected + 1);
    }
  }

  /** Only the snapshot and the term matter to the reading. */
  ghost predicate SameReader(a: Boot, b: Boot) { a.snapshot == b.snapshot && a.term == b.term }

  lemma {:induction false} SameReading(a: Boot, b: Boot, log: seq<BootEntry>, expected: nat)
    requires SameReader(a, b)
    ensures ValidFrom(a, log, expected) == ValidFrom(b, log, expected)
    ensures EndFrom(a, log, expected) == EndFrom(b, log, expected)
    decreases |log|
  {
    if log != [] {
      SameReading(a, b, log[1..], if a.snapshot.Some? && log[0].index == a.Boundary() then expected else expected + 1);
    }
  }

  lemma {:induction false} ValidPrefix(b: Boot, log: seq<BootEntry>, n: nat, expected: nat)
    requires ValidFrom(b, log, expected) && n <= |log|
    ensures ValidFrom(b, log[..n], expected)
    decreases |log|
  {
    if n > 0 {
      assert log[..n][1..] == log[1..][..n - 1] && log[..n][0] == log[0];
      var next := if b.snapshot.Some? && log[0].index == b.Boundary() then expected else expected + 1;
      ValidPrefix(b, log[1..], n - 1, next);
    }
  }

  // ---------------------------------------------------------------------------
  // Crashing after each write

  datatype Recovery = Recovery(completedIo: nat, durableThrough: nat, boot: Boot)

  /** Hard state alone, then the snapshot, then each entry, then the commit metadata. */
  function HardStateOnly(clean: Boot): Boot { Boot(clean.term, clean.vote, 0, None, None, []) }

  function WithEntries(clean: Boot, n: nat): Boot
    requires n <= |clean.log|
  {
    Boot(clean.term, clean.vote, 0, None, clean.snapshot, clean.log[..n])
  }

  predicate HasCommitMetadata(b: Boot) { b.commit != 0 || b.config.Some? }

  function LastDurableIndex(b: Boot): nat { if b.log == [] then b.Boundary() else b.log[|b.log| - 1].index }

  /** The image after the first `io` writes, `io` counting from one. */
  function ImageAfter(clean: Boot, io: nat): Boot
    requires 1 <= io <= Writes(clean)
  {
    var before := if clean.snapshot.Some? then 2 else 1;
    if io == 1 then HardStateOnly(clean)
    else if io <= before + |clean.log| then WithEntries(clean, io - before)
    else clean
  }

  function Writes(clean: Boot): nat {
    1 + (if clean.snapshot.Some? then 1 else 0) + |clean.log| + (if HasCommitMetadata(clean) then 1 else 0)
  }

  method CrashAfterEachIo(clean: Boot) returns (recoveries: seq<Recovery>)
    ensures |recoveries| == Writes(clean)
    ensures forall i :: 0 <= i < |recoveries| ==>
      recoveries[i].completedIo == i + 1 && recoveries[i].boot == ImageAfter(clean, i + 1)
    ensures forall i :: 0 <= i < |recoveries| ==>
      recoveries[i].durableThrough == LastDurableIndex(recoveries[i].boot)
  {
    var io := 1;
    var image := HardStateOnly(clean);
    recoveries := [Recovery(io, 0, image)];
    if clean.snapshot.Some? {
      io := io + 1;
      image := image.(snapshot := clean.snapshot);
      recoveries := recoveries + [Recovery(io, clean.snapshot.value.index, image)];
    }
    ghost var before := io;
    for n := 0 to |clean.log|
      invariant io == before + n == |recoveries|
      invariant image == WithEntries(clean, n)
      invariant forall i :: 0 <= i < |recoveries| ==>
        recoveries[i].completedIo == i + 1 && recoveries[i].boot == ImageAfter(clean, i + 1)
      invariant forall i :: 0 <= i < |recoveries| ==>
        recoveries[i].durableThrough == LastDurableIndex(recoveries[i].boot)
    {
      io := io + 1;
      assert clean.log[..n + 1] == clean.log[..n] + [clean.log[n]];
      image := image.(log := image.log + [clean.log[n]]);
      recoveries := recoveries + [Recovery(io, clean.log[n].index, image)];
    }
    assert clean.log[..|clean.log|] == clean.log;
    if HasCommitMetadata(clean) {
      io := io + 1;
      image := image.(commit := clean.commit, config := clean.config);
      recoveries := recoveries + [Recovery(io, LastDurableIndex(clean), image)];
    }
  }

  /** Every image of a valid state is one a kernel accepts, and the last is the state itself. */
  lemma CrashImagesValid(clean: Boot, io: nat)
    requires Valid(clean) && 1 <= io <= Writes(clean)
    ensures Valid(ImageAfter(clean, io))
    ensures io == Writes(clean) ==> ImageAfter(clean, io) == clean
  {
    var before := if clean.snapshot.Some? then 2 else 1;
    var image := ImageAfter(clean, io);
    if 1 < io <= before + |clean.log| {
      var n := io - before;
      ValidPrefix(clean, clean.log, n, clean.Boundary() + 1);
      SameReading(clean, image, image.log, clean.Boundary() + 1);
      EndGrows(image, image.log, clean.Boundary() + 1);
    }
    if io == Writes(clean) {
      assert clean.log[..|clean.log|] == clean.log;
    }
  }

  /** The images start from the term and the vote alone, and from one to the next there is one
      write more: the snapshot, the next entry, or at last the commit index and the
      configuration. */
  lemma OneWriteMore(clean: Boot, io: nat)
    requires 1 <= io < Writes(clean)
    ensures
      var a, b := ImageAfter(clean, io), ImageAfter(clean, io + 1);
      && (io == 1 ==> a == Boot(clean.term, clean.vote, 0, None, None, []))
      && (|| (clean.snapshot.Some? && a.snapshot == None && b == a.(snapshot := clean.snapshot))
          || (a.snapshot == clean.snapshot && |a.log| < |clean.log| && b == a.(log := a.log + [clean.log[|a.log|]]))
          || (a.snapshot == clean.snapshot && a.log == clean.log
              && b == a.(commit := clean.commit, config := clean.config)))
  {
    var n := |ImageAfter(clean, io).log|;
    if n < |clean.log| {
      assert clean.log[..n + 1] == clean.log[..n] + [clean.log[n]];
    } else {
      assert clean.log[..n] == clean.log;
    }
  }

  // ---------------------------------------------------------------------------
  // Truncated images

  function LogThrough(log: seq<BootEntry>, floor: nat): seq<BootEntry> {
    if log == [] then []
    else if log[0].index <= floor then [log[0]] + LogThrough(log[1..], floor)
    else LogThrough(log[1..], floor)
  }

  function WithLogThrough(clean: Boot, through: nat): Boot {
    clean.(commit := 0, config := None, log := LogThrough(clean.log, Max(through, clean.Boundary())))
  }

  function TornTail(clean: Boot): Option<Boot> {
    if clean.log == [] then None
    else
      var last := clean.log[|clean.log| - 1].index;
      Some(WithLogThrough(clean, if last == 0 then 0 else last - 1))
  }

  function HardStateLogReorder(clean: Boot, through: nat): Boot {
    WithLogThrough(clean, through).(commit := clean.commit, config := clean.config)
  }

  /** Cutting a readable log at a floor leaves it readable, ending at the floor or before. */
  lemma {:induction false} ThroughValid(b: Boot, log: seq<BootEntry>, floor: nat, expected: nat)
    requires ValidFrom(b, log, expected) && b.Boundary() <= floor && b.Boundary() < expected
    ensures ValidFrom(b, LogThrough(log, floor), expected)
    ensures EndFrom(b, LogThrough(log, floor), expected) == Min(EndFrom(b, log, expected), Max(expected, floor + 1))
    decreases |log|
  {
    if log != [] {
      var boundary := b.snapshot.Some? && log[0].index == b.Boundary();
      var next := if boundary then expected else expected + 1;
      ThroughValid(b, log[1..], floor, next);
      EndGrows(b, log[1..], next);
      if log[0].index <= floor {
        var kept := [log[0]] + LogThrough(log[1..], floor);
        assert kept[1..] == LogThrough(log[1..], floor);
      } else {
        BeyondFloor(b, log[1..], floor, next);
        assert LogThrough(log[1..], floor) == LogThrough(log, floor);
      }
    }
  }

  /** Past the floor only boundary entries can still be kept, and they do not count. */
  lemma {:induction false} BeyondFloor(b: Boot, log: seq<BootEntry>, floor: nat, expected: nat)
    requires ValidFrom(b, log, expected) && b.Boundary() <= floor && floor < expected
    ensures forall e: nat :: ValidFrom(b, LogThrough(log, floor), e) && EndFrom(b, LogThrough(log, floor), e) == e
    decreases |log|
  {
    if log != [] {
      if b.snapshot.Some? && log[0].index == b.Boundary() {
        BeyondFloor(b, log[1..], floor, expected);
        var kept := [log[0]] + LogThrough(log[1..], floor);
        assert kept[1..] == LogThrough(log[1..], floor);
      } else {
        BeyondFloor(b, log[1..], floor, expected + 1);
      }
    }
  }

  /** A torn tail or a lost suffix of a valid state is accepted. */
  lemma LostSuffixValid(clean: Boot, through: nat)
    requires Valid(clean)
    ensures Valid(WithLogThrough(clean, through))
  {
    var floor := Max(through, clean.Boundary());
    var b := WithLogThrough(clean, through);
    ThroughValid(clean, clean.log, floor, clean.Boundary() + 1);
    SameReading(clean, b, b.log, clean.Boundary() + 1);
    EndGrows(b, b.log, clean.Boundary() + 1);
  }

  predicate AtBoundary(b: Boot, e: BootEntry) { b.snapshot.Some? && e.index == b.Boundary() }

  lemma {:induction false} BelowEnd(b: Boot, log: seq<BootEntry>, expected: nat)
    requires ValidFrom(b, log, expected) && b.Boundary() < expected
    ensures forall e :: e in log ==> e.index < EndFrom(b, log, expected)
    decreases |log|
  {
    if log != [] {
      var next := if AtBoundary(b, log[0]) then expected else expected + 1;
      BelowEnd(b, log[1..], next);
      EndGrows(b, log[1..], next);
      assert log == [log[0]] + log[1..];
    }
  }

  lemma {:induction false} LastIsNext(b: Boot, log: seq<BootEntry>, expected: nat)
    requires ValidFrom(b, log, expected) && log != [] && !AtBoundary(b, log[|log| - 1])
    ensures log[|log| - 1].index == EndFrom(b, log[..|log| - 1], expected)
    decreases |log|
  {
    if |log| > 1 {
      var next := if AtBoundary(b, log[0]) then expected else expected + 1;
      assert log[..|log| - 1][1..] == log[1..][..|log| - 2] && log[..|log| - 1][0] == log[0];
      LastIsNext(b, log[1..], next);
    }
  }

  lemma {:induction false} ThroughPrefix(log: seq<BootEntry>, floor: nat)
    requires log != [] && log[|log| - 1].index > floor
    requires forall e :: e in log[..|log| - 1] ==> e.index <= floor
    ensures LogThrough(log, floor) == log[..|log| - 1]
    decreases |log|
  {
    if |log| > 1 {
      var short := log[..|log| - 1];
      assert short[0] == log[0] && log[0] in short;
      assert log[1..][..|log| - 2] == short[1..];
      ThroughPrefix(log[1..], floor);
      assert short == [log[0]] + short[1..];
    }
  }

  /** A torn tail is accepted, and loses the last entry and no other, unless the snapshot
      already covers that entry. */
  lemma TornTailLosesLast(clean: Boot)
    requires Valid(clean) && clean.log != []
    ensures TornTail(clean).Some? && Valid(TornTail(clean).value)
    ensures
      var last := clean.log[|clean.log| - 1];
      last.index > clean.Boundary() ==> TornTail(clean).value.log == clean.log[..|clean.log| - 1]
  {
    hide ValidFrom, EndFrom, LogThrough;
    var last := clean.log[|clean.log| - 1].index;
    LostSuffixValid(clean, if last == 0 then 0 else last - 1);
    if last > clean.Boundary() {
      var short := clean.log[..|clean.log| - 1];
      ValidPrefix(clean, clean.log, |short|, clean.Boundary() + 1);
      LastIsNext(clean, clean.log, clean.Boundary() + 1);
      BelowEnd(clean, short, clean.Boundary() + 1);
      ThroughPrefix(clean.log, last - 1);
    }
  }

  /** Hard state that outran its log is accepted if and only if the log that survived still
      covers the commit index. */
  lemma ReorderValidIff(clean: Boot, through: nat)
    requires Valid(clean)
    ensures Valid(HardStateLogReorder(clean, through)) <==> clean.commit <= Max(through, clean.Boundary())
  {
    var floor := Max(through, clean.Boundary());
    var b := HardStateLogReorder(clean, through);
    ThroughValid(clean, clean.log, floor, clean.Boundary() + 1);
    SameReading(clean, b, b.log, clean.Boundary() + 1);
  }

  // ---------------------------------------------------------------------------
  // Lossy restarts

  datatype Envelope =
    | AppendResponse(follower: nat, success: bool, matchIndex: nat)
    | SnapshotResponse(follower: nat, success: bool, lastIncluded: nat)
    | OtherMessage

  function AckOf(m: Envelope, node: nat): Option<nat> {
    match m
    case AppendResponse(f, success, i) => if success && f == node then Some(i) else None
    case SnapshotResponse(f, success, i) => if success && f == node then Some(i) else None
    case OtherMessage => None
  }

  method InFlightAckFloor(network: seq<Envelope>, node: nat) returns (floor: nat)
    ensures forall i: nat ::
      AppendResponse(node, true, i) in network || SnapshotResponse(node, true, i) in network ==> i <= floor
    ensures floor > 0 ==> AppendResponse(node, true, floor) in network || SnapshotResponse(node, true, floor) in network
  {
    floor := 0;
    for i := 0 to |network|
      invariant forall j :: 0 <= j < i && AckOf(network[j], node).Some? ==> AckOf(network[j], node).value <= floor
      invariant floor > 0 ==> exists j :: 0 <= j < i && AckOf(network[j], node) == Some(floor)
    {
      var ack := AckOf(network[i], node);
      if ack.Some? && ack.value > floor { floor := ack.value; }
    }
    forall i: nat | AppendResponse(node, true, i) in network || SnapshotResponse(node, true, i) in network
      ensures i <= floor
    {
      if AppendResponse(node, true, i) in network {
        var j :| 0 <= j < |network| && network[j] == AppendResponse(node, true, i);
        assert AckOf(network[j], node) == Some(i);
      } else {
        var j :| 0 <= j < |network| && network[j] == SnapshotResponse(node, true, i);
        assert AckOf(network[j], node) == Some(i);
      }
    }
    if floor > 0 {
      var j :| 0 <= j < |network| && AckOf(network[j], node) == Some(floor);
      assert network[j] in network;
    }
  }

  function LossyImage(live: Boot, floor: nat): Boot { live.(log := LogThrough(live.log, floor)) }

  /** Restarts a node without the log tail that no leader can count on. */
  method RestartLossy(live: Boot, delivered: nat, network: seq<Envelope>, node: nat) returns (image: Boot, floor: nat)
    requires Valid(live)
    ensures image == LossyImage(live, floor) && Valid(image)
    ensures live.commit <= floor && delivered <= floor && live.Boundary() <= floor
    ensures forall i: nat ::
      AppendResponse(node, true, i) in network || SnapshotResponse(node, true, i) in network ==> i <= floor
    ensures
      || floor == live.commit || floor == delivered || floor == live.Boundary()
      || AppendResponse(node, true, floor) in network || SnapshotResponse(node, true, floor) in network
    ensures forall e :: e in live.log && e.index <= floor ==> e in image.log
    ensures forall e :: e in image.log ==> e in live.log && e.index <= floor
  {
    var inFlight := InFlightAckFloor(network, node);
    floor := Max(Max(Max(delivered, inFlight), live.commit), live.Boundary());
    image := LossyImage(live, floor);
    ThroughValid(live, live.log, floor, live.Boundary() + 1);
    SameReading(live, image, image.log, live.Boundary() + 1);
    ThroughMembers(live.log, floor);
  }

  lemma {:induction false} ThroughMembers(log: seq<BootEntry>, floor: nat)
    ensures forall e :: e in LogThrough(log, floor) <==> e in log && e.index <= floor
    decreases |log|
  {
    if log != [] {
      ThroughMembers(log[1..], floor);
      assert log == [log[0]] + log[1..];
    }
  }
}
