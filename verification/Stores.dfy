/** The three durable stores.  Any write may fail, and a failed write may have landed: an
    append in part, a snapshot publication without clearing its staging, any other write not
    at all or in full.  A crash during or right after a write is the same thing seen from
    disk, so these contracts cover both.  Every store counts the writes that failed on it. */
module Stores {
  import opened Prelude
  import opened Raft
  import opened Kernel
  import opened Durable
  import Crc32

  /** `Io` is the medium failing; the others refuse a call. */
  datatype StoreError =
    | Io
    | IndexAtMaximum
    | NonContiguous(expected: nat, actual: nat)
    | BeforeCompactedPrefix(compacted: nat, actual: nat)
    | OutOfBounds(next: nat, actual: nat)
    | StagedChunkRefused
    | PromotionRefused
    | PayloadChecksumMismatch(declared: bv32, computed: bv32)
    | InvalidBatch
  {
    predicate Physical() { Io? }
  }

  /** The number of writes that failed under a call with this answer: a call stops at the
      first one. */
  function Fault<T>(r: Result<T, StoreError>): nat { if r.Err? && r.error.Physical() then 1 else 0 }

  class HardStateStore {
    var current: HardState
    ghost var failures: nat

    constructor (h: HardState)
      ensures current == h
    {
      current := h;
    }

    method Write(h: HardState) returns (r: Result<(), StoreError>)
      modifies this
      ensures r.Ok? ==> current == h
      ensures r.Err? ==> r.error.Physical() && (current == old(current) || current == h)
      ensures failures == old(failures) + Fault(r)
    {
      var fails: bool, lands: bool := *, *;
      if !fails || lands { current := h; }
      if fails { failures := failures + 1; }
      return if fails then Err(Io) else Ok(());
    }
  }

  // ---------------------------------------------------------------------------
  // The log segment

  /** A stored entry carries its own index. */
  datatype Persisted = Persisted(index: nat, term: nat, kind: Kind)

  function Strip(batch: seq<Persisted>): (es: seq<Entry>)
    ensures |es| == |batch|
    ensures forall i :: 0 <= i < |batch| ==> es[i] == Entry(batch[i].term, batch[i].kind)
  {
    seq(|batch|, i requires 0 <= i < |batch| => Entry(batch[i].term, batch[i].kind))
  }

  /** Entries labelled `start`, `start + 1`, and so on. */
  function Label(start: nat, es: seq<Entry>): (batch: seq<Persisted>)
    ensures |batch| == |es| && Strip(batch) == es
    ensures forall i :: 0 <= i < |es| ==> batch[i].index == start + i
  {
    seq(|es|, i requires 0 <= i < |es| => Persisted(start + i, es[i].term, es[i].kind))
  }

  predicate Contiguous(batch: seq<Persisted>, start: nat) {
    forall i :: 0 <= i < |batch| ==> batch[i].index == start + i
  }

  /** A stored entry sits at the index it is labelled with. */
  lemma LabelsAreIndexes(entries: seq<Persisted>, base: nat, e: Persisted)
    requires Contiguous(entries, base + 1) && e in entries
    ensures Log(base, Strip(entries)).Has(e.index)
    ensures Log(base, Strip(entries)).At(e.index) == Entry(e.term, e.kind)
  {
    var n :| 0 <= n < |entries| && entries[n] == e;
  }

  class LogSegment {
    var compactedThrough: nat
    var firstIndex: nat
    var entries: seq<Persisted>
    ghost var failures: nat

    ghost predicate Valid()
      reads this
    {
      firstIndex == compactedThrough + 1 && Contiguous(entries, firstIndex) && firstIndex + |entries| <= U64_MAX
    }

    ghost function Value(): Log
      reads this
    {
      Log(compactedThrough, Strip(entries))
    }

    constructor ()
      ensures Valid() && Value() == Log(0, [])
    {
      compactedThrough, firstIndex, entries := 0, 1, [];
    }

    method NextIndex() returns (n: nat)
      requires Valid()
      ensures n == Value().Next()
    {
      return if entries == [] then firstIndex else entries[|entries| - 1].index + 1;
    }

    method Find(index: nat) returns (found: Option<Persisted>)
      requires Valid()
      ensures found.Some? <==> Value().Has(index)
      ensures found.Some? ==> found.value.term == Value().At(index).term
    {
      for i := 0 to |entries|
        invariant Value().Has(index) ==> firstIndex + i <= index
      {
        if entries[i].index == index {
          assert Value().At(index) == Strip(entries)[i];
          return Some(entries[i]);
        }
      }
      found := None;
    }

    /** Appends a batch that continues the log; refuses any other. */
    method Append(batch: seq<Persisted>) returns (r: Result<(), StoreError>, ghost landed: nat)
      requires Valid()
      modifies this
      ensures Valid() && landed <= |batch|
      ensures Value() == old(Value()).Append(Strip(batch)[..landed])
      ensures r.Ok? ==> landed == |batch| && Contiguous(batch, old(Value()).Next())
      ensures r.Err? && !r.error.Physical() ==> landed == 0
      ensures r.Err? && r.error.IndexAtMaximum? ==> exists i :: 0 <= i < |batch| && batch[i].index >= U64_MAX
      ensures r.Err? && !r.error.Physical() && !r.error.IndexAtMaximum? ==> !Contiguous(batch, old(Value()).Next())
      ensures failures == old(failures) + Fault(r)
    {
      landed := 0;
      ghost var start := Value();
      assert start.Append(Strip(batch)[..0]) == start;
      for i := 0 to |batch|
        invariant Valid() && Value() == start && landed == 0 && failures == old(failures)
        invariant forall j :: 0 <= j < i ==> batch[j].index < U64_MAX
      {
        if batch[i].index >= U64_MAX { return Err(IndexAtMaximum), landed; }
      }
      var first := NextIndex();
      var expected := first;
      for i := 0 to |batch|
        invariant Valid() && Value() == start && landed == 0 && failures == old(failures)
        invariant expected == first + i
        invariant forall j :: 0 <= j < i ==> batch[j].index == first + j
      {
        if batch[i].index != expected { return Err(NonContiguous(expected, batch[i].index)), landed; }
        expected := expected + 1;
      }
      var fails: bool, count: nat := *, *;
      var written := if fails && count < |batch| then batch[..count] else batch;
      landed := |written|;
      assert written != [] ==> batch[|written| - 1].index == first + |written| - 1 < U64_MAX;
      assert Strip(entries + written) == Strip(entries) + Strip(batch)[..landed];
      entries := entries + written;
      if fails { failures := failures + 1; }
      r := if fails then Err(Io) else Ok(());
    }

    /** The number of stored entries below `index`. */
    method PartitionPoint(index: nat) returns (n: nat)
      requires Valid()
      ensures n <= |entries|
      ensures index <= firstIndex ==> n == 0
      ensures index > firstIndex ==> n == if index - firstIndex < |entries| then index - firstIndex else |entries|
    {
      n := 0;
      while n < |entries| && entries[n].index < index
        invariant n <= |entries|
        invariant forall j :: 0 <= j < n ==> entries[j].index < index
      {
        n := n + 1;
      }
      if n > 0 { assert entries[n - 1].index < index; }
    }

    /** Removes the entries from `from` on. */
    method TruncateSuffix(from: nat) returns (r: Result<(), StoreError>)
      requires Valid()
      modifies this
      ensures Valid()
      ensures compactedThrough == old(compactedThrough)
      ensures (r.Ok? || r.error.Physical()) <==> old(compactedThrough) < from <= old(Value()).Next()
      ensures r.Ok? ==> Value() == old(Value()).TruncateFrom(from)
      ensures r.Err? ==> Value() == old(Value()) || (r.error.Physical() && Value() == old(Value()).TruncateFrom(from))
      ensures failures == old(failures) + Fault(r)
    {
      if from <= compactedThrough { return Err(BeforeCompactedPrefix(compactedThrough, from)); }
      var next := NextIndex();
      if from > next { return Err(OutOfBounds(next, from)); }
      var fails: bool, lands: bool := *, *;
      if !fails || lands {
        var len := PartitionPoint(from);
        assert Strip(entries[..len]) == Strip(entries)[..len];
        entries := entries[..len];
      }
      if fails { failures := failures + 1; }
      return if fails then Err(Io) else Ok(());
    }

    /** Drops the entries up to `through`; a boundary already passed changes nothing. */
    method CompactPrefixThrough(through: nat) returns (r: Result<(), StoreError>)
      requires Valid()
      modifies this
      ensures Valid()
      ensures r.Ok? ==> Value() == old(Value()).DropThrough(through) && through < U64_MAX
      ensures r.Err? ==> r.error.Physical() || (r.error.IndexAtMaximum? && through >= U64_MAX)
      ensures r.Err? ==> Value() == old(Value()) || (r.error.Physical() && Value() == old(Value()).DropThrough(through))
      ensures failures == old(failures) + Fault(r)
    {
      if through >= U64_MAX { return Err(IndexAtMaximum); }
      if through <= compactedThrough { return Ok(()); }
      var fails: bool, lands: bool := *, *;
      if !fails || lands {
        ghost var was := Value();
        var count := PartitionPoint(through + 1);
        assert Strip(entries[count..]) == Strip(entries)[count..];
        compactedThrough, firstIndex, entries := through, through + 1, entries[count..];
        assert was.DropThrough(through) == Value();
      }
      if fails { failures := failures + 1; }
      return if fails then Err(Io) else Ok(());
    }
  }

  // ---------------------------------------------------------------------------
  // The snapshot store

  class SnapshotStore {
    var current: Snapshot
    var pending: Option<Staged>
    ghost var failures: nat

    constructor (s: Snapshot)
      ensures current == s && pending == None
    {
      current, pending := s, None;
    }

    /** Publishes a snapshot and clears any staging. */
    method WriteSnapshot(s: Snapshot) returns (r: Result<(), StoreError>)
      modifies this
      ensures r.Ok? ==> current == s && pending == None
      ensures r.Err? ==> r.error.Physical()
      ensures r.Err? ==>
        || (current == old(current) && pending == old(pending))
        || (current == s && (pending == None || pending == old(pending)))
      ensures failures == old(failures) + Fault(r)
    {
      var fails: bool, publishes: bool, clears: bool := *, *, *;
      if !fails || publishes { current := s; }
      if !fails || (publishes && clears) { pending := None; }
      if fails { failures := failures + 1; }
      return if fails then Err(Io) else Ok(());
    }

    method StageChunk(chunk: Chunk) returns (r: Result<(), StoreError>)
      modifies this`pending, this`failures
      ensures (r.Ok? || r.error.Physical()) <==> Fits(old(pending), chunk)
      ensures r.Ok? ==> pending == Some(Assembled(old(pending), chunk))
      ensures r.Err? ==>
        pending == old(pending) || (r.error.Physical() && pending == Some(Assembled(old(pending), chunk)))
      ensures failures == old(failures) + Fault(r)
    {
      if !Fits(pending, chunk) { return Err(StagedChunkRefused); }
      var fails: bool, lands: bool := *, *;
      if !fails || lands { pending := Some(Assembled(pending, chunk)); }
      if fails { failures := failures + 1; }
      return if fails then Err(Io) else Ok(());
    }

    /** Makes the staged transfer of exactly `s`, once complete and with the checksum it
        declares, the current snapshot. */
    method PromoteStaged(s: Snapshot) returns (r: Result<(), StoreError>)
      modifies this
      ensures (r.Ok? || r.error.Physical()) <==> Ready(old(pending), s) && Genuine(old(pending).value)
      ensures !Ready(old(pending), s) ==> r == Err(PromotionRefused)
      ensures r.Err? && r.error.PayloadChecksumMismatch? <==> Ready(old(pending), s) && !Genuine(old(pending).value)
      ensures r.Ok? ==> current == s && pending == None
      ensures r.Err? ==>
        || (current == old(current) && pending == old(pending))
        || (r.error.Physical() && current == s && (pending == None || pending == old(pending)))
      ensures failures == old(failures) + Fault(r)
    {
      if pending.None? || pending.value.snapshot != s || !pending.value.Complete() { return Err(PromotionRefused); }
      var tables := Crc32.BuildTables();
      var found := Crc32.ComputeCrc32(tables, pending.value.bytes);
      if found != s.crc { return Err(PayloadChecksumMismatch(s.crc, found)); }
      r := WriteSnapshot(s);
    }

    method ClearPending() returns (r: Result<(), StoreError>)
      modifies this`pending, this`failures
      ensures r.Ok? ==> pending == None
      ensures r.Err? ==> r.error.Physical() && (pending == None || pending == old(pending))
      ensures failures == old(failures) + Fault(r)
    {
      var fails: bool, lands: bool := *, *;
      if !fails || lands { pending := None; }
      if fails { failures := failures + 1; }
      return if fails then Err(Io) else Ok(());
    }
  }

  /** One shared-log record that appends entries and replaces the hard state together: it
      lands whole or not at all, and a pair of stores without a shared log declines it. */
  method PersistBatch(hard: HardStateStore, log: LogSegment, batch: seq<Persisted>, h: HardState)
    returns (r: Result<bool, StoreError>)
    requires log.Valid() && Contiguous(batch, log.Value().Next())
    modifies hard, log
    ensures log.Valid()
    ensures r.Err? ==>
      r.error.Physical() || (r.error.IndexAtMaximum? && batch != [] && batch[|batch| - 1].index >= U64_MAX)
    ensures r == Ok(false) ==> log.Value() == old(log.Value()) && hard.current == old(hard.current)
    ensures r == Ok(true) ==> log.Value() == old(log.Value()).Append(Strip(batch)) && hard.current == h
    ensures r.Err? ==>
      || (log.Value() == old(log.Value()) && hard.current == old(hard.current))
      || (log.Value() == old(log.Value()).Append(Strip(batch)) && hard.current == h)
    ensures hard.failures == old(hard.failures) && log.failures == old(log.failures) + Fault(r)
  {
    var declines: bool, fails: bool, lands: bool := *, *, *;
    if declines { return Ok(false); }
    if batch != [] && batch[|batch| - 1].index >= U64_MAX { return Err(IndexAtMaximum); }
    if !fails || lands {
      assert Strip(log.entries + batch) == Strip(log.entries) + Strip(batch);
      log.entries := log.entries + batch;
      hard.current := h;
    }
    if fails { log.failures := log.failures + 1; }
    return if fails then Err(Io) else Ok(true);
  }

  ghost function ImageOf(hard: HardStateStore, log: LogSegment, snaps: SnapshotStore): Image
    reads hard, log, snaps
  {
    Image(hard.current, log.Value(), snaps.current, snaps.pending)
  }

  /** The writes that have failed on the stores of one node. */
  ghost function Failures(hard: HardStateStore, log: LogSegment, snaps: SnapshotStore): nat
    reads hard, log, snaps
  {
    hard.failures + log.failures + snaps.failures
  }
}
