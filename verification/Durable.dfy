/** The durable image of a node, the invariant that holds of it after every store write and at
    every crash, and what each kind of write keeps. */
module Durable {
  import opened Prelude
  import opened Raft
  import opened Kernel
  import Crc32

  /** A transfer as it is staged on disk. */
  datatype Staged = Staged(leader: nat, snapshot: Snapshot, bytes: Bytes) {
    predicate Complete() { |bytes| == snapshot.len }

    function Progress(): Transfer { Transfer(leader, snapshot, |bytes|) }
  }

  /** The staged bytes have the checksum their descriptor declares. */
  predicate Genuine(t: Staged) { t.snapshot.crc == Crc32.Checksum(t.bytes) }

  function ProgressOf(p: Option<Staged>): Option<Transfer> { if p.Some? then Some(p.value.Progress()) else None }

  /** A chunk at offset zero begins a transfer; any other is added to the staged one. */
  function Assembled(p: Option<Staged>, c: Chunk): Staged {
    Staged(c.leader, c.snapshot, if c.offset == 0 || p.None? then c.bytes else p.value.bytes + c.bytes)
  }

  /** The chunk starts a transfer or is the next one of `p`. */
  predicate Fits(p: Option<Staged>, c: Chunk) { c.WellFormed() && (c.offset == 0 || c.Continues(ProgressOf(p))) }

  /** A complete transfer of exactly `s` is staged. */
  predicate Ready(p: Option<Staged>, s: Snapshot) { p.Some? && p.value.snapshot == s && p.value.Complete() }

  /** Any cut of a payload into chunks is staged back together: the chunk from `from` to `end` is
      taken by a transfer that has received everything before it, and then everything before
      `end` is staged. */
  lemma CutIsStaged(leader: nat, s: Snapshot, payload: Bytes, from: nat, end: nat, p: Option<Staged>)
    requires |payload| == s.len && from <= end <= |payload| && (from == end ==> end == |payload|)
    requires from > 0 ==> p == Some(Staged(leader, s, payload[..from]))
    ensures
      var c := Chunk(leader, s, from, payload[from..end], end == |payload|);
      Fits(p, c) && Assembled(p, c) == Staged(leader, s, payload[..end])
  {
    if from == 0 {
      assert payload[0..end] == payload[..end];
    } else {
      assert payload[..from] + payload[from..end] == payload[..end];
    }
  }

  /** And nothing is staged out of place: a chunk that is taken lies inside its payload, is
      called the last exactly if it is, is not empty before that, and starts a transfer or
      continues the very one that is staged, at the byte where it stands. */
  lemma StagedInPlace(p: Option<Staged>, c: Chunk)
    requires Fits(p, c)
    ensures c.offset + |c.bytes| <= c.snapshot.len && (c.done <==> c.offset + |c.bytes| == c.snapshot.len)
    ensures c.bytes == [] ==> c.done
    ensures c.offset > 0 ==>
      p.Some? && p.value.leader == c.leader && p.value.snapshot == c.snapshot && |p.value.bytes| == c.offset
    ensures |Assembled(p, c).bytes| == c.offset + |c.bytes|
  {}

  datatype HardState = HardState(term: nat, vote: Option<nat>, commit: nat, config: Option<Config>)

  datatype Image = Image(hard: HardState, log: Log, snap: Snapshot, pending: Option<Staged>) {

    /** Everything at or below this index is committed. */
    function Committed(): nat { Max(hard.commit, snap.index) }

    function CommitPoint(): Point {
      var c := Committed();
      Point(c, if snap.index < c && log.Has(c) then log.At(c).term else snap.term)
    }
  }

  /** Snapshot and log meet: the log ends below the boundary, or starts right after it, or
      holds an entry of the boundary's term at the boundary. */
  ghost predicate Seam(L: Lineage, log: Log, snap: Snapshot) {
    || log.Last() < snap.index
    || (log.base == snap.index && Grounded(L, log, snap.term))
    || (log.Has(snap.index) && log.At(snap.index).term == snap.term)
  }

  /** A staged transfer that a reopen would install continues the committed history. */
  ghost predicate PendingOk(L: Lineage, img: Image) {
    img.pending.Some? ==>
      var t := img.pending.value;
      && t.snapshot.hardStateTerm <= img.hard.term
      && |t.bytes| <= t.snapshot.len
      && (t.Complete() && img.snap.index < t.snapshot.index ==>
            img.Committed() < t.snapshot.index && Ancestor(L, img.CommitPoint(), t.snapshot.Boundary()))
  }

  ghost predicate ImageInv(L: Lineage, img: Image) {
    && img.log.base <= img.snap.index
    && (img.hard.commit <= img.snap.index || img.hard.commit <= img.log.Last())
    && Chained(L, img.log)
    && Seam(L, img.log, img.snap)
    && TermsWithin(img.log, img.hard.term)
    && (img.hard.vote.Some? ==> img.hard.term > 0)
    && (img.snap.index == 0 ==> img.snap.term == 0)
    && PendingOk(L, img)
  }

  /** What time may do to an image: terms grow, a vote stands within its term, snapshots move
      forward, and the committed history only gets longer. */
  ghost predicate Extends(L: Lineage, a: Image, b: Image) {
    && a.hard.term <= b.hard.term
    && (a.hard.term == b.hard.term && a.hard.vote.Some? ==> b.hard.vote == a.hard.vote)
    && a.snap.index <= b.snap.index
    && Ancestor(L, a.CommitPoint(), b.CommitPoint())
  }

  lemma ExtendsTrans(L: Lineage, a: Image, b: Image, c: Image)
    requires Extends(L, a, b) && Extends(L, b, c)
    ensures Extends(L, a, c)
  {
    AncestorTrans(L, a.CommitPoint(), b.CommitPoint(), c.CommitPoint());
  }

  /** Every durable entry up to the commit point is the one on the committed history. */
  lemma CommittedEntry(L: Lineage, img: Image, i: nat)
    requires ImageInv(L, img) && img.snap.index < i <= img.Committed()
    ensures img.log.Has(i)
    ensures img.log.At(i).term == Back(L, img.CommitPoint().index, img.CommitPoint().term, i)
    ensures img.log.At(i).kind == L.kind(i, img.log.At(i).term)
  {
    ChainBack(L, img.log, i, img.Committed());
    assert Linked(L, img.log, i);
  }

  /** An entry committed in an earlier image is still there in a later one, unless the later
      snapshot covers it. */
  lemma CommittedStays(L: Lineage, a: Image, b: Image, i: nat)
    requires ImageInv(L, a) && ImageInv(L, b) && Extends(L, a, b)
    requires b.snap.index < i <= a.Committed()
    ensures a.log.Has(i) && b.log.Has(i) && b.log.At(i) == a.log.At(i)
  {
    CommittedEntry(L, a, i);
    CommittedEntry(L, b, i);
    var p, q := a.CommitPoint(), b.CommitPoint();
    BackTwice(L, q.index, q.term, p.index, i);
  }

  /** A snapshot taken over committed entries ends in the entry it replaces. */
  lemma BoundaryStays(L: Lineage, a: Image, b: Image)
    requires ImageInv(L, a) && ImageInv(L, b) && Extends(L, a, b)
    requires a.snap.index < b.snap.index <= a.Committed()
    ensures a.log.Has(b.snap.index) && a.log.At(b.snap.index).term == b.snap.term
  {
    CommittedEntry(L, a, b.snap.index);
    var p, q := a.CommitPoint(), b.CommitPoint();
    BackTwice(L, q.index, q.term, p.index, b.snap.index);
    BoundaryOnHistory(L, b);
  }

  lemma BoundaryOnHistory(L: Lineage, img: Image)
    requires ImageInv(L, img)
    ensures Ancestor(L, img.snap.Boundary(), img.CommitPoint())
  {
    var s, c := img.snap.index, img.Committed();
    if s < c {
      if img.log.base == s {
        GroundBack(L, img.log, img.snap.term, c);
      } else {
        ChainBack(L, img.log, s, c);
      }
    }
  }

  // ---------------------------------------------------------------------------
  // What each write keeps

  /** The durable term has reached the term the snapshot's author had seen. */
  predicate TermReached(img: Image) { img.snap.hardStateTerm <= img.hard.term }

  ghost predicate Kept(L: Lineage, a: Image, b: Image) {
    ImageInv(L, b) && Extends(L, a, b) && (TermReached(a) ==> TermReached(b))
  }

  lemma KeptRefl(L: Lineage, a: Image)
    requires ImageInv(L, a)
    ensures Kept(L, a, a)
  {}

  lemma KeptTrans(L: Lineage, a: Image, b: Image, c: Image)
    requires Kept(L, a, b) && Kept(L, b, c)
    ensures Kept(L, a, c)
  {
    ExtendsTrans(L, a, b, c);
  }

  /** No staged transfer is waiting to be installed by a reopen. */
  predicate Settled(img: Image) {
    img.pending.Some? && img.pending.value.Complete() ==> img.pending.value.snapshot.index <= img.snap.index
  }

  /** A complete transfer waits to be installed, and its bytes miss the checksum they declare. */
  ghost predicate Stuck(img: Image) { !Settled(img) && !Genuine(img.pending.value) }

  /** The term and vote fence. */
  lemma FenceKeeps(L: Lineage, img: Image, h: HardState)
    requires ImageInv(L, img)
    requires img.hard.term <= h.term && h.commit == img.hard.commit && (h.vote.Some? ==> h.term > 0)
    requires h.term == img.hard.term && img.hard.vote.Some? ==> h.vote == img.hard.vote
    ensures Kept(L, img, img.(hard := h))
  {
    assert img.(hard := h).CommitPoint() == img.CommitPoint();
  }

  /** Publishing a new commit index. */
  lemma PublishKeeps(L: Lineage, img: Image, h: HardState)
    requires ImageInv(L, img) && Settled(img)
    requires h.term == img.hard.term && h.vote == img.hard.vote
    requires h.commit <= img.snap.index || h.commit <= img.log.Last()
    requires Ancestor(L, img.CommitPoint(), img.(hard := h).CommitPoint())
    ensures Kept(L, img, img.(hard := h))
  {}

  lemma StageKeeps(L: Lineage, img: Image, chunk: Chunk)
    requires ImageInv(L, img) && Fits(img.pending, chunk) && chunk.snapshot.hardStateTerm <= img.hard.term
    requires chunk.done ==>
      img.Committed() < chunk.snapshot.index && Ancestor(L, img.CommitPoint(), chunk.snapshot.Boundary())
    ensures Kept(L, img, img.(pending := Some(Assembled(img.pending, chunk))))
  {
    assert img.(pending := Some(Assembled(img.pending, chunk))).CommitPoint() == img.CommitPoint();
  }

  lemma ClearKeeps(L: Lineage, img: Image)
    requires ImageInv(L, img)
    ensures Kept(L, img, img.(pending := None))
  {
    assert img.(pending := None).CommitPoint() == img.CommitPoint();
  }

  lemma TruncateKeeps(L: Lineage, img: Image, i: nat)
    requires ImageInv(L, img) && img.log.base < i <= img.log.Next() && img.hard.commit < i
    ensures Kept(L, img, img.(log := img.log.TruncateFrom(i)))
  {
    ChainedTruncate(L, img.log, i);
    assert img.(log := img.log.TruncateFrom(i)).CommitPoint() == img.CommitPoint();
  }

  lemma CompactKeeps(L: Lineage, img: Image)
    requires ImageInv(L, img)
    ensures Kept(L, img, img.(log := img.log.DropThrough(img.snap.index)))
  {
    ChainedDrop(L, img.log, img.snap.index);
    assert img.(log := img.log.DropThrough(img.snap.index)).CommitPoint() == img.CommitPoint();
  }

  /** Publishing a complete staged snapshot, with or without its staging cleared. */
  lemma PromoteKeeps(L: Lineage, img: Image, pending: Option<Staged>)
    requires ImageInv(L, img) && img.pending.Some? && img.pending.value.Complete()
    requires img.snap.index < img.pending.value.snapshot.index
    requires pending == None || pending == img.pending
    requires
      var s := img.pending.value.snapshot;
      img.log.Last() < s.index || (img.log.Has(s.index) && img.log.At(s.index).term == s.term)
    ensures Kept(L, img, img.(snap := img.pending.value.snapshot, pending := pending))
  {}

  /** Publishing a snapshot of the committed prefix. */
  lemma RecordKeeps(L: Lineage, img: Image, s: Snapshot, pending: Option<Staged>)
    requires ImageInv(L, img) && img.snap.index <= s.index <= img.Committed()
    requires pending == None || (pending == img.pending && !pending.value.Complete())
    requires s.term == if s.index == img.snap.index then img.snap.term else img.log.At(s.index).term
    ensures ImageInv(L, img.(snap := s, pending := pending)) && Extends(L, img, img.(snap := s, pending := pending))
    ensures s.hardStateTerm <= img.hard.term ==> Kept(L, img, img.(snap := s, pending := pending))
  {
    assert img.(snap := s, pending := pending).CommitPoint() == img.CommitPoint();
  }

  /** The durable log agrees above the boundary with `whole`, and does not end below it. */
  ghost predicate Prefixes(log: Log, whole: Log) {
    && whole.base <= log.Last() <= whole.Last()
    && forall i :: log.Has(i) && whole.Has(i) ==> log.At(i) == whole.At(i)
  }

  ghost predicate Grows(log: Log, grown: Log) {
    && grown.base == log.base && log.Last() <= grown.Last()
    && forall i :: log.Has(i) ==> grown.At(i) == log.At(i)
  }

  lemma ChainedGrow(L: Lineage, log: Log, snap: Snapshot, whole: Log, grown: Log)
    requires Chained(L, log) && Seam(L, log, snap) && Prefixes(log, whole)
    requires whole.base == snap.index && Chained(L, whole) && Grounded(L, whole, snap.term)
    requires Grows(log, grown) && Prefixes(grown, whole)
    ensures Chained(L, grown) && Seam(L, grown, snap)
  {
    forall i: nat ensures Linked(L, grown, i) {
      assert Linked(L, log, i) && Linked(L, whole, i);
      if grown.Has(i) && log.Last() < i {
        assert whole.Has(i) && grown.At(i) == whole.At(i);
        if log.base < i - 1 && i - 1 == whole.base {
          assert log.Has(snap.index) && whole.entries[0] == whole.At(i);
        } else if log.base < i - 1 {
          assert grown.Has(i - 1) && whole.Has(i - 1);
        }
      }
    }
    if log.base == snap.index && grown.entries != [] {
      assert grown.entries[0] == grown.At(snap.index + 1) == whole.At(snap.index + 1) == whole.entries[0];
    }
  }

  /** The durable log growing towards `whole`. */
  lemma GrowKeeps(L: Lineage, img: Image, whole: Log, grown: Log)
    requires ImageInv(L, img) && whole.base == img.snap.index && Prefixes(img.log, whole)
    requires Chained(L, whole) && Grounded(L, whole, img.snap.term) && TermsWithin(whole, img.hard.term)
    requires Grows(img.log, grown) && Prefixes(grown, whole)
    ensures Kept(L, img, img.(log := grown))
  {
    ChainedGrow(L, img.log, img.snap, whole, grown);
    assert TermsWithin(grown, img.hard.term) by {
      forall i | grown.Has(i) ensures 1 <= grown.At(i).term <= img.hard.term {
        assert img.log.Has(i) || whole.Has(i);
      }
    }
    assert img.(log := grown).CommitPoint() == img.CommitPoint();
  }

  /** Appending any number of the entries that are missing. */
  lemma AppendGrows(log: Log, whole: Log, count: nat)
    requires Prefixes(log, whole) && count <= |whole.From(log.Next())|
    ensures
      var grown := log.Append(whole.From(log.Next())[..count]);
      Grows(log, grown) && Prefixes(grown, whole)
  {}

  /** Appending all of them makes the durable log the whole one. */
  lemma AppendCompletes(log: Log, whole: Log)
    requires Prefixes(log, whole) && log.base <= whole.base
    ensures
      var grown := log.Append(whole.From(log.Next()));
      Grows(log, grown) && Prefixes(grown, whole) && grown.DropThrough(whole.base) == whole
  {
    var grown := log.Append(whole.From(log.Next()));
    assert whole.From(log.Next())[..|whole.From(log.Next())|] == whole.From(log.Next());
    AppendGrows(log, whole, |whole.From(log.Next())|);
    SameLog(grown.DropThrough(whole.base), whole);
  }
}
