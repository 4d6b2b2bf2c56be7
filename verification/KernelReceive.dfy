/** How a follower takes in appends and snapshot chunks
    (crates/rafter/src/node/replication/receive.rs and snapshot/receive): it makes only moves
    that the runtime's theorems quantify over. */
module KernelReceive {
  import opened Prelude
  import opened Raft
  import opened Kernel
  import opened Durable
  import opened StepOutputs
  import opened CommittedConfig
  import opened Delivery
  import Crc32

  datatype AppendRequest = AppendRequest(
    term: nat, leader: nat, prevIndex: nat, prevTerm: nat, entries: seq<Entry>, leaderCommit: nat)
  {
    /** The stretch of the leader's log that the request carries. */
    function Carried(): Log { Log(prevIndex, entries) }

    function MatchIndex(): nat { prevIndex + |entries| }

    function LastTerm(): nat { if entries == [] then prevTerm else entries[|entries| - 1].term }
  }

  /** The log holds the request's entry at offset `n`, as far as terms tell. */
  predicate Holds(k: Node, prev: nat, entries: seq<Entry>, n: nat)
    requires n < |entries|
  {
    k.TermAt(prev + 1 + n) == Some(entries[n].term)
  }

  /** The offset of the first entry, from `o` on, that this log does not already hold. */
  function FirstDivergent(k: Node, prev: nat, entries: seq<Entry>, o: nat): (r: nat)
    requires o <= |entries|
    ensures o <= r <= |entries|
    ensures forall n :: o <= n < r ==> Holds(k, prev, entries, n)
    ensures r < |entries| ==> !Holds(k, prev, entries, r)
    decreases |entries| - o
  {
    if o < |entries| && Holds(k, prev, entries, o) then FirstDivergent(k, prev, entries, o + 1) else o
  }

  /** The commit index that a request proves here: never beyond its own last entry, never
      back. */
  function Confirmed(k: Node, req: AppendRequest): nat { Max(k.commit, Min(req.leaderCommit, req.MatchIndex())) }

  /** How many configurations the log holds strictly between two indexes. */
  function Configurations(log: Log, lo: nat, hi: nat): nat
    decreases hi
  {
    if hi <= lo + 1 then 0
    else Configurations(log, lo, hi - 1) + (if log.Has(hi - 1) && log.At(hi - 1).kind.Configuration? then 1 else 0)
  }

  /** The request brings a configuration of its own term above `floor`. */
  predicate Reconfigures(req: AppendRequest, floor: nat) {
    exists i: nat :: floor < i <= req.MatchIndex() && req.Carried().Has(i)
                     && req.Carried().At(i).kind.Configuration? && req.Carried().At(i).term == req.term
  }

  /** Splicing the request in from index `at` would put a new configuration beside another
      one that is not yet known to be committed. */
  predicate Overlaps(k: Node, req: AppendRequest, at: nat)
    requires at > 0
  {
    var floor := Confirmed(k, req);
    && Reconfigures(req, Max(floor, at - 1))
    && Configurations(k.log, floor, at) + Configurations(req.Carried(), Max(floor, at - 1), req.MatchIndex() + 1) > 1
  }

  /** The splice of `entries` after `prev`: nothing if all are held, refused if it would
      rewrite a committed entry or overlap two configuration changes. */
  function SpliceMoves(k: Node, req: AppendRequest): Option<seq<Move>> {
    var o := FirstDivergent(k, req.prevIndex, req.entries, 0);
    var at := req.prevIndex + 1 + o;
    if o == |req.entries| then Some([])
    else if k.TermAt(at).Some? && at <= k.commit then None
    else if Overlaps(k, req, at) then None
    else Some([Splice(at, req.entries[o..])])
  }

  function CommitMoves(k: Node, req: AppendRequest): seq<Move> {
    var to := Confirmed(k, req);
    if req.leaderCommit > k.commit then [Commit(to)] + DeliverMoves(LogAfter(k, req), k.applied, to)
    else []
  }

  function HandleAppend(k: Node, req: AppendRequest): seq<Move> {
    if req.term < k.term then []
    else
      var adopt := AdoptMoves(k, req.term);
      if k.TermAt(req.prevIndex) != Some(req.prevTerm) then adopt
      else
        match SpliceMoves(k, req)
        case None => adopt
        case Some(splice) => adopt + splice + CommitMoves(k, req)
  }

  /** The answer to the leader. */
  datatype AppendResponse = AppendResponse(term: nat, success: bool, matchIndex: nat)

  function Respond(k: Node, req: AppendRequest): AppendResponse {
    if req.term < k.term then AppendResponse(k.term, false, 0)
    else if k.TermAt(req.prevIndex) != Some(req.prevTerm) || SpliceMoves(k, req).None? then
      AppendResponse(req.term, false, 0)
    else AppendResponse(req.term, true, req.MatchIndex())
  }

  /** What a leader sends belongs to the lineage, with terms it has reached. */
  ghost predicate Sendable(L: Lineage, req: AppendRequest) {
    && Chained(L, req.Carried()) && Grounded(L, req.Carried(), req.prevTerm)
    && TermsWithin(req.Carried(), req.term)
  }

  /** The log that a splice at offset `o` leaves. */
  function Spliced(k: Node, req: AppendRequest, o: nat): Log
    requires o <= |req.entries| && k.log.base < req.prevIndex + 1 + o <= k.log.Next()
  {
    k.log.TruncateFrom(req.prevIndex + 1 + o).Append(req.entries[o..])
  }

  lemma SplicedAt(k: Node, req: AppendRequest, o: nat, i: nat)
    requires o <= |req.entries| && k.log.base < req.prevIndex + 1 + o <= k.log.Next()
    requires Spliced(k, req, o).Has(i)
    ensures i <= req.prevIndex + o ==> k.log.Has(i) && Spliced(k, req, o).At(i) == k.log.At(i)
    ensures i > req.prevIndex + o ==> req.Carried().Has(i) && Spliced(k, req, o).At(i) == req.Carried().At(i)
  {}

  lemma SplicedChained(L: Lineage, k: Node, req: AppendRequest, o: nat)
    requires NodeInv(L, k) && Sendable(L, req) && k.TermAt(req.prevIndex) == Some(req.prevTerm)
    requires o <= |req.entries| && forall n :: 0 <= n < o ==> Holds(k, req.prevIndex, req.entries, n)
    requires k.log.base < req.prevIndex + 1 + o <= k.log.Next()
    ensures Chained(L, Spliced(k, req, o)) && Grounded(L, Spliced(k, req, o), k.snap.term)
  {
    var r, c := Spliced(k, req, o), req.Carried();
    var at := req.prevIndex + 1 + o;
    forall i: nat ensures Linked(L, r, i) {
      assert Linked(L, k.log, i) && Linked(L, c, i);
      if r.Has(i) {
        SplicedAt(k, req, o, i);
        if r.base < i - 1 {
          SplicedAt(k, req, o, i - 1);
          if i == at && o > 0 {
            assert Holds(k, req.prevIndex, req.entries, o - 1);
          }
        }
      }
    }
    if r.entries != [] {
      var first := r.base + 1;
      SplicedAt(k, req, o, first);
      assert r.entries[0] == r.At(first);
    }
  }

  lemma SplicedTerms(L: Lineage, k: Node, req: AppendRequest, o: nat)
    requires NodeInv(L, k) && Sendable(L, req) && req.term == k.term
    requires o <= |req.entries| && k.log.base < req.prevIndex + 1 + o <= k.log.Next()
    ensures TermsWithin(Spliced(k, req, o), k.term)
  {
    forall i | Spliced(k, req, o).Has(i) ensures 1 <= Spliced(k, req, o).At(i).term <= k.term {
      SplicedAt(k, req, o, i);
    }
  }

  /** The indexes of a node are in order. */
  predicate Shaped(k: Node) { k.log.base == k.snap.index <= k.applied <= k.commit <= k.log.Last() }

  /** Everything held ends inside the log. */
  lemma HeldInside(k: Node, req: AppendRequest)
    requires Shaped(k) && k.TermAt(req.prevIndex) == Some(req.prevTerm)
    ensures
      var o := FirstDivergent(k, req.prevIndex, req.entries, 0);
      k.log.base <= req.prevIndex && req.prevIndex + o <= k.log.Last() && k.commit <= k.log.Last()
  {
    var o := FirstDivergent(k, req.prevIndex, req.entries, 0);
    if o > 0 {
      assert Holds(k, req.prevIndex, req.entries, o - 1);
    }
  }

  /** The log after a splice. */
  function LogAfter(k: Node, req: AppendRequest): Log {
    var o := FirstDivergent(k, req.prevIndex, req.entries, 0);
    if o < |req.entries| && k.log.base < req.prevIndex + 1 + o <= k.log.Next() then Spliced(k, req, o) else k.log
  }

  /** An accepted request is held in full, or is spliced in from its first divergent entry. */
  lemma SpliceCases(k: Node, req: AppendRequest)
    requires Shaped(k) && k.TermAt(req.prevIndex) == Some(req.prevTerm) && SpliceMoves(k, req).Some?
    ensures
      var o := FirstDivergent(k, req.prevIndex, req.entries, 0);
      var at := req.prevIndex + 1 + o;
      if o == |req.entries| then SpliceMoves(k, req).value == [] && LogAfter(k, req) == k.log
      else
        && k.log.base < at <= k.log.Next()
        && SpliceMoves(k, req).value == [Splice(at, req.entries[o..])]
        && LogAfter(k, req) == k.log.TruncateFrom(at).Append(req.entries[o..])
  {
    hide Overlaps, FirstDivergent, Node.TermAt, Log.TruncateFrom, Log.Append;
    HeldInside(k, req);
  }

  lemma LogAfterReach(k: Node, req: AppendRequest)
    requires Shaped(k) && k.TermAt(req.prevIndex) == Some(req.prevTerm) && SpliceMoves(k, req).Some?
    ensures k.log.base == LogAfter(k, req).base && Confirmed(k, req) <= LogAfter(k, req).Last()
  {
    hide Overlaps, FirstDivergent;
    HeldInside(k, req);
  }

  lemma SpliceResult(L: Lineage, k: Node, req: AppendRequest)
    requires Shaped(k) && k.TermAt(req.prevIndex) == Some(req.prevTerm) && SpliceMoves(k, req).Some?
    ensures ApplyAll(k, SpliceMoves(k, req).value) == k.(log := LogAfter(k, req))
    ensures k.log.base == LogAfter(k, req).base && Confirmed(k, req) <= LogAfter(k, req).Last()
  {
    hide SpliceMoves, LogAfter, FirstDivergent, ApplyAll, Apply, Log.TruncateFrom, Log.Append, Confirmed;
    GuardedNothing(L, k);
    SpliceCases(k, req);
    LogAfterReach(k, req);
    var o := FirstDivergent(k, req.prevIndex, req.entries, 0);
    if o < |req.entries| {
      var m := Splice(req.prevIndex + 1 + o, req.entries[o..]);
      OneMove(L, k, m);
      SplicesAs(k, m);
    }
  }

  lemma SplicesAs(k: Node, m: Move)
    requires m.Splice? && k.log.base < m.from <= k.log.Next()
    ensures Apply(k, m) == k.(log := k.log.TruncateFrom(m.from).Append(m.entries))
  {}

  lemma LogAfterSound(L: Lineage, k: Node, req: AppendRequest)
    requires NodeInv(L, k) && Sendable(L, req) && req.term == k.term && k.TermAt(req.prevIndex) == Some(req.prevTerm)
    ensures Chained(L, LogAfter(k, req)) && Grounded(L, LogAfter(k, req), k.snap.term)
    ensures TermsWithin(LogAfter(k, req), k.term)
    ensures k.log.base <= req.prevIndex && req.MatchIndex() <= LogAfter(k, req).Last()
  {
    HeldInside(k, req);
    var o := FirstDivergent(k, req.prevIndex, req.entries, 0);
    if o < |req.entries| {
      SplicedChained(L, k, req, o);
      SplicedTerms(L, k, req, o);
    }
  }

  /** Afterwards the log holds every entry of the request. */
  lemma LogAfterHolds(L: Lineage, k: Node, req: AppendRequest, i: nat)
    requires NodeInv(L, k) && Sendable(L, req) && req.term == k.term && k.TermAt(req.prevIndex) == Some(req.prevTerm)
    requires req.Carried().Has(i)
    ensures LogAfter(k, req).Has(i) && LogAfter(k, req).At(i) == req.Carried().At(i)
  {
    LogAfterSound(L, k, req);
    HeldInside(k, req);
    var o := FirstDivergent(k, req.prevIndex, req.entries, 0);
    var end := req.MatchIndex();
    if o < |req.entries| {
      SplicedAt(k, req, o, end);
    } else {
      assert Holds(k, req.prevIndex, req.entries, |req.entries| - 1);
    }
    LogMatching(L, LogAfter(k, req), req.Carried(), end, i);
  }

  /** The splice of a request that passes the prefix check is a guarded move. */
  lemma SpliceGuarded(L: Lineage, k: Node, req: AppendRequest)
    requires NodeInv(L, k) && Sendable(L, req) && req.term == k.term
    requires k.TermAt(req.prevIndex) == Some(req.prevTerm) && SpliceMoves(k, req).Some?
    ensures Guarded(L, k, SpliceMoves(k, req).value)
  {
    hide Guarded, Chained, Grounded, Sendable, Overlaps;
    HeldInside(k, req);
    LogAfterSound(L, k, req);
    var moves := SpliceMoves(k, req).value;
    if moves != [] {
      OneMove(L, k, moves[0]);
    } else {
      GuardedNothing(L, k);
    }
  }

  // ---------------------------------------------------------------------------
  // The whole reaction

  /** The kernel after it has taken a request in. */
  function Taken(k: Node, req: AppendRequest): Node {
    var j := Adopted(k, req.term).(log := LogAfter(k, req));
    var to := Confirmed(k, req);
    if req.leaderCommit > k.commit then j.(commit := to, applied := to) else j
  }

  lemma CommitGuarded(L: Lineage, k: Node, req: AppendRequest)
    requires Shaped(k) && req.term == k.term
    requires Confirmed(k, req) <= LogAfter(k, req).Last() && k.log.base == LogAfter(k, req).base
    ensures
      var j := k.(log := LogAfter(k, req));
      && Guarded(L, j, CommitMoves(k, req))
      && ApplyAll(j, CommitMoves(k, req)) == Taken(k, req)
  {
    hide Guarded, ApplyAll, LogAfter;
    var j, to := k.(log := LogAfter(k, req)), Confirmed(k, req);
    GuardedNothing(L, j);
    if req.leaderCommit > k.commit {
      var next := j.(commit := to);
      OneMove(L, j, Commit(to));
      Delivered(L, next, to);
      GuardedConcat(L, j, [Commit(to)], DeliverMoves(j.log, k.applied, to));
    }
  }

  /** Taking over a term that is not older. */
  function Adopted(k: Node, term: nat): Node { k.(term := term, vote := if term > k.term then None else k.vote) }

  function AdoptMoves(k: Node, term: nat): seq<Move> { if term > k.term then [SetTerm(term, None)] else [] }

  lemma AdoptGuarded(L: Lineage, k: Node, term: nat)
    requires NodeInv(L, k) && k.term <= term
    ensures Guarded(L, k, AdoptMoves(k, term)) && ApplyAll(k, AdoptMoves(k, term)) == Adopted(k, term)
    ensures NodeInv(L, Adopted(k, term))
  {
    if term > k.term {
      OneMove(L, k, SetTerm(term, None));
      MoveKeepsInv(L, k, SetTerm(term, None));
    }
  }

  /** A follower in the request's term that lets the splice in. */
  ghost predicate LetsIn(k: Node, req: AppendRequest) {
    k.TermAt(req.prevIndex) == Some(req.prevTerm) && SpliceMoves(k, req).Some?
  }

  lemma SpliceThenCommit(L: Lineage, k: Node, req: AppendRequest)
    requires NodeInv(L, k) && Sendable(L, req) && req.term == k.term && LetsIn(k, req)
    ensures Guarded(L, k, SpliceMoves(k, req).value + CommitMoves(k, req))
  {
    hide Guarded, ApplyAll, SpliceMoves, CommitMoves, Sendable;
    SpliceGuarded(L, k, req);
    SpliceResult(L, k, req);
    CommitGuarded(L, k, req);
    GuardedConcat(L, k, SpliceMoves(k, req).value, CommitMoves(k, req));
  }

  /** Whatever a leader sends, the follower's reaction to it is a guarded step. */
  lemma AppendIsGuarded(L: Lineage, k: Node, req: AppendRequest)
    requires NodeInv(L, k) && Sendable(L, req)
    ensures Guarded(L, k, HandleAppend(k, req))
  {
    hide NodeInv, Sendable, Guarded, ApplyAll, SpliceMoves, CommitMoves;
    GuardedNothing(L, k);
    if req.term >= k.term {
      AdoptGuarded(L, k, req.term);
      if LetsIn(k, req) {
        var adopt, adopted := AdoptMoves(k, req.term), Adopted(k, req.term);
        SameSplice(k, adopted, req);
        SpliceThenCommit(L, adopted, req);
        var splice, commit := SpliceMoves(k, req).value, CommitMoves(k, req);
        GuardedConcat(L, k, adopt, splice + commit);
        assert adopt + splice + commit == adopt + (splice + commit);
      }
    }
  }

  lemma SpliceCommitResult(L: Lineage, k: Node, req: AppendRequest)
    requires Shaped(k) && req.term == k.term && LetsIn(k, req)
    ensures ApplyAll(k, SpliceMoves(k, req).value + CommitMoves(k, req)) == Taken(k, req)
  {
    hide ApplyAll, SpliceMoves, CommitMoves, LogAfter, Taken;
    SpliceResult(L, k, req);
    CommitGuarded(L, k, req);
    ApplyConcat(k, SpliceMoves(k, req).value, CommitMoves(k, req));
  }

  lemma AdoptResult(L: Lineage, k: Node, req: AppendRequest)
    requires req.term >= k.term
    ensures ApplyAll(k, AdoptMoves(k, req.term)) == Adopted(k, req.term)
    ensures Taken(Adopted(k, req.term), req) == Taken(k, req)
  {
    hide ApplyAll, LogAfter;
    if req.term > k.term { OneMove(L, k, AdoptMoves(k, req.term)[0]); }
    GuardedNothing(L, k);
    SameSplice(k, Adopted(k, req.term), req);
  }

  /** What that step makes of a node: the whole request spliced in, the confirmed index
      committed, and everything up to it delivered. */
  lemma AppendResult(L: Lineage, k: Node, req: AppendRequest)
    requires Shaped(k) && req.term >= k.term && LetsIn(k, req)
    ensures ApplyAll(k, HandleAppend(k, req)) == Taken(k, req)
  {
    hide ApplyAll, SpliceMoves, CommitMoves, LogAfter, Taken;
    var adopt, adopted := AdoptMoves(k, req.term), Adopted(k, req.term);
    var splice, commit := SpliceMoves(k, req).value, CommitMoves(k, req);
    AdoptResult(L, k, req);
    SameSplice(k, adopted, req);
    SpliceCommitResult(L, adopted, req);
    ApplyConcat(k, adopt, splice + commit);
    assert adopt + splice + commit == adopt + (splice + commit);
  }

  lemma TakenShaped(L: Lineage, k: Node, req: AppendRequest)
    requires Shaped(k) && LetsIn(k, req)
    ensures Shaped(Taken(k, req))
  {
    hide SpliceMoves, LogAfter;
    SpliceResult(L, k, req);
  }

  /** What a follower delivers when it takes in `req`. */
  function Deliveries(k: Node, req: AppendRequest): seq<Output> {
    if req.leaderCommit > k.commit then OutputsFrom(DeliverMoves(LogAfter(k, req), k.applied, Confirmed(k, req)))
    else []
  }

  /** The host hears of exactly the entries that became committed, in order. */
  lemma AppendAnnounces(k: Node, req: AppendRequest)
    requires req.term >= k.term && LetsIn(k, req)
    ensures OutputsFrom(HandleAppend(k, req)) == Deliveries(k, req)
  {
    hide LogAfter, Confirmed, Overlaps, FirstDivergent;
    var adopt := AdoptMoves(k, req.term);
    var splice, commit := SpliceMoves(k, req).value, CommitMoves(k, req);
    OutputsConcat(adopt, splice);
    OutputsConcat(adopt + splice, commit);
    if commit != [] {
      assert commit[1..] == DeliverMoves(LogAfter(k, req), k.applied, Confirmed(k, req));
    }
  }

  /** Terms and votes do not matter to the splice. */
  lemma SameSplice(k: Node, j: Node, req: AppendRequest)
    requires j == k.(term := j.term, vote := j.vote)
    ensures SpliceMoves(k, req) == SpliceMoves(j, req) && LogAfter(k, req) == LogAfter(j, req)
    ensures CommitMoves(k, req) == CommitMoves(j, req)
  {
    SameDivergence(k, j, req, 0);
  }

  lemma {:induction false} SameDivergence(k: Node, j: Node, req: AppendRequest, o: nat)
    requires j == k.(term := j.term, vote := j.vote) && o <= |req.entries|
    ensures FirstDivergent(k, req.prevIndex, req.entries, o) == FirstDivergent(j, req.prevIndex, req.entries, o)
    decreases |req.entries| - o
  {
    if o < |req.entries| {
      SameDivergence(k, j, req, o + 1);
    }
  }

  // ---------------------------------------------------------------------------
  // One configuration change at a time

  lemma {:induction false} SameConfigurations(a: Log, b: Log, lo: nat, hi: nat)
    requires forall i: nat :: lo < i < hi ==> (a.Has(i) <==> b.Has(i)) && (a.Has(i) ==> a.At(i) == b.At(i))
    ensures Configurations(a, lo, hi) == Configurations(b, lo, hi)
    decreases hi
  {
    if lo + 1 < hi {
      SameConfigurations(a, b, lo, hi - 1);
    }
  }

  lemma {:induction false} ConfigurationsSplit(log: Log, lo: nat, mid: nat, hi: nat)
    requires lo < mid <= hi
    ensures Configurations(log, lo, hi) == Configurations(log, lo, mid) + Configurations(log, mid - 1, hi)
    decreases hi
  {
    if mid < hi {
      ConfigurationsSplit(log, lo, mid, hi - 1);
    }
  }

  /** The configurations above the floor, once the request is spliced in, are those that stay
      and those that come. */
  lemma SplicedConfigurations(k: Node, req: AppendRequest)
    requires Shaped(k) && k.TermAt(req.prevIndex) == Some(req.prevTerm)
    requires FirstDivergent(k, req.prevIndex, req.entries, 0) < |req.entries|
    ensures
      var at, floor := req.prevIndex + 1 + FirstDivergent(k, req.prevIndex, req.entries, 0), Confirmed(k, req);
      var after := LogAfter(k, req);
      && after.Next() == req.MatchIndex() + 1
      && Configurations(after, floor, after.Next()) ==
         Configurations(k.log, floor, at) + Configurations(req.Carried(), Max(floor, at - 1), req.MatchIndex() + 1)
  {
    hide Configurations, FirstDivergent;
    HeldInside(k, req);
    var o := FirstDivergent(k, req.prevIndex, req.entries, 0);
    var at, floor, after := req.prevIndex + 1 + o, Confirmed(k, req), LogAfter(k, req);
    var above := Max(floor, at - 1);
    forall i: nat | after.Has(i) ensures i < at ==> k.log.Has(i) && after.At(i) == k.log.At(i)
      ensures i >= at ==> req.Carried().Has(i) && after.At(i) == req.Carried().At(i)
    {
      SplicedAt(k, req, o, i);
    }
    SameConfigurations(after, k.log, floor, at);
    SameConfigurations(after, req.Carried(), above, after.Next());
    if floor < at {
      ConfigurationsSplit(after, floor, at, after.Next());
    } else {
      NoRoom(k.log, floor, at);
    }
  }

  /** A follower that takes in a configuration of the current term afterwards holds no other
      one above the commit index the request has proved. */
  lemma OneConfiguration(k: Node, req: AppendRequest)
    requires Shaped(k) && LetsIn(k, req) && SpliceMoves(k, req).value != []
    requires
      var at := req.prevIndex + 1 + FirstDivergent(k, req.prevIndex, req.entries, 0);
      Reconfigures(req, Max(Confirmed(k, req), at - 1))
    ensures Configurations(LogAfter(k, req), Confirmed(k, req), LogAfter(k, req).Next()) <= 1
  {
    hide Configurations, Reconfigures, FirstDivergent, LogAfter;
    SplicedConfigurations(k, req);
  }

  lemma NoRoom(log: Log, lo: nat, hi: nat)
    requires hi <= lo
    ensures Configurations(log, lo, hi) == 0
  {}

  // ---------------------------------------------------------------------------
  // Exactly when a request is taken in, and what becomes of it

  /** At and below the commit index, the request carries what the log holds. */
  ghost predicate RespectsCommitted(k: Node, req: AppendRequest) {
    forall i: nat :: req.Carried().Has(i) && i <= k.commit ==> k.TermAt(i) == Some(req.Carried().At(i).term)
  }

  /** The log and the request differ first at `at`. */
  ghost predicate Diverges(k: Node, req: AppendRequest, at: nat) {
    && req.Carried().Has(at) && k.TermAt(at) != Some(req.Carried().At(at).term)
    && forall i: nat :: req.Carried().Has(i) && i < at ==> k.TermAt(i) == Some(req.Carried().At(i).term)
  }

  /** The request brings a configuration of its own term at `at` or later that it does not
      also commit. */
  ghost predicate BringsConfiguration(k: Node, req: AppendRequest, at: nat) {
    exists i: nat ::
      && req.Carried().Has(i) && at <= i && k.commit < i && Min(req.leaderCommit, req.prevIndex + |req.entries|) < i
      && req.Carried().At(i).kind.Configuration? && req.Carried().At(i).term == req.term
  }

  /** If it does, then no other configuration is left that is not known to be committed. */
  ghost predicate OneChangeAtATime(k: Node, req: AppendRequest) {
    forall at: nat :: Diverges(k, req, at) && k.log.base < at <= k.log.Next() && BringsConfiguration(k, req, at) ==>
      var floor := Max(k.commit, Min(req.leaderCommit, req.prevIndex + |req.entries|));
      Configurations(k.log.TruncateFrom(at).Append(req.Carried().From(at)), floor, req.MatchIndex() + 1) <= 1
  }

  /** A request is acceptable to a follower in its term if it continues the log, rewrites
      nothing that is committed, and starts no configuration change beside another. */
  ghost predicate Acceptable(k: Node, req: AppendRequest) {
    k.TermAt(req.prevIndex) == Some(req.prevTerm) && RespectsCommitted(k, req) && OneChangeAtATime(k, req)
  }

  lemma DivergesAt(k: Node, req: AppendRequest)
    ensures
      var o := FirstDivergent(k, req.prevIndex, req.entries, 0);
      if o == |req.entries| then
        forall i: nat :: req.Carried().Has(i) ==> k.TermAt(i) == Some(req.Carried().At(i).term)
      else
        Diverges(k, req, req.prevIndex + 1 + o)
  {
    var o := FirstDivergent(k, req.prevIndex, req.entries, 0);
    forall i: nat | req.Carried().Has(i) && i < req.prevIndex + 1 + o
      ensures k.TermAt(i) == Some(req.Carried().At(i).term)
    {
      assert Holds(k, req.prevIndex, req.entries, i - req.prevIndex - 1);
    }
  }

  lemma DivergesOnce(k: Node, req: AppendRequest, a: nat, b: nat)
    requires Diverges(k, req, a) && Diverges(k, req, b)
    ensures a == b
  {}

  lemma GraftIsSplice(k: Node, req: AppendRequest)
    requires Shaped(k) && k.TermAt(req.prevIndex) == Some(req.prevTerm)
    requires FirstDivergent(k, req.prevIndex, req.entries, 0) < |req.entries|
    ensures
      var at := req.prevIndex + 1 + FirstDivergent(k, req.prevIndex, req.entries, 0);
      && k.log.base < at <= k.log.Next()
      && k.log.TruncateFrom(at).Append(req.Carried().From(at)) == LogAfter(k, req)
  {
    hide FirstDivergent;
    HeldInside(k, req);
  }

  lemma BringsExactly(k: Node, req: AppendRequest, at: nat)
    requires at > 0
    ensures Reconfigures(req, Max(Confirmed(k, req), at - 1)) <==> BringsConfiguration(k, req, at)
  {}

  lemma OverlapExactly(k: Node, req: AppendRequest)
    requires Shaped(k) && k.TermAt(req.prevIndex) == Some(req.prevTerm)
    requires FirstDivergent(k, req.prevIndex, req.entries, 0) < |req.entries|
    ensures
      var at := req.prevIndex + 1 + FirstDivergent(k, req.prevIndex, req.entries, 0);
      !Overlaps(k, req, at) <==> OneChangeAtATime(k, req)
  {
    hide FirstDivergent, Configurations, Diverges, LogAfter, Reconfigures, BringsConfiguration, Node.TermAt,
      Log.TruncateFrom, Log.Append, Log.From;
    var at := req.prevIndex + 1 + FirstDivergent(k, req.prevIndex, req.entries, 0);
    DivergesAt(k, req);
    GraftIsSplice(k, req);
    SplicedConfigurations(k, req);
    BringsExactly(k, req, at);
    forall b: nat | Diverges(k, req, b) ensures b == at {
      DivergesOnce(k, req, at, b);
    }
  }

  /** A follower takes a request in if and only if it is acceptable. */
  lemma AcceptedExactly(k: Node, req: AppendRequest)
    requires Shaped(k)
    ensures LetsIn(k, req) <==> Acceptable(k, req)
  {
    hide FirstDivergent, Overlaps, OneChangeAtATime;
    if k.TermAt(req.prevIndex) == Some(req.prevTerm) {
      var o := FirstDivergent(k, req.prevIndex, req.entries, 0);
      DivergesAt(k, req);
      if o < |req.entries| {
        HeldInside(k, req);
        OverlapExactly(k, req);
      } else {
        NothingDiverges(k, req);
      }
    }
  }

  lemma NothingDiverges(k: Node, req: AppendRequest)
    requires forall i: nat :: req.Carried().Has(i) ==> k.TermAt(i) == Some(req.Carried().At(i).term)
    ensures OneChangeAtATime(k, req)
  {}

  /** An acceptable request is held afterwards, entry by entry, after the prefix it continues
      and with nothing else behind it unless it was held already; the index it proves is
      committed and delivered; and the leader is told how far the logs agree. */
  lemma AppendAccepted(L: Lineage, k: Node, req: AppendRequest)
    requires NodeInv(L, k) && Sendable(L, req) && req.term >= k.term && Acceptable(k, req)
    ensures
      var j, carried, end := ApplyAll(k, HandleAppend(k, req)), req.Carried(), req.prevIndex + |req.entries|;
      && j == k.(term := req.term, vote := if req.term > k.term then None else k.vote, log := j.log,
                 commit := Max(k.commit, Min(req.leaderCommit, end)),
                 applied := if req.leaderCommit > k.commit then j.commit else k.applied)
      && (forall i: nat :: carried.Has(i) ==> j.log.Has(i) && j.log.At(i) == carried.At(i))
      && (forall i: nat :: k.log.Has(i) && i <= req.prevIndex ==> j.log.Has(i) && j.log.At(i) == k.log.At(i))
      && j.log.base == k.log.base
      && (if forall i: nat :: carried.Has(i) ==> k.TermAt(i) == Some(carried.At(i).term) then j.log == k.log
          else j.log.Last() == end)
      && Respond(k, req) == AppendResponse(req.term, true, end)
  {
    hide NodeInv, Sendable, ApplyAll, HandleAppend, SpliceMoves, Acceptable, OneChangeAtATime, Chained, Grounded;
    NodeShaped(L, k);
    AcceptedExactly(k, req);
    AppendResult(L, k, req);
    LogAfterExactly(L, k, req);
  }

  lemma NodeShaped(L: Lineage, k: Node)
    requires NodeInv(L, k)
    ensures Shaped(k)
  {}

  lemma LogAfterExactly(L: Lineage, k: Node, req: AppendRequest)
    requires NodeInv(L, k) && Sendable(L, req) && req.term >= k.term && k.TermAt(req.prevIndex) == Some(req.prevTerm)
    ensures
      var after, carried := LogAfter(k, req), req.Carried();
      && (forall i: nat :: carried.Has(i) ==> after.Has(i) && after.At(i) == carried.At(i))
      && (forall i: nat :: k.log.Has(i) && i <= req.prevIndex ==> after.Has(i) && after.At(i) == k.log.At(i))
      && after.base == k.log.base
      && (if forall i: nat :: carried.Has(i) ==> k.TermAt(i) == Some(carried.At(i).term) then after == k.log
          else after.Last() == req.MatchIndex())
  {
    hide NodeInv, Sendable, FirstDivergent;
    var adopted := Adopted(k, req.term);
    NodeShaped(L, k);
    AdoptGuarded(L, k, req.term);
    SameSplice(k, adopted, req);
    forall i: nat | req.Carried().Has(i)
      ensures LogAfter(k, req).Has(i) && LogAfter(k, req).At(i) == req.Carried().At(i)
    {
      LogAfterHolds(L, adopted, req, i);
    }
    DivergesAt(k, req);
    HeldInside(k, req);
  }

  /** A stale request changes nothing; any other one that is not acceptable makes the follower
      adopt its term and changes nothing else; and nobody is told of anything but the
      refusal. */
  lemma AppendRefused(L: Lineage, k: Node, req: AppendRequest)
    requires Shaped(k) && (req.term < k.term || !Acceptable(k, req))
    ensures
      var t := Max(k.term, req.term);
      && ApplyAll(k, HandleAppend(k, req)) == k.(term := t, vote := if t > k.term then None else k.vote)
      && OutputsFrom(HandleAppend(k, req)) == []
      && Respond(k, req) == AppendResponse(t, false, 0)
  {
    hide ApplyAll, OutputsFrom, SpliceMoves, CommitMoves, Acceptable;
    AcceptedExactly(k, req);
    GuardedNothing(L, k);
    NoMoveOutputs();
    if req.term >= k.term {
      AdoptResult(L, k, req);
      AdoptSilent(k, req.term);
    }
  }

  /** What is acknowledged is true: afterwards everything held through the acknowledged index
      is on the leader's history. */
  lemma AcknowledgedIsHeld(L: Lineage, k: Node, req: AppendRequest, i: nat)
    requires NodeInv(L, k) && Sendable(L, req) && Respond(k, req).success
    ensures
      var j, end := ApplyAll(k, HandleAppend(k, req)), Respond(k, req).matchIndex;
      && j.TermAt(end) == Some(req.LastTerm())
      && (j.snap.index <= i <= end ==>
            j.TermAt(i).Some? && Ancestor(L, Point(i, j.TermAt(i).value), Point(end, req.LastTerm())))
  {
    hide NodeInv, Sendable, Guarded, ApplyAll, HandleAppend, Acceptable, SpliceMoves;
    NodeShaped(L, k);
    AcceptedExactly(k, req);
    AppendAccepted(L, k, req);
    AppendIsGuarded(L, k, req);
    StepKept(L, k, HandleAppend(k, req));
    var j, end := ApplyAll(k, HandleAppend(k, req)), req.MatchIndex();
    EndTerm(L, k, j, req);
    if j.snap.index <= i <= end {
      NodeLine(L, j, i, end);
    }
  }

  lemma EndTerm(L: Lineage, k: Node, j: Node, req: AppendRequest)
    requires NodeInv(L, k) && NodeInv(L, j) && k.TermAt(req.prevIndex) == Some(req.prevTerm) && j.snap == k.snap
    requires forall i: nat :: req.Carried().Has(i) ==> j.log.Has(i) && j.log.At(i) == req.Carried().At(i)
    requires forall i: nat :: k.log.Has(i) && i <= req.prevIndex ==> j.log.Has(i) && j.log.At(i) == k.log.At(i)
    ensures req.MatchIndex() <= j.log.Last() && j.TermAt(req.MatchIndex()) == Some(req.LastTerm())
  {
    if req.entries != [] {
      assert req.Carried().Has(req.MatchIndex());
    }
  }

  // ---------------------------------------------------------------------------
  // Snapshot chunks (crates/rafter/src/node/replication/snapshot/receive)

  predicate Receives(k: Node, chunk: Chunk) {
    k.pending.Some? && k.pending.value.leader == chunk.leader && k.pending.value.snapshot == chunk.snapshot
  }

  /** The rules recognise the snapshot's author and its sender. */
  predicate Recognised(rules: Rules, k: Node, chunk: Chunk) {
    rules.Author(chunk.snapshot) && rules.Sender(k, Transfer(chunk.leader, chunk.snapshot, chunk.offset))
  }

  /** What a node in the sender's term does with a chunk: ignore one it does not recognise,
      give up a transfer already covered, ignore one out of place, otherwise take it in. */
  function ChunkMoves(rules: Rules, k: Node, chunk: Chunk): seq<Move> {
    if chunk.snapshot.hardStateTerm > k.term || !Recognised(rules, k, chunk) || !chunk.WellFormed() then []
    else if chunk.snapshot.index <= Max(k.snap.index, k.commit) then
      if k.pending.Some? && k.pending.value.snapshot == chunk.snapshot then [Abandon] else []
    else if !Receives(k, chunk) && chunk.offset != 0 then []
    else if Receives(k, chunk) && chunk.offset != k.pending.value.received then []
    else if chunk.done then [Install(chunk)]
    else [Stage(chunk)]
  }

  function HandleChunk(rules: Rules, k: Node, term: nat, chunk: Chunk): seq<Move> {
    if term < k.term then []
    else AdoptMoves(k, term) + ChunkMoves(rules, Adopted(k, term), chunk)
  }

  lemma ChunkMovesGuarded(L: Lineage, rules: Rules, k: Node, chunk: Chunk)
    requires NodeInv(L, k)
    requires k.commit < chunk.snapshot.index && k.TermAt(k.commit).Some? ==>
      Ancestor(L, k.CommitPoint(), chunk.snapshot.Boundary())
    ensures Guarded(L, k, ChunkMoves(rules, k, chunk))
  {
    var moves := ChunkMoves(rules, k, chunk);
    if moves != [] {
      OneMove(L, k, moves[0]);
    }
  }

  /** A chunk of a snapshot that continues the committed history leads to a guarded step. */
  lemma ChunkIsGuarded(L: Lineage, rules: Rules, k: Node, term: nat, chunk: Chunk)
    requires NodeInv(L, k)
    requires k.commit < chunk.snapshot.index && k.TermAt(k.commit).Some? ==>
      Ancestor(L, k.CommitPoint(), chunk.snapshot.Boundary())
    ensures Guarded(L, k, HandleChunk(rules, k, term, chunk))
  {
    if term >= k.term {
      AdoptGuarded(L, k, term);
      ChunkMovesGuarded(L, rules, Adopted(k, term), chunk);
      GuardedConcat(L, k, AdoptMoves(k, term), ChunkMoves(rules, Adopted(k, term), chunk));
    }
  }

  lemma AdoptSilent(k: Node, term: nat)
    ensures OutputsFrom(AdoptMoves(k, term)) == []
  {
    if term > k.term { OneMoveOutputs(SetTerm(term, None)); }
  }

  /** A node in the sender's term, or an older one, listens to the chunk: author and sender are
      replicas, the author's term is reached and the range fits the payload. */
  predicate Heeded(rules: Rules, k: Node, term: nat, chunk: Chunk) {
    && k.term <= term && chunk.snapshot.hardStateTerm <= term
    && rules.Author(chunk.snapshot) && rules.Sender(k, Transfer(chunk.leader, chunk.snapshot, chunk.offset))
    && chunk.WellFormed()
  }

  /** The chunk comes next in the transfer going on, or starts another. */
  predicate InPlace(k: Node, chunk: Chunk) {
    if k.pending.Some? && k.pending.value.leader == chunk.leader && k.pending.value.snapshot == chunk.snapshot
    then chunk.offset == k.pending.value.received
    else chunk.offset == 0
  }

  /** The node once the snapshot is in place: everything up to its boundary is committed and
      applied, and entries beyond stay only if the log agrees with the boundary. */
  function WithSnapshot(k: Node, s: Snapshot): Node {
    Node(k.term, k.vote, s.index, s.index, s.Captured(), s,
         if k.TermAt(s.index) == Some(s.term) then k.log.DropThrough(s.index) else Log(s.index, []), None)
  }

  lemma AdoptThen(L: Lineage, k: Node, term: nat, moves: seq<Move>)
    requires k.term <= term
    ensures ApplyAll(k, AdoptMoves(k, term) + moves) == ApplyAll(Adopted(k, term), moves)
    ensures OutputsFrom(AdoptMoves(k, term) + moves) == OutputsFrom(moves)
  {
    hide ApplyAll, OutputsFrom;
    if term > k.term { OneMove(L, k, SetTerm(term, None)); }
    GuardedNothing(L, k);
    ApplyConcat(k, AdoptMoves(k, term), moves);
    AdoptSilent(k, term);
    OutputsConcat(AdoptMoves(k, term), moves);
  }

  /** What becomes of a chunk: one that is heeded, ahead of everything committed and in place
      is staged and tracked, or installed at once if it is the last; one that is heeded but
      covered ends its own transfer; any other one changes nothing but the term. */
  lemma ChunkExactly(L: Lineage, rules: Rules, k: Node, term: nat, chunk: Chunk)
    ensures
      var moves, s := HandleChunk(rules, k, term, chunk), chunk.snapshot;
      var j, adopted := ApplyAll(k, moves), if term > k.term then k.(term := term, vote := None) else k;
      var covered := s.index <= k.snap.index || s.index <= k.commit;
      if Heeded(rules, k, term, chunk) && !covered && InPlace(k, chunk) then
        if chunk.done then
          j == WithSnapshot(adopted, s) && OutputsFrom(moves) == [StageSnapshotChunk(chunk), ApplySnapshot(s)]
        else
          && j == adopted.(pending := Some(Transfer(chunk.leader, s, chunk.offset + |chunk.bytes|)))
          && OutputsFrom(moves) == [StageSnapshotChunk(chunk)]
      else
        var ends := Heeded(rules, k, term, chunk) && covered && k.pending.Some? && k.pending.value.snapshot == s;
        OutputsFrom(moves) == [] && j == if ends then adopted.(pending := None) else adopted
  {
    hide ApplyAll, OutputsFrom, Rules.Author, Rules.Sender;
    var adopted := Adopted(k, term);
    GuardedNothing(L, k);
    GuardedNothing(L, adopted);
    NoMoveOutputs();
    SameSender(rules, k, adopted, chunk);
    if term >= k.term {
      var moves := ChunkMoves(rules, adopted, chunk);
      AdoptThen(L, k, term, moves);
      if moves != [] {
        OneMove(L, adopted, moves[0]);
        OneMoveOutputs(moves[0]);
      }
    }
  }

  lemma SameSender(rules: Rules, k: Node, j: Node, chunk: Chunk)
    requires j.log == k.log && j.snap == k.snap
    ensures rules.Sender(j, Transfer(chunk.leader, chunk.snapshot, chunk.offset)) <==>
      rules.Sender(k, Transfer(chunk.leader, chunk.snapshot, chunk.offset))
  {}

  lemma ChunkMovesChecked(rules: Rules, k: Node, chunk: Chunk, o: Output)
    requires o in OutputsFrom(ChunkMoves(rules, k, chunk)) && o.StageSnapshotChunk?
    ensures rules.Author(o.chunk.snapshot)
  {
    hide OutputsFrom;
    OneMoveOutputs(Abandon);
    OneMoveOutputs(Stage(chunk));
    OneMoveOutputs(Install(chunk));
    NoMoveOutputs();
  }

  /** No chunk gets past the author rule. */
  lemma ChunkAuthorChecked(rules: Rules, k: Node, term: nat, chunk: Chunk, o: Output)
    requires o in OutputsFrom(HandleChunk(rules, k, term, chunk)) && o.StageSnapshotChunk?
    ensures rules.Author(o.chunk.snapshot)
  {
    hide OutputsFrom, ChunkMoves, AdoptMoves;
    NoMoveOutputs();
    AdoptSilent(k, term);
    OutputsConcat(AdoptMoves(k, term), ChunkMoves(rules, Adopted(k, term), chunk));
    ChunkMovesChecked(rules, Adopted(k, term), chunk, o);
  }

  // ---------------------------------------------------------------------------
  // A whole snapshot in one message
  // (crates/rafter/src/node/replication/snapshot/receive/whole.rs)

  /** The descriptor is completed from the payload that came with it. */
  function WholeChunk(leader: nat, metadata: Snapshot, payload: Bytes): Chunk {
    Chunk(leader, metadata.(len := |payload|, crc := Crc32.Checksum(payload)), 0, payload, true)
  }

  /** A recognised snapshot ends whatever transfer was going on, and is installed unless it
      is already covered. */
  function WholeMoves(rules: Rules, k: Node, chunk: Chunk): seq<Move> {
    if chunk.snapshot.hardStateTerm > k.term || !Recognised(rules, k, chunk) then []
    else if chunk.snapshot.index <= Max(k.snap.index, k.commit) then [Abandon]
    else [Abandon, Install(chunk)]
  }

  function HandleSnapshot(rules: Rules, k: Node, term: nat, leader: nat, metadata: Snapshot, payload: Bytes):
    seq<Move>
  {
    if term < k.term then []
    else AdoptMoves(k, term) + WholeMoves(rules, Adopted(k, term), WholeChunk(leader, metadata, payload))
  }

  lemma WholeMovesGuarded(L: Lineage, rules: Rules, k: Node, leader: nat, metadata: Snapshot, payload: Bytes)
    requires NodeInv(L, k)
    requires k.commit < metadata.index && k.TermAt(k.commit).Some? ==>
      Ancestor(L, k.CommitPoint(), metadata.Boundary())
    ensures Guarded(L, k, WholeMoves(rules, k, WholeChunk(leader, metadata, payload)))
  {
    var chunk := WholeChunk(leader, metadata, payload);
    var moves := WholeMoves(rules, k, chunk);
    var idle := Apply(k, Abandon);
    GuardedNothing(L, k);
    OneMove(L, k, Abandon);
    OneMove(L, idle, Install(chunk));
    if |moves| == 2 {
      assert Guard(L, idle, Install(chunk));
      GuardedConcat(L, k, [Abandon], [Install(chunk)]);
      assert moves == [Abandon] + [Install(chunk)];
    }
  }

  /** A whole snapshot that continues the committed history leads to a guarded step. */
  lemma WholeIsGuarded(
    L: Lineage, rules: Rules, k: Node, term: nat, leader: nat, metadata: Snapshot, payload: Bytes)
    requires NodeInv(L, k)
    requires k.commit < metadata.index && k.TermAt(k.commit).Some? ==>
      Ancestor(L, k.CommitPoint(), metadata.Boundary())
    ensures Guarded(L, k, HandleSnapshot(rules, k, term, leader, metadata, payload))
  {
    hide Guarded, ApplyAll, WholeMoves;
    GuardedNothing(L, k);
    if term >= k.term {
      var moves := WholeMoves(rules, Adopted(k, term), WholeChunk(leader, metadata, payload));
      AdoptGuarded(L, k, term);
      WholeMovesGuarded(L, rules, Adopted(k, term), leader, metadata, payload);
      GuardedConcat(L, k, AdoptMoves(k, term), moves);
    }
  }

  /** What becomes of a whole snapshot: one from a recognised author and sender ends any
      transfer, and is installed exactly if it is ahead of everything committed. */
  lemma WholeExactly(L: Lineage, rules: Rules, k: Node, term: nat, leader: nat, metadata: Snapshot, payload: Bytes)
    ensures
      var moves := HandleSnapshot(rules, k, term, leader, metadata, payload);
      var s := metadata.(len := |payload|, crc := Crc32.Checksum(payload));
      var j, adopted := ApplyAll(k, moves), if term > k.term then k.(term := term, vote := None) else k;
      if term < k.term || s.hardStateTerm > term || !rules.Author(s) || !rules.Sender(k, Transfer(leader, s, 0)) then
        j == adopted && OutputsFrom(moves) == []
      else if k.snap.index < s.index && k.commit < s.index then
        && j == WithSnapshot(adopted, s)
        && OutputsFrom(moves) == [StageSnapshotChunk(Chunk(leader, s, 0, payload, true)), ApplySnapshot(s)]
      else
        j == adopted.(pending := None) && OutputsFrom(moves) == []
  {
    hide ApplyAll, OutputsFrom, Rules.Author, Rules.Sender, Crc32.Checksum;
    var adopted, chunk := Adopted(k, term), WholeChunk(leader, metadata, payload);
    GuardedNothing(L, k);
    GuardedNothing(L, adopted);
    NoMoveOutputs();
    SameSender(rules, k, adopted, chunk);
    if term >= k.term {
      var moves := WholeMoves(rules, adopted, chunk);
      AdoptThen(L, k, term, moves);
      OneMove(L, adopted, Abandon);
      OneMoveOutputs(Abandon);
      var idle := Apply(adopted, Abandon);
      OneMove(L, idle, Install(chunk));
      OneMoveOutputs(Install(chunk));
      ApplyConcat(adopted, [Abandon], [Install(chunk)]);
      OutputsConcat([Abandon], [Install(chunk)]);
      assert [Abandon, Install(chunk)] == [Abandon] + [Install(chunk)];
    }
  }

  lemma WholeMovesOutputs(rules: Rules, k: Node, chunk: Chunk)
    ensures
      var outs := OutputsFrom(WholeMoves(rules, k, chunk));
      || outs == []
      || (outs == [StageSnapshotChunk(chunk), ApplySnapshot(chunk.snapshot)] && Recognised(rules, k, chunk))
  {
    hide OutputsFrom;
    NoMoveOutputs();
    OneMoveOutputs(Abandon);
    OneMoveOutputs(Install(chunk));
    OutputsConcat([Abandon], [Install(chunk)]);
    assert [Abandon, Install(chunk)] == [Abandon] + [Install(chunk)];
  }

  lemma WholeMatches(chunk: Chunk, p: Option<Staged>, outs: seq<Output>)
    requires chunk.offset == 0 && chunk.snapshot.crc == Crc32.Checksum(chunk.bytes)
    requires outs == [] || outs == [StageSnapshotChunk(chunk), ApplySnapshot(chunk.snapshot)]
    ensures PayloadsMatch(p, outs)
  {
    hide Crc32.Checksum, PayloadsMatch;
    NoOutputs(p, chunk.snapshot);
    NoOutputs(None, chunk.snapshot);
    if outs != [] {
      var rest := outs[1..];
      FirstOutput(p, chunk.snapshot, outs, p);
      FirstOutput(Some(Assembled(p, chunk)), chunk.snapshot, rest, p);
      assert rest[1..] == [];
    }
  }

  /** Its payload is never refused: the checksum was computed from it. */
  lemma WholeIsGenuine(
    rules: Rules, k: Node, term: nat, leader: nat, metadata: Snapshot, payload: Bytes, p: Option<Staged>)
    ensures PayloadsMatch(p, OutputsFrom(HandleSnapshot(rules, k, term, leader, metadata, payload)))
  {
    hide AdoptMoves, Crc32.Checksum, WholeMoves, PayloadsMatch, OutputsFrom;
    var chunk := WholeChunk(leader, metadata, payload);
    var outs := OutputsFrom(HandleSnapshot(rules, k, term, leader, metadata, payload));
    NoMoveOutputs();
    if term >= k.term {
      var moves := WholeMoves(rules, Adopted(k, term), chunk);
      AdoptSilent(k, term);
      OutputsConcat(AdoptMoves(k, term), moves);
      WholeMovesOutputs(rules, Adopted(k, term), chunk);
      assert outs == OutputsFrom(moves);
    }
    WholeMatches(chunk, p, outs);
  }

  /** Nor does a whole snapshot get past the author rule. */
  lemma WholeAuthorChecked(
    rules: Rules, k: Node, term: nat, leader: nat, metadata: Snapshot, payload: Bytes, o: Output)
    requires o in OutputsFrom(HandleSnapshot(rules, k, term, leader, metadata, payload)) && o.StageSnapshotChunk?
    ensures rules.Author(o.chunk.snapshot)
  {
    hide OutputsFrom, WholeMoves, AdoptMoves, Crc32.Checksum, Rules.Author;
    NoMoveOutputs();
    AdoptSilent(k, term);
    var chunk := WholeChunk(leader, metadata, payload);
    OutputsConcat(AdoptMoves(k, term), WholeMoves(rules, Adopted(k, term), chunk));
    WholeMovesOutputs(rules, Adopted(k, term), chunk);
  }
}
