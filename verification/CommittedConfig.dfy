/** Which configuration is committed: what the kernel answers from its log and snapshot
    (crates/rafter/src/node/membership/view.rs), what the committed history says, and the
    membership rules that follow. */
module CommittedConfig {
  import opened Prelude
  import opened Raft
  import opened Kernel

  /** The later of two; the second, if they are at one index. */
  function Later(a: Option<Config>, b: Option<Config>): Option<Config> {
    if a.None? then b else if b.None? || a.value.index > b.value.index then a else b
  }

  /** The configuration, unless it is above `i`. */
  function Within(c: Option<Config>, i: nat): Option<Config> { if c.Some? && c.value.index <= i then c else None }

  /** The last configuration entry of the log at or below `i`. */
  function NewestThrough(log: Log, i: nat): Option<Config> {
    if i <= log.base then None
    else if log.Has(i) && log.At(i).kind.Configuration? then Some(Config(i, log.At(i).kind.id))
    else NewestThrough(log, i - 1)
  }

  /** `committed_configuration_state_at`: of the retained log, the recorded state and the
      snapshot, what is newest at or below `i`. */
  function StateAt(k: Node, i: nat): Option<Config> {
    Later(Later(NewestThrough(k.log, i), Within(k.config, i)), Within(k.snap.Captured(), i))
  }

  /** Who is who: the replicas of a membership, the membership a node was started with, and
      the membership that a configuration names. */
  datatype Rules = Rules(replica: (int, nat) -> bool, initial: int, named: int -> int) {

    /** The membership that a snapshot declares, or else the initial one. */
    function DeclaredMembership(s: Snapshot): int { if s.declared.Some? then s.declared.value.membership else initial }

    /** `membership_at_index`: from the retained log, the snapshot or the start. */
    function MembershipAt(k: Node, i: nat): int {
      var retained := NewestThrough(k.log, i);
      if retained.Some? then named(retained.value.id)
      else if k.snap.index <= i then DeclaredMembership(k.snap)
      else initial
    }

    /** `effective_membership`: the last configuration of the log counts before it is
        committed. */
    function Effective(k: Node): int { MembershipAt(k, k.log.Last()) }

    /** The author belongs to the membership that the snapshot is about. */
    predicate Author(s: Snapshot) { replica(DeclaredMembership(s), s.writer) }

    /** A local author belongs to the membership at the boundary. */
    predicate Local(k: Node, s: Snapshot) { replica(MembershipAt(k, s.index), s.writer) }

    /** The sender belongs to a membership this node can see: the descriptor's or its own. */
    predicate Sender(k: Node, t: Transfer) {
      || (t.snapshot.declared.Some? && replica(t.snapshot.declared.value.membership, t.leader))
      || replica(Effective(k), t.leader)
    }
  }

  /** A local snapshot that declares nothing is given the kernel's own answer. */
  function Stamped(rules: Rules, k: Node, s: Snapshot): Snapshot {
    if s.declared.Some? then s
    else s.(declared := Some(Declaration(rules.MembershipAt(k, s.index), StateAt(k, s.index))))
  }

  // ---------------------------------------------------------------------------
  // What the history says

  /** The last configuration on the way back from an entry of term `t` at index `i`. */
  ghost function Latest(L: Lineage, i: nat, t: nat): Option<Config> {
    if i == 0 then None
    else if L.kind(i, t).Configuration? then Some(Config(i, L.kind(i, t).id))
    else Latest(L, i - 1, L.prev(i, t))
  }

  ghost function LatestAt(L: Lineage, p: Point): Option<Config> { Latest(L, p.index, p.term) }

  /** The history that ends at `p` has this configuration. */
  ghost predicate OnHistory(L: Lineage, p: Point, c: Config) {
    1 <= c.index <= p.index && L.kind(c.index, Back(L, p.index, p.term, c.index)) == Configuration(c.id)
  }

  lemma {:induction false} LatestOnHistory(L: Lineage, p: Point)
    ensures LatestAt(L, p).Some? ==> OnHistory(L, p, LatestAt(L, p).value)
    decreases p.index
  {
    if p.index > 0 && !L.kind(p.index, p.term).Configuration? {
      LatestOnHistory(L, Point(p.index - 1, L.prev(p.index, p.term)));
    }
  }

  /** Nothing on a history is later than its latest. */
  lemma {:induction false} NothingLater(L: Lineage, p: Point, c: Config)
    requires OnHistory(L, p, c)
    ensures LatestAt(L, p).Some? && c.index <= LatestAt(L, p).value.index
    ensures c.index == LatestAt(L, p).value.index ==> LatestAt(L, p) == Some(c)
    decreases p.index
  {
    if !L.kind(p.index, p.term).Configuration? {
      NothingLater(L, Point(p.index - 1, L.prev(p.index, p.term)), c);
    }
  }

  /** Two ends of one history agree about what both have. */
  lemma OnBoth(L: Lineage, p: Point, q: Point, c: Config)
    requires Ancestor(L, p, q) && c.index <= p.index
    ensures OnHistory(L, p, c) <==> OnHistory(L, q, c)
  {
    if 1 <= c.index {
      BackTwice(L, q.index, q.term, p.index, c.index);
    }
  }

  /** A log on the lineage has the latest configuration, or its base has. */
  lemma {:induction false} LatestInLog(L: Lineage, log: Log, t: nat, i: nat)
    requires Chained(L, log) && Grounded(L, log, t) && log.base <= i <= log.Last()
    ensures
      var at := if i == log.base then t else log.At(i).term;
      LatestAt(L, Point(i, at)) ==
      if NewestThrough(log, i).Some? then NewestThrough(log, i) else LatestAt(L, Point(log.base, t))
    decreases i
  {
    if i > log.base {
      assert Linked(L, log, i);
      LatestInLog(L, log, t, i - 1);
      assert i - 1 == log.base ==> log.entries[0] == log.At(i);
    }
  }

  lemma {:induction false} NewestAbove(log: Log, i: nat)
    ensures NewestThrough(log, i).Some? ==> log.base < NewestThrough(log, i).value.index <= i
    decreases i
  {
    if i > log.base {
      NewestAbove(log, i - 1);
    }
  }

  lemma {:induction false} NewestAtLeast(log: Log, i: nat, j: nat)
    requires log.Has(j) && log.At(j).kind.Configuration? && j <= i
    ensures NewestThrough(log, i).Some? && j <= NewestThrough(log, i).value.index
    decreases i
  {
    if j < i && !(log.Has(i) && log.At(i).kind.Configuration?) {
      NewestAtLeast(log, i - 1, j);
    }
  }

  // ---------------------------------------------------------------------------
  // What snapshots declare

  /** The snapshot declares the configuration that its boundary's history had committed. */
  ghost predicate Declares(L: Lineage, s: Snapshot) {
    s.declared.Some? && s.declared.value.state == LatestAt(L, s.Boundary())
  }

  /** It declares that or nothing. */
  ghost predicate DeclaresIfAny(L: Lineage, s: Snapshot) { s.declared.Some? ==> Declares(L, s) }

  /** There is no snapshot, or it declares the truth. */
  ghost predicate Honest(L: Lineage, s: Snapshot) { s == NO_SNAPSHOT || Declares(L, s) }

  /** A configuration that it names is the one its history had committed; it may know of none
      although there was one. */
  ghost predicate CapturedOk(L: Lineage, s: Snapshot) {
    s.Captured().Some? ==> s.Captured() == LatestAt(L, s.Boundary())
  }

  /** A configuration at or below the boundary has not been lost: the snapshot names it or a
      later one. */
  predicate Remembers(s: Snapshot, c: Option<Config>) {
    c.Some? && c.value.index <= s.index ==> s.Captured().Some? && c.value.index <= s.Captured().value.index
  }

  lemma HonestCaptures(L: Lineage, s: Snapshot)
    requires Honest(L, s)
    ensures s.Captured() == LatestAt(L, s.Boundary())
  {}

  /** A true declaration covers everything on the history. */
  lemma DeclaredRemembers(L: Lineage, s: Snapshot, p: Point, c: Config)
    requires Declares(L, s) && Ancestor(L, s.Boundary(), p) && OnHistory(L, p, c)
    ensures Remembers(s, Some(c))
  {
    if c.index <= s.index {
      OnBoth(L, s.Boundary(), p, c);
      NothingLater(L, s.Boundary(), c);
    }
  }

  // ---------------------------------------------------------------------------
  // What the kernel knows

  /** What the kernel has recorded is on its committed history, and its snapshot covers it. */
  ghost predicate ConfigOk(L: Lineage, k: Node) {
    && CapturedOk(L, k.snap) && Remembers(k.snap, k.config)
    && (k.config.Some? ==> k.TermAt(k.commit).Some? && OnHistory(L, k.CommitPoint(), k.config.value))
  }

  /** The kernel's answer at a committed index is the truth or nothing, and on an honest
      snapshot it is the truth. */
  lemma StateIsLatest(L: Lineage, k: Node, i: nat)
    requires NodeInv(L, k) && ConfigOk(L, k) && k.snap.index <= i <= k.commit
    ensures k.TermAt(i).Some?
    ensures StateAt(k, i).Some? || Honest(L, k.snap) ==> StateAt(k, i) == LatestAt(L, Point(i, k.TermAt(i).value))
  {
    var p, boundary := Point(i, k.TermAt(i).value), k.snap.Boundary();
    LatestInLog(L, k.log, k.snap.term, i);
    NewestAbove(k.log, i);
    LatestOnHistory(L, boundary);
    NodeLine(L, k, i, k.commit);
    var c := Within(k.config, i);
    if c.Some? {
      OnBoth(L, p, k.CommitPoint(), c.value);
      NothingLater(L, p, c.value);
    }
  }

  /** The kernel's snapshot covers its answers. */
  lemma StateRemembered(k: Node, i: nat)
    requires k.log.base == k.snap.index <= i && Remembers(k.snap, k.config)
    ensures Remembers(k.snap, StateAt(k, i))
  {
    NewestAbove(k.log, i);
  }

  // ---------------------------------------------------------------------------
  // Memberships

  /** The membership that the history which ends at `p` names. */
  ghost function MembershipOn(L: Lineage, rules: Rules, p: Point): int {
    if LatestAt(L, p).Some? then rules.named(LatestAt(L, p).value.id) else rules.initial
  }

  /** The snapshot is about the membership of its boundary. */
  ghost predicate AboutMembership(L: Lineage, rules: Rules, s: Snapshot) {
    rules.DeclaredMembership(s) == MembershipOn(L, rules, s.Boundary())
  }

  /** What the kernel says of an index it holds is what the history says. */
  lemma MembershipIsLatest(L: Lineage, rules: Rules, k: Node, i: nat)
    requires NodeInv(L, k) && AboutMembership(L, rules, k.snap) && k.snap.index <= i <= k.log.Last()
    ensures k.TermAt(i).Some? && rules.MembershipAt(k, i) == MembershipOn(L, rules, Point(i, k.TermAt(i).value))
  {
    LatestInLog(L, k.log, k.snap.term, i);
    NewestAbove(k.log, i);
  }

  /** Who may write and who may send: authors are replicas of the membership at the boundary,
      senders of the membership that the descriptor declares or of the one at the end of the
      node's log, committed or not. */
  lemma RulesExactly(L: Lineage, rules: Rules, k: Node, s: Snapshot, leader: nat, received: nat)
    requires NodeInv(L, k) && AboutMembership(L, rules, k.snap)
    ensures AboutMembership(L, rules, s) ==>
      (rules.Author(s) <==> rules.replica(MembershipOn(L, rules, s.Boundary()), s.writer))
    ensures k.snap.index <= s.index && k.TermAt(s.index) == Some(s.term) ==>
      (rules.Local(k, s) <==> rules.replica(MembershipOn(L, rules, s.Boundary()), s.writer))
    ensures k.TermAt(k.log.Last()).Some?
    ensures rules.Sender(k, Transfer(leader, s, received)) <==>
      || (s.declared.Some? && rules.replica(s.declared.value.membership, leader))
      || rules.replica(MembershipOn(L, rules, Point(k.log.Last(), k.TermAt(k.log.Last()).value)), leader)
  {
    hide NewestThrough, LatestAt;
    MembershipIsLatest(L, rules, k, k.log.Last());
    if k.snap.index <= s.index <= k.log.Last() {
      MembershipIsLatest(L, rules, k, s.index);
    }
  }
}
