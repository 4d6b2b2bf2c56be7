/** The metrics watch (crates/rafter-service/src/watch.rs): one shared state behind a mutex,
    publishers that wake the registered pollers after releasing it, and any number of watches. */
module Watch {

  import opened Prelude

  /** Wakers that would wake the same poller are equal. */
  type Waker = nat

  /** What the mutex guards. */
  datatype Shared = Shared(current: int, version: nat, closed: bool, wakers: seq<Waker>)

  datatype Poll = Ready(value: Option<int>) | Pending

  function Bump(version: nat): nat { if version < U64_MAX then version + 1 else U64_MAX }

  function Published(s: Shared, m: int): Shared {
    if s.closed then s else Shared(m, Bump(s.version), false, [])
  }

  function Closed(s: Shared): Shared { if s.closed then s else s.(closed := true, wakers := []) }

  /** The wakers a publish or close takes away to wake. */
  function Taken(s: Shared): seq<Waker> { if s.closed then [] else s.wakers }

  function Registered(wakers: seq<Waker>, t: Waker): seq<Waker> { if t in wakers then wakers else wakers + [t] }

  function PollResult(s: Shared, seen: nat): Poll {
    if s.version != seen then Ready(Some(s.current)) else if s.closed then Ready(None) else Pending
  }

  function Polled(s: Shared, seen: nat, t: Waker): Shared {
    if PollResult(s, seen).Pending? then s.(wakers := Registered(s.wakers, t)) else s
  }

  // ---------------------------------------------------------------------------
  // The object

  class MetricsState {
    var current: int
    var version: nat
    var closed: bool
    var wakers: seq<Waker>

    ghost function Value(): Shared
      reads this
    {
      Shared(current, version, closed, wakers)
    }

    constructor (initial: int)
      ensures Value() == Shared(initial, 0, false, [])
    {
      current, version, closed, wakers := initial, 0, false, [];
    }

    method Publish(m: int) returns (ok: bool, taken: seq<Waker>)
      modifies this
      ensures Value() == Published(old(Value()), m) && taken == Taken(old(Value()))
      ensures ok == !old(closed)
      ensures ok ==> current == m && wakers == [] && taken == old(wakers) && !closed
    {
      if closed { return false, []; }
      current := m;
      version := Bump(version);
      taken := wakers;
      wakers := [];
      ok := true;
    }

    method Close() returns (taken: seq<Waker>)
      modifies this
      ensures Value() == Closed(old(Value())) && taken == Taken(old(Value()))
      ensures closed && wakers == (if old(closed) then old(wakers) else []) && current == old(current)
    {
      if closed { return []; }
      closed := true;
      taken := wakers;
      wakers := [];
    }

    method PollChanged(seen: nat, t: Waker) returns (r: Poll, newSeen: nat)
      modifies this
      ensures Value() == Polled(old(Value()), seen, t)
      ensures r == PollResult(old(Value()), seen)
      ensures newSeen == if r.Ready? && r.value.Some? then version else seen
    {
      if version != seen { return Ready(Some(current)), version; }
      if closed { return Ready(None), seen; }
      var known := false;
      for i := 0 to |wakers|
        invariant known <==> t in wakers[..i]
      {
        if wakers[i] == t { known := true; }
      }
      assert wakers[..|wakers|] == wakers;
      if !known { wakers := wakers + [t]; }
      return Pending, seen;
    }
  }

  // ---------------------------------------------------------------------------
  // Every interleaving

  /** One watch: the version it has seen, the snapshots delivered to it with the numbers of
      their publications, the waker it was last left pending under, and whether that waker has
      been used since. */
  datatype View = View(
    start: nat, seen: nat, delivered: seq<nat>, values: seq<int>, waiting: bool, waker: Waker, woken: bool, ended: bool)

  /** `history` lists every snapshot ever published, the initial one first; a flight is the
      list of wakers one publisher or closer has still to wake. */
  datatype System = System(shared: Shared, history: seq<int>, flights: seq<seq<Waker>>, views: seq<View>)

  datatype Action =
    | Publish(m: int)
    | Close
    | WakeNext(flight: nat)
    | NewWatch
    | CloneWatch(w: nat)
    | PollWatch(w: nat, t: Waker)

  predicate Enabled(s: System, a: Action) {
    match a
    case WakeNext(f) => f < |s.flights| && s.flights[f] != []
    case CloneWatch(w) => w < |s.views|
    case PollWatch(w, _) => w < |s.views|
    case _ => true
  }

  function Woken(views: seq<View>, t: Waker): (r: seq<View>)
    ensures |r| == |views|
    ensures forall w :: 0 <= w < |views| ==>
      r[w] == if views[w].waiting && views[w].waker == t then views[w].(woken := true) else views[w]
  {
    seq(|views|, w requires 0 <= w < |views| =>
      if views[w].waiting && views[w].waker == t then views[w].(woken := true) else views[w])
  }

  function AfterPoll(s: System, v: View, t: Waker): View
    requires |s.history| > 0
  {
    match PollResult(s.shared, v.seen)
    case Ready(Some(m)) =>
      v.(seen := s.shared.version, delivered := v.delivered + [|s.history| - 1], values := v.values + [m],
         waiting := false, woken := false)
    case Ready(None) => v.(waiting := false, woken := false, ended := true)
    case Pending => v.(waiting := true, waker := t, woken := false)
  }

  function Step(s: System, a: Action): System
    requires Enabled(s, a) && |s.history| > 0
  {
    match a
    case Publish(m) =>
      s.(shared := Published(s.shared, m),
         history := if s.shared.closed then s.history else s.history + [m],
         flights := s.flights + [Taken(s.shared)])
    case Close => s.(shared := Closed(s.shared), flights := s.flights + [Taken(s.shared)])
    case WakeNext(f) => s.(flights := s.flights[f := s.flights[f][1..]], views := Woken(s.views, s.flights[f][0]))
    case NewWatch => s.(views := s.views + [View(s.shared.version, s.shared.version, [], [], false, 0, false, false)])
    case CloneWatch(w) =>
      s.(views := s.views + [View(s.views[w].seen, s.views[w].seen, [], [], false, 0, false, false)])
    case PollWatch(w, t) =>
      s.(shared := Polled(s.shared, s.views[w].seen, t), views := s.views[w := AfterPoll(s, s.views[w], t)])
  }

  ghost predicate InFlight(flights: seq<seq<Waker>>, t: Waker) {
    exists f :: 0 <= f < |flights| && t in flights[f]
  }

  /** A watch left pending and not yet woken is about to be woken, or is registered while
      there is truly nothing new for it. */
  ghost predicate NotLost(s: System, v: View) {
    v.waiting && !v.woken ==>
      InFlight(s.flights, v.waker) || (v.waker in s.shared.wakers && s.shared.version == v.seen && !s.shared.closed)
  }

  /** Deliveries are publications in increasing order; the last is the version seen; the end
      comes only when everything published has been seen. */
  ghost predicate Ordered(s: System, v: View) {
    && v.start <= v.seen <= s.shared.version < |s.history|
    && |v.values| == |v.delivered|
    && (forall i :: 0 <= i < |v.delivered| ==> v.delivered[i] < |s.history| && v.values[i] == s.history[v.delivered[i]])
    && (forall i :: 0 <= i < |v.delivered| ==> v.start < v.delivered[i] <= v.seen)
    && (forall i, j :: 0 <= i < j < |v.delivered| ==> v.delivered[i] < v.delivered[j])
    && (v.delivered == [] ==> v.seen == v.start)
    && (v.delivered != [] ==> v.delivered[|v.delivered| - 1] == v.seen)
    && (v.ended ==> s.shared.closed && v.seen == s.shared.version)
  }

  /** The version counts publications as long as it is below its maximum. */
  ghost predicate Counted(s: System) {
    |s.history| == s.shared.version + 1 && s.history[s.shared.version] == s.shared.current
  }

  lemma StillInFlight(s: System, f: nat, t: Waker)
    requires f < |s.flights| && s.flights[f] != [] && InFlight(s.flights, t) && t != s.flights[f][0]
    ensures InFlight(s.flights[f := s.flights[f][1..]], t)
  {
    var g :| 0 <= g < |s.flights| && t in s.flights[g];
    assert s.flights[f] == [s.flights[f][0]] + s.flights[f][1..];
    assert t in s.flights[f := s.flights[f][1..]][g];
  }

  lemma MoreFlights(flights: seq<seq<Waker>>, more: seq<Waker>, t: Waker)
    requires InFlight(flights, t) || t in more
    ensures InFlight(flights + [more], t)
  {
    if t in more {
      assert (flights + [more])[|flights|] == more;
    } else {
      var g :| 0 <= g < |flights| && t in flights[g];
      assert t in (flights + [more])[g];
    }
  }

  /** A publish or close: whatever was registered is now in flight. */
  lemma TakenNotLost(s: System, t: System, v: View)
    requires NotLost(s, v) && t.flights == s.flights + [Taken(s.shared)]
    requires s.shared.closed ==> t.shared == s.shared
    ensures NotLost(t, v)
  {
    if v.waiting && !v.woken && (InFlight(s.flights, v.waker) || v.waker in Taken(s.shared)) {
      MoreFlights(s.flights, Taken(s.shared), v.waker);
    }
  }

  /** No interleaving loses a wakeup, whatever the version. */
  lemma StepNotLost(s: System, a: Action)
    requires |s.history| > 0 && Enabled(s, a) && forall w :: 0 <= w < |s.views| ==> NotLost(s, s.views[w])
    ensures forall w :: 0 <= w < |Step(s, a).views| ==> NotLost(Step(s, a), Step(s, a).views[w])
  {
    var t := Step(s, a);
    forall w | 0 <= w < |t.views|
      ensures NotLost(t, t.views[w])
    {
      if w < |s.views| {
        assert NotLost(s, s.views[w]);
        match a
        case Publish(_) => TakenNotLost(s, t, s.views[w]);
        case Close => TakenNotLost(s, t, s.views[w]);
        case WakeNext(f) =>
          var v := s.views[w];
          if v.waiting && !v.woken && InFlight(s.flights, v.waker) && v.waker != s.flights[f][0] {
            StillInFlight(s, f, v.waker);
          }
        case _ =>
      }
    }
  }

  lemma PollOrdered(s: System, w: nat, t: Waker)
    requires Counted(s) && w < |s.views| && Ordered(s, s.views[w])
    ensures Ordered(Step(s, PollWatch(w, t)), AfterPoll(s, s.views[w], t))
  {}

  /** What others do, and being woken, takes nothing from a view. */
  lemma StaysOrdered(s: System, t: System, v: View, woken: bool)
    requires Ordered(s, v) && s.history <= t.history && s.shared.version <= t.shared.version < |t.history|
    requires s.shared.closed ==> t.shared.closed && t.shared.version == s.shared.version
    ensures Ordered(t, v.(woken := woken))
  {}

  lemma StartsOrdered(s: System, at: nat)
    requires Counted(s) && at <= s.shared.version
    ensures Ordered(s, View(at, at, [], [], false, 0, false, false))
  {}

  lemma StepCounted(s: System, a: Action)
    requires Enabled(s, a) && Counted(s) && (a.Publish? ==> s.shared.version < U64_MAX)
    ensures
      var t := Step(s, a);
      && Counted(t) && s.history <= t.history && s.shared.version <= t.shared.version
      && (s.shared.closed ==> t.shared.closed && t.shared.version == s.shared.version)
  {}

  lemma StepOrdered(s: System, a: Action)
    requires Enabled(s, a) && Counted(s) && (a.Publish? ==> s.shared.version < U64_MAX)
    requires forall w :: 0 <= w < |s.views| ==> Ordered(s, s.views[w])
    ensures Counted(Step(s, a))
    ensures forall w :: 0 <= w < |Step(s, a).views| ==> Ordered(Step(s, a), Step(s, a).views[w])
  {
    var t := Step(s, a);
    StepCounted(s, a);
    forall w | 0 <= w < |t.views|
      ensures Ordered(t, t.views[w])
    {
      hide AfterPoll, Ordered, Polled, Published, Closed;
      if w == |s.views| {
        if a.CloneWatch? { SeenIsPublished(s, s.views[a.w]); }
        StartsOrdered(t, t.views[w].seen);
      } else if a.PollWatch? && a.w == w {
        PollOrdered(s, w, a.t);
      } else {
        StaysOrdered(s, t, s.views[w], t.views[w].woken);
      }
    }
  }

  lemma SeenIsPublished(s: System, v: View)
    requires Ordered(s, v)
    ensures v.seen <= s.shared.version
  {}

  // ---------------------------------------------------------------------------
  // Runs

  function Start(initial: int): System { System(Shared(initial, 0, false, []), [initial], [], []) }

  /** `below` says that no publication finds the version at its maximum. */
  ghost predicate Reaches(s: System, actions: seq<Action>, t: System, below: bool)
    requires |s.history| > 0
    decreases |actions|
  {
    if actions == [] then t == s
    else
      && Enabled(s, actions[0])
      && (below && actions[0].Publish? ==> s.shared.version < U64_MAX)
      && Reaches(Step(s, actions[0]), actions[1..], t, below)
  }

  lemma {:induction false} NoLostWakeups(s: System, actions: seq<Action>, t: System, below: bool)
    requires |s.history| > 0 && Reaches(s, actions, t, below)
    requires forall w :: 0 <= w < |s.views| ==> NotLost(s, s.views[w])
    ensures forall w :: 0 <= w < |t.views| ==> NotLost(t, t.views[w])
    decreases |actions|
  {
    if actions != [] {
      StepNotLost(s, actions[0]);
      NoLostWakeups(Step(s, actions[0]), actions[1..], t, below);
    }
  }

  lemma {:induction false} DeliveredInOrder(s: System, actions: seq<Action>, t: System)
    requires Counted(s) && Reaches(s, actions, t, true)
    requires forall w :: 0 <= w < |s.views| ==> Ordered(s, s.views[w])
    ensures Counted(t) && forall w :: 0 <= w < |t.views| ==> Ordered(t, t.views[w])
    decreases |actions|
  {
    if actions != [] {
      StepOrdered(s, actions[0]);
      DeliveredInOrder(Step(s, actions[0]), actions[1..], t);
    }
  }

  /** A watch that saw the end had been given the last snapshot published after it started. */
  lemma EndComesLast(initial: int, actions: seq<Action>, t: System, w: nat)
    requires Reaches(Start(initial), actions, t, true) && w < |t.views| && t.views[w].ended
    ensures
      var v := t.views[w];
      && v.seen == |t.history| - 1
      && (v.start < v.seen ==> v.delivered != [] && v.delivered[|v.delivered| - 1] == |t.history| - 1)
      && PollResult(t.shared, v.seen) == Ready(None)
  {
    DeliveredInOrder(Start(initial), actions, t);
  }

  /** Closing ends every watch, after it has been offered the last snapshot, and nothing can be
      published afterwards. */
  lemma CloseEnds(s: Shared, seen: nat, m: int)
    ensures PollResult(Closed(s), seen) == if seen != s.version then Ready(Some(s.current)) else Ready(None)
    ensures Published(Closed(s), m) == Closed(s)
  {}

  /** What a poll gives a watch: the current snapshot if it has not seen it, else the end if there
      is one, else it waits under the waker it came with. */
  lemma PollExactly(s: System, w: nat, t: Waker)
    requires |s.history| > 0 && w < |s.views|
    ensures
      var v, polled := s.views[w], Step(s, PollWatch(w, t)).views[w];
      if v.seen != s.shared.version then
        && polled.seen == s.shared.version && !polled.waiting && polled.ended == v.ended
        && polled.values == v.values + [s.shared.current] && polled.delivered == v.delivered + [|s.history| - 1]
      else
        && polled.values == v.values && polled.delivered == v.delivered && polled.seen == v.seen
        && (if s.shared.closed then polled.ended && !polled.waiting
            else polled.ended == v.ended && polled.waiting && polled.waker == t && !polled.woken)
  {}

  /** The first snapshot that is published reaches a watch that was there before it. */
  lemma FirstSnapshotArrives(initial: int, m: int, t: Waker)
    ensures
      var s := Step(Step(Step(Start(initial), NewWatch), Publish(m)), PollWatch(0, t));
      s.views[0].values == [m] && !s.views[0].ended
  {}

  /** A new watch has seen what was published before it: it waits for the next snapshot, or is at
      the end.  A clone is offered what its original is offered. */
  lemma WhereWatchesStart(s: System, w: nat)
    requires |s.history| > 0 && w < |s.views|
    ensures
      var t := Step(s, NewWatch);
      t.views[|s.views|].delivered == [] && t.shared == s.shared
      && PollResult(t.shared, t.views[|s.views|].seen) == if s.shared.closed then Ready(None) else Pending
    ensures
      var t := Step(s, CloneWatch(w));
      t.views[|s.views|].delivered == [] && t.shared == s.shared
      && PollResult(t.shared, t.views[|s.views|].seen) == PollResult(s.shared, s.views[w].seen)
  {}

  /** A fresh snapshot is offered to a watch that had seen everything if and only if the
      version could still grow: at its maximum it stands still and the snapshot is missed. */
  lemma OfferedUnlessSaturated(s: Shared, m: int)
    requires !s.closed && s.version <= U64_MAX
    ensures PollResult(Published(s, m), s.version) == Ready(Some(m)) <==> s.version < U64_MAX
    ensures s.version == U64_MAX ==> PollResult(Published(s, m), s.version) == Pending
  {}
}
