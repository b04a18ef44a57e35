/** `useThrottle(value, interval)`: a value that follows a fast-changing
    input at most once per `interval`. The hook keeps the committed value,
    the time recorded at the last commit (a ref that starts out null) and at
    most one pending timer. Clock readings are explicit `now` parameters and
    a timer firing is an explicit `Fire(now)` step. */
module Throttle {
  import opened Wrappers

  /** A pending `setTimeout`: it fires no earlier than `due` and then
      commits `v`, recording `stamp`, the time `v` arrived. */
  datatype Timer<T> = Timer(due: real, stamp: real, v: T)

  /** `value` is the throttled value handed back to the component, `raw` the
      latest input, `lastUpdated` the ref (None for null). */
  datatype State<T> = State(value: T, raw: T, lastUpdated: Option<real>, pending: Option<Timer<T>>)

  /** JavaScript truthiness of the ref: null and 0 are both falsy. */
  predicate Recorded(last: Option<real>)
  {
    last.Some? && last.value != 0.0
  }

  /** A value arriving at `now` may commit at once: a time is recorded and
      at least `interval` has passed since it. */
  predicate CommitsAtOnce<T>(s: State<T>, now: real, interval: real)
  {
    Recorded(s.lastUpdated) && now >= s.lastUpdated.value + interval
  }

  /** The first render: the state holds the initial value and the effect
      runs once with nothing recorded, so a timer is armed for it. */
  function Mount<T>(initial: T, now: real, interval: real): (s: State<T>)
    ensures s.value == initial && s.raw == initial && s.lastUpdated.None?
    ensures s.pending == Some(Timer(now + interval, now, initial))
  {
    State(initial, initial, None, Some(Timer(now + interval, now, initial)))
  }

  /** A new input `v` at time `now`. React reruns the effect only when the
      input differs from the previous one; the rerun first cancels the
      pending timer, then commits at once or arms a timer a full `interval`
      ahead that will record the arrival time `now`. */
  function Supply<T(==)>(s: State<T>, v: T, now: real, interval: real): (r: State<T>)
    ensures v == s.raw ==> r == s
    ensures v != s.raw && CommitsAtOnce(s, now, interval) ==>
              r.value == v && r.lastUpdated == Some(now) && r.pending.None?
    ensures v != s.raw && !CommitsAtOnce(s, now, interval) ==>
              r.value == s.value && r.lastUpdated == s.lastUpdated &&
              r.pending == Some(Timer(now + interval, now, v))
    ensures r.raw == v
  {
    if v == s.raw then s
    else if CommitsAtOnce(s, now, interval) then State(v, v, Some(now), None)
    else State(s.value, v, s.lastUpdated, Some(Timer(now + interval, now, v)))
  }

  /** The pending timer fires at `now` if it is due; otherwise nothing happens. */
  function Fired<T>(s: State<T>, now: real): (r: State<T>)
    ensures s.pending.Some? && now >= s.pending.value.due ==>
              r == State(s.pending.value.v, s.raw, Some(s.pending.value.stamp), None)
    ensures !(s.pending.Some? && now >= s.pending.value.due) ==> r == s
  {
    match s.pending
    case Some(t) => if now >= t.due then State(t.v, s.raw, Some(t.stamp), None) else s
    case None => s
  }

  /** The hook's standing invariant: without a pending timer the committed
      value is the latest input; a pending timer carries the latest input
      and is due exactly one interval after that input arrived. */
  predicate Inv<T(==)>(s: State<T>, interval: real)
  {
    match s.pending
    case None => s.value == s.raw
    case Some(t) => t.v == s.raw && t.due == t.stamp + interval
  }

  lemma MountInv<T>(initial: T, now: real, interval: real)
    ensures Inv(Mount(initial, now, interval), interval)
  {
  }

  lemma SupplyInv<T>(s: State<T>, v: T, now: real, interval: real)
    requires Inv(s, interval)
    ensures Inv(Supply(s, v, now, interval), interval)
  {
  }

  lemma FireInv<T>(s: State<T>, now: real, interval: real)
    requires Inv(s, interval)
    ensures Inv(Fired(s, now), interval)
  {
  }

  // ---------------------------------------------------------------------
  // Traces
  // ---------------------------------------------------------------------

  /** What happens to a mounted hook: a new input, or a timer tick. */
  datatype Event<T> = Change(v: T, at: real) | Tick(at: real)

  function Step<T(==)>(s: State<T>, e: Event<T>, interval: real): State<T>
  {
    match e
    case Change(v, at) => Supply(s, v, at, interval)
    case Tick(at) => Fired(s, at)
  }

  function Run<T(==)>(s: State<T>, events: seq<Event<T>>, interval: real): State<T>
    decreases |events|
  {
    if events == [] then s else Run(Step(s, events[0], interval), events[1..], interval)
  }

  /** The initial value followed by every value a trace supplies. */
  function Supplied<T>(initial: T, events: seq<Event<T>>): (r: seq<T>)
    ensures |r| >= 1 && r[0] == initial
    decreases |events|
  {
    if events == [] then [initial]
    else Supplied(initial, events[..|events| - 1]) +
         (match events[|events| - 1] case Change(v, _) => [v] case Tick(_) => [])
  }

  predicate NoChanges<T>(events: seq<Event<T>>)
  {
    forall i :: 0 <= i < |events| ==> events[i].Tick?
  }

  lemma {:induction false} RunInv<T>(s: State<T>, events: seq<Event<T>>, interval: real)
    requires Inv(s, interval)
    ensures Inv(Run(s, events, interval), interval)
    decreases |events|
  {
    if events != [] {
      var e := events[0];
      if e.Change? { SupplyInv(s, e.v, e.at, interval); } else { FireInv(s, e.at, interval); }
      RunInv(Step(s, events[0], interval), events[1..], interval);
    }
  }

  /** Everything a state holds (committed, latest, pending) was supplied. */
  predicate HoldsOnly<T(==)>(s: State<T>, vals: seq<T>)
  {
    s.value in vals && s.raw in vals && (s.pending.Some? ==> s.pending.value.v in vals)
  }

  lemma {:induction false} RunHoldsOnly<T>(s: State<T>, done: seq<Event<T>>, events: seq<Event<T>>, initial: T, interval: real)
    requires HoldsOnly(s, Supplied(initial, done))
    ensures HoldsOnly(Run(s, events, interval), Supplied(initial, done + events))
    decreases |events|
  {
    if events == [] {
      assert done + events == done;
    } else {
      var e := events[0];
      var next := Step(s, e, interval);
      assert (done + [e])[..|done + [e]| - 1] == done;
      assert HoldsOnly(next, Supplied(initial, done + [e]));
      assert done + [e] + events[1..] == done + events;
      RunHoldsOnly(next, done + [e], events[1..], initial, interval);
    }
  }

  /** Throttling never invents a value: after any trace the throttled value
      is the initial value or one the trace supplied. */
  lemma ValueWasSupplied<T>(initial: T, now: real, events: seq<Event<T>>, interval: real)
    ensures Run(Mount(initial, now, interval), events, interval).value in Supplied(initial, events)
  {
    assert [] + events == events;
    RunHoldsOnly(Mount(initial, now, interval), [], events, initial, interval);
  }

  /** Ticks never change a settled state. */
  lemma {:induction false} SettledStays<T>(s: State<T>, events: seq<Event<T>>, interval: real)
    requires s.pending.None? && NoChanges(events)
    ensures Run(s, events, interval) == s
    decreases |events|
  {
    if events != [] {
      SettledStays(Step(s, events[0], interval), events[1..], interval);
    }
  }

  /** Convergence: once a new input `v` arrives at `at`, and no newer input
      follows, the throttled value is `v` after any tick at or past
      `at + interval`. */
  lemma {:induction false} Converges<T>(s: State<T>, events: seq<Event<T>>, interval: real)
    requires Inv(s, interval) && NoChanges(events)
    requires s.pending.Some? ==> exists i :: 0 <= i < |events| && events[i].at >= s.pending.value.due
    ensures Run(s, events, interval).value == s.raw
    ensures Run(s, events, interval).pending.None?
    decreases |events|
  {
    if s.pending.None? {
      SettledStays(s, events, interval);
    } else {
      var i :| 0 <= i < |events| && events[i].at >= s.pending.value.due;
      var next := Step(s, events[0], interval);
      FireInv(s, events[0].at, interval);
      if i > 0 && next.pending.Some? {
        assert events[1..][i - 1] == events[i];
      }
      Converges(next, events[1..], interval);
    }
  }

  /** The convergence bound, counted from the arrival of `v`. */
  lemma ConvergesAfterArrival<T>(s: State<T>, v: T, at: real, events: seq<Event<T>>, interval: real)
    requires Inv(s, interval) && v != s.raw && NoChanges(events)
    requires exists i :: 0 <= i < |events| && events[i].at >= at + interval
    ensures Run(Supply(s, v, at, interval), events, interval).value == v
  {
    SupplyInv(s, v, at, interval);
    Converges(Supply(s, v, at, interval), events, interval);
  }

  /** A deferred input waits the full interval: ticks before `at + interval`
      leave the previously committed value in place, however long ago the
      last commit was. */
  lemma {:induction false} WaitsFullInterval<T>(s: State<T>, v: T, at: real, events: seq<Event<T>>, interval: real)
    requires v != s.raw && !CommitsAtOnce(s, at, interval) && NoChanges(events)
    requires forall i :: 0 <= i < |events| ==> events[i].at < at + interval
    ensures Run(Supply(s, v, at, interval), events, interval) == Supply(s, v, at, interval)
    decreases |events|
  {
    if events != [] {
      assert Step(Supply(s, v, at, interval), events[0], interval) == Supply(s, v, at, interval);
      assert forall i :: 0 <= i < |events[1..]| ==> events[1..][i] == events[i + 1];
      WaitsFullInterval(s, v, at, events[1..], interval);
    }
  }

  /** A newer input cancels the pending timer: the older input can no longer
      be committed by it. */
  lemma NewerInputCancels<T>(s: State<T>, v: T, now: real, interval: real)
    requires s.pending.Some? && v != s.raw && s.pending.value.v != v
    ensures var r := Supply(s, v, now, interval);
            r.pending.None? || r.pending.value.v == v
  {
  }

  /** With a 200 ms interval: commit recorded at 1000, input at 1100. The
      remaining budget would be 100 ms, yet a tick at 1200 commits nothing;
      the tick at 1300 commits and records 1100, the arrival time, so a
      further input at 1350 already commits at once. */
  lemma TimingExample(a: int, b: int, c: int)
    requires a != b && b != c
    ensures var s0 := State(a, a, Some(1000.0), None);
            var s1 := Supply(s0, b, 1100.0, 200.0);
            var s2 := Fired(s1, 1200.0);
            var s3 := Fired(s2, 1300.0);
            var s4 := Supply(s3, c, 1350.0, 200.0);
            s2.value == a && s3.value == b && s3.lastUpdated == Some(1100.0) &&
            s4.value == c && s4.lastUpdated == Some(1350.0)
  {
  }

  /** A ref holding 0 is falsy, so a commit recorded at time 0 never lets the
      next input through at once. */
  lemma ZeroStampDefers<T>(s: State<T>, v: T, now: real, interval: real)
    requires s.lastUpdated == Some(0.0) && v != s.raw
    ensures Supply(s, v, now, interval).pending.Some?
  {
  }

  /** The hook instance: the state lives in fields that the effect and the
      timer callback update. */
  class ThrottledValue<T(==)> {
    var value: T
    var raw: T
    var lastUpdated: Option<real>
    var pending: Option<Timer<T>>
    const interval: real

    function Snapshot(): State<T>
      reads this
    {
      State(value, raw, lastUpdated, pending)
    }

    ghost predicate Valid()
      reads this
    {
      Inv(Snapshot(), interval)
    }

    constructor (initial: T, now: real, interval: real)
      ensures Snapshot() == Mount(initial, now, interval) && this.interval == interval
      ensures Valid()
    {
      value := initial;
      raw := initial;
      lastUpdated := None;
      pending := Some(Timer(now + interval, now, initial));
      this.interval := interval;
    }

    /** The component re-renders with input `v` at time `now`. */
    method Set(v: T, now: real)
      requires Valid()
      modifies this
      ensures Snapshot() == Supply(old(Snapshot()), v, now, interval)
      ensures Valid()
    {
      SupplyInv(Snapshot(), v, now, interval);
      if v != raw {
        if lastUpdated.Some? && lastUpdated.value != 0.0 && now >= lastUpdated.value + interval {
          lastUpdated := Some(now);
          value := v;
          pending := None;
        } else {
          pending := Some(Timer(now + interval, now, v));
        }
        raw := v;
      }
    }

    /** The timer queue reaches time `now`. */
    method Fire(now: real)
      requires Valid()
      modifies this
      ensures Snapshot() == Fired(old(Snapshot()), now)
      ensures Valid()
    {
      FireInv(Snapshot(), now, interval);
      if pending.Some? && now >= pending.value.due {
        lastUpdated := Some(pending.value.stamp);
        value := pending.value.v;
        pending := None;
      }
    }
  }
}
