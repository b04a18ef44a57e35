/** Track geometry of util.ts: `clamp`, `percentify` and `offsetLeft`,
    mapping a media time onto the progress track. */
module TrackGeometry {
  import opened Num

  /** `Math.min(max, Math.max(min, isNaN(n) ? min : n))`. */
  function Clamp(n: Num, lo: real, hi: real): (r: real)
    ensures lo <= hi ==> lo <= r <= hi
    ensures lo <= hi && (n.NaN? || n.NegInf?) ==> r == lo
    ensures n.PosInf? ==> r == hi
    ensures lo <= hi && n.Fin? ==> (r == n.v <==> lo <= n.v <= hi)
    ensures lo <= hi && n.Fin? && n.v < lo ==> r == lo
    ensures n.Fin? && n.v > hi ==> r == hi
  {
    var x := if n.NaN? then Fin(lo) else n;
    var atLeast := match x
      case Fin(v) => Fin(if v > lo then v else lo)
      case PosInf => PosInf
      case _ => Fin(lo);
    match atLeast
    case Fin(v) => if v < hi then v else hi
    case _ => hi
  }

  /** The number `percentify(time, end)` renders (before `toFixed(2)` and "%"):
      `clamp(time / end * 100, 0, 100)` in IEEE arithmetic. */
  function Percent(time: real, end: real): (r: real)
    ensures 0.0 <= r <= 100.0
  {
    Clamp(Mul(Div(Fin(time), Fin(end)), Fin(100.0)), 0.0, 100.0)
  }

  /** `offsetLeft(time, end, width) = (width / end) * time` in IEEE arithmetic;
      the result is not finite when `end` is 0 (and `width * time` is not). */
  function OffsetLeft(time: real, end: real, width: real): (r: Num)
    ensures end != 0.0 ==> r.Fin?
  {
    Mul(Div(Fin(width), Fin(end)), Fin(time))
  }

  // ---------------------------------------------------------------------
  // percentify
  // ---------------------------------------------------------------------

  /** Within the track, the percentage is the exact ratio. */
  lemma PercentExact(time: real, end: real)
    requires end > 0.0 && 0.0 <= time <= end
    ensures Percent(time, end) == time / end * 100.0
  {
    assert time / end <= 1.0;
  }

  /** The zero-duration cases: 0/0 is NaN and clamps to 0; a positive time
      over 0 is +Infinity and clamps to 100; a negative one clamps to 0. */
  lemma PercentOfZeroEnd(time: real)
    ensures time == 0.0 ==> Percent(time, 0.0) == 0.0
    ensures time > 0.0 ==> Percent(time, 0.0) == 100.0
    ensures time < 0.0 ==> Percent(time, 0.0) == 0.0
  {
  }

  /** For a fixed positive end the percentage never decreases as time grows. */
  lemma PercentMonotonic(t1: real, t2: real, end: real)
    requires end > 0.0 && t1 <= t2
    ensures Percent(t1, end) <= Percent(t2, end)
  {
    assert t1 / end <= t2 / end by {
      assert t2 / end - t1 / end == (t2 - t1) / end;
    }
  }

  // ---------------------------------------------------------------------
  // offsetLeft
  // ---------------------------------------------------------------------

  /** For a known duration the offset is linear in time: it maps 0 to 0,
      `end` to the full width and sums to sums. */
  lemma OffsetLinear(t1: real, t2: real, end: real, width: real)
    requires end != 0.0
    ensures OffsetLeft(0.0, end, width) == Fin(0.0)
    ensures OffsetLeft(end, end, width) == Fin(width)
    ensures OffsetLeft(t1 + t2, end, width).v == OffsetLeft(t1, end, width).v + OffsetLeft(t2, end, width).v
  {
    assert (width / end) * end == width;
    assert (width / end) * (t1 + t2) == (width / end) * t1 + (width / end) * t2;
  }

  /** With a positive duration and width, a later time sits further right. */
  lemma OffsetMonotonic(t1: real, t2: real, end: real, width: real)
    requires end > 0.0 && width > 0.0 && t1 <= t2
    ensures OffsetLeft(t1, end, width).v <= OffsetLeft(t2, end, width).v
  {
    var k := width / end;
    assert k > 0.0;
    assert k * t2 - k * t1 == k * (t2 - t1);
  }

  /** Two minutes of media on a 300-pixel track: one minute in sits at 150. */
  lemma OffsetExample()
    ensures OffsetLeft(60.0, 120.0, 300.0) == Fin(150.0)
  {
  }
}

/** `createStopEvent`: wrap a handler so that it runs first, then the event's
    propagation and default action are stopped. */
module StopEvent {

  /** What a handler does with the DOM event; `Handler` stands for the
      wrapped function's own effects. */
  datatype EventCall = Handler | StopPropagation | PreventDefault

  /** The calls the wrapped handler makes, in order. */
  function CreateStopEvent<E(!new)>(fn: E -> seq<EventCall>): (wrapped: E -> seq<EventCall>)
    ensures forall e :: |wrapped(e)| == |fn(e)| + 2 && wrapped(e)[..|fn(e)|] == fn(e)
    ensures forall e :: wrapped(e)[|fn(e)|] == StopPropagation && wrapped(e)[|fn(e)| + 1] == PreventDefault
  {
    e => fn(e) + [StopPropagation, PreventDefault]
  }

  function Count(calls: seq<EventCall>, c: EventCall): nat
  {
    if calls == [] then 0 else Count(calls[..|calls| - 1], c) + (if calls[|calls| - 1] == c then 1 else 0)
  }

  lemma {:induction false} CountAppend(a: seq<EventCall>, b: seq<EventCall>, c: EventCall)
    ensures Count(a + b, c) == Count(a, c) + Count(b, c)
  {
    if b != [] {
      assert (a + b)[..|a + b| - 1] == a + b[..|b| - 1];
      CountAppend(a, b[..|b| - 1], c);
    } else {
      assert a + b == a;
    }
  }

  /** A handler that does not stop the event itself ends up stopping
      propagation and preventing the default exactly once each, after it ran. */
  lemma StopsExactlyOnce<E(!new)>(fn: E -> seq<EventCall>, e: E)
    requires Count(fn(e), StopPropagation) == 0 && Count(fn(e), PreventDefault) == 0
    ensures Count(CreateStopEvent(fn)(e), StopPropagation) == 1
    ensures Count(CreateStopEvent(fn)(e), PreventDefault) == 1
    ensures Count(CreateStopEvent(fn)(e), Handler) == Count(fn(e), Handler)
  {
    CountAppend(fn(e), [StopPropagation, PreventDefault], StopPropagation);
    CountAppend(fn(e), [StopPropagation, PreventDefault], PreventDefault);
    CountAppend(fn(e), [StopPropagation, PreventDefault], Handler);
    assert [StopPropagation, PreventDefault][..1] == [StopPropagation];
  }
}
