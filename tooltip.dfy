/** `Tooltip`: a box that follows the pointer over a target element
    (tracking mode) or sits at the target's bounding rectangle (manual
    mode). Its position goes through two 200 ms throttles. */
module Tooltips {
  import opened Throttle
  import opened StopEvent

  /** The listeners tracking mode puts on the target. */
  datatype Listener = MouseMove | MouseOver | MouseOut

  function Tracked(): multiset<Listener>
  {
    multiset{MouseMove, MouseOver, MouseOut}
  }

  /** The interval both position throttles use. */
  const PositionInterval: real := 200.0

  /** Left edge: the anchor (pointer or rectangle x) less half the box's
      width when that width is known (nonzero), plus `offsetX`. */
  function PositionX(anchorX: real, boxWidth: real, offsetX: real): (x: real)
    ensures boxWidth != 0.0 ==> x + boxWidth / 2.0 == anchorX + offsetX
    ensures boxWidth == 0.0 ==> x == anchorX + offsetX
  {
    anchorX - (if boxWidth != 0.0 then boxWidth / 2.0 else 0.0) + offsetX
  }

  /** Top edge: the box sits its own height plus `offsetY` above the anchor. */
  function PositionY(anchorY: real, boxHeight: real, offsetY: real): (y: real)
    ensures y + boxHeight + offsetY == anchorY
  {
    anchorY - (boxHeight + offsetY)
  }

  /** `(show || force === true) && !hidden`. */
  predicate Visible(show: bool, force: bool, hidden: bool)
  {
    (show || force) && !hidden
  }

  /** `hidden` always wins; otherwise `force` shows the box whatever `show`
      says, and without `force` it follows `show`. */
  lemma VisibleCases(show: bool, force: bool, hidden: bool)
    ensures hidden ==> !Visible(show, force, hidden)
    ensures !hidden && force ==> Visible(show, force, hidden)
    ensures !hidden && !force ==> (Visible(show, force, hidden) <==> show)
  {
  }

  /** With a known box width, the box's centre moves with the pointer: two
      pointer positions give boxes exactly that far apart. */
  lemma PositionFollowsPointer(x1: real, x2: real, y1: real, y2: real, w: real, h: real, offsetX: real, offsetY: real)
    ensures PositionX(x2, w, offsetX) - PositionX(x1, w, offsetX) == x2 - x1
    ensures PositionY(y2, h, offsetY) - PositionY(y1, h, offsetY) == y2 - y1
  {
  }

  class Tooltip {
    const manual: bool
    const offsetX: real
    const offsetY: real
    /** `_x` and `_y` are the throttles' inputs; the box is drawn at their
        committed values. */
    const x: ThrottledValue<real>
    const y: ThrottledValue<real>
    var show: bool
    /** The listeners this tooltip has put on target elements. */
    var listeners: multiset<Listener>

    ghost predicate Valid()
      reads this, x, y
    {
      x != y && x.Valid() && y.Valid() &&
      x.interval == PositionInterval && y.interval == PositionInterval
    }

    /** The box is drawn at the throttled position. */
    function Displayed(): (real, real)
      reads this, x, y
    {
      (x.value, y.value)
    }

    function IsVisible(force: bool, hidden: bool): bool
      reads this
    {
      Visible(show, force, hidden)
    }

    /** First render at time `now`: hidden, at (0, 0), nothing registered. */
    constructor (manual: bool, offsetX: real, offsetY: real, now: real)
      ensures this.manual == manual && this.offsetX == offsetX && this.offsetY == offsetY
      ensures !show && listeners == multiset{}
      ensures x.Snapshot() == Mount(0.0, now, PositionInterval)
      ensures y.Snapshot() == Mount(0.0, now, PositionInterval)
      ensures Valid() && fresh(x) && fresh(y)
    {
      this.manual := manual;
      this.offsetX := offsetX;
      this.offsetY := offsetY;
      x := new ThrottledValue(0.0, now, PositionInterval);
      y := new ThrottledValue(0.0, now, PositionInterval);
      show := false;
      listeners := multiset{};
    }

    /** The effect body. Without a target it does nothing; tracking mode
        registers its three listeners; manual mode places the box at the
        target's rectangle `(rectX, rectY)` and registers nothing. */
    method Attach(targetPresent: bool, rectX: real, rectY: real, boxWidth: real, boxHeight: real, now: real)
      requires Valid()
      modifies this, x, y
      ensures Valid() && show == old(show)
      ensures targetPresent && !manual ==> listeners == old(listeners) + Tracked()
      ensures !(targetPresent && !manual) ==> listeners == old(listeners)
      ensures targetPresent && manual ==>
                x.Snapshot() == Supply(old(x.Snapshot()), PositionX(rectX, boxWidth, offsetX), now, PositionInterval) &&
                y.Snapshot() == Supply(old(y.Snapshot()), PositionY(rectY, boxHeight, offsetY), now, PositionInterval)
      ensures !(targetPresent && manual) ==> x.Snapshot() == old(x.Snapshot()) && y.Snapshot() == old(y.Snapshot())
    {
      if targetPresent {
        if !manual {
          listeners := listeners + Tracked();
        } else {
          x.Set(PositionX(rectX, boxWidth, offsetX), now);
          y.Set(PositionY(rectY, boxHeight, offsetY), now);
        }
      }
    }

    /** The effect's cleanup: only in tracking mode, and only while the
        target is still there, the three listeners are removed. */
    method Cleanup(targetPresent: bool)
      modifies this
      ensures show == old(show)
      ensures targetPresent && !manual ==> listeners == old(listeners) - Tracked()
      ensures !(targetPresent && !manual) ==> listeners == old(listeners)
    {
      if targetPresent && !manual {
        listeners := listeners - Tracked();
      }
    }

    /** `mousemove` at `(pageX, pageY)` and time `now`: both raw coordinates
        are set, `onOver` runs (when given), then the event is stopped. */
    method OnMouseMove(pageX: real, pageY: real, boxWidth: real, boxHeight: real, hasOnOver: bool, now: real)
      returns (calls: seq<EventCall>)
      requires Valid() && !manual && MouseMove in listeners
      modifies x, y
      ensures Valid()
      ensures x.Snapshot() == Supply(old(x.Snapshot()), PositionX(pageX, boxWidth, offsetX), now, PositionInterval)
      ensures y.Snapshot() == Supply(old(y.Snapshot()), PositionY(pageY, boxHeight, offsetY), now, PositionInterval)
      ensures calls == (if hasOnOver then [Handler] else []) + [StopPropagation, PreventDefault]
    {
      x.Set(PositionX(pageX, boxWidth, offsetX), now);
      y.Set(PositionY(pageY, boxHeight, offsetY), now);
      calls := (if hasOnOver then [Handler] else []) + [StopPropagation, PreventDefault];
    }

    /** `mouseover`: shown. */
    method OnMouseOver() returns (calls: seq<EventCall>)
      requires !manual && MouseOver in listeners
      modifies this
      ensures show && listeners == old(listeners)
      ensures calls == [StopPropagation, PreventDefault]
    {
      show := true;
      calls := [StopPropagation, PreventDefault];
    }

    /** `mouseout`: hidden. */
    method OnMouseOut() returns (calls: seq<EventCall>)
      requires !manual && MouseOut in listeners
      modifies this
      ensures !show && listeners == old(listeners)
      ensures calls == [StopPropagation, PreventDefault]
    {
      show := false;
      calls := [StopPropagation, PreventDefault];
    }

    /** One run of the effect followed by its cleanup, with the target
        present throughout (the dependencies changed or the tooltip
        unmounted): in either mode the listeners are exactly those there
        were before, and the visibility flag is untouched. */
    method AttachThenCleanup(rectX: real, rectY: real, boxWidth: real, boxHeight: real, now: real)
      requires Valid()
      modifies this, x, y
      ensures Valid() && show == old(show)
      ensures listeners == old(listeners)
      ensures !manual ==> x.Snapshot() == old(x.Snapshot()) && y.Snapshot() == old(y.Snapshot())
    {
      Attach(true, rectX, rectY, boxWidth, boxHeight, now);
      Cleanup(true);
    }

    /** The timer queue reaches `now`: both throttles may commit. */
    method Tick(now: real)
      requires Valid()
      modifies x, y
      ensures Valid()
      ensures x.Snapshot() == Fired(old(x.Snapshot()), now)
      ensures y.Snapshot() == Fired(old(y.Snapshot()), now)
    {
      x.Fire(now);
      y.Fire(now);
    }
  }

}
