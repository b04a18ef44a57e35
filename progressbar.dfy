/** `ProgressBar`: the seek track with its fills, one marker per reaction
    and a tooltip that shows the hovered time. The track element's measured
    width is `track` (None until the element exists). */
module ProgressBar {
  import opened Num
  import opened Wrappers
  import opened Reactions
  import opened TrackGeometry
  import opened TimeFormat
  import opened Engine
  import opened StopEvent

  /** The time under the pointer: `pageX / offsetWidth * duration`, only
      when `pageX` and the track width are both nonzero. `width` stands for
      `div?.offsetWidth`, 0 while the track element does not exist (both
      are falsy). */
  function PointerTime(pageX: real, width: real, duration: real): (r: Option<real>)
    ensures r.Some? <==> pageX != 0.0 && width != 0.0
  {
    if pageX != 0.0 && width != 0.0 then Some(pageX / width * duration)
    else None
  }

  /** Scaling by `width / duration` and back again is the identity. */
  lemma ScaleCancels(t: real, duration: real, width: real)
    requires duration != 0.0 && width != 0.0
    ensures (width / duration * t) / width * duration == t
  {
    var k := width / duration;
    var q := k * t / width;
    assert q * width == k * t;
    assert k * duration == width;
    assert (q * duration) * width == t * width by {
      calc {
        (q * duration) * width;
        (q * width) * duration;
        (k * t) * duration;
        (k * duration) * t;
        t * width;
      }
    }
    assert (q * duration - t) * width == 0.0;
  }

  /** The pointer mapping undoes the marker placement: the time at a
      reaction's marker offset is the reaction's time. */
  lemma PointerTimeInvertsOffset(t: real, duration: real, width: real)
    requires t != 0.0 && duration != 0.0 && width != 0.0
    ensures OffsetLeft(t, duration, width).Fin?
    ensures PointerTime(OffsetLeft(t, duration, width).v, width, duration) == Some(t)
  {
    var x := width / duration * t;
    assert OffsetLeft(t, duration, width) == Fin(x);
    assert x != 0.0;
    ScaleCancels(t, duration, width);
    var r := PointerTime(x, width, duration);
    assert r.value == x / width * duration;
  }

  /** And the other way round: the marker offset of a pointer time is the
      pointer position. */
  lemma OffsetInvertsPointerTime(pageX: real, duration: real, width: real)
    requires pageX != 0.0 && duration != 0.0 && width != 0.0
    ensures OffsetLeft(PointerTime(pageX, width, duration).value, duration, width) == Fin(pageX)
  {
    assert (width / duration) * (pageX / width * duration) == pageX;
  }

  /** A pointer within the track gives a time within the media. */
  lemma PointerTimeWithinMedia(pageX: real, width: real, duration: real)
    requires 0.0 < pageX <= width && duration >= 0.0
    ensures 0.0 <= PointerTime(pageX, width, duration).value <= duration
  {
    assert pageX / width <= 1.0;
  }

  /** A reaction marker: its key, its `left` offset and what it shows (the
      emoji, or None for the comment icon). */
  datatype Marker = Marker(key: string, left: Num, emoji: Option<string>)

  /** `reactions.map(...)`, once the track exists. */
  function Markers(reactions: seq<Reaction>, track: Option<real>, duration: real): (ms: seq<Marker>)
    ensures track.None? ==> ms == []
    ensures track.Some? ==> |ms| == |reactions|
    ensures track.Some? ==> forall i :: 0 <= i < |ms| ==>
              ms[i].key == reactions[i].id &&
              ms[i].left == OffsetLeft(reactions[i].time, duration, track.value) &&
              (ms[i].emoji.Some? <==> IsEmojiReaction(reactions[i])) &&
              (ms[i].emoji.Some? ==> ms[i].emoji == reactions[i].emoji)
    decreases |reactions|
  {
    if track.None? || reactions == [] then []
    else
      var r := reactions[0];
      [Marker(r.id, OffsetLeft(r.time, duration, track.value), if IsEmojiReaction(r) then r.emoji else None)]
        + Markers(reactions[1..], track, duration)
  }

  /** What the bar draws when it is not hidden. */
  datatype Frame = Frame(markers: seq<Marker>, bufferedFill: real, playedFill: real, tooltipText: string)

  function Render(hidden: bool, track: Option<real>, reactions: seq<Reaction>, duration: real,
                  currentTime: real, buffered: real, hoverTime: real): (r: Option<Frame>)
    ensures r.None? <==> hidden
    ensures r.Some? ==> r.value.markers == Markers(reactions, track, duration)
    ensures r.Some? ==> r.value.bufferedFill == Percent(buffered, duration) && 0.0 <= r.value.bufferedFill <= 100.0
    ensures r.Some? ==> r.value.playedFill == Percent(currentTime, duration) && 0.0 <= r.value.playedFill <= 100.0
    ensures r.Some? ==> r.value.tooltipText == FormatTime(Fin(hoverTime), Fin(hoverTime))
  {
    if hidden then None
    else Some(Frame(Markers(reactions, track, duration), Percent(buffered, duration),
                    Percent(currentTime, duration), FormatTime(Fin(hoverTime), Fin(hoverTime))))
  }

  /** Reactions in time order give markers in left-to-right order. */
  lemma MarkersInOrder(reactions: seq<Reaction>, width: real, duration: real)
    requires width > 0.0 && duration > 0.0
    requires forall i, j :: 0 <= i < j < |reactions| ==> reactions[i].time <= reactions[j].time
    ensures var ms := Markers(reactions, Some(width), duration);
            forall i, j :: 0 <= i < j < |ms| ==> ms[i].left.v <= ms[j].left.v
  {
    var ms := Markers(reactions, Some(width), duration);
    forall i, j | 0 <= i < j < |ms|
      ensures ms[i].left.v <= ms[j].left.v
    {
      OffsetMonotonic(reactions[i].time, reactions[j].time, duration, width);
    }
  }

  /** Distinct reaction ids give distinct marker keys. */
  lemma MarkerKeysDistinct(reactions: seq<Reaction>, width: real, duration: real)
    requires forall i, j :: 0 <= i < j < |reactions| ==> reactions[i].id != reactions[j].id
    ensures var ms := Markers(reactions, Some(width), duration);
            forall i, j :: 0 <= i < j < |ms| ==> ms[i].key != ms[j].key
  {
  }

  /** The played fill never runs ahead of the buffered one while playback is
      inside the buffer. */
  lemma PlayedWithinBuffered(currentTime: real, buffered: real, duration: real)
    requires duration > 0.0 && currentTime <= buffered
    ensures Percent(currentTime, duration) <= Percent(buffered, duration)
  {
    PercentMonotonic(currentTime, buffered, duration);
  }

  /** The tooltip reads back as the whole seconds of the hovered time. */
  lemma TooltipReadsBack(hoverTime: real)
    requires hoverTime >= 0.0
    ensures ParseClock(FormatTime(Fin(hoverTime), Fin(hoverTime))) == Some(hoverTime.Floor as nat)
  {
    FormatTimeRoundTrip(Fin(hoverTime), Fin(hoverTime));
  }

  /** The bar's own state: the last hovered time. */
  class Scrubber {
    var time: real

    constructor ()
      ensures time == 0.0
    {
      time := 0.0;
    }

    /** `onMouse`, run by the tooltip on `mousemove`: the hovered time
        follows the pointer when the guard holds and stays otherwise. */
    method OnMouse(pageX: real, width: real, duration: real)
      modifies this
      ensures PointerTime(pageX, width, duration).Some? ==> time == PointerTime(pageX, width, duration).value
      ensures PointerTime(pageX, width, duration).None? ==> time == old(time)
    {
      if pageX != 0.0 && width != 0.0 {
        var pct := pageX / width;
        time := pct * duration;
      }
    }
  }

  /** `onClick`: one seek to the pointer time under the guard, none
      otherwise. The stand-alone bar wraps the handler with
      `createStopEvent` (`wrapped`), so it always stops the event; the copy
      inside controls.tsx stops it only when it seeks. */
  method OnClick(pageX: real, width: real, duration: real, player: Player, wrapped: bool)
    returns (calls: seq<EventCall>)
    requires player.Valid()
    modifies player
    ensures player.Valid() && player.readout == old(player.readout)
    ensures PointerTime(pageX, width, duration).Some? ==>
              player.log == old(player.log) + [Seek(PointerTime(pageX, width, duration).value)]
    ensures PointerTime(pageX, width, duration).None? ==> player.log == old(player.log)
    ensures Count(calls, StopPropagation) == (if wrapped || PointerTime(pageX, width, duration).Some? then 1 else 0)
    ensures Count(calls, PreventDefault) == Count(calls, StopPropagation)
  {
    var body: seq<EventCall> := [];
    if pageX != 0.0 && width != 0.0 {
      var pct := pageX / width;
      var tv := pct * duration;
      assert tv == PointerTime(pageX, width, duration).value;
      player.Issue(Seek(tv));
      body := [Handler];
    }
    if wrapped {
      calls := CreateStopEvent((u: ()) => body)(());
      StopsExactlyOnce((u: ()) => body, ());
    } else if body != [] {
      calls := body + [StopPropagation, PreventDefault];
      StopsExactlyOnce((u: ()) => body, ());
    } else {
      calls := body;
    }
  }
}
