/** `Controls` of controls.tsx, the control bar that is actually mounted:
    the transport rules (rewind, forward, restart), the comment bar, the
    mirrors of mute and of the speed menu, reaction creation and the render
    flags derived from the last `timeupdate` snapshot. */
module Controls {
  import opened Num
  import opened Wrappers
  import opened Reactions
  import opened TrackGeometry
  import opened Engine
  import opened StopEvent
  import opened Buttons

  /** How far the skip buttons move, in seconds. */
  const Skip: real := 5.0

  // ---------------------------------------------------------------------
  // Rewind and forward
  // ---------------------------------------------------------------------

  /** `liveTracker && liveTracker.isLive() && liveTracker.seekableStart()`
      is truthy: a live tracker that reports a live stream with a nonzero
      seekable start. */
  predicate HasLiveStart(live: Option<LiveTracker>)
  {
    live.Some? && live.value.isLive && live.value.seekableStart != 0.0
  }

  /** The time `onRewind` seeks to from `t`. */
  function RewindTarget(t: real, live: Option<LiveTracker>): (r: real)
    ensures !HasLiveStart(live) ==> r == (if t - Skip > 0.0 then t - Skip else 0.0)
    ensures HasLiveStart(live) && t - Skip <= live.value.seekableStart ==> r == live.value.seekableStart
    ensures HasLiveStart(live) ==> r >= live.value.seekableStart
    ensures r >= 0.0 || (HasLiveStart(live) && r == live.value.seekableStart)
  {
    var start := if live.Some? && live.value.isLive then live.value.seekableStart else 0.0;
    if start != 0.0 && t - Skip <= start then start
    else if t >= Skip then t - Skip
    else 0.0
  }

  /** With a positive live start the rewind target is `t - 5` clamped from
      below by that start; without one it is `t - 5` clamped by 0. */
  lemma RewindClamps(t: real, live: Option<LiveTracker>)
    ensures var bound := if HasLiveStart(live) && live.value.seekableStart > 0.0 then live.value.seekableStart else 0.0;
            (HasLiveStart(live) ==> live.value.seekableStart > 0.0) ==>
              RewindTarget(t, live) == (if t - Skip > bound then t - Skip else bound)
  {
  }

  /** A live start of 0 is falsy: the stream rewinds as if it were not live. */
  lemma ZeroLiveStartIgnored(t: real, seekableEnd: real)
    ensures RewindTarget(t, Some(LiveTracker(true, 0.0, seekableEnd))) == RewindTarget(t, None)
  {
  }

  /** The end `onForward` clamps to: the live tracker's seekable end for a
      live stream, the media duration otherwise. */
  function ForwardEnd(live: Option<LiveTracker>, duration: real): real
  {
    if live.Some? && live.value.isLive then live.value.seekableEnd else duration
  }

  /** The time `onForward` seeks to from `t`: the smaller of `t + 5` and the end. */
  function ForwardTarget(t: real, live: Option<LiveTracker>, duration: real): (r: real)
    ensures r <= ForwardEnd(live, duration) && r <= t + Skip
    ensures r == t + Skip || r == ForwardEnd(live, duration)
  {
    var end := ForwardEnd(live, duration);
    if t + Skip <= end then t + Skip else end
  }

  /** Forward never passes the end, so from a time past the end it moves
      back to the end. */
  lemma ForwardFromPastEnd(t: real, live: Option<LiveTracker>, duration: real)
    requires t > ForwardEnd(live, duration)
    ensures ForwardTarget(t, live, duration) == ForwardEnd(live, duration) < t
  {
  }

  /** Away from both bounds, forward and rewind undo each other. */
  lemma SkipsUndoEachOther(t: real, duration: real)
    requires Skip <= t && t + Skip <= duration
    ensures RewindTarget(ForwardTarget(t, None, duration), None) == t
    ensures ForwardTarget(RewindTarget(t, None), None, duration) == t
  {
  }

  // ---------------------------------------------------------------------
  // Comment bar
  // ---------------------------------------------------------------------

  /** What a key released in the comment bar leads to. */
  datatype KeyOutcome = Cancelled | Submitted(text: string) | Ignored

  /** `onKey` on text `value`: the outcome, the new text and the calls made
      on the event (`preventDefault` before `stopPropagation` here). */
  function CommentKey(value: string, key: string): (r: (KeyOutcome, string, seq<EventCall>))
    ensures key == "Escape" ==> r.0 == Cancelled && r.1 == ""
    ensures key != "Escape" && key == "Enter" && value != "" ==> r.0 == Submitted(value) && r.1 == ""
    ensures key != "Escape" && !(key == "Enter" && value != "") ==> r.0 == Ignored && r.1 == value && r.2 == []
    ensures !r.0.Ignored? ==> r.2 == [PreventDefault, StopPropagation]
  {
    if key == "Escape" then (Cancelled, "", [PreventDefault, StopPropagation])
    else if key == "Enter" && value != "" then (Submitted(value), "", [PreventDefault, StopPropagation])
    else (Ignored, value, [])
  }

  /** A submitted comment is never empty and is the text as typed; the text
      is cleared exactly when something was cancelled or submitted. */
  lemma CommentKeyFacts(value: string, key: string)
    ensures CommentKey(value, key).0.Submitted? ==> CommentKey(value, key).0.text == value != ""
    ensures CommentKey(value, key).1 == "" <==> (!CommentKey(value, key).0.Ignored? || value == "")
  {
  }

  /** The comment bar: the text typed so far. It is mounted afresh (with
      empty text) each time the bar opens. */
  class CommentBar {
    var value: string

    constructor ()
      ensures value == ""
    {
      value := "";
    }

    /** The input's `onChange`. */
    method OnChange(text: string)
      modifies this
      ensures value == text
    {
      value := text;
    }

    method OnKey(key: string) returns (outcome: KeyOutcome, calls: seq<EventCall>)
      modifies this
      ensures (outcome, value, calls) == CommentKey(old(value), key)
    {
      if key == "Escape" {
        calls := [PreventDefault, StopPropagation];
        outcome := Cancelled;
        value := "";
        return;
      }
      if key == "Enter" && value != "" {
        calls := [PreventDefault, StopPropagation];
        outcome := Submitted(value);
        value := "";
        return;
      }
      outcome := Ignored;
      calls := [];
    }

    /** The "Comment at ..." button submits non-empty text and leaves it. */
    method OnSubmitClick() returns (outcome: KeyOutcome)
      ensures value != "" ==> outcome == Submitted(value)
      ensures value == "" ==> outcome == Ignored
    {
      outcome := if value != "" then Submitted(value) else Ignored;
    }
  }

  // ---------------------------------------------------------------------
  // Derived render state
  // ---------------------------------------------------------------------

  datatype MainButton = RestartButton | PauseButton | PlayButton

  /** The flags `Controls` renders from its props and state. */
  datatype View = View(hideControls: bool, ended: bool, main: MainButton, mutedIcon: bool, progressHidden: bool)

  /** Nothing before the player is ready; then the controls are hidden for
      a paused zero-length media, `ended` once the time reaches the
      duration, Restart/Pause/Play in that priority, the muted icon only
      where muting is supported, and the progress bar hidden while the
      speed menu is open or the controls are hidden. */
  function Render(ready: bool, playing: bool, currentTime: real, duration: real,
                  hideProgress: bool, muted: bool, muteSupported: bool): (v: Option<View>)
    ensures v.None? <==> !ready
    ensures v.Some? ==> (v.value.hideControls <==> !playing && duration == 0.0)
    ensures v.Some? ==> (v.value.ended <==> currentTime >= duration)
    ensures v.Some? ==> (v.value.main == RestartButton <==> currentTime >= duration)
    ensures v.Some? ==> (v.value.main == PauseButton <==> currentTime < duration && playing)
    ensures v.Some? ==> (v.value.main == PlayButton <==> currentTime < duration && !playing)
    ensures v.Some? ==> (v.value.mutedIcon <==> muted && muteSupported)
    ensures v.Some? ==> (v.value.progressHidden <==> hideProgress || (!playing && duration == 0.0))
  {
    if !ready then None
    else
      var hideControls := !playing && duration == 0.0;
      var ended := currentTime >= duration;
      var main := if ended then RestartButton else if playing then PauseButton else PlayButton;
      Some(View(hideControls, ended, main, muted && muteSupported, hideProgress || hideControls))
  }

  /** Before the first `timeupdate` (time and duration 0) a paused player
      shows hidden controls whose main button is already Restart. */
  lemma FirstFrame(muted: bool, muteSupported: bool)
    ensures var v := Render(true, false, 0.0, 0.0, false, muted, muteSupported).value;
            v.hideControls && v.ended && v.main == RestartButton && v.progressHidden
  {
  }

  /** While playing, the controls are never hidden, and the progress bar is
      hidden exactly while the speed menu is open. */
  lemma PlayingShowsControls(currentTime: real, duration: real, hideProgress: bool, muted: bool, muteSupported: bool)
    ensures var v := Render(true, true, currentTime, duration, hideProgress, muted, muteSupported).value;
            !v.hideControls && (v.progressHidden <==> hideProgress)
  {
  }

  /** The last `player.muted(...)` call in a command log; `false` (the
      player's default) when there is none. */
  function LastMuted(log: seq<Command>): bool
    decreases |log|
  {
    if log == [] then false
    else if log[|log| - 1].Muted? then log[|log| - 1].on
    else LastMuted(log[..|log| - 1])
  }

  lemma LastMutedAppend(log: seq<Command>, c: Command)
    ensures c.Muted? ==> LastMuted(log + [c]) == c.on
    ensures !c.Muted? ==> LastMuted(log + [c]) == LastMuted(log)
  {
    assert (log + [c])[..|log + [c]| - 1] == log;
  }

  /** The same for the calls made since position `k` of the log. */
  lemma LastMutedSince(log: seq<Command>, k: nat, c: Command)
    requires k <= |log|
    ensures c.Muted? ==> LastMuted((log + [c])[k..]) == c.on
    ensures !c.Muted? ==> LastMuted((log + [c])[k..]) == LastMuted(log[k..])
  {
    assert (log + [c])[k..] == log[k..] + [c];
    LastMutedAppend(log[k..], c);
  }

  /** A later mute call overrides every earlier one, whatever else was
      issued in between. */
  lemma {:induction false} LastMutedOverrides(log: seq<Command>, b: bool, rest: seq<Command>)
    requires forall i :: 0 <= i < |rest| ==> !rest[i].Muted?
    ensures LastMuted(log + [Muted(b)] + rest) == b
    decreases |rest|
  {
    if rest == [] {
      assert log + [Muted(b)] + rest == log + [Muted(b)];
      LastMutedAppend(log, Muted(b));
    } else {
      var init := rest[..|rest| - 1];
      assert log + [Muted(b)] + rest == (log + [Muted(b)] + init) + [rest[|rest| - 1]];
      LastMutedOverrides(log, b, init);
      LastMutedAppend(log + [Muted(b)] + init, rest[|rest| - 1]);
    }
  }

  // ---------------------------------------------------------------------
  // The component
  // ---------------------------------------------------------------------

  class Controls {
    const player: Player
    const menu: PlaybackMenu
    var bar: CommentBar
    /** The snapshot of the last `timeupdate`. */
    var currentTime: real
    var duration: real
    var buffered: real
    var hideProgress: bool
    var muted: bool
    var showComment: bool
    /** Set by the `timeupdate` effect's cleanup. */
    var disconnected: bool
    /** The length of the player's log when the component mounted. */
    ghost const mountAt: nat

    /** The player is sound, the speed menu's open flag has been forwarded
        to `hideProgress`, and the local mute flag agrees with the last
        mute call this component made (false before the first). */
    ghost predicate Valid()
      reads this, player, menu
    {
      player.Valid() && mountAt <= |player.log| &&
      hideProgress == menu.show && muted == LastMuted(player.log[mountAt..])
    }

    /** Mounting: zeros, closed bars, the speed menu primed with the
        player's rate, the `timeupdate` listener connected. */
    constructor (player: Player)
      requires player.Valid()
      ensures this.player == player && player.log == old(player.log) && mountAt == |player.log|
      ensures currentTime == 0.0 && duration == 0.0 && buffered == 0.0
      ensures !hideProgress && !muted && !showComment && !disconnected
      ensures fresh(menu) && fresh(bar) && menu.rate == player.readout.rate && !menu.show
      ensures Valid()
    {
      this.player := player;
      mountAt := |player.log|;
      menu := new PlaybackMenu(player.readout.rate);
      bar := new CommentBar();
      currentTime := 0.0;
      duration := 0.0;
      buffered := 0.0;
      hideProgress := false;
      muted := false;
      showComment := false;
      disconnected := false;
    }

    /** The flags rendered for this state. */
    function View(ready: bool, playing: bool): Option<View>
      reads this, player
    {
      Render(ready, playing, currentTime, duration, hideProgress, muted, player.readout.muteSupported)
    }

    /** With a valid state, the progress bar is hidden exactly while the
        speed menu is open or the controls are hidden. */
    lemma ProgressHiddenWhileMenuOpen(playing: bool)
      requires Valid()
      ensures View(true, playing).value.progressHidden <==>
                menu.show || View(true, playing).value.hideControls
    {
    }

    /** `timeupdate`: the snapshot mirrors the player, unless the listener
        has been disconnected, in which case nothing changes. */
    method OnTimeUpdate()
      requires Valid()
      modifies this
      ensures Valid() && bar == old(bar)
      ensures !disconnected ==> currentTime == player.readout.currentTime &&
                                 buffered == player.readout.bufferedEnd &&
                                 duration == player.readout.duration
      ensures disconnected ==> currentTime == old(currentTime) && buffered == old(buffered) &&
                               duration == old(duration)
      ensures hideProgress == old(hideProgress) && muted == old(muted) &&
              showComment == old(showComment) && disconnected == old(disconnected)
    {
      if !disconnected {
        currentTime := player.readout.currentTime;
        buffered := player.readout.bufferedEnd;
        duration := player.readout.duration;
      }
    }

    /** The effect's cleanup. */
    method Disconnect()
      modifies this
      ensures disconnected
      ensures currentTime == old(currentTime) && buffered == old(buffered) && duration == old(duration)
      ensures hideProgress == old(hideProgress) && muted == old(muted) &&
              showComment == old(showComment) && bar == old(bar)
    {
      disconnected := true;
    }

    /** A command that leaves mute alone, passed to the player. */
    method Send(c: Command)
      requires Valid() && !c.Muted? && !c.Dispose?
      modifies player
      ensures Valid() && player.readout == old(player.readout)
      ensures player.log == old(player.log) + [c]
    {
      LastMutedSince(player.log, mountAt, c);
      player.Issue(c);
    }

    method OnRewind() returns (calls: seq<EventCall>)
      requires Valid()
      modifies player
      ensures Valid() && player.readout == old(player.readout)
      ensures player.log == old(player.log) + [Seek(RewindTarget(player.readout.currentTime, player.readout.live))]
      ensures calls == [StopPropagation, PreventDefault]
    {
      var t := player.readout.currentTime;
      var newTime := 0.0;
      var live := player.readout.live;
      var start := if live.Some? && live.value.isLive then live.value.seekableStart else 0.0;
      if start != 0.0 && t - 5.0 <= start {
        newTime := start;
      } else if t >= 5.0 {
        newTime := t - 5.0;
      } else {
        newTime := 0.0;
      }
      assert newTime == RewindTarget(t, live);
      Send(Seek(newTime));
      calls := [StopPropagation, PreventDefault];
    }

    method OnForward() returns (calls: seq<EventCall>)
      requires Valid()
      modifies player
      ensures Valid() && player.readout == old(player.readout)
      ensures player.log == old(player.log) +
                [Seek(ForwardTarget(player.readout.currentTime, player.readout.live, player.readout.duration))]
      ensures calls == [StopPropagation, PreventDefault]
    {
      var t := player.readout.currentTime;
      var live := player.readout.live;
      var newTime := 0.0;
      var end := if live.Some? && live.value.isLive then live.value.seekableEnd else player.readout.duration;
      if t + 5.0 <= end {
        newTime := t + 5.0;
      } else {
        newTime := end;
      }
      assert newTime == ForwardTarget(t, live, player.readout.duration);
      Send(Seek(newTime));
      calls := [StopPropagation, PreventDefault];
    }

    /** The main button's Play and Pause. */
    method OnPlay()
      requires Valid()
      modifies player
      ensures Valid() && player.readout == old(player.readout)
      ensures player.log == old(player.log) + [Play]
    {
      Send(Play);
    }

    method OnPause()
      requires Valid()
      modifies player
      ensures Valid() && player.readout == old(player.readout)
      ensures player.log == old(player.log) + [Pause]
    {
      Send(Pause);
    }

    /** Restart: back to the start, then play. */
    method OnRestart()
      requires Valid()
      modifies player
      ensures Valid() && player.readout == old(player.readout)
      ensures player.log == old(player.log) + [Seek(0.0), Play]
    {
      ghost var log0 := player.log;
      Send(Seek(0.0));
      Send(Play);
      assert log0 + [Seek(0.0)] + [Play] == log0 + [Seek(0.0), Play];
    }

    /** Mute and unmute set the player and the local flag alike. */
    method OnMute() returns (calls: seq<EventCall>)
      requires Valid()
      modifies this, player
      ensures Valid() && player.readout == old(player.readout)
      ensures player.log == old(player.log) + [Muted(true)] && muted
      ensures showComment == old(showComment) && hideProgress == old(hideProgress) && bar == old(bar)
      ensures currentTime == old(currentTime) && duration == old(duration) &&
              buffered == old(buffered) && disconnected == old(disconnected)
      ensures calls == [StopPropagation, PreventDefault]
    {
      calls := [StopPropagation, PreventDefault];
      LastMutedSince(player.log, mountAt, Muted(true));
      player.Issue(Muted(true));
      muted := true;
    }

    method OnUnmute() returns (calls: seq<EventCall>)
      requires Valid()
      modifies this, player
      ensures Valid() && player.readout == old(player.readout)
      ensures player.log == old(player.log) + [Muted(false)] && !muted
      ensures showComment == old(showComment) && hideProgress == old(hideProgress) && bar == old(bar)
      ensures currentTime == old(currentTime) && duration == old(duration) &&
              buffered == old(buffered) && disconnected == old(disconnected)
      ensures calls == [StopPropagation, PreventDefault]
    {
      calls := [StopPropagation, PreventDefault];
      LastMutedSince(player.log, mountAt, Muted(false));
      player.Issue(Muted(false));
      muted := false;
    }

    /** The comment button toggles the bar. Opening it mounts a fresh bar
        and the effect pauses the player; closing it issues nothing. */
    method ToggleComment()
      requires Valid()
      modifies this, player
      ensures Valid() && player.readout == old(player.readout)
      ensures showComment == !old(showComment)
      ensures !old(showComment) ==> player.log == old(player.log) + [Pause] && fresh(bar) && bar.value == ""
      ensures old(showComment) ==> player.log == old(player.log) && bar == old(bar)
      ensures muted == old(muted) && hideProgress == old(hideProgress)
      ensures currentTime == old(currentTime) && duration == old(duration) &&
              buffered == old(buffered) && disconnected == old(disconnected)
    {
      showComment := !showComment;
      if showComment {
        bar := new CommentBar();
        Send(Pause);
      }
    }

    /** `onComment`: one comment reaction stamped with the player's current
        time; the bar closes, which issues no command. */
    method OnComment(text: string, id: string) returns (r: Reaction)
      requires Valid()
      modifies this
      ensures Valid()
      ensures r == CommentReaction(id, player.readout.currentTime, text)
      ensures !showComment && bar == old(bar)
      ensures muted == old(muted) && hideProgress == old(hideProgress)
      ensures currentTime == old(currentTime) && duration == old(duration) &&
              buffered == old(buffered) && disconnected == old(disconnected)
    {
      var time := player.readout.currentTime;
      r := CommentReaction(id, time, text);
      showComment := false;
    }

    /** `onEmoji`: one emoji reaction stamped with the player's current
        time. When the track exists (width `trackWidth`), a burst is drawn
        at its marker offset less 5 pixels. */
    method OnEmoji(emoji: string, id: string, trackPresent: bool, trackWidth: real)
      returns (r: Reaction, burstLeft: Option<Num>)
      requires Valid()
      ensures r == EmojiReaction(id, player.readout.currentTime, emoji)
      ensures trackPresent ==>
                burstLeft == Some(Plus(OffsetLeft(player.readout.currentTime, player.readout.duration, trackWidth), -5.0))
      ensures !trackPresent ==> burstLeft.None?
    {
      var time := player.readout.currentTime;
      var duration := player.readout.duration;
      r := EmojiReaction(id, time, emoji);
      burstLeft := None;
      if trackPresent {
        burstLeft := Some(Plus(OffsetLeft(time, duration, trackWidth), -5.0));
      }
    }

    /** A key released in the open comment bar: Escape cancels (closing the
        bar), Enter with text submits it as a reaction (closing the bar),
        anything else changes nothing. */
    method OnCommentKey(key: string, id: string) returns (r: Option<Reaction>, calls: seq<EventCall>)
      requires Valid() && showComment
      modifies this, bar
      ensures Valid() && bar == old(bar)
      ensures (CommentKey(old(bar.value), key).0, bar.value, calls) == CommentKey(old(bar.value), key)
      ensures key == "Escape" ==> r.None? && !showComment
      ensures key != "Escape" && key == "Enter" && old(bar.value) != "" ==>
                r == Some(CommentReaction(id, player.readout.currentTime, old(bar.value))) && !showComment
      ensures key != "Escape" && !(key == "Enter" && old(bar.value) != "") ==>
                r.None? && showComment && bar.value == old(bar.value)
      ensures muted == old(muted) && hideProgress == old(hideProgress)
      ensures currentTime == old(currentTime) && duration == old(duration) &&
              buffered == old(buffered) && disconnected == old(disconnected)
    {
      var outcome;
      outcome, calls := bar.OnKey(key);
      r := None;
      match outcome
      case Cancelled =>
        showComment := false;
      case Submitted(text) =>
        var reaction := OnComment(text, id);
        r := Some(reaction);
      case Ignored =>
    }

    /** The bar's Cancel button. */
    method OnCancel()
      requires Valid()
      modifies this
      ensures Valid() && !showComment && bar == old(bar)
      ensures muted == old(muted) && hideProgress == old(hideProgress)
      ensures currentTime == old(currentTime) && duration == old(duration) &&
              buffered == old(buffered) && disconnected == old(disconnected)
    {
      showComment := false;
    }

    /** The rate readout toggles the speed menu, and the new open flag is
        forwarded to `hideProgress`. */
    method OnRateClick() returns (calls: seq<EventCall>)
      requires Valid()
      modifies this, menu
      ensures Valid()
      ensures menu.show == !old(menu.show) && hideProgress == menu.show && menu.rate == old(menu.rate)
      ensures showComment == old(showComment) && muted == old(muted) && bar == old(bar)
      ensures currentTime == old(currentTime) && duration == old(duration) &&
              buffered == old(buffered) && disconnected == old(disconnected)
      ensures calls == [StopPropagation, PreventDefault]
    {
      calls := menu.OnClick();
      hideProgress := menu.show;
    }

    /** Choosing a rate in the menu: the player's rate, the menu's rate,
        the menu closes and the progress bar comes back. */
    method OnSelectRate(rate: real) returns (calls: seq<EventCall>)
      requires Valid()
      modifies this, menu, player
      ensures Valid() && player.readout == old(player.readout)
      ensures player.log == old(player.log) + [Rate(rate)]
      ensures menu.rate == rate && !menu.show && !hideProgress
      ensures showComment == old(showComment) && muted == old(muted) && bar == old(bar)
      ensures currentTime == old(currentTime) && duration == old(duration) &&
              buffered == old(buffered) && disconnected == old(disconnected)
      ensures calls == [Handler, StopPropagation, PreventDefault]
    {
      LastMutedSince(player.log, mountAt, Rate(rate));
      calls := menu.Select(rate, player);
      hideProgress := menu.show;
    }
  }
}
