/** `Video` of index.tsx: the shell that creates the player once, mirrors
    its events into React state, keeps the reaction list, toggles playback
    on clicks and the `k` hotkey, and disposes the player on teardown. */
module Video {
  import opened Wrappers
  import opened Reactions
  import opened Engine
  import opened StopEvent

  /** The options object `{...defaultOptions, poster, sources, autoplay}`,
      as far as the shell uses it. The explicit `autoplay` key always
      overrides the default, even when the prop is undefined (None). */
  datatype Options = Options(autoplay: Option<bool>, sources: seq<Source>, playbackRates: seq<real>)

  const DefaultAutoplay: bool := true
  const DefaultRates: seq<real> := [0.8, 1.0, 1.2, 1.5, 1.7, 2.0, 2.5]

  function MakeOptions(autoplay: Option<bool>, sources: seq<Source>): (o: Options)
    ensures o.autoplay == autoplay && o.sources == sources && o.playbackRates == DefaultRates
  {
    Options(autoplay, sources, DefaultRates)
  }

  /** Without an `autoplay` prop the player is not asked to autoplay: the
      default `true` is overwritten by the undefined prop. */
  lemma AutoplayDefaultOverridden(sources: seq<Source>)
    ensures MakeOptions(None, sources).autoplay != Some(DefaultAutoplay)
  {
  }

  /** The `hotkeys` user action, run by the player for a key press: `k`
      plays a paused player and pauses a playing one; other keys do nothing. */
  method Hotkey(player: Player, key: string)
    requires player.Valid()
    modifies player
    ensures player.Valid() && player.readout == old(player.readout)
    ensures key == "k" ==> player.log == old(player.log) + [if player.readout.paused then Play else Pause]
    ensures key != "k" ==> player.log == old(player.log)
  {
    if key == "k" {
      if player.readout.paused {
        player.Issue(Play);
      } else {
        player.Issue(Pause);
      }
    }
  }

  class Shell {
    /** `playerRef.current`. */
    var player: Player?
    var ready: bool
    var duration: real
    var playbackRate: real
    var playing: bool
    var reactions: seq<Reaction>
    /** The one-shot `loadedmetadata` listener is still registered. */
    var metadataPending: bool

    ghost predicate Valid()
      reads this, player
    {
      (player != null ==> player.Valid()) && (metadataPending ==> player != null)
    }

    constructor ()
      ensures player == null && !ready && duration == 0.0 && playbackRate == 1.0
      ensures !playing && reactions == [] && !metadataPending
      ensures Valid()
    {
      player := null;
      ready := false;
      duration := 0.0;
      playbackRate := 1.0;
      playing := false;
      reactions := [];
      metadataPending := false;
    }

    /** The options effect. With no player yet and the container present,
        the player is created (reporting `engine`) and the listeners are
        registered; with a player, only `autoplay` and `src` are re-applied;
        otherwise nothing happens. */
    method ApplyOptions(containerPresent: bool, options: Options, engine: Readout)
      requires Valid()
      modifies this, player
      ensures Valid()
      ensures old(player) == null && containerPresent ==>
                player != null && fresh(player) && player.log == [] && player.readout == engine &&
                metadataPending
      ensures old(player) == null && !containerPresent ==> player == null && metadataPending == old(metadataPending)
      ensures old(player) != null ==>
                player == old(player) && metadataPending == old(metadataPending) &&
                player.readout == old(player.readout) &&
                player.log == old(player.log) + [Autoplay(options.autoplay), Src(options.sources)]
      ensures ready == old(ready) && duration == old(duration) && playbackRate == old(playbackRate)
      ensures playing == old(playing) && reactions == old(reactions)
    {
      if player == null && containerPresent {
        player := new Player(engine);
        metadataPending := true;
      } else if player != null {
        player.Issue(Autoplay(options.autoplay));
        player.Issue(Src(options.sources));
      }
    }

    /** `loadedmetadata`, fired by the player: the first one records the
        duration and marks the shell ready; the listener is then gone. */
    method OnLoadedMetadata()
      requires Valid() && player != null
      modifies this
      ensures Valid() && player == old(player) && !metadataPending
      ensures old(metadataPending) ==> duration == player.readout.duration && ready
      ensures !old(metadataPending) ==> duration == old(duration) && ready == old(ready)
      ensures playing == old(playing) && playbackRate == old(playbackRate) && reactions == old(reactions)
    {
      if metadataPending {
        duration := player.readout.duration;
        ready := true;
        metadataPending := false;
      }
    }

    /** `play`, `pause` and `ratechange`, fired by the player. */
    method OnPlayEvent()
      requires Valid() && player != null
      modifies this
      ensures Valid() && player == old(player) && metadataPending == old(metadataPending)
      ensures playing
      ensures ready == old(ready) && duration == old(duration) && playbackRate == old(playbackRate)
      ensures reactions == old(reactions)
    {
      playing := true;
    }

    method OnPauseEvent()
      requires Valid() && player != null
      modifies this
      ensures Valid() && player == old(player) && metadataPending == old(metadataPending)
      ensures !playing
      ensures ready == old(ready) && duration == old(duration) && playbackRate == old(playbackRate)
      ensures reactions == old(reactions)
    {
      playing := false;
    }

    method OnRateChange()
      requires Valid() && player != null
      modifies this
      ensures Valid() && player == old(player) && metadataPending == old(metadataPending)
      ensures playbackRate == player.readout.rate
      ensures ready == old(ready) && duration == old(duration) && playing == old(playing)
      ensures reactions == old(reactions)
    {
      playbackRate := player.readout.rate;
    }

    /** A click on the background or the large button: pause when playing,
        play otherwise, nothing without a player; the event is then stopped. */
    method OnClick() returns (calls: seq<EventCall>)
      requires Valid()
      modifies player
      ensures Valid()
      ensures player != null ==> player.log == old(player.log) + [if playing then Pause else Play] &&
                                 player.readout == old(player.readout)
      ensures calls == [Handler, StopPropagation, PreventDefault]
    {
      if playing {
        if player != null {
          player.Issue(Pause);
        }
      } else {
        if player != null {
          player.Issue(Play);
        }
      }
      calls := [Handler, StopPropagation, PreventDefault];
    }

    /** `onReaction`: the list grows by exactly the new reaction at its end. */
    method OnReaction(r: Reaction)
      modifies this
      ensures reactions == old(reactions) + [r]
      ensures player == old(player) && ready == old(ready) && duration == old(duration)
      ensures playing == old(playing) && playbackRate == old(playbackRate)
      ensures metadataPending == old(metadataPending)
    {
      reactions := reactions + [r];
    }

    /** The cleanup effect: a live, undisposed player is disposed, the
        handle cleared and `ready` reset; otherwise nothing happens. The
        source's cleanup acts on the player it captured when the effect ran;
        that effect runs once, after the creating effect of the same commit,
        so the captured player is the one in `player` here. */
    method Teardown()
      requires Valid()
      modifies this, player
      ensures Valid()
      ensures old(player) != null && !old(player.disposed) ==>
                old(player).disposed && old(player).log == old(player.log) + [Command.Dispose] &&
                player == null && !ready && !metadataPending
      ensures !(old(player) != null && !old(player.disposed)) ==>
                player == old(player) && ready == old(ready) && metadataPending == old(metadataPending) &&
                (player != null ==> player.log == old(player.log) && player.readout == old(player.readout) &&
                                    player.disposed == old(player.disposed))
      ensures duration == old(duration) && playing == old(playing) && reactions == old(reactions)
      ensures playbackRate == old(playbackRate)
    {
      if player != null && !player.disposed {
        player.Dispose();
        player := null;
        ready := false;
        metadataPending := false;
      }
    }
  }

  /** The list after `onReaction` is called with each of `added` in turn. */
  function Appended(start: seq<Reaction>, added: seq<Reaction>): (r: seq<Reaction>)
    ensures |r| == |start| + |added|
    decreases |added|
  {
    if added == [] then start else Appended(start + [added[0]], added[1..])
  }

  /** Reactions only ever accumulate: after any appends the list is the old
      list, unchanged and in order, followed by the new reactions in the
      order they came. */
  lemma {:induction false} AppendedIsConcat(start: seq<Reaction>, added: seq<Reaction>)
    ensures Appended(start, added) == start + added
    ensures Appended(start, added)[..|start|] == start
    decreases |added|
  {
    if added == [] {
      assert start + added == start;
    } else {
      AppendedIsConcat(start + [added[0]], added[1..]);
      assert start + [added[0]] + added[1..] == start + added;
    }
  }

  /** Tearing down twice disposes once: a disposed player is never disposed
      again, and a player's log holds at most one `dispose()`. */
  lemma DisposedOnce(p: Player)
    requires p.Valid()
    ensures multiset(p.log)[Command.Dispose] <= 1
  {
  }
}
