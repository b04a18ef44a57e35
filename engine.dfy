/** The video.js player as the overlay sees it: the readings it takes
    (`currentTime()`, `duration()`, `bufferedEnd()`, `paused()`, the live
    tracker, the tech's feature flags) and the log of commands it issues.
    The engine's own behaviour is not modelled: `Advance` lets the
    environment move the readings. */
module Engine {
  import opened Wrappers

  /** `player.liveTracker`, when there is one. */
  datatype LiveTracker = LiveTracker(isLive: bool, seekableStart: real, seekableEnd: real)

  /** One entry of `sources`. */
  datatype Source = Source(src: string, kind: string)

  datatype Readout = Readout(
    currentTime: real,
    duration: real,
    bufferedEnd: real,
    paused: bool,
    rate: real,
    volume: real,
    live: Option<LiveTracker>,
    muteSupported: bool,
    volumeSupported: bool)

  /** The calls the overlay makes on the player. */
  datatype Command =
    | Seek(t: real)
    | Play
    | Pause
    | Rate(r: real)
    | Muted(on: bool)
    | Volume(v: real)
    | Autoplay(value: Option<bool>)
    | Src(sources: seq<Source>)
    | Dispose

  class Player {
    var readout: Readout
    var log: seq<Command>
    var disposed: bool

    /** `dispose()` has been called exactly when the player is disposed,
        and at most once. */
    ghost predicate Valid()
      reads this
    {
      multiset(log)[Command.Dispose] == (if disposed then 1 else 0)
    }

    constructor (initial: Readout)
      ensures readout == initial && log == [] && !disposed
      ensures Valid()
    {
      readout := initial;
      log := [];
      disposed := false;
    }

    /** Any command but `dispose()`: it is appended to the log. */
    method Issue(c: Command)
      requires Valid() && !c.Dispose?
      modifies this
      ensures log == old(log) + [c]
      ensures readout == old(readout) && disposed == old(disposed)
      ensures Valid()
    {
      log := log + [c];
    }

    /** `dispose()`, which video.js allows once. */
    method Dispose()
      requires Valid() && !disposed
      modifies this
      ensures log == old(log) + [Command.Dispose] && disposed
      ensures readout == old(readout)
      ensures Valid()
    {
      log := log + [Command.Dispose];
      disposed := true;
    }

    /** The engine moves on (time advances, metadata loads, the user agent
        pauses): new readings, no command. */
    method Advance(r: Readout)
      requires Valid()
      modifies this
      ensures readout == r && log == old(log) && disposed == old(disposed)
      ensures Valid()
    {
      readout := r;
    }
  }
}
