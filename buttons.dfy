/** The buttons of buttons.tsx that hold logic: the playback-speed menu
    (`PlaybackButton`, also defined inline in controls.tsx), the large
    centre button's icon and label rules, and the volume slider. */
module Buttons {
  import opened Num
  import opened Engine
  import opened StopEvent
  import opened TimeFormat

  // ---------------------------------------------------------------------
  // PlaybackButton
  // ---------------------------------------------------------------------

  /** The speed menu: whether it is open and the locally selected rate. */
  class PlaybackMenu {
    var show: bool
    var rate: real

    /** Mounted closed, with the rate the player reports. */
    constructor (value: real)
      ensures !show && rate == value
    {
      show := false;
      rate := value;
    }

    /** A click on the rate readout toggles the menu. */
    method OnClick() returns (calls: seq<EventCall>)
      modifies this
      ensures show == !old(show) && rate == old(rate)
      ensures calls == [StopPropagation, PreventDefault]
    {
      show := !show;
      calls := [StopPropagation, PreventDefault];
    }

    /** Choosing `r`: the player's rate is set, the local rate follows and
        the menu closes. */
    method Select(r: real, player: Player) returns (calls: seq<EventCall>)
      requires player.Valid()
      modifies this, player
      ensures player.Valid() && player.log == old(player.log) + [Rate(r)]
      ensures player.readout == old(player.readout)
      ensures rate == r && !show
      ensures calls == [Handler, StopPropagation, PreventDefault]
    {
      player.Issue(Rate(r));
      rate := r;
      show := false;
      calls := [Handler, StopPropagation, PreventDefault];
    }

    /** Which menu entries carry the highlight. */
    function Highlighted(rates: seq<real>): (marks: seq<bool>)
      reads this
    {
      Highlights(rates, rate)
    }
  }

  /** One flag per entry: set exactly on the entries equal to `rate`. */
  function Highlights(rates: seq<real>, rate: real): (marks: seq<bool>)
    ensures |marks| == |rates|
    ensures forall i :: 0 <= i < |rates| ==> (marks[i] <==> rates[i] == rate)
    decreases |rates|
  {
    if rates == [] then [] else [rates[0] == rate] + Highlights(rates[1..], rate)
  }

  /** Among distinct rates that include the current one, exactly one entry
      is highlighted: it is at the rate's position and no other entry is. */
  lemma ExactlyOneHighlighted(rates: seq<real>, rate: real)
    requires forall i, j :: 0 <= i < j < |rates| ==> rates[i] != rates[j]
    requires rate in rates
    ensures exists k :: 0 <= k < |rates| && Highlights(rates, rate)[k] &&
              forall i :: 0 <= i < |rates| && i != k ==> !Highlights(rates, rate)[i]
  {
    var k :| 0 <= k < |rates| && rates[k] == rate;
    assert Highlights(rates, rate)[k];
  }

  /** The rates the player is configured with. */
  function DefaultRates(): seq<real>
  {
    [0.8, 1.0, 1.2, 1.5, 1.7, 2.0, 2.5]
  }

  /** At the default rates, the normal speed is the only highlighted entry. */
  lemma NormalSpeedHighlight()
    ensures Highlights(DefaultRates(), 1.0) == [false, true, false, false, false, false, false]
  {
  }

  // ---------------------------------------------------------------------
  // LargePlayButton
  // ---------------------------------------------------------------------

  /** JavaScript falsiness of a number: 0 and NaN. */
  predicate Falsy(n: Num)
  {
    n == Fin(0.0) || n.NaN?
  }

  /** The duration label the shell hands the button: `duration / playbackRate`. */
  function ScaledDuration(duration: real, rate: real): (d: Num)
    ensures rate != 0.0 ==> d == Fin(duration / rate)
  {
    Div(Fin(duration), Fin(rate))
  }

  /** The duration label is hidden while playing, before the player is
      ready, or when the duration is falsy. */
  predicate LabelHidden(playing: bool, ready: bool, duration: Num)
  {
    playing || !ready || Falsy(duration)
  }

  /** The label's text. */
  function Label(duration: Num): (text: string)
    ensures duration.NaN? || duration.PosInf? <==> text == ""
  {
    FormatDuration(duration, duration)
  }

  /** The pause glyph is drawn exactly while playing. */
  predicate ShowsPauseIcon(playing: bool)
  {
    playing
  }

  /** A zero duration hides the label whatever the rate, 0 / 0 included
      (it is NaN, which is falsy as well). */
  lemma ZeroDurationHidesLabel(playing: bool, ready: bool, rate: real)
    ensures LabelHidden(playing, ready, ScaledDuration(0.0, rate))
  {
    if rate != 0.0 {
      assert 0.0 / rate == 0.0;
    }
  }

  /** The label shows only for a ready, paused player with a nonzero
      finite duration, and then its text ends in " sec". */
  lemma LabelShown(playing: bool, ready: bool, duration: real, rate: real)
    requires !LabelHidden(playing, ready, ScaledDuration(duration, rate)) && rate != 0.0
    ensures !playing && ready && duration != 0.0
    ensures var t := Label(ScaledDuration(duration, rate));
            |t| >= 4 && t[|t| - 4..] == " sec"
  {
  }

  /** At rate 0 a positive duration scales to +Infinity, which is truthy:
      the label is shown, but its text is empty. */
  lemma ZeroRateShowsEmptyLabel(duration: real)
    requires duration > 0.0
    ensures !LabelHidden(false, true, ScaledDuration(duration, 0.0))
    ensures Label(ScaledDuration(duration, 0.0)) == ""
  {
  }

  // ---------------------------------------------------------------------
  // SoundButton
  // ---------------------------------------------------------------------

  /** The volume control: the local volume state. */
  class SoundButton {
    var volume: real

    /** Mounted with the player's volume. */
    constructor (player: Player)
      ensures volume == player.readout.volume
    {
      volume := player.readout.volume / 1.0;
    }

    /** The slider reports `slider` (0..100): the player's volume and the
        local one both become `slider / 100`, which lies in [0, 1] for a
        slider in its range and scales back to the slider's position. */
    method OnChange(slider: real, player: Player) returns (calls: seq<EventCall>)
      requires player.Valid()
      modifies this, player
      ensures player.Valid() && player.log == old(player.log) + [Volume(slider / 100.0)]
      ensures player.readout == old(player.readout)
      ensures volume == slider / 100.0
      ensures 0.0 <= slider <= 100.0 ==> 0.0 <= volume <= 1.0 && volume * 100.0 == slider
      ensures calls == [Handler, StopPropagation, PreventDefault]
    {
      var v := slider / 100.0;
      player.Issue(Volume(v));
      volume := v;
      calls := [Handler, StopPropagation, PreventDefault];
    }
  }
}
