# Video overlay control logic, in Dafny

This project models the control logic of a React overlay for a video.js
player, without the engine, the DOM or the markup. The overlay is the
`Video` shell, the `Controls` bar with its progress bar, tooltips, speed
menu and comment bar, and the buttons. The model covers:

- **Time formatting** (`util.ts`). `getTimeComponents` splits seconds
  into s/m/h plus the guide's minutes and hours. `formatTime` renders the
  clock form (`m:ss`, `h:mm:ss`) and `formatDuration` the long form
  (`Xhour(s) mm min ss sec`). Each has a parser that reads the text back
  to the whole number of seconds. This holds for every guide and every
  value other than NaN and +Infinity (for those the text is `""`); a
  negative value reads back as 0.
- **Track geometry** (`util.ts`). `clamp`, `percentify` and `offsetLeft`
  are modelled on JavaScript numbers: exact reals plus NaN and the two
  infinities, where the code branches on them. `createStopEvent` is
  modelled as the sequence of calls it makes.
- **The pointer throttle** (`useThrottle`). A pure state machine:
  `Mount`, `Supply` (a new value at time `now`) and `Fired` (the timer
  runs). Lemmas cover traces of such events. The class `ThrottledValue`
  keeps that state in fields.
- **Tooltips, the progress bar, the speed menu, the comment bar and the
  `Controls` component.** These are classes whose fields are the
  component's state and whose methods are the handlers and effects. The
  pure parts are functions: rewind and forward targets, the render
  flags, key outcomes, marker placement and the fill widths.
- **Reactions** (`types.ts`): the union type and its two predicates.
- **The `Video` shell** (`index.tsx`). A class with the shell's state; the
  video.js player is a `Player` object that holds the readings the overlay
  takes and the log of commands it issues.

Times and pixel sizes are exact reals. Calls on DOM events are recorded as
`Handler`, `StopPropagation` and `PreventDefault`, in the order made.

## Model

| member | source | states |
|---|---|---|
| TimeFormat.TimeComponents | src/components/video/util.ts:8-22 | for a value that is not NaN or +Infinity, with `n` its floor clamped at 0: `s = n mod 60`, `m = (n div 60) mod 60`, `h = n div 3600`; the guide's components come from the unclamped guide |
| TimeFormat.ClampedComponents | src/components/video/util.ts:10-14 | for `x >= 0` the floating `%`, `/` and `Math.floor` steps give `floor(x) mod 60`, `(floor(x) div 60) mod 60` and `floor(x) div 3600` |
| TimeFormat.Decomposition | src/components/video/util.ts:10-12 | for `x >= 0`, `s` and `m` lie in [0, 59] and `h*3600 + m*60 + s == floor(x)` |
| TimeFormat.NegativeGuideComponents | src/components/video/util.ts:13-14 | a negative guide is not clamped: its hours are negative, so not `> 0`, and its minutes are not `>= 10` |
| TimeFormat.DecimalRoundTrip | src/components/video/util.ts:35-44 | the decimal text of each component reads back to the component |
| TimeFormat.LeadingZero | src/components/video/util.ts:39-42 | a `"0"` pad in front of digits does not change the number they spell |
| TimeFormat.ClockLayout | src/components/video/util.ts:24-44 | no layout exactly for NaN or +Infinity; otherwise the fields are in range and add up to the clamped whole seconds |
| TimeFormat.LayoutOfWholeSeconds | src/components/video/util.ts:35-39 | for non-negative value and guide: hours shown iff `h > 0 || gh > 0`; minutes padded iff `(h != 0 || gm >= 10) && m < 10` |
| TimeFormat.ShortForm | src/components/video/util.ts:35-44 | the clock text always ends in `:` and two digits of seconds |
| TimeFormat.FormatTime | src/components/video/util.ts:24-45 | `""` exactly for NaN or +Infinity; otherwise it ends in `:ss` |
| TimeFormat.ShortFormRoundTrip | src/components/video/util.ts:35-44 | parsing the clock text of any well-formed layout gives `h*3600 + m*60 + s` |
| TimeFormat.FormatTimeRoundTrip | src/components/video/util.ts:24-45 | for any valid value and any guide, parsing `formatTime` gives back the clamped whole seconds |
| TimeFormat.HourWord | src/components/video/util.ts:57 | the hour word is `hour` or `hours` |
| TimeFormat.HourTokenOf | src/components/video/util.ts:57 | the hour token has no space and reads back to the hours |
| TimeFormat.LongForm | src/components/video/util.ts:55-66 | the long text always ends in `" sec"` |
| TimeFormat.FormatDuration | src/components/video/util.ts:47-67 | `""` exactly for NaN or +Infinity; otherwise it ends in `" sec"` |
| TimeFormat.LongFormRoundTripHours | src/components/video/util.ts:57-66 | with hours shown, parsing the long text gives `h*3600 + m*60 + s` |
| TimeFormat.LongFormRoundTrip | src/components/video/util.ts:57-66 | parsing the long text of any well-formed layout gives `h*3600 + m*60 + s` |
| TimeFormat.FormatDurationRoundTrip | src/components/video/util.ts:47-67 | for any valid value and any guide, parsing `formatDuration` gives back the clamped whole seconds |
| TimeFormat.NegativeSecondsAsZero | src/components/video/util.ts:9 | a negative value formats as 0 would, in both forms, with the same guide |
| TimeFormat.GuideComparisonsDecide | src/components/video/util.ts:35-39 | the guide matters only through `gh > 0` and `gm >= 10` |
| TimeFormat.NegativeGuideAsZero | src/components/video/util.ts:13-14 | a negative guide stays negative, yet it formats as a zero guide would, in both forms |
| TimeFormat.ShortFormMinutes | src/components/video/util.ts:35-44 | `formatTime(65)` is `"1:05"` (any value in [65, 66)) |
| TimeFormat.ShortFormHours | src/components/video/util.ts:35-44 | `formatTime(3665)` is `"1:01:05"` (any value in [3665, 3666)) |
| TimeFormat.UnderOneSecond | src/components/video/util.ts:35-44 | a value in [0, 1) formats as `"0:00"` |
| TimeFormat.ShortFormEdges | src/components/video/util.ts:9-31 | `formatTime(-5)` is `"0:00"`; NaN and +Infinity give `""` |
| TimeFormat.MinutePaddingIgnoresGuideHours | src/components/video/util.ts:39 | `formatTime(65, 3600)` is `"0:1:05"`: the hour field shows, but the minutes are not padded, because padding looks at the value's hours and not the guide's |
| TimeFormat.LongFormHead | src/components/video/util.ts:57 | with hours shown, the long text starts with `h + "hours "` when `h > 1` and `h + "hour "` otherwise |
| TimeFormat.DurationHourWord | src/components/video/util.ts:47-66 | for a value of at least 3600 s, `formatDuration` starts with the hour segment and the right word |
| TrackGeometry.Clamp | src/components/video/util.ts:69-71 | the result lies in [min, max]; NaN and -Infinity give min; +Infinity and values above max give max; a value in range is kept |
| TrackGeometry.Percent | src/components/video/util.ts:73-75 | the fill percentage lies in [0, 100] |
| TrackGeometry.PercentExact | src/components/video/util.ts:73-75 | with `end > 0` and `0 <= time <= end` it is exactly `time / end * 100` |
| TrackGeometry.PercentOfZeroEnd | src/components/video/util.ts:73-75 | over an end of 0: 0/0 gives 0, a positive time gives 100, a negative one gives 0 |
| TrackGeometry.PercentMonotonic | src/components/video/util.ts:73-75 | with `end > 0` the percentage never decreases as time grows |
| TrackGeometry.OffsetLeft | src/components/video/util.ts:77-79 | the offset is a finite number whenever `end != 0` |
| TrackGeometry.OffsetLinear | src/components/video/util.ts:77-79 | the offset is 0 at time 0, `width` at time `end`, and additive in time |
| TrackGeometry.OffsetMonotonic | src/components/video/util.ts:77-79 | with positive end and width, a later time never gets a smaller offset |
| TrackGeometry.OffsetExample | src/components/video/util.ts:77-79 | 60 s of 120 s on a 300 px track sits at 150 px |
| StopEvent.CreateStopEvent | src/components/video/util.ts:81-89 | the wrapped handler makes the handler's calls first, then `stopPropagation`, then `preventDefault` |
| StopEvent.StopsExactlyOnce | src/components/video/util.ts:81-89 | for a handler that does not stop the event itself, the wrapper stops it once and prevents the default once, and the handler runs as often as before |
| Throttle.Mount | src/components/video/controls.tsx:12-30 | on mount the throttled value is the initial value, nothing is recorded, and a commit of that value is due one interval later |
| Throttle.Supply | src/components/video/controls.tsx:16-30 | a new value commits at once and records `now` when a truthy time is recorded and `now >= recorded + interval`; otherwise it replaces any pending commit with one due a full interval later, stamped with its arrival time |
| Throttle.Fired | src/components/video/controls.tsx:23-26 | a due timer commits its value, records the arrival stamp rather than the firing time, and clears the timer; otherwise nothing changes |
| Throttle.MountInv | src/components/video/controls.tsx:12-30 | the throttle invariant holds on mount |
| Throttle.SupplyInv | src/components/video/controls.tsx:16-30 | a new value keeps the invariant |
| Throttle.FireInv | src/components/video/controls.tsx:23-26 | a firing keeps the invariant |
| Throttle.RunInv | src/components/video/controls.tsx:16-30 | every trace of values and ticks keeps the invariant |
| Throttle.RunHoldsOnly | src/components/video/controls.tsx:16-30 | after any trace, the committed and pending values are among the values supplied so far |
| Throttle.ValueWasSupplied | src/components/video/controls.tsx:16-30 | the throttled value is always some value that was supplied |
| Throttle.SettledStays | src/components/video/controls.tsx:16-30 | with no timer pending and no new value, nothing changes |
| Throttle.Converges | src/components/video/controls.tsx:16-30 | with no new value and a tick at or after the pending due time, the throttled value becomes the latest value and no timer stays pending |
| Throttle.ConvergesAfterArrival | src/components/video/controls.tsx:16-30 | a value that arrives at `at` is the throttled value once a tick comes at or after `at + interval` |
| Throttle.WaitsFullInterval | src/components/video/controls.tsx:23-26 | a deferred value does not commit before a full interval after its arrival, whatever ticks come |
| Throttle.NewerInputCancels | src/components/video/controls.tsx:28 | a newer value cancels the pending commit of an older one |
| Throttle.ZeroStampDefers | src/components/video/controls.tsx:19 | a recorded time of 0 is falsy, so the next value is deferred |
| Throttle.TimingExample | src/components/video/controls.tsx:16-30 | with interval 200: a value at 1100 is held until the timer fires at 1300 and records 1100; a value at 1350 then commits at once |
| Throttle.ThrottledValue.constructor | src/components/video/controls.tsx:12-14 | the fields start in the `Mount` state |
| Throttle.ThrottledValue.Set | src/components/video/controls.tsx:16-30 | the fields move to `Supply` of the old state |
| Throttle.ThrottledValue.Fire | src/components/video/controls.tsx:23-26 | the fields move to `Fired` of the old state |
| Reactions.EmojiReaction | src/components/video/types.ts:1-18 | a reaction built with only an emoji is well formed, an emoji reaction, and not a comment reaction |
| Reactions.CommentReaction | src/components/video/types.ts:5-22 | a reaction built with only a comment is well formed, a comment reaction, and not an emoji reaction |
| Reactions.Partition | src/components/video/types.ts:14-22 | every well-formed reaction is an emoji or a comment reaction; a missing payload decides which one |
| Reactions.PredicatesIgnoreBase | src/components/video/types.ts:16-22 | the predicates do not depend on `id` or `time` |
| Tooltips.PositionX | src/components/video/tooltip.tsx:44 | the box is centred on the anchor, shifted by `offsetX`, when its width is known; otherwise its left edge is at anchor + `offsetX` |
| Tooltips.PositionY | src/components/video/tooltip.tsx:45 | the box's bottom edge plus `offsetY` is at the anchor |
| Tooltips.PositionFollowsPointer | src/components/video/tooltip.tsx:44-45 | moving the pointer moves the box by the same amount |
| Tooltips.Visible | src/components/video/tooltip.tsx:82 | the box is visible iff `(show || force === true) && !hidden` |
| Tooltips.VisibleCases | src/components/video/tooltip.tsx:82 | `hidden` hides the box; otherwise `force === true` shows it; otherwise it shows iff `show` |
| Tooltips.Tooltip.constructor | src/components/video/tooltip.tsx:17-21 | hidden, no listeners, and both coordinate throttles mounted at 0 with the 200 ms interval |
| Tooltips.Tooltip.Attach | src/components/video/tooltip.tsx:33-61 | with a target: tracking mode adds the three listeners; manual mode adds none and supplies the rectangle position to the throttles; without a target nothing changes |
| Tooltips.Tooltip.Cleanup | src/components/video/tooltip.tsx:62-69 | removes the three listeners only in tracking mode with a target; otherwise nothing changes |
| Tooltips.Tooltip.AttachThenCleanup | src/components/video/tooltip.tsx:33-69 | an effect run followed by its cleanup, with the target present, leaves exactly the listeners there were before, in both modes; in tracking mode the positions are untouched |
| Tooltips.Tooltip.OnMouseMove | src/components/video/tooltip.tsx:40-47 | the pointer position is supplied to the throttles; `onOver` runs when present, then the event is stopped and its default prevented |
| Tooltips.Tooltip.OnMouseOver | src/components/video/tooltip.tsx:48 | sets `show` and stops the event |
| Tooltips.Tooltip.OnMouseOut | src/components/video/tooltip.tsx:49 | clears `show` and stops the event |
| Tooltips.Tooltip.Tick | src/components/video/tooltip.tsx:20-21 | both throttles fire at `now` |
| ProgressBar.PointerTime | src/components/video/progressbar.tsx:35-41 | a hover time exists exactly when `pageX` and the width are both nonzero |
| ProgressBar.PointerTimeInvertsOffset | src/components/video/progressbar.tsx:35-41 | the time read at a marker's offset is the marker's time |
| ProgressBar.OffsetInvertsPointerTime | src/components/video/progressbar.tsx:35-41 | the offset of the time read at `pageX` is `pageX` |
| ProgressBar.PointerTimeWithinMedia | src/components/video/progressbar.tsx:35-41 | a page coordinate `pageX` in (0, width] reads a time in [0, duration]; the coordinate is not made relative to the track's left edge |
| ProgressBar.Scrubber.OnMouse | src/components/video/progressbar.tsx:35-41 | under the guard the hover time becomes `pageX / width * duration`; otherwise it stays |
| ProgressBar.OnClick | src/components/video/progressbar.tsx:42-48 | under the guard exactly one seek, to the same time; otherwise none; the wrapped copy always stops the event, the inline copy only under the guard |
| ProgressBar.Markers | src/components/video/progressbar.tsx:65-89 | no markers before the track exists; then one per reaction, in order, keyed by `id`, at `offsetLeft(time, duration, width)`, carrying the emoji exactly for emoji reactions |
| ProgressBar.MarkersInOrder | src/components/video/progressbar.tsx:65-89 | reactions in time order give markers in left-to-right order |
| ProgressBar.MarkerKeysDistinct | src/components/video/progressbar.tsx:65-89 | distinct reaction ids give distinct marker keys |
| ProgressBar.Render | src/components/video/progressbar.tsx:49-112 | nothing when hidden; otherwise the markers, the buffered and played fills as `percentify` of their times, and the tooltip text `formatTime(hoverTime)` |
| ProgressBar.PlayedWithinBuffered | src/components/video/progressbar.tsx:97-108 | the played fill never exceeds the buffered fill when the time has not passed the buffered end |
| ProgressBar.TooltipReadsBack | src/components/video/progressbar.tsx:110-112 | the tooltip text reads back to the whole seconds of the hover time |
| Buttons.PlaybackMenu.constructor | src/components/video/buttons.tsx:259-272 | the menu starts closed with the given rate |
| Buttons.PlaybackMenu.OnClick | src/components/video/buttons.tsx:273-277 | a click on the readout toggles `show`, keeps the rate, and stops the event |
| Buttons.PlaybackMenu.Select | src/components/video/buttons.tsx:279-283 | selecting `r` issues one `playbackRate(r)`, sets the local rate to `r` and closes the menu |
| Buttons.Highlights | src/components/video/buttons.tsx:304-308 | one flag per entry, set exactly where the entry equals the current rate |
| Buttons.ExactlyOneHighlighted | src/components/video/buttons.tsx:304-308 | among distinct rates that include the current one, exactly one entry is highlighted |
| Buttons.NormalSpeedHighlight | src/components/video/index.tsx:28 | at the default rates and speed 1, only the second entry is highlighted |
| Buttons.ScaledDuration | src/components/video/index.tsx:119 | the label duration is `duration / playbackRate` for a nonzero rate |
| Buttons.Label | src/components/video/buttons.tsx:383 | the label is empty exactly for NaN or +Infinity |
| Buttons.LabelHidden | src/components/video/buttons.tsx:380 | the label is hidden iff `playing || !ready || !duration`, where a duration of 0 or NaN is falsy |
| Buttons.ShowsPauseIcon | src/components/video/buttons.tsx:349-375 | the pause glyph is drawn iff `playing`, the play glyph otherwise |
| Buttons.ZeroDurationHidesLabel | src/components/video/buttons.tsx:380 | a zero duration hides the label at every rate, 0/0 (NaN) included |
| Buttons.LabelShown | src/components/video/buttons.tsx:349-383 | for a nonzero rate, a shown label means paused, ready and a nonzero duration, and its text ends in `" sec"` |
| Buttons.ZeroRateShowsEmptyLabel | src/components/video/buttons.tsx:380-383 | at rate 0 a positive duration scales to +Infinity, which is truthy, so the label is shown with the empty text |
| Buttons.SoundButton.constructor | src/components/video/buttons.tsx:184 | the local volume starts at the player's volume |
| Buttons.SoundButton.OnChange | src/components/video/buttons.tsx:185-189 | slider value `v` sets the player's volume and the local one to `v / 100`; for `v` in [0, 100] that volume lies in [0, 1] and scales back to `v` |
| Controls.RewindTarget | src/components/video/controls.tsx:759-775 | without a truthy live `seekableStart`: `max(0, t-5)`; with one and `t-5 <= seekableStart`: `seekableStart`; never below a truthy `seekableStart` |
| Controls.RewindClamps | src/components/video/controls.tsx:759-775 | with a positive live start, rewind is `max(bound, t-5)`, where bound is that start, or 0 when there is none |
| Controls.ZeroLiveStartIgnored | src/components/video/controls.tsx:762-765 | a live start of 0 is falsy, and rewind then acts as on a non-live stream |
| Controls.ForwardTarget | src/components/video/controls.tsx:781-797 | forward seeks to `min(t+5, end)`, where `end` is `seekableEnd` when live and `duration` otherwise |
| Controls.ForwardFromPastEnd | src/components/video/controls.tsx:789-793 | a time already past `end` is pulled back to `end` |
| Controls.SkipsUndoEachOther | src/components/video/controls.tsx:759-797 | away from the bounds, forward then rewind, or rewind then forward, returns to the same time |
| Controls.CommentKey | src/components/video/controls.tsx:666-682 | Escape cancels and clears the text; Enter with text submits exactly that text and clears it; both prevent the default, then stop the event; any other key changes nothing |
| Controls.CommentKeyFacts | src/components/video/controls.tsx:666-682 | a submission is never empty; the text is cleared iff the key was acted on or the text was empty already |
| Controls.CommentBar.constructor | src/components/video/controls.tsx:665 | the text starts empty |
| Controls.CommentBar.OnChange | src/components/video/controls.tsx:694 | the text becomes the input's value |
| Controls.CommentBar.OnKey | src/components/video/controls.tsx:666-682 | outcome, new text and event calls are those of `CommentKey` on the old text |
| Controls.CommentBar.OnSubmitClick | src/components/video/controls.tsx:702 | the button submits the text when there is any, and does nothing otherwise |
| Controls.Render | src/components/video/controls.tsx:865-922 | nothing before ready; `hideControls == (!playing && duration == 0)`, `ended == (currentTime >= duration)`; Restart if ended, else Pause if playing, else Play; muted icon iff `muted && muteSupported`; progress hidden iff `hideProgress || hideControls` |
| Controls.FirstFrame | src/components/video/controls.tsx:736-742 | the first frame after ready, paused at zero duration, hides the controls and the progress bar and offers Restart |
| Controls.PlayingShowsControls | src/components/video/controls.tsx:868-881 | while playing the controls show, and the progress bar is hidden only by the speed menu |
| Controls.LastMutedOverrides | src/components/video/controls.tsx:804-815 | after a mute call, other commands do not change the muted state the log implies |
| Controls.Controls.constructor | src/components/video/controls.tsx:736-742 | zeros, closed bars, unmuted, the menu primed with the player's rate, the listener connected |
| Controls.Controls.ProgressHiddenWhileMenuOpen | src/components/video/controls.tsx:881 | the progress bar is hidden exactly while the speed menu is open or the controls are hidden |
| Controls.Controls.OnTimeUpdate | src/components/video/controls.tsx:743-758 | while connected, the time, buffered end and duration are read from the player; after cleanup, a late event changes nothing |
| Controls.Controls.Disconnect | src/components/video/controls.tsx:754-756 | cleanup sets the flag and changes nothing else |
| Controls.Controls.OnRewind | src/components/video/controls.tsx:759-775 | exactly one seek, to `RewindTarget`, then the event is stopped |
| Controls.Controls.OnForward | src/components/video/controls.tsx:781-797 | exactly one seek, to `ForwardTarget`, then the event is stopped |
| Controls.Controls.OnPause | src/components/video/controls.tsx:798-800 | one `pause()` |
| Controls.Controls.OnPlay | src/components/video/controls.tsx:801-803 | one `play()` |
| Controls.Controls.OnRestart | src/components/video/controls.tsx:826-829 | a seek to 0, then `play()` |
| Controls.Controls.OnMute | src/components/video/controls.tsx:810-815 | the player gets `muted(true)` and the local flag becomes true; the invariant ties the flag to the last mute call; the time, duration and buffered snapshot and the listener flag stay as they were |
| Controls.Controls.OnUnmute | src/components/video/controls.tsx:804-809 | the player gets `muted(false)` and the local flag becomes false; the time, duration and buffered snapshot and the listener flag stay as they were |
| Controls.Controls.ToggleComment | src/components/video/controls.tsx:776-780 | opening the comment bar issues one `pause()` and gives an empty bar; closing it issues nothing; the time, duration and buffered snapshot and the listener flag stay as they were |
| Controls.Controls.OnComment | src/components/video/controls.tsx:830-838 | exactly one comment reaction with the text, stamped with the player's current time, and the bar closes; the time, duration and buffered snapshot and the listener flag stay as they were |
| Controls.Controls.OnEmoji | src/components/video/controls.tsx:839-851 | exactly one emoji reaction stamped with the current time; the burst sits at `offsetLeft(time, duration, width) - 5` when the track exists |
| Controls.Controls.OnCommentKey | src/components/video/controls.tsx:666-682 | Escape closes the bar with no reaction; Enter with text emits one comment reaction of that text and closes the bar; other keys change nothing; the time, duration and buffered snapshot and the listener flag stay as they were |
| Controls.Controls.OnCancel | src/components/video/controls.tsx:888 | the bar closes; the mute flag, the progress flag, the bar, the time, duration and buffered snapshot and the listener flag stay as they were |
| Controls.Controls.OnRateClick | src/components/video/controls.tsx:428-433 | the menu toggles, and its open flag is forwarded to `hideProgress`; the time, duration and buffered snapshot and the listener flag stay as they were |
| Controls.Controls.OnSelectRate | src/components/video/controls.tsx:435-439 | one `playbackRate(r)`, the local rate becomes `r`, the menu closes and the progress bar is no longer hidden by it; the time, duration and buffered snapshot and the listener flag stay as they were |
| Video.MakeOptions | src/components/video/index.tsx:54-57 | the options carry the `autoplay` prop as given, the sources, and the default rates |
| Video.AutoplayDefaultOverridden | src/components/video/index.tsx:22-55 | without an `autoplay` prop the default `true` does not survive the spread |
| Video.Hotkey | src/components/video/index.tsx:30-39 | `k` issues `play()` on a paused player and `pause()` otherwise; other keys issue nothing |
| Video.Shell.constructor | src/components/video/index.tsx:45-52 | not ready, zero duration, rate 1, not playing, no reactions, no player |
| Video.Shell.ApplyOptions | src/components/video/index.tsx:59-83 | with no player and a container, a fresh player is created and the metadata listener set; with a player, exactly `autoplay` then `src` are re-applied; otherwise nothing happens |
| Video.Shell.OnLoadedMetadata | src/components/video/index.tsx:69-72 | the first event copies the duration and sets ready; the one-shot listener is then gone |
| Video.Shell.OnPlayEvent | src/components/video/index.tsx:76 | `playing` becomes true |
| Video.Shell.OnPauseEvent | src/components/video/index.tsx:77 | `playing` becomes false |
| Video.Shell.OnRateChange | src/components/video/index.tsx:73-75 | `playbackRate` becomes the player's rate |
| Video.Shell.OnClick | src/components/video/index.tsx:96-102 | `pause()` when playing, `play()` otherwise, nothing without a player; the event is then stopped |
| Video.Shell.OnReaction | src/components/video/index.tsx:104-105 | the list becomes the old list plus the new reaction |
| Video.AppendedIsConcat | src/components/video/index.tsx:104-105 | after any number of appends the list is the old list, unchanged and in order, followed by the new reactions |
| Video.Shell.Teardown | src/components/video/index.tsx:85-94 | a live, undisposed player is disposed once, and the handle, `ready` and the pending metadata listener are cleared; otherwise the handle, `ready`, the metadata flag and the kept player's log, readings and disposed flag stay as they were |
| Video.DisposedOnce | src/components/video/index.tsx:88-89 | a player's log holds at most one `dispose()` |

## Left out

- The video.js engine is a foreign library. It is modelled as `Engine.Player`: the readings the overlay takes plus a log of the commands it issues. `Advance` lets the environment change the readings. Playback, buffering and events are not modelled.
- The SVG icons and all markup are left out. So is `cn`/`twMerge`, which is a library call.
- DOM plumbing is left out. The model does not cover `addEventListener` mechanics, `getBoundingClientRect`, `offsetWidth` or fullscreen. Measured sizes and the presence of elements are parameters.
- The fullscreen flag is not modelled. It only chooses where the reaction bar and the `formatTime(currentTime) / formatTime(duration)` readout go.
- The emoji burst element, its fade and its removal timers are animation. Only its left offset is modelled.
- TrackGeometry.Percent: returns the clamped number, not the `toFixed(2) + "%"` string.
- The speed menu's `toFixed(1)` labels are not modelled.
- Times are exact reals, not IEEE doubles. Signed zero, rounding and overflow to Infinity are not modelled. NaN and the infinities are kept only where the code branches on them. Engine readings such as `duration` are finite reals, so a live stream's Infinity duration is not represented. Integers are rendered as plain decimal digits, whereas JavaScript writes integers of 10^21 and above in exponent form, which the parsers would not read back.
- Reaction ids are parameters. `randomUUID` freshness is assumed, not proved.
- React's scheduler is replaced by explicit method calls. Each handler and effect is one call, made when its dependencies change.
- The `[sources]` dependency of the options memo is not modelled. `ApplyOptions` is called with the options to apply.
- Changes of the throttle interval prop are not modelled. The interval is fixed when the throttle is created.
- The tooltip in tooltip.tsx imports `./useThrottle`, and that file is not part of this model. It is assumed to be the definition at controls.tsx:12-33.
- Buttons.SoundButton.OnChange: the slider value is taken as a number. The `+value` parse of its string is not modelled.
- The throttle commits a deferred value a full interval after it arrives, and stamps it with its arrival time. It does not shorten the wait by the time already elapsed since the last commit (controls.tsx:22-26).
- The inline progress bar in controls.tsx stops the click event only under its guard. The copy in progressbar.tsx wraps the handler with `createStopEvent` and always stops it. `ProgressBar.OnClick` covers both through its `wrapped` parameter.
- ProgressBar.PointerTimeWithinMedia: the hover and seek time divides the page coordinate `e.pageX` by the track width without subtracting the track's left edge. The model keeps that formula, so for a track offset from the page's left edge the time is shifted and can pass `duration` near the right end. The lemma covers only `0 < pageX <= width`.
- The `console.log` calls (controls.tsx:667, index.tsx:66) and the `onReady` callback passed to video.js (index.tsx:67) are left out. They are output and a callback into the embedding page, and they change no state of the overlay.
