# Radio player: playback controller and sleep timer

A Dafny model of the two pieces of decision logic in a small React internet-radio player.

- **Playback controller** (`src/AudioContext.jsx`, module `AudioContext`). One provider owns:
  - the current radio, the playing flag, the track title, the duration and the position;
  - one audio element.
  
  It has three actions:
  - `playRadio` rebinds the element's source only for a radio with a different id, then always requests play.
  - `togglePlay` pauses when playing, plays when a radio is selected, and otherwise does nothing.
  - `seek` stores a position on the element.
  
  The element's events (`play`, `pause`, `durationchange`, `timeupdate`, `metadata`) are the only writers of the playing flag, the title, the duration and the position.
- **Sleep timer and time formatting** (`src/components/RadioPlayer.jsx`, module `RadioPlayer`).
  - A timer state 0/1/2 (off, 30 min, 60 min) and a countdown in seconds.
  - A click cycles the state and restarts the countdown at 0, 1800 or 3600.
  - A once-per-second tick runs only while the countdown is positive and audio is playing. It decrements the countdown. At 1 or less it zeroes the countdown, turns the timer off and calls `togglePlay` once, which requests a pause.
  - `formatTime` renders minutes:seconds. `getTimerIcon` maps the state to one of three icons.

Each module has the same shape:
- Pure step functions give the specification: `PlayRadioStep`, `TogglePlayStep`, `SeekStep`, `EventStep`, `ClickStep`, `TickStep` and `PlayerTick`.
- Classes model the objects the source updates in place: `AudioElement`, `AudioProvider` and `RadioPlayer`. Each method's postcondition ties the object's new abstract state to the step function applied to its old state.
- Lemmas state the multi-step properties over traces of inputs and sequences of ticks or clicks. Examples: the playing flag is always the value of the last play/pause event; a 30-minute timer under continuous playback ends after exactly 1800 ticks with exactly one pause request.

The audio element is abstract. It records:
- its source;
- its position and reported duration;
- the log of `play()`/`pause()` requests it received.

Whether a play request succeeds is modelled by whether a play event is later delivered. Ticks and events are explicit method calls. Time is in whole seconds.

`decimal.dfy` (module `Decimal`) renders whole numbers in plain decimal digits, as a template literal does for whole numbers below 10^21, and reads such a rendering back. `wrappers.dfy` holds `Option`.

The model follows the code as written:
- The code has no wall-clock deadline. The timer is an integer countdown decremented by each tick.
- The code does not clamp `seek`. It stores whatever position it is given.
- The code has no genre or search filter. The station list is rendered unfiltered.
- The expiry tick has no separate "only if playing" guard. The interval runs only while playing, so the `togglePlay` it calls always pauses.

## Model

| member | source | states |
|---|---|---|
| `Decimal.Digits` | src/components/RadioPlayer.jsx:80 | the rendering of a whole number is a non-empty digit string with no leading zero; one digit below 10, two digits from 10 to 99 |
| `Decimal.ValueOfDigits` | src/components/RadioPlayer.jsx:80 | reading a rendering back gives the number rendered |
| `Decimal.ValueOfZeroPadded` | src/components/RadioPlayer.jsx:80 | a seconds value below 10 padded with one `0` still reads back as itself |
| `RadioPlayer.FormatTime` | src/components/RadioPlayer.jsx:77-81 | the result has at least four characters and a colon third from the end |
| `RadioPlayer.FormatTimeFields` | src/components/RadioPlayer.jsx:77-81 | the minutes field is a canonical decimal; the seconds field is exactly two digits with value below 60; minutes·60 + seconds = the time |
| `RadioPlayer.FormatTimeInjective` | src/components/RadioPlayer.jsx:77-81 | two different times never render to the same string |
| `RadioPlayer.TimerIconFor` | src/components/RadioPlayer.jsx:159-165 | the 30-min icon exactly for state 1, the 60-min icon exactly for state 2, the off icon for every other value |
| `RadioPlayer.NextTimerState` | src/components/RadioPlayer.jsx:94-95 | `(timerState + 1) % 3` as JavaScript computes it: the Euclidean remainder when the sum is non-negative; 0 or the Euclidean remainder minus 3 when it is negative |
| `RadioPlayer.NegativeStateTakesDefault` | src/components/RadioPlayer.jsx:95-108 | a negative state can reach the switch's `default` branch: from −8 the next state is −1 and the countdown is 0 |
| `RadioPlayer.JsRemainder` | src/components/RadioPlayer.jsx:94-95 | JavaScript `%` with a positive divisor: strictly between −n and n; equal to the Euclidean remainder for a non-negative dividend; never positive for a negative one |
| `RadioPlayer.CountdownFor` | src/components/RadioPlayer.jsx:95-109 | the countdown a click starts equals the minutes on the icon of the new state times 60 (1800, 3600 or 0, and 0 in the default branch) |
| `RadioPlayer.ClickStep` | src/components/RadioPlayer.jsx:93-110 | from a non-negative state the new state is (state + 1) mod 3 in 0..2; the countdown is 1800 / 3600 / 0 for new state 1 / 2 / 0 whatever it was before; the timer invariant holds afterwards |
| `RadioPlayer.TickStep` | src/components/RadioPlayer.jsx:114-124 | no change and no stop unless countdown > 0 and playing; above 1, decrement by exactly 1, same state, no stop; at 1 or less, off with countdown 0 and one stop; the timer invariant is preserved |
| `RadioPlayer.ClicksCycle` | src/components/RadioPlayer.jsx:94 | n clicks reach state (s + n) mod 3 with its fresh countdown; every multiple of three clicks returns to the starting state |
| `RadioPlayer.ClickSequenceFromOff` | src/components/RadioPlayer.jsx:93-110 | from off: one click gives (1, 1800) and the 30-min icon, two give (2, 3600) and the 60-min icon, three give off again |
| `RadioPlayer.OffNeverStops` | src/components/RadioPlayer.jsx:114 | a timer that is off never stops playback on a tick and is left unchanged |
| `RadioPlayer.IconBoundsCountdown` | src/components/RadioPlayer.jsx:159-165 | under the timer invariant the icon's minutes are never less than the time left, and the icon is "off" exactly when nothing is left |
| `RadioPlayer.PlayerTick` | src/components/RadioPlayer.jsx:114-124 | a tick never changes the playing flag; when not playing it changes nothing at all |
| `RadioPlayer.PausedTicksFreeze` | src/components/RadioPlayer.jsx:114 | any number of ticks while paused leaves timer and playback unchanged |
| `RadioPlayer.TicksBeforeExpiry` | src/components/RadioPlayer.jsx:116-123 | k ticks with k below the countdown take exactly k seconds off, keep the state and leave playback untouched |
| `RadioPlayer.TicksAfterExpiry` | src/components/RadioPlayer.jsx:114-121 | once off with countdown 0, ticks do nothing, so no second stop can fire |
| `RadioPlayer.TicksToExpiry` | src/components/RadioPlayer.jsx:114-124 | with playback running, as many ticks as the countdown (or more) turn the timer off and apply `togglePlay` exactly once, adding exactly one pause request |
| `RadioPlayer.ThirtyMinuteTimer` | src/components/RadioPlayer.jsx:95-125 | from (1, 1800) while playing, 1799 ticks leave (1, 1) with playback untouched; 1800 ticks reach off with exactly one added pause request |
| `RadioPlayer.RadioPlayer.constructor` | src/components/RadioPlayer.jsx:85-86 | the panel starts with timer state 0 and countdown 0, which satisfies the invariant |
| `RadioPlayer.RadioPlayer.HandleTimerClick` | src/components/RadioPlayer.jsx:93-110 | the new timer is `ClickStep` of the old one; the invariant is preserved |
| `RadioPlayer.RadioPlayer.Tick` | src/components/RadioPlayer.jsx:112-128 | the new timer and controller state are `PlayerTick` of the old ones, with the expiry calling the controller's `TogglePlay`; the invariants are preserved |
| `AudioContext.PlayRadioStep` | src/AudioContext.jsx:45-51 | same id: radio and source unchanged (no reload); different id or no radio: source := the stream URL and radio := the argument; always exactly one added play request; event-derived fields untouched |
| `AudioContext.TogglePlayStep` | src/AudioContext.jsx:53-59 | playing: exactly one pause request and no play request; not playing with a radio: exactly one play request; no radio and not playing: nothing changes at all; never sets the playing flag |
| `AudioContext.SeekStep` | src/AudioContext.jsx:61-63 | the element's position becomes the requested value, unchecked; nothing else changes |
| `AudioContext.EventStep` | src/AudioContext.jsx:17-28 | play/pause set the playing flag true/false; durationchange and timeupdate copy the element's duration/position; a metadata event sets the title only for type `'metadata'` with a non-empty title, otherwise no change; the element and the radio are never touched |
| `AudioContext.Step` | src/AudioContext.jsx:17-63 | actions never change the event-derived fields; events never touch the element or the radio; each input adds at most one request and never removes one |
| `AudioContext.IsPlayingFollowsEvents` | src/AudioContext.jsx:17-18 | after any trace, the playing flag equals the value of the last play/pause event, or the initial value if there was none |
| `AudioContext.NoPlayEventFlag` | src/AudioContext.jsx:17-18 | a trace with no play event can never make the last play/pause value true unless it started true |
| `AudioContext.RejectedPlayStaysStopped` | src/AudioContext.jsx:50-57 | starting stopped, a trace without a play event (every play request rejected) ends stopped |
| `AudioContext.TrackFollowsMetadata` | src/AudioContext.jsx:21-27 | after any trace, the title is the last title carried by a `'metadata'` event with a non-empty title, or the initial title |
| `AudioContext.RunKeepsConsistent` | src/AudioContext.jsx:45-59 | across any trace, every play request in the log was issued with a radio selected, and a selected radio is never cleared |
| `AudioContext.RequestsPerInput` | src/AudioContext.jsx:45-63 | across any trace the request log only grows, by at most one request per input |
| `AudioContext.PlayRadioIdempotent` | src/AudioContext.jsx:46-50 | selecting the same radio twice rebinds once at most: radio and source after the second call equal those after the first, with two play requests in all |
| `AudioContext.SeekThenTimeUpdate` | src/AudioContext.jsx:20-63 | a seek followed by a time-update event makes the reported position the requested one |
| `AudioContext.SelectThenPlay` | src/AudioContext.jsx:7-51 | from the initial state, selecting a radio and then receiving the play event gives that radio, playing, its stream as source and exactly one play request |
| `AudioContext.AudioElement.constructor` | src/AudioContext.jsx:12 | a fresh element has no source, position 0, duration 0 and no request |
| `AudioContext.AudioElement.Play` | src/AudioContext.jsx:50 | appends one play request and changes nothing else |
| `AudioContext.AudioElement.Pause` | src/AudioContext.jsx:55 | appends one pause request and changes nothing else |
| `AudioContext.AudioProvider.constructor` | src/AudioContext.jsx:7-12 | starts with no radio, not playing, empty title, duration 0, position 0 and a fresh element |
| `AudioContext.AudioProvider.PlayRadio` | src/AudioContext.jsx:45-51 | the new state is `PlayRadioStep` of the old one |
| `AudioContext.AudioProvider.TogglePlay` | src/AudioContext.jsx:53-59 | the new state is `TogglePlayStep` of the old one |
| `AudioContext.AudioProvider.Seek` | src/AudioContext.jsx:61-63 | the new state is `SeekStep` of the old one |
| `AudioContext.AudioProvider.HandlePlay` | src/AudioContext.jsx:17 | the new state is the old one with the playing flag true |
| `AudioContext.AudioProvider.HandlePause` | src/AudioContext.jsx:18 | the new state is the old one with the playing flag false |
| `AudioContext.AudioProvider.HandleDurationChange` | src/AudioContext.jsx:19 | the duration becomes the element's duration; nothing else changes |
| `AudioContext.AudioProvider.HandleTimeUpdate` | src/AudioContext.jsx:20 | the position becomes the element's position; nothing else changes |
| `AudioContext.AudioProvider.HandleMetadata` | src/AudioContext.jsx:21-28 | the title changes only for a `'metadata'` event with a non-empty title |

## Left out

- Rendering is not modelled: JSX, inline styles, the SVG icon bodies, the MUI `Slider`, `useTheme` and `handleSliderChange`. `handleSliderChange` only forwards to `seek`, and the slider is never shown because `isMP3WithDuration` is `false`.
- `RadioList` is not modelled. It only renders the list, or a message when the list is empty.
- `handleDownload` and the download button are not modelled. They manipulate the DOM, and `isDownloadable` is always `false`.
- The browser's audio element is not modelled. This covers:
  - the promise returned by `play()` and its logging;
  - the media load algorithm that assigning `src` starts (for example, resetting the position);
  - the browser's own updates of `currentTime` and `duration` during playback.
  
  The element is an abstract record of source, position, reported duration and requests. Events are delivered by calling the handlers.
- `setInterval`/`clearInterval`, effect re-runs and cleanup, and listener registration are not modelled. A tick is an explicit call to `RadioPlayer.Tick`, and it does nothing when the effect would not have started the interval.
- React context wiring (`createContext`, `useAudio`) and `src/App.jsx` are not modelled. They are composition only.
- `RadioPlayer.FormatTime`: defined on whole, non-negative seconds only. Fractional, negative, `NaN` or infinite times, which `Math.floor` and JavaScript `%` would render differently, are not modelled.
- `RadioPlayer.FormatTime`: prints every minutes value in plain digits. JavaScript switches to exponent form from 10^21 (`${1e21}` is `"1e+21"`), and it cannot hold integer times above 2^53 exactly. The model covers neither.
- `RadioPlayer.JsRemainder`: for a negative dividend, its general contract only bounds the result to (−n, 0]. The exact value for the one divisor used, 3, is stated on `RadioPlayer.NextTimerState`.
- The ticks assume the interval fires once a second. In the code the effect at src/components/RadioPlayer.jsx:112-128 depends on `togglePlay`. The provider creates a new `togglePlay` on every render, and every `timeupdate` event causes such a render. So while a stream plays, the interval may be torn down and restarted before its first second passes. If so, the countdown would never advance. This comes from reading the code; it was not executed. The model does not capture it.
- Durations and positions are whole seconds (`int`) rather than floating point. A fresh element's duration is 0 rather than `NaN`.
- `handleTimerClick` reads `timerState` from the render closure but updates it through a functional setter. The model is sequential, so both refer to the one current state. Two clicks handled within one render, where they could disagree, are not modelled.
- The tick calls `togglePlay` inside a state-updater function. React's development mode may run such an updater twice. The model runs each updater exactly once.
- A `'metadata'` event without a `detail` makes the handler throw before any state change. The model represents it as an event with no title, which also changes nothing.
- The model does not state "playing implies a radio is selected". Event delivery is external, so a play event arriving with no radio selected is not excluded. `AudioContext.RunKeepsConsistent` states the part the code guarantees: every play request is issued with a radio selected.
