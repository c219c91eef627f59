/**
 * The decision logic of the player panel in src/components/RadioPlayer.jsx:
 * the minutes:seconds rendering of a time, the timer icon, and the sleep
 * timer, a state 0 (off), 1 (30 min) or 2 (60 min) with a countdown in
 * seconds, advanced by clicks and by a once-per-second tick that runs only
 * while the countdown is positive and the audio is playing, and that stops
 * playback through togglePlay when the countdown runs out.
 */
module RadioPlayer {
  import Decimal
  import AudioContext

  // ---------------------------------------------------------------------
  // formatTime

  /**
   * `${Math.floor(time / 60)}:${seconds < 10 ? '0' : ''}${seconds}` for whole, non-negative seconds,
   * with the minutes always in plain digits (JavaScript does so below 10^21 minutes).
   */
  function FormatTime(time: nat): (r: string)
    ensures |r| >= 4 && r[|r| - 3] == ':'
  {
    var minutes := time / 60;
    var seconds := time % 60;
    Decimal.Digits(minutes) + ":" + (if seconds < 10 then "0" else "") + Decimal.Digits(seconds)
  }

  /**
   * The rendering is a canonical decimal minutes field, a colon and a
   * two-digit seconds field below 60, and the two fields give back the time.
   */
  lemma FormatTimeFields(time: nat)
    ensures var r := FormatTime(time);
            var minutes := r[..|r| - 3];
            var seconds := r[|r| - 2..];
            Decimal.AllDigits(minutes) && (|minutes| > 1 ==> minutes[0] != '0') &&
            Decimal.AllDigits(seconds) && |seconds| == 2 &&
            Decimal.Value(seconds) < 60 &&
            Decimal.Value(minutes) * 60 + Decimal.Value(seconds) == time
  {
    var r := FormatTime(time);
    var m := Decimal.Digits(time / 60);
    var pad := if time % 60 < 10 then "0" else "";
    var sec := pad + Decimal.Digits(time % 60);
    assert r == m + ":" + sec;
    assert r[..|r| - 3] == m;
    assert r[|r| - 2..] == sec;
    Decimal.ValueOfDigits(time / 60);
    if time % 60 < 10 {
      Decimal.ValueOfZeroPadded(time % 60);
    } else {
      Decimal.ValueOfDigits(time % 60);
    }
  }

  /** Two different times never render alike. */
  lemma FormatTimeInjective(a: nat, b: nat)
    requires FormatTime(a) == FormatTime(b)
    ensures a == b
  {
    FormatTimeFields(a);
    FormatTimeFields(b);
  }

  // ---------------------------------------------------------------------
  // getTimerIcon

  datatype TimerIcon = TimerOffIcon | Timer30Icon | Timer60Icon

  /** The icon shown for a timer state: 30 min for 1, 60 min for 2, off for any other value. */
  function TimerIconFor(timerState: int): (icon: TimerIcon)
    ensures icon == Timer30Icon <==> timerState == 1
    ensures icon == Timer60Icon <==> timerState == 2
    ensures icon == TimerOffIcon <==> timerState != 1 && timerState != 2
  {
    match timerState
    case 1 => Timer30Icon
    case 2 => Timer60Icon
    case _ => TimerOffIcon
  }

  /** The delay, in minutes, that an icon announces. */
  function IconMinutes(icon: TimerIcon): nat {
    match icon
    case TimerOffIcon => 0
    case Timer30Icon => 30
    case Timer60Icon => 60
  }

  // ---------------------------------------------------------------------
  // The sleep timer as values

  /** `timerState` and `remainingTime` of the panel. */
  datatype TimerStatus = TimerStatus(state: int, remaining: int)

  const TimerOff: TimerStatus := TimerStatus(0, 0)

  /** JavaScript's `%` on integers, which truncates toward zero. */
  function JsRemainder(a: int, n: int): (r: int)
    requires n > 0
    ensures -n < r < n
    ensures a >= 0 ==> r == a % n
    ensures a < 0 ==> r <= 0
  {
    if a >= 0 then a % n else -((-a) % n)
  }

  /** `(timerState + 1) % 3`: the Euclidean remainder for a non-negative sum, the truncated one below zero. */
  function NextTimerState(timerState: int): (next: int)
    ensures timerState + 1 >= 0 ==> next == (timerState + 1) % 3
    ensures timerState + 1 < 0 ==>
              next == (if (timerState + 1) % 3 == 0 then 0 else (timerState + 1) % 3 - 3)
  {
    JsRemainder(timerState + 1, 3)
  }

  /** The branch the switch of handleTimerClick takes for a negative state: -7 % 3 is -1 in JavaScript. */
  lemma NegativeStateTakesDefault()
    ensures NextTimerState(-8) == -1 && CountdownFor(NextTimerState(-8)) == 0
  {
  }

  /** The countdown a click starts for the state it moves to (the switch of handleTimerClick). */
  function CountdownFor(next: int): (seconds: nat)
    ensures seconds == IconMinutes(TimerIconFor(next)) * 60
  {
    match next
    case 1 => 30 * 60
    case 2 => 60 * 60
    case 0 => 0
    case _ => 0
  }

  /** The timer's invariant: a state in range, counting down exactly when on, never beyond its delay. */
  predicate TimerValid(t: TimerStatus) {
    0 <= t.state <= 2 && 0 <= t.remaining <= CountdownFor(t.state) &&
    (t.state != 0 <==> t.remaining > 0)
  }

  /** handleTimerClick: move to the next state and restart the countdown for it. */
  function ClickStep(t: TimerStatus): (r: TimerStatus)
    ensures 0 <= t.state ==> 0 <= r.state <= 2 && r.state == (t.state + 1) % 3
    ensures r.remaining == (if r.state == 1 then 1800 else if r.state == 2 then 3600 else 0)
    ensures 0 <= t.state ==> TimerValid(r)
  {
    var next := NextTimerState(t.state);
    TimerStatus(next, CountdownFor(next))
  }

  /** A tick's effect on the timer, and whether it calls togglePlay to stop playback. */
  datatype TickOutcome = TickOutcome(timer: TimerStatus, stop: bool)

  /** The interval callback, when the effect lets it run: `remainingTime > 0 && isPlaying`. */
  function TickStep(t: TimerStatus, isPlaying: bool): (r: TickOutcome)
    ensures !(t.remaining > 0 && isPlaying) ==> r == TickOutcome(t, false)
    ensures t.remaining > 1 && isPlaying ==>
              r.timer == TimerStatus(t.state, t.remaining - 1) && !r.stop
    ensures 0 < t.remaining <= 1 && isPlaying ==> r.timer == TimerOff && r.stop
    ensures TimerValid(t) ==> TimerValid(r.timer)
  {
    if t.remaining > 0 && isPlaying then
      if t.remaining <= 1 then TickOutcome(TimerOff, true)
      else TickOutcome(TimerStatus(t.state, t.remaining - 1), false)
    else TickOutcome(t, false)
  }

  /** `n` clicks in a row. */
  function Clicks(t: TimerStatus, n: nat): TimerStatus
    decreases n
  {
    if n == 0 then t else Clicks(ClickStep(t), n - 1)
  }

  /** Clicking cycles 0 -> 1 -> 2 -> 0, so every three clicks return to the same state with a fresh countdown. */
  lemma {:induction false} ClicksCycle(t: TimerStatus, n: nat)
    requires 0 <= t.state <= 2
    ensures n > 0 ==> Clicks(t, n) == ClickStep(TimerStatus((t.state + n - 1) % 3, 0))
    ensures n % 3 == 0 && n > 0 ==> Clicks(t, n) == TimerStatus(t.state, CountdownFor(t.state))
    decreases n
  {
    if n > 0 {
      var c := ClickStep(t);
      ClicksCycle(c, n - 1);
      if n - 1 > 0 {
        assert (c.state + (n - 1) - 1) % 3 == (t.state + n - 1) % 3;
      }
    }
  }

  /** From off, the clicks show 30 min, 60 min, then off again. */
  lemma ClickSequenceFromOff()
    ensures Clicks(TimerOff, 1) == TimerStatus(1, 1800) && TimerIconFor(1) == Timer30Icon
    ensures Clicks(TimerOff, 2) == TimerStatus(2, 3600) && TimerIconFor(2) == Timer60Icon
    ensures Clicks(TimerOff, 3) == TimerOff && TimerIconFor(0) == TimerOffIcon
  {
  }

  /** Once off, the timer never stops playback, whatever the ticks. */
  lemma OffNeverStops(t: TimerStatus, isPlaying: bool)
    requires TimerValid(t) && t.state == 0
    ensures TickStep(t, isPlaying) == TickOutcome(t, false)
  {
  }

  /** The icon never announces less time than is left on the countdown. */
  lemma IconBoundsCountdown(t: TimerStatus)
    requires TimerValid(t)
    ensures t.remaining <= IconMinutes(TimerIconFor(t.state)) * 60
    ensures t.remaining > 0 <==> TimerIconFor(t.state) != TimerOffIcon
  {
  }

  // ---------------------------------------------------------------------
  // The panel with the playback controller

  /** The panel's timer together with the controller's state. */
  datatype PlayerState = PlayerState(timer: TimerStatus, playback: AudioContext.Playback)

  /** One tick of the interval: the timer moves, and an expiry calls togglePlay. */
  function PlayerTick(p: PlayerState): (q: PlayerState)
    ensures !p.playback.isPlaying ==> q == p
    ensures q.playback.isPlaying == p.playback.isPlaying
  {
    var o := TickStep(p.timer, p.playback.isPlaying);
    PlayerState(o.timer, if o.stop then AudioContext.TogglePlayStep(p.playback) else p.playback)
  }

  /** `n` ticks in a row. */
  function Ticks(p: PlayerState, n: nat): PlayerState
    decreases n
  {
    if n == 0 then p else Ticks(PlayerTick(p), n - 1)
  }

  /** While paused the countdown is frozen: no tick changes anything. */
  lemma {:induction false} PausedTicksFreeze(p: PlayerState, n: nat)
    requires !p.playback.isPlaying
    ensures Ticks(p, n) == p
    decreases n
  {
    if n > 0 {
      PausedTicksFreeze(PlayerTick(p), n - 1);
    }
  }

  /** Before the countdown runs out, each tick takes one second off and touches nothing else. */
  lemma {:induction false} TicksBeforeExpiry(p: PlayerState, k: nat)
    requires TimerValid(p.timer) && p.playback.isPlaying && k < p.timer.remaining
    ensures Ticks(p, k) == PlayerState(TimerStatus(p.timer.state, p.timer.remaining - k), p.playback)
    decreases k
  {
    if k > 0 {
      TicksBeforeExpiry(PlayerTick(p), k - 1);
    }
  }

  /** Once off with nothing left, ticks do nothing. */
  lemma {:induction false} TicksAfterExpiry(p: PlayerState, n: nat)
    requires p.timer == TimerOff
    ensures Ticks(p, n) == p
    decreases n
  {
    if n > 0 {
      TicksAfterExpiry(PlayerTick(p), n - 1);
    }
  }

  /**
   * With playback running throughout, as many ticks as the countdown holds
   * (or more) turn the timer off and issue exactly one pause request.
   */
  lemma {:induction false} TicksToExpiry(p: PlayerState, n: nat)
    requires TimerValid(p.timer) && p.timer.state != 0 && p.playback.isPlaying
    requires n >= p.timer.remaining
    ensures Ticks(p, n).timer == TimerOff
    ensures Ticks(p, n).playback == AudioContext.TogglePlayStep(p.playback)
    ensures Ticks(p, n).playback.media.requests == p.playback.media.requests + [AudioContext.PauseRequest]
    decreases n
  {
    var q := PlayerTick(p);
    if p.timer.remaining <= 1 {
      TicksAfterExpiry(q, n - 1);
    } else {
      TicksToExpiry(q, n - 1);
    }
  }

  /** The 30-minute timer: 1799 ticks leave it on, the 1800th stops playback once and turns it off. */
  lemma ThirtyMinuteTimer(p: PlayerState)
    requires p.timer == TimerStatus(1, 1800) && p.playback.isPlaying
    ensures Ticks(p, 1799).timer == TimerStatus(1, 1) && Ticks(p, 1799).playback == p.playback
    ensures Ticks(p, 1800).timer == TimerOff
    ensures Ticks(p, 1800).playback.media.requests == p.playback.media.requests + [AudioContext.PauseRequest]
  {
    TicksBeforeExpiry(p, 1799);
    TicksToExpiry(p, 1800);
  }

  /** RadioPlayer: the timer fields of the panel and the controller it uses. */
  class RadioPlayer {
    var timerState: int
    var remainingTime: int
    const audio: AudioContext.AudioProvider

    function Timer(): TimerStatus
      reads this
    {
      TimerStatus(timerState, remainingTime)
    }

    function State(): PlayerState
      reads this, audio, audio.element
    {
      PlayerState(Timer(), audio.State())
    }

    ghost predicate Valid()
      reads this, audio, audio.element
    {
      TimerValid(Timer()) && audio.Valid()
    }

    constructor (audio: AudioContext.AudioProvider)
      requires audio.Valid()
      ensures Valid() && Timer() == TimerOff && this.audio == audio
      ensures audio.State() == old(audio.State())
    {
      timerState, remainingTime := 0, 0;
      this.audio := audio;
    }

    /** Takes no precondition: the `default` branch, reachable only from a negative state, is kept. */
    method HandleTimerClick()
      modifies this
      ensures Timer() == ClickStep(old(Timer()))
      ensures old(Valid()) ==> Valid()
    {
      var next := JsRemainder(timerState + 1, 3);
      timerState := next;
      match next
      case 1 => remainingTime := 30 * 60;
      case 2 => remainingTime := 60 * 60;
      case 0 => remainingTime := 0;
      case _ => remainingTime := 0;
    }

    /** One firing of the interval; a no-op when the effect would not have set it up. */
    method Tick()
      requires Valid()
      modifies this, audio, audio.element
      ensures Valid() && State() == PlayerTick(old(State()))
    {
      if remainingTime > 0 && audio.isPlaying {
        if remainingTime <= 1 {
          audio.TogglePlay();
          timerState := 0;
          remainingTime := 0;
        } else {
          remainingTime := remainingTime - 1;
        }
      }
    }
  }
}
