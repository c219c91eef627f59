/**
 * The playback controller of src/AudioContext.jsx: one provider owns the
 * playback state (current radio, playing flag, track title, duration,
 * position) and one audio element. Three actions (playRadio, togglePlay,
 * seek) talk to the element; the element's events (play, pause,
 * durationchange, timeupdate, metadata) are the only writers of the
 * event-derived fields.
 *
 * The browser's audio element is abstract here: it records its source,
 * its position, the duration it reports and the play/pause requests it
 * has received. Whether a play request succeeds is decided outside, by
 * delivering (or not) a play event.
 */
module AudioContext {
  import opened Wrappers

  /** A station of the catalogue. */
  datatype Radio = Radio(id: string, name: string, genre: string, streamUrl: string)

  /** A call made on the audio element: `play()` or `pause()`. */
  datatype Request = PlayRequest | PauseRequest

  /** The audio element as the provider sees it: `src`, `currentTime`, `duration` and the requests received. */
  datatype Media = Media(src: string, position: int, length: int, requests: seq<Request>)

  /** The provider's state fields together with its audio element. */
  datatype Playback = Playback(
    currentRadio: Option<Radio>,
    isPlaying: bool,
    currentTrack: string,
    duration: int,
    currentTime: int,
    media: Media)

  /** An event of the audio element; a metadata event carries its type and the title of its detail, if any. */
  datatype MediaEvent =
    | PlayEvent
    | PauseEvent
    | DurationChangeEvent
    | TimeUpdateEvent
    | MetadataEvent(kind: string, title: Option<string>)

  /** Everything that can happen to the provider: one of its three actions, or an event. */
  datatype Input =
    | PlayRadioCall(radio: Radio)
    | TogglePlayCall
    | SeekCall(time: int)
    | Event(event: MediaEvent)

  /** A freshly created audio element: no source, position 0, no duration, no request. */
  const FreshMedia: Media := Media("", 0, 0, [])

  /** The state the provider starts in. */
  const Initial: Playback := Playback(None, false, "", 0, 0, FreshMedia)

  /** The fields that only events may write. */
  predicate EventFieldsUnchanged(s: Playback, t: Playback) {
    t.isPlaying == s.isPlaying && t.currentTrack == s.currentTrack &&
    t.duration == s.duration && t.currentTime == s.currentTime
  }

  /** `currentRadio?.id === radio.id`: a radio is selected and has the same id. */
  predicate IsCurrent(s: Playback, radio: Radio) {
    s.currentRadio.Some? && s.currentRadio.value.id == radio.id
  }

  /** playRadio: rebind the source only for a different radio, then always request play. */
  function PlayRadioStep(s: Playback, radio: Radio): (t: Playback)
    ensures t.currentRadio.Some? && t.currentRadio.value.id == radio.id
    ensures IsCurrent(s, radio) ==> t.currentRadio == s.currentRadio && t.media.src == s.media.src
    ensures !IsCurrent(s, radio) ==> t.currentRadio == Some(radio) && t.media.src == radio.streamUrl
    ensures t.media.requests == s.media.requests + [PlayRequest]
    ensures t.media.position == s.media.position && t.media.length == s.media.length
    ensures EventFieldsUnchanged(s, t)
  {
    var bound := if IsCurrent(s, radio) then s
                 else s.(currentRadio := Some(radio), media := s.media.(src := radio.streamUrl));
    bound.(media := bound.media.(requests := bound.media.requests + [PlayRequest]))
  }

  /** togglePlay: pause when playing, else play when a radio is selected, else nothing. */
  function TogglePlayStep(s: Playback): (t: Playback)
    ensures s.isPlaying ==> t.media.requests == s.media.requests + [PauseRequest]
    ensures !s.isPlaying && s.currentRadio.Some? ==> t.media.requests == s.media.requests + [PlayRequest]
    ensures !s.isPlaying && s.currentRadio.None? ==> t == s
    ensures t.currentRadio == s.currentRadio && t.media.src == s.media.src
    ensures t.media.position == s.media.position && t.media.length == s.media.length
    ensures EventFieldsUnchanged(s, t)
  {
    if s.isPlaying then
      s.(media := s.media.(requests := s.media.requests + [PauseRequest]))
    else if s.currentRadio.Some? then
      s.(media := s.media.(requests := s.media.requests + [PlayRequest]))
    else
      s
  }

  /** seek: store the requested position on the element, unchecked. */
  function SeekStep(s: Playback, time: int): (t: Playback)
    ensures t.media.position == time
    ensures t.media.src == s.media.src && t.media.length == s.media.length
    ensures t.media.requests == s.media.requests
    ensures t.currentRadio == s.currentRadio && EventFieldsUnchanged(s, t)
  {
    s.(media := s.media.(position := time))
  }

  /** Whether a metadata event carries a title that `if (metadata.title)` accepts. */
  predicate HasTitle(kind: string, title: Option<string>) {
    kind == "metadata" && title.Some? && title.value != ""
  }

  /** The event handlers: each copies one value from the event or the element into the state. */
  function EventStep(s: Playback, e: MediaEvent): (t: Playback)
    ensures t.media == s.media && t.currentRadio == s.currentRadio
    ensures e.PlayEvent? ==> t == s.(isPlaying := true)
    ensures e.PauseEvent? ==> t == s.(isPlaying := false)
    ensures e.DurationChangeEvent? ==> t == s.(duration := s.media.length)
    ensures e.TimeUpdateEvent? ==> t == s.(currentTime := s.media.position)
    ensures e.MetadataEvent? && HasTitle(e.kind, e.title) ==> t == s.(currentTrack := e.title.value)
    ensures e.MetadataEvent? && !HasTitle(e.kind, e.title) ==> t == s
  {
    match e
    case PlayEvent => s.(isPlaying := true)
    case PauseEvent => s.(isPlaying := false)
    case DurationChangeEvent => s.(duration := s.media.length)
    case TimeUpdateEvent => s.(currentTime := s.media.position)
    case MetadataEvent(kind, title) =>
      if kind == "metadata" then
        if title.Some? && title.value != "" then s.(currentTrack := title.value) else s
      else s
  }

  /** One input applied to the state. */
  function Step(s: Playback, i: Input): (t: Playback)
    ensures !i.Event? ==> EventFieldsUnchanged(s, t)
    ensures i.Event? ==> t.media == s.media && t.currentRadio == s.currentRadio
    ensures |t.media.requests| <= |s.media.requests| + 1
    ensures s.media.requests <= t.media.requests
  {
    match i
    case PlayRadioCall(radio) => PlayRadioStep(s, radio)
    case TogglePlayCall => TogglePlayStep(s)
    case SeekCall(time) => SeekStep(s, time)
    case Event(e) => EventStep(s, e)
  }

  /** A trace of inputs applied in delivery order. */
  function Run(s: Playback, trace: seq<Input>): Playback
    decreases |trace|
  {
    if trace == [] then s else Step(Run(s, trace[..|trace| - 1]), trace[|trace| - 1])
  }

  /** The value of the playing flag set by the last play or pause event of `trace`, or `initial`. */
  function LastPlayFlag(trace: seq<Input>, initial: bool): bool
    decreases |trace|
  {
    if trace == [] then initial
    else match trace[|trace| - 1]
      case Event(PlayEvent) => true
      case Event(PauseEvent) => false
      case _ => LastPlayFlag(trace[..|trace| - 1], initial)
  }

  /** The title of the last metadata event of `trace` that carries one, or `initial`. */
  function LastTitle(trace: seq<Input>, initial: string): string
    decreases |trace|
  {
    if trace == [] then initial
    else match trace[|trace| - 1]
      case Event(MetadataEvent(kind, title)) =>
        if HasTitle(kind, title) then title.value else LastTitle(trace[..|trace| - 1], initial)
      case _ => LastTitle(trace[..|trace| - 1], initial)
  }

  /** The playing flag is whatever the last play or pause event said; actions never set it. */
  lemma {:induction false} IsPlayingFollowsEvents(s: Playback, trace: seq<Input>)
    ensures Run(s, trace).isPlaying == LastPlayFlag(trace, s.isPlaying)
    decreases |trace|
  {
    if trace != [] {
      IsPlayingFollowsEvents(s, trace[..|trace| - 1]);
    }
  }

  /** A play request that the element rejects (no play event follows) leaves playback stopped. */
  lemma {:induction false} RejectedPlayStaysStopped(s: Playback, trace: seq<Input>)
    requires !s.isPlaying
    requires forall k :: 0 <= k < |trace| ==> trace[k] != Event(PlayEvent)
    ensures !Run(s, trace).isPlaying
  {
    IsPlayingFollowsEvents(s, trace);
    NoPlayEventFlag(trace, s.isPlaying);
  }

  lemma {:induction false} NoPlayEventFlag(trace: seq<Input>, initial: bool)
    requires forall k :: 0 <= k < |trace| ==> trace[k] != Event(PlayEvent)
    ensures LastPlayFlag(trace, initial) ==> initial
    decreases |trace|
  {
    if trace != [] {
      NoPlayEventFlag(trace[..|trace| - 1], initial);
    }
  }

  /** The track title is the last title delivered by a metadata event; nothing else writes it. */
  lemma {:induction false} TrackFollowsMetadata(s: Playback, trace: seq<Input>)
    ensures Run(s, trace).currentTrack == LastTitle(trace, s.currentTrack)
    decreases |trace|
  {
    if trace != [] {
      TrackFollowsMetadata(s, trace[..|trace| - 1]);
    }
  }

  /** Every play request is issued with a radio selected, and a selection is never cleared. */
  ghost predicate Consistent(s: Playback) {
    PlayRequest in s.media.requests ==> s.currentRadio.Some?
  }

  lemma {:induction false} RunKeepsConsistent(s: Playback, trace: seq<Input>)
    requires Consistent(s)
    ensures Consistent(Run(s, trace))
    ensures s.currentRadio.Some? ==> Run(s, trace).currentRadio.Some?
    decreases |trace|
  {
    if trace != [] {
      RunKeepsConsistent(s, trace[..|trace| - 1]);
    }
  }

  /** The request log only grows, by at most one request per input. */
  lemma {:induction false} RequestsPerInput(s: Playback, trace: seq<Input>)
    ensures s.media.requests <= Run(s, trace).media.requests
    ensures |Run(s, trace).media.requests| <= |s.media.requests| + |trace|
    decreases |trace|
  {
    if trace != [] {
      RequestsPerInput(s, trace[..|trace| - 1]);
    }
  }

  /** Selecting the radio that is already selected again neither rebinds nor reselects; it only requests play. */
  lemma PlayRadioIdempotent(s: Playback, radio: Radio)
    ensures var once := PlayRadioStep(s, radio);
            var twice := PlayRadioStep(once, radio);
            twice.currentRadio == once.currentRadio && twice.media.src == once.media.src &&
            twice.media.requests == s.media.requests + [PlayRequest, PlayRequest]
  {
  }

  /** After a seek, the next time update reports the requested position. */
  lemma SeekThenTimeUpdate(s: Playback, time: int)
    ensures Run(s, [SeekCall(time), Event(TimeUpdateEvent)]).currentTime == time
  {
  }

  /** Selecting a radio from the start, and the element then playing: the radio is current and playing. */
  lemma SelectThenPlay(radio: Radio)
    ensures var t := Run(Initial, [PlayRadioCall(radio), Event(PlayEvent)]);
            t.currentRadio == Some(radio) && t.isPlaying && t.media.src == radio.streamUrl &&
            t.media.requests == [PlayRequest]
  {
    var first := [PlayRadioCall(radio)];
    assert first[..0] == [];
    assert Run(Initial, first) == PlayRadioStep(Initial, radio);
    assert first + [Event(PlayEvent)] == [PlayRadioCall(radio), Event(PlayEvent)];
    assert (first + [Event(PlayEvent)])[..1] == first;
  }

  /** The audio element (`audioRef.current`): receives requests and assignments; the browser fills in the rest. */
  class AudioElement {
    var src: string
    var currentTime: int
    var duration: int
    var requests: seq<Request>

    function Snapshot(): Media
      reads this
    {
      Media(src, currentTime, duration, requests)
    }

    constructor ()
      ensures Snapshot() == FreshMedia
    {
      src, currentTime, duration, requests := "", 0, 0, [];
    }

    method Play()
      modifies this
      ensures Snapshot() == old(Snapshot()).(requests := old(requests) + [PlayRequest])
    {
      requests := requests + [PlayRequest];
    }

    method Pause()
      modifies this
      ensures Snapshot() == old(Snapshot()).(requests := old(requests) + [PauseRequest])
    {
      requests := requests + [PauseRequest];
    }
  }

  /** AudioProvider: the state fields and the one audio element it owns for its whole life. */
  class AudioProvider {
    var currentRadio: Option<Radio>
    var isPlaying: bool
    var currentTrack: string
    var duration: int
    var currentTime: int
    const element: AudioElement

    function State(): Playback
      reads this, element
    {
      Playback(currentRadio, isPlaying, currentTrack, duration, currentTime, element.Snapshot())
    }

    ghost predicate Valid()
      reads this, element
    {
      Consistent(State())
    }

    constructor ()
      ensures Valid() && State() == Initial && fresh(element)
    {
      currentRadio, isPlaying, currentTrack, duration, currentTime := None, false, "", 0, 0;
      element := new AudioElement();
    }

    method PlayRadio(radio: Radio)
      requires Valid()
      modifies this, element
      ensures Valid() && State() == PlayRadioStep(old(State()), radio)
    {
      if currentRadio.None? || currentRadio.value.id != radio.id {
        element.src := radio.streamUrl;
        currentRadio := Some(radio);
      }
      element.Play();
    }

    method TogglePlay()
      requires Valid()
      modifies this, element
      ensures Valid() && State() == TogglePlayStep(old(State()))
    {
      if isPlaying {
        element.Pause();
      } else if currentRadio.Some? {
        element.Play();
      }
    }

    method Seek(time: int)
      requires Valid()
      modifies element
      ensures Valid() && State() == SeekStep(old(State()), time)
    {
      element.currentTime := time;
    }

    method HandlePlay()
      requires Valid()
      modifies this
      ensures Valid() && State() == EventStep(old(State()), PlayEvent)
    {
      isPlaying := true;
    }

    method HandlePause()
      requires Valid()
      modifies this
      ensures Valid() && State() == EventStep(old(State()), PauseEvent)
    {
      isPlaying := false;
    }

    method HandleDurationChange()
      requires Valid()
      modifies this
      ensures Valid() && State() == EventStep(old(State()), DurationChangeEvent)
    {
      duration := element.duration;
    }

    method HandleTimeUpdate()
      requires Valid()
      modifies this
      ensures Valid() && State() == EventStep(old(State()), TimeUpdateEvent)
    {
      currentTime := element.currentTime;
    }

    method HandleMetadata(kind: string, title: Option<string>)
      requires Valid()
      modifies this
      ensures Valid() && State() == EventStep(old(State()), MetadataEvent(kind, title))
    {
      if kind == "metadata" {
        if title.Some? && title.value != "" {
          currentTrack := title.value;
        }
      }
    }
  }
}
