/**
 * The sound service: an audio context created on first use and at most once,
 * a cache of decoded sound files by URL, playing a file, and the task
 * completion beep that never fails. Whether the browser can construct an
 * audio context, and what fetching and decoding a URL gives, are inputs.
 */
module SoundService {
  import opened Wrappers

  /** A decoded sound file, as far as the service handles it. */
  datatype Buffer = Buffer(samples: seq<int>)

  datatype Sound = Sound(hasContext: bool, isInitialized: bool, audioBuffers: map<string, Buffer>)

  const NO_CONTEXT := "Audio context not available"
  const BEEP_URL := "/sounds/beep.mp3"
  const ALARM_URL := "/sounds/alarm.mp3"
  const NOTIFICATION_URL := "/sounds/notification.mp3"

  /** The service is initialized exactly when it holds an audio context. */
  predicate Valid(s: Sound) {
    s.isInitialized <==> s.hasContext
  }

  /** `initializeAudioContext`: nothing once initialized; otherwise a context if one can be constructed. */
  function Initialized(s: Sound, constructible: bool): (r: Sound)
    ensures r.audioBuffers == s.audioBuffers
    ensures s.isInitialized ==> r == s
    ensures !s.isInitialized ==> r.isInitialized == constructible
  {
    if s.isInitialized then s
    else if constructible then s.(hasContext := true, isInitialized := true)
    else s
  }

  /** The `if (!this.audioContext) await this.initializeAudioContext()` guard. */
  function Ensured(s: Sound, constructible: bool): Sound {
    if !s.hasContext then Initialized(s, constructible) else s
  }

  /**
   * `loadAudioFile`: without a context it fails; a cached URL gives its cached
   * buffer; otherwise the fetched and decoded buffer is cached and returned,
   * or the fetch or decode error is passed on.
   */
  function LoadedAudio(s: Sound, url: string, constructible: bool, decoded: Result<Buffer, string>): (r: (Sound, Result<Buffer, string>))
    ensures forall u :: u in s.audioBuffers ==> u in r.0.audioBuffers && r.0.audioBuffers[u] == s.audioBuffers[u]
    ensures r.1.Err? ==> r.0.audioBuffers == s.audioBuffers
  {
    var s1 := Ensured(s, constructible);
    if !s1.hasContext then (s1, Err(NO_CONTEXT))
    else if url in s1.audioBuffers then (s1, Ok(s1.audioBuffers[url]))
    else
      match decoded
      case Ok(buffer) => (s1.(audioBuffers := s1.audioBuffers[url := buffer]), Ok(buffer))
      case Err(e) => (s1, Err(e))
  }

  /** `playSound`: the buffer it starts, or why it threw. */
  function PlayedSound(s: Sound, url: string, constructible: bool, decoded: Result<Buffer, string>): (r: (Sound, Result<Buffer, string>))
    ensures r == LoadedAudio(s, url, constructible, decoded)
    ensures r.1.Ok? ==> url in r.0.audioBuffers && r.0.audioBuffers[url] == r.1.value
    ensures !r.0.hasContext ==> r.1 == Err(NO_CONTEXT)
  {
    var s1 := Ensured(s, constructible);
    if !s1.hasContext then (s1, Err(NO_CONTEXT))
    else LoadedAudio(s1, url, constructible, decoded)
  }

  /** `playTaskCompletion`: whether a beep is started; it catches its own error, so it never fails. */
  function PlayedTaskCompletion(s: Sound, constructible: bool): (r: (Sound, bool))
    ensures r.1 <==> r.0.hasContext
  {
    var s1 := Ensured(s, constructible);
    (s1, s1.hasContext)
  }

  /** Every operation keeps "initialized" and "has a context" together. */
  lemma ValidPreserved(s: Sound, url: string, constructible: bool, decoded: Result<Buffer, string>)
    requires Valid(s)
    ensures Valid(Initialized(s, constructible))
    ensures Valid(LoadedAudio(s, url, constructible, decoded).0)
    ensures Valid(PlayedSound(s, url, constructible, decoded).0)
    ensures Valid(PlayedTaskCompletion(s, constructible).0)
  {
  }

  /** Once initialized, initializing again does nothing, whatever the browser would do. */
  lemma InitializeOnce(s: Sound, first: bool, second: bool)
    ensures Initialized(s, first).isInitialized ==> Initialized(Initialized(s, first), second) == Initialized(s, first)
  {
  }

  /** A failed construction leaves the service uninitialized and without a context. */
  lemma FailedConstruction(s: Sound)
    requires Valid(s) && !s.isInitialized
    ensures !Initialized(s, false).isInitialized && !Initialized(s, false).hasContext
  {
  }

  /** A cached URL gives the cached buffer without a fetch: the outcome of fetching plays no part. */
  lemma CacheHit(s: Sound, url: string, constructible: bool, decoded: Result<Buffer, string>)
    requires s.hasContext && url in s.audioBuffers
    ensures LoadedAudio(s, url, constructible, decoded) == (s, Ok(s.audioBuffers[url]))
  {
  }

  /** A successful load caches the buffer under its URL and returns it. */
  lemma LoadCaches(s: Sound, url: string, constructible: bool, buffer: Buffer)
    requires Valid(s) && url !in s.audioBuffers && (s.hasContext || constructible)
    ensures var (s1, r) := LoadedAudio(s, url, constructible, Ok(buffer));
            r == Ok(buffer) && s1.audioBuffers == s.audioBuffers[url := buffer] && s1.hasContext
  {
  }

  /**
   * A fetch or decode that fails for an uncached URL: the error is passed on
   * by `loadAudioFile` and again by `playSound`, and nothing is cached, so a
   * later load fetches again.
   */
  lemma LoadFails(s: Sound, url: string, constructible: bool, e: string, later: Result<Buffer, string>)
    requires Valid(s) && (s.hasContext || constructible) && url !in s.audioBuffers
    ensures LoadedAudio(s, url, constructible, Err(e)) == (Ensured(s, constructible), Err(e))
    ensures PlayedSound(s, url, constructible, Err(e)) == (Ensured(s, constructible), Err(e))
    ensures var s1 := LoadedAudio(s, url, constructible, Err(e)).0;
            LoadedAudio(s1, url, constructible, later).1 == later
  {
  }

  /** Without a context that can be created, loading and playing fail with the same error, and nothing is cached. */
  lemma NoContextFails(s: Sound, url: string, decoded: Result<Buffer, string>)
    requires Valid(s) && !s.hasContext
    ensures LoadedAudio(s, url, false, decoded) == (s, Err(NO_CONTEXT))
    ensures PlayedSound(s, url, false, decoded) == (s, Err(NO_CONTEXT))
    ensures PlayedTaskCompletion(s, false) == (s, false)
  {
  }

  /** Loading a URL twice fetches once: the second load is a cache hit with the same buffer. */
  lemma SecondLoadCached(s: Sound, url: string, constructible: bool, first: Result<Buffer, string>, second: Result<Buffer, string>)
    requires LoadedAudio(s, url, constructible, first).1.Ok?
    ensures var (s1, r1) := LoadedAudio(s, url, constructible, first);
            LoadedAudio(s1, url, constructible, second) == (s1, r1)
  {
  }

  class SoundServiceState {
    var hasContext: bool
    var isInitialized: bool
    var audioBuffers: map<string, Buffer>

    function State(): Sound
      reads this
    {
      Sound(hasContext, isInitialized, audioBuffers)
    }

    constructor ()
      ensures State() == Sound(false, false, map[])
    {
      hasContext := false;
      isInitialized := false;
      audioBuffers := map[];
    }

    method InitializeAudioContext(constructible: bool)
      modifies this
      ensures State() == Initialized(old(State()), constructible)
    {
      if isInitialized {
        return;
      }
      if constructible {
        hasContext := true;
        isInitialized := true;
      }
    }

    method LoadAudioFile(url: string, constructible: bool, decoded: Result<Buffer, string>) returns (r: Result<Buffer, string>)
      modifies this
      ensures (State(), r) == LoadedAudio(old(State()), url, constructible, decoded)
    {
      if !hasContext {
        InitializeAudioContext(constructible);
      }
      if !hasContext {
        return Err(NO_CONTEXT);
      }
      if url in audioBuffers {
        return Ok(audioBuffers[url]);
      }
      if decoded.Err? {
        return decoded;
      }
      audioBuffers := audioBuffers[url := decoded.value];
      r := decoded;
    }

    method PlaySound(url: string, constructible: bool, decoded: Result<Buffer, string>) returns (r: Result<Buffer, string>)
      modifies this
      ensures (State(), r) == PlayedSound(old(State()), url, constructible, decoded)
    {
      if !hasContext {
        InitializeAudioContext(constructible);
      }
      if !hasContext {
        return Err(NO_CONTEXT);
      }
      r := LoadAudioFile(url, constructible, decoded);
    }

    method PlayBeep(constructible: bool, decoded: Result<Buffer, string>) returns (r: Result<Buffer, string>)
      modifies this
      ensures (State(), r) == PlayedSound(old(State()), BEEP_URL, constructible, decoded)
    {
      r := PlaySound(BEEP_URL, constructible, decoded);
    }

    method PlayAlarm(constructible: bool, decoded: Result<Buffer, string>) returns (r: Result<Buffer, string>)
      modifies this
      ensures (State(), r) == PlayedSound(old(State()), ALARM_URL, constructible, decoded)
    {
      r := PlaySound(ALARM_URL, constructible, decoded);
    }

    method PlayNotification(constructible: bool, decoded: Result<Buffer, string>) returns (r: Result<Buffer, string>)
      modifies this
      ensures (State(), r) == PlayedSound(old(State()), NOTIFICATION_URL, constructible, decoded)
    {
      r := PlaySound(NOTIFICATION_URL, constructible, decoded);
    }

    method PlayTaskCompletion(constructible: bool) returns (beeped: bool)
      modifies this
      ensures (State(), beeped) == PlayedTaskCompletion(old(State()), constructible)
    {
      if !hasContext {
        InitializeAudioContext(constructible);
      }
      beeped := hasContext;
    }
  }
}
