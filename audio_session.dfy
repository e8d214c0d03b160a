/** The one-flag audio-session lock (ai.membo.utils.AudioSessionManager).
    The platform calls it makes (buffer sizing, AudioRecord construction and
    state, audio focus, starting the recorder) are inputs: `AudioEnv` says
    what each of them answers. */
module AudioSession {

  /** AudioRecord.ERROR and AudioRecord.ERROR_BAD_VALUE. */
  const AUDIO_RECORD_ERROR: int := -1
  const AUDIO_RECORD_ERROR_BAD_VALUE: int := -2

  /** The `mAudioRecord` reference: null, or a recorder with its
      initialisation and recording state. */
  datatype Recorder = NoRecorder | Recorder(initialized: bool, recording: bool)

  /** What the platform answers during one initialisation attempt. */
  datatype AudioEnv = AudioEnv(
    minBufferSize: int,       // AudioRecord.getMinBufferSize
    constructorThrows: bool,  // new AudioRecord(...) raises SecurityException
    recordInitialized: bool,  // getState() == STATE_INITIALIZED
    focusGranted: bool,       // requestAudioFocus(...) == AUDIOFOCUS_REQUEST_GRANTED
    startThrows: bool)        // startRecording() raises IllegalStateException

  /** The manager's fields: the active flag, the recorder, and whether the
      manager currently holds audio focus. */
  datatype AudioState = AudioState(active: bool, recorder: Recorder, focusHeld: bool)

  datatype InitOutcome = InitOutcome(state: AudioState, ok: bool)

  const InitialAudioState: AudioState := AudioState(false, NoRecorder, false)

  predicate BufferSizeValid(env: AudioEnv)
  {
    env.minBufferSize != AUDIO_RECORD_ERROR && env.minBufferSize != AUDIO_RECORD_ERROR_BAD_VALUE
  }

  /** All three environment checks pass and nothing throws. */
  predicate InitSucceeds(env: AudioEnv)
  {
    BufferSizeValid(env) && !env.constructorThrows && env.recordInitialized
    && env.focusGranted && !env.startThrows
  }

  /** releaseAudioSession: nothing happens unless the flag is set;
      otherwise the recorder is stopped, released and dropped, focus is
      abandoned and the flag cleared. */
  function Release(s: AudioState): (r: AudioState)
    ensures !r.active
    ensures !s.active ==> r == s
    ensures s.active ==> r.recorder == NoRecorder && !r.focusHeld
  {
    if !s.active then s else AudioState(false, NoRecorder, false)
  }

  /** initializeAudioSession. The failure paths call releaseAudioSession,
      which is a no-op there because the flag is still false. */
  function Initialize(s: AudioState, env: AudioEnv): (r: InitOutcome)
    ensures r.ok <==> !s.active && InitSucceeds(env)
    ensures r.state.active <==> s.active || r.ok
    ensures s.active ==> r.state == s
  {
    if s.active then InitOutcome(s, false)
    else if !BufferSizeValid(env) then InitOutcome(s, false)
    else if env.constructorThrows then InitOutcome(Release(s), false)
    else
      var created := s.(recorder := Recorder(env.recordInitialized, false));
      if !env.recordInitialized then InitOutcome(Release(created), false)
      else if !env.focusGranted then InitOutcome(Release(created), false)
      else
        var focused := created.(focusHeld := true);
        if env.startThrows then InitOutcome(Release(focused), false)
        else InitOutcome(AudioState(true, Recorder(true, true), true), true)
  }

  /** Releasing twice is releasing once. */
  lemma ReleaseIdempotent(s: AudioState)
    ensures Release(Release(s)) == Release(s)
  {
  }

  /** A failed attempt from an inactive session leaves it inactive, but it
      does not undo what it did: a recorder created before the failure stays
      referenced, and focus obtained before a failing startRecording stays
      held. */
  lemma FailedInitKeepsLeftovers(s: AudioState, env: AudioEnv)
    requires !s.active && BufferSizeValid(env) && !env.constructorThrows
    requires env.recordInitialized && env.focusGranted && env.startThrows
    ensures !Initialize(s, env).ok
    ensures Initialize(s, env).state == AudioState(false, Recorder(true, false), true)
  {
  }

  class AudioSessionManager {
    var active: bool
    var recorder: Recorder
    var focusHeld: bool

    function State(): AudioState
      reads this
    {
      AudioState(active, recorder, focusHeld)
    }

    constructor ()
      ensures State() == InitialAudioState
    {
      active := false;
      recorder := NoRecorder;
      focusHeld := false;
    }

    method InitializeAudioSession(env: AudioEnv) returns (ok: bool)
      modifies this
      ensures State() == Initialize(old(State()), env).state
      ensures ok == Initialize(old(State()), env).ok
    {
      if active {
        return false;
      }
      if env.minBufferSize == AUDIO_RECORD_ERROR || env.minBufferSize == AUDIO_RECORD_ERROR_BAD_VALUE {
        return false;
      }
      if env.constructorThrows {
        ReleaseAudioSession();
        return false;
      }
      recorder := Recorder(env.recordInitialized, false);
      if !env.recordInitialized {
        ReleaseAudioSession();
        return false;
      }
      if !env.focusGranted {
        ReleaseAudioSession();
        return false;
      }
      focusHeld := true;
      if env.startThrows {
        ReleaseAudioSession();
        return false;
      }
      recorder := Recorder(true, true);
      active := true;
      return true;
    }

    method ReleaseAudioSession()
      modifies this
      ensures State() == Release(old(State()))
    {
      if !active {
        return;
      }
      if recorder.Recorder? {
        // stop() when recording, then release(); the reference is dropped
        recorder := NoRecorder;
      }
      focusHeld := false;
      active := false;
    }

    function IsSessionActive(): (r: bool)
      reads this
      ensures r == State().active
    {
      active
    }
  }
}
