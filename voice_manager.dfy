/** The speech-recognition state machine (ai.membo.managers.VoiceManager).
    The platform's answers (connectivity, power-save mode, recognizer
    creation and startListening) are inputs gathered in `VoiceEnv` together
    with the current time; recognizer callbacks are methods the environment
    calls; the timeout and retry posts of the handler are tasks in a pending
    list that the environment fires. The callback is not invoked
    re-entrantly: each invocation is appended to `notices`, addressed to the
    callback it was made on. */
module Voice {
  import opened Base
  import opened VoiceConstants
  import A = AudioSession
  import P = Permissions

  const BACKOFF_BASE_MS: int := 1000

  /** The error codes of android.speech.SpeechRecognizer. */
  const SPEECH_ERROR_NETWORK_TIMEOUT: int := 1
  const SPEECH_ERROR_NETWORK: int := 2
  const SPEECH_ERROR_AUDIO: int := 3
  const SPEECH_ERROR_SERVER: int := 4
  const SPEECH_ERROR_CLIENT: int := 5
  const SPEECH_ERROR_SPEECH_TIMEOUT: int := 6
  const SPEECH_ERROR_NO_MATCH: int := 7
  const SPEECH_ERROR_RECOGNIZER_BUSY: int := 8
  const SPEECH_ERROR_INSUFFICIENT_PERMISSIONS: int := 9

  /** A message posted on the timeout handler: the recognition timeout, or
      a self-scheduled retry with its backoff delay. */
  datatype Task = TimeoutTask | RetryTask(delay: int)

  /** One invocation of VoiceRecognitionCallback. */
  datatype VoiceEvent =
    | RecognitionStarted
    | RecognitionResult(text: string, confidence: real)
    | RecognitionError(error: VoiceError)
    | RecognitionEnded

  datatype Notice = Notice(to: CallbackId, event: VoiceEvent)

  /** What the world answers while one operation runs. */
  datatype VoiceEnv = VoiceEnv(
    networkUp: bool,        // an active, connected network
    powerSave: bool,        // PowerManager.isPowerSaveMode()
    sdk: int,               // Build.VERSION.SDK_INT
    micGranted: bool,       // checkSelfPermission(RECORD_AUDIO) on a cache miss
    audio: A.AudioEnv,      // the audio session's platform answers
    createFails: bool,      // createSpeechRecognizer raises
    listenFails: bool,      // startListening raises
    now: int)               // System.currentTimeMillis()

  /** The manager's fields together with the two collaborators' states. */
  datatype VoiceSnap = VoiceSnap(
    state: RecognitionState,
    retryCount: nat,
    lastRetry: int,
    callback: Option<CallbackId>,
    hasRecognizer: bool,
    pending: seq<Task>,
    notices: seq<Notice>,
    audio: A.AudioState,
    perms: P.PermState)

  datatype StartOutcome = StartOutcome(snap: VoiceSnap, started: bool)

  /** The handler posted at least one retry that has not run yet. */
  predicate HasRetry(pending: seq<Task>)
  {
    exists i :: 0 <= i < |pending| && pending[i].RetryTask?
  }

  /** What every operation preserves: the retry counter stays within
      0..MAX_RETRY_COUNT, and a retry is only ever pending while the state
      is not IDLE. */
  predicate Inv(s: VoiceSnap)
  {
    s.retryCount <= MAX_RETRY_COUNT && (HasRetry(s.pending) ==> s.state != Idle)
  }

  function Pow2(k: nat): (r: nat)
    ensures r >= 1
  {
    if k == 0 then 1 else 2 * Pow2(k - 1)
  }

  /** The delay before retry number n + 1: 1000 * 2^n milliseconds. */
  function Backoff(retryCount: nat): int
  {
    BACKOFF_BASE_MS * Pow2(retryCount)
  }

  /** mapSpeechRecognizerError. */
  function MapSpeechRecognizerError(speechError: int): (r: VoiceError)
    ensures r == Network <==> speechError == SPEECH_ERROR_NETWORK || speechError == SPEECH_ERROR_NETWORK_TIMEOUT
    ensures r == Timeout <==> speechError == SPEECH_ERROR_NO_MATCH || speechError == SPEECH_ERROR_SPEECH_TIMEOUT
    ensures r == NoPermission <==> speechError == SPEECH_ERROR_INSUFFICIENT_PERMISSIONS
    ensures r != NotAvailable && r != AudioSession
  {
    if speechError == SPEECH_ERROR_NETWORK || speechError == SPEECH_ERROR_NETWORK_TIMEOUT then Network
    else if speechError == SPEECH_ERROR_NO_MATCH || speechError == SPEECH_ERROR_SPEECH_TIMEOUT then Timeout
    else if speechError == SPEECH_ERROR_INSUFFICIENT_PERMISSIONS then NoPermission
    else Unknown
  }

  /** handleRecognitionError schedules a retry exactly when the error is
      not NO_PERMISSION, fewer than MAX_RETRY_COUNT retries were made, and
      the backoff for the current count has elapsed since the last retry. */
  predicate RetryScheduled(s: VoiceSnap, error: VoiceError, now: int)
  {
    s.retryCount < MAX_RETRY_COUNT && error != NoPermission && now - s.lastRetry >= Backoff(s.retryCount)
  }

  /** handleRecognitionError. */
  function HandleError(s: VoiceSnap, error: VoiceError, now: int): (r: VoiceSnap)
    ensures r.state == Error
    ensures RetryScheduled(s, error, now) ==>
      r.retryCount == s.retryCount + 1 && r.lastRetry == now
      && r.pending == s.pending + [RetryTask(Backoff(s.retryCount))] && r.notices == s.notices
    ensures !RetryScheduled(s, error, now) ==>
      r.retryCount == s.retryCount && r.lastRetry == s.lastRetry && r.pending == s.pending
      && r.notices == s.notices + (if s.callback.Some? then [Notice(s.callback.value, RecognitionError(error))] else [])
    ensures r.callback == s.callback && r.hasRecognizer == s.hasRecognizer && r.audio == s.audio && r.perms == s.perms
  {
    var failed := s.(state := Error);
    if RetryScheduled(s, error, now) then
      failed.(retryCount := s.retryCount + 1, lastRetry := now,
              pending := s.pending + [RetryTask(Backoff(s.retryCount))])
    else if s.callback.Some? then
      failed.(notices := s.notices + [Notice(s.callback.value, RecognitionError(error))])
    else failed
  }

  /** Every condition startVoiceRecognition checks from IDLE, in order. */
  predicate StartConditions(s: VoiceSnap, env: VoiceEnv)
  {
    env.networkUp && !env.powerSave
    && P.CheckMicrophone(s.perms, env.sdk, env.micGranted).granted
    && !s.audio.active && A.InitSucceeds(env.audio)
    && (s.hasRecognizer || !env.createFails) && !env.listenFails
  }

  /** startVoiceRecognition. The callback is stored only after the
      prerequisite checks, and a failure after the audio session was claimed
      does not release it. */
  function Start(s: VoiceSnap, callback: CallbackId, env: VoiceEnv): (r: StartOutcome)
    ensures s.state != Idle ==> r == StartOutcome(s, false)
    ensures r.started <==> s.state == Idle && StartConditions(s, env)
    ensures r.started ==>
      r.snap.state == Listening && r.snap.callback == Some(callback) && r.snap.audio.active
      && r.snap.pending == s.pending + [TimeoutTask]
      && r.snap.notices == s.notices + [Notice(callback, RecognitionStarted)]
    ensures s.state == Idle && !r.started ==> r.snap.state == Error
    // Each failing step hands its own error to handleRecognitionError.
    ensures s.state == Idle && !env.networkUp ==> r.snap == HandleError(s, Network, env.now)
    ensures s.state == Idle && env.networkUp && env.powerSave ==> r.snap == HandleError(s, NotAvailable, env.now)
    ensures var check := P.CheckMicrophone(s.perms, env.sdk, env.micGranted);
      s.state == Idle && env.networkUp && !env.powerSave && !check.granted ==>
        r.snap == HandleError(s.(perms := check.state), NoPermission, env.now)
    ensures var check := P.CheckMicrophone(s.perms, env.sdk, env.micGranted);
      var init := A.Initialize(s.audio, env.audio);
      var claimed := s.(perms := check.state, callback := Some(callback), audio := init.state);
      s.state == Idle && env.networkUp && !env.powerSave && check.granted ==>
        (!init.ok ==> r.snap == HandleError(claimed, AudioSession, env.now))
        && (init.ok && !s.hasRecognizer && env.createFails ==> r.snap == HandleError(claimed, NotAvailable, env.now))
        && (init.ok && (s.hasRecognizer || !env.createFails) && env.listenFails ==>
              r.snap == HandleError(claimed.(hasRecognizer := true), Unknown, env.now))
  {
    if s.state != Idle then StartOutcome(s, false)
    else if !env.networkUp then StartOutcome(HandleError(s, Network, env.now), false)
    else if env.powerSave then StartOutcome(HandleError(s, NotAvailable, env.now), false)
    else
      var check := P.CheckMicrophone(s.perms, env.sdk, env.micGranted);
      var checked := s.(perms := check.state);
      if !check.granted then StartOutcome(HandleError(checked, NoPermission, env.now), false)
      else
        var registered := checked.(callback := Some(callback));
        var init := A.Initialize(registered.audio, env.audio);
        var claimed := registered.(audio := init.state);
        if !init.ok then StartOutcome(HandleError(claimed, AudioSession, env.now), false)
        else if !claimed.hasRecognizer && env.createFails then StartOutcome(HandleError(claimed, NotAvailable, env.now), false)
        else
          var created := claimed.(hasRecognizer := true);
          if env.listenFails then StartOutcome(HandleError(created, Unknown, env.now), false)
          else StartOutcome(created.(state := Listening,
                                     pending := created.pending + [TimeoutTask],
                                     notices := created.notices + [Notice(callback, RecognitionStarted)]), true)
  }

  /** stopVoiceRecognition. */
  function Stop(s: VoiceSnap): (r: VoiceSnap)
    ensures r.state == Idle && r.retryCount == 0 && r.lastRetry == 0 && r.pending == []
    ensures r.audio == A.Release(s.audio) && !r.audio.active
    ensures r.notices == s.notices + (if s.callback.Some? then [Notice(s.callback.value, RecognitionEnded)] else [])
    ensures r.callback == s.callback && r.hasRecognizer == s.hasRecognizer && r.perms == s.perms
  {
    var stopped := s.(pending := [], audio := A.Release(s.audio), state := Idle, retryCount := 0, lastRetry := 0);
    if s.callback.Some? then stopped.(notices := s.notices + [Notice(s.callback.value, RecognitionEnded)])
    else stopped
  }

  /** handleTimeout: only a LISTENING recognizer times out. */
  function HandleTimeout(s: VoiceSnap, now: int): (r: VoiceSnap)
    ensures s.state != Listening ==> r == s
    ensures s.state == Listening ==> r == HandleError(s, Timeout, now)
  {
    if s.state == Listening then HandleError(s, Timeout, now) else s
  }

  datatype ResultsOutcome = ResultsOutcome(snap: VoiceSnap, crashed: bool)

  /** onResults. `matches` is None when the bundle is null, lacks the
      recognition key or holds a null list, and `confidences` is None when
      the score array is null. An empty score array makes `confidences[0]`
      raise, recorded as `crashed`. */
  function Results(s: VoiceSnap, matches: Option<seq<string>>, confidences: Option<seq<real>>, now: int): (r: ResultsOutcome)
    ensures (matches.None? || matches.value == [] || confidences.None?) ==> r == ResultsOutcome(s, false)
    ensures r.crashed ==> r.snap == s
    ensures matches.Some? && matches.value != [] && confidences.Some? ==> (r.crashed <==> confidences.value == [])
    ensures !r.crashed && matches.Some? && matches.value != [] && confidences.Some? && confidences.value != [] ==>
      if confidences.value[0] >= VOICE_RECOGNITION_MIN_CONFIDENCE then
        r.snap == s.(state := Finished,
                     notices := s.notices + (if s.callback.Some? then [Notice(s.callback.value, RecognitionResult(matches.value[0], confidences.value[0]))] else []))
      else r.snap == HandleError(s, Unknown, now)
  {
    if matches.None? || matches.value == [] || confidences.None? then ResultsOutcome(s, false)
    else if confidences.value == [] then ResultsOutcome(s, true)
    else
      var confidence := confidences.value[0];
      if confidence >= VOICE_RECOGNITION_MIN_CONFIDENCE then
        var finished := s.(state := Finished);
        if s.callback.Some? then
          ResultsOutcome(finished.(notices := s.notices + [Notice(s.callback.value, RecognitionResult(matches.value[0], confidence))]), false)
        else ResultsOutcome(finished, false)
      else ResultsOutcome(HandleError(s, Unknown, now), false)
  }

  function RemoveAt(pending: seq<Task>, i: nat): seq<Task>
    requires i < |pending|
  {
    pending[..i] + pending[i + 1..]
  }

  /** The handler runs pending task i: the timeout, or a retry, which calls
      startVoiceRecognition again with the stored callback. */
  function FirePending(s: VoiceSnap, i: nat, env: VoiceEnv): (r: VoiceSnap)
    requires i < |s.pending|
    ensures s.pending[i].TimeoutTask? && s.state != Listening ==> r == s.(pending := RemoveAt(s.pending, i))
    ensures s.pending[i].TimeoutTask? && s.state == Listening ==>
      r == HandleError(s.(pending := RemoveAt(s.pending, i)), Timeout, env.now)
    ensures s.pending[i].RetryTask? && s.callback.None? ==> r == s.(pending := RemoveAt(s.pending, i))
  {
    var t := s.(pending := RemoveAt(s.pending, i));
    match s.pending[i]
    case TimeoutTask => HandleTimeout(t, env.now)
    case RetryTask(_) => if t.callback.Some? then Start(t, t.callback.value, env).snap else t
  }

  /** onLowMemory drops the recognizer only when IDLE. */
  function LowMemory(s: VoiceSnap): (r: VoiceSnap)
    ensures r == (if s.state == Idle then s.(hasRecognizer := false) else s)
  {
    if s.state == Idle then s.(hasRecognizer := false) else s
  }

  /** onConfigurationChanged drops the recognizer in every state. */
  function ConfigurationChanged(s: VoiceSnap): (r: VoiceSnap)
    ensures !r.hasRecognizer && r.(hasRecognizer := s.hasRecognizer) == s
  {
    s.(hasRecognizer := false)
  }

  lemma HasRetryAppend(pending: seq<Task>, t: Task)
    ensures HasRetry(pending + [t]) <==> HasRetry(pending) || t.RetryTask?
  {
    if HasRetry(pending + [t]) && !t.RetryTask? {
      var i :| 0 <= i < |pending + [t]| && (pending + [t])[i].RetryTask?;
      assert pending[i].RetryTask?;
    }
    if HasRetry(pending) {
      var i :| 0 <= i < |pending| && pending[i].RetryTask?;
      assert (pending + [t])[i].RetryTask?;
    }
    if t.RetryTask? {
      assert (pending + [t])[|pending|].RetryTask?;
    }
  }

  lemma HasRetryRemove(pending: seq<Task>, i: nat)
    requires i < |pending|
    ensures HasRetry(RemoveAt(pending, i)) ==> HasRetry(pending)
  {
    if HasRetry(RemoveAt(pending, i)) {
      var j :| 0 <= j < |RemoveAt(pending, i)| && RemoveAt(pending, i)[j].RetryTask?;
      if j < i {
        assert pending[j] == RemoveAt(pending, i)[j];
      } else {
        assert pending[j + 1] == RemoveAt(pending, i)[j];
      }
    }
  }

  lemma HandleErrorInv(s: VoiceSnap, error: VoiceError, now: int)
    requires Inv(s)
    ensures Inv(HandleError(s, error, now))
  {
    HasRetryAppend(s.pending, RetryTask(Backoff(s.retryCount)));
  }

  lemma StartInv(s: VoiceSnap, callback: CallbackId, env: VoiceEnv)
    requires Inv(s)
    ensures Inv(Start(s, callback, env).snap)
  {
    if s.state == Idle {
      assert !HasRetry(s.pending);
      HasRetryAppend(s.pending, TimeoutTask);
      var check := P.CheckMicrophone(s.perms, env.sdk, env.micGranted);
      HandleErrorInv(s, Network, env.now);
      HandleErrorInv(s, NotAvailable, env.now);
      HandleErrorInv(s.(perms := check.state), NoPermission, env.now);
      var registered := s.(perms := check.state, callback := Some(callback));
      var claimed := registered.(audio := A.Initialize(registered.audio, env.audio).state);
      HandleErrorInv(claimed, AudioSession, env.now);
      HandleErrorInv(claimed, NotAvailable, env.now);
      HandleErrorInv(claimed.(hasRecognizer := true), Unknown, env.now);
    }
  }

  /** The retry counter never leaves 0..MAX_RETRY_COUNT and a pending
      retry always finds the machine outside IDLE, across every operation. */
  lemma {:induction false} OperationsPreserveInv(s: VoiceSnap, callback: CallbackId, env: VoiceEnv, speechError: int,
                                                 matches: Option<seq<string>>, confidences: Option<seq<real>>)
    requires Inv(s)
    ensures Inv(Start(s, callback, env).snap)
    ensures Inv(Stop(s))
    ensures Inv(HandleError(s, MapSpeechRecognizerError(speechError), env.now))
    ensures Inv(HandleTimeout(s, env.now))
    ensures Inv(Results(s, matches, confidences, env.now).snap)
    ensures Inv(s.(pending := []))
    ensures Inv(s.(state := Listening)) && Inv(s.(state := Processing))
    ensures Inv(LowMemory(s)) && Inv(ConfigurationChanged(s))
    ensures forall i :: 0 <= i < |s.pending| ==> Inv(FirePending(s, i, env))
  {
    StartInv(s, callback, env);
    HandleErrorInv(s, MapSpeechRecognizerError(speechError), env.now);
    HandleErrorInv(s, Timeout, env.now);
    HandleErrorInv(s, Unknown, env.now);
    forall i | 0 <= i < |s.pending|
      ensures Inv(FirePending(s, i, env))
    {
      HasRetryRemove(s.pending, i);
      var t := s.(pending := RemoveAt(s.pending, i));
      HandleErrorInv(t, Timeout, env.now);
      if t.callback.Some? {
        StartInv(t, t.callback.value, env);
      }
    }
  }

  /** A self-scheduled retry never starts anything: when it fires, the
      machine is not IDLE (the invariant), so startVoiceRecognition refuses
      and the only change is that the retry message is gone. */
  lemma RetryNeverStarts(s: VoiceSnap, i: nat, env: VoiceEnv)
    requires Inv(s) && i < |s.pending| && s.pending[i].RetryTask?
    ensures FirePending(s, i, env) == s.(pending := RemoveAt(s.pending, i))
  {
    assert HasRetry(s.pending);
  }

  /** After any handled error the machine is in ERROR, and a new start is
      refused without any change until stopVoiceRecognition runs. */
  lemma ErrorBlocksStart(s: VoiceSnap, error: VoiceError, callback: CallbackId, env: VoiceEnv)
    ensures var e := HandleError(s, error, env.now);
      Start(e, callback, env) == StartOutcome(e, false)
  {
  }

  /** A failed prerequisite check reports to the callback stored by an
      earlier start, or to none, never to the caller's callback. */
  lemma PrerequisiteFailureUsesOldCallback(s: VoiceSnap, callback: CallbackId, env: VoiceEnv)
    requires s.state == Idle && (!env.networkUp || env.powerSave || !P.CheckMicrophone(s.perms, env.sdk, env.micGranted).granted)
    ensures Start(s, callback, env).snap.callback == s.callback
  {
  }

  /** When the audio session was claimed but the recognizer could not be
      created or could not start listening, the session stays active. */
  lemma LateFailureKeepsAudioSession(s: VoiceSnap, callback: CallbackId, env: VoiceEnv)
    requires s.state == Idle && env.networkUp && !env.powerSave
    requires P.CheckMicrophone(s.perms, env.sdk, env.micGranted).granted
    requires !s.audio.active && A.InitSucceeds(env.audio)
    requires (!s.hasRecognizer && env.createFails) || env.listenFails
    ensures var r := Start(s, callback, env);
      !r.started && r.snap.state == Error && r.snap.audio.active
  {
  }

  /** Stopping from any state, then stopping again, reaches the same state
      apart from one more end notice when a callback is stored. */
  lemma StopTwice(s: VoiceSnap)
    ensures Stop(Stop(s)).(notices := []) == Stop(s).(notices := [])
  {
  }

  class VoiceManager {
    const audio: A.AudioSessionManager
    const permissions: P.PermissionManager

    var state: RecognitionState
    var retryCount: nat
    var lastRetry: int
    var callback: Option<CallbackId>
    var hasRecognizer: bool
    var pending: seq<Task>
    var notices: seq<Notice>

    function Snapshot(): VoiceSnap
      reads this, audio, permissions
    {
      VoiceSnap(state, retryCount, lastRetry, callback, hasRecognizer, pending, notices, audio.State(), permissions.State())
    }

    ghost predicate Valid()
      reads this, audio, permissions
    {
      Inv(Snapshot())
    }

    constructor (audio: A.AudioSessionManager, permissions: P.PermissionManager)
      ensures this.audio == audio && this.permissions == permissions
      ensures Snapshot() == VoiceSnap(Idle, 0, 0, None, false, [], [], audio.State(), permissions.State())
      ensures Valid()
    {
      this.audio := audio;
      this.permissions := permissions;
      state := Idle;
      retryCount := 0;
      lastRetry := 0;
      callback := None;
      hasRecognizer := false;
      pending := [];
      notices := [];
    }

    function GetCurrentState(): (r: RecognitionState)
      reads this
      ensures r == Snapshot().state
    {
      state
    }

    method HandleRecognitionError(error: VoiceError, now: int)
      modifies this
      ensures Snapshot() == HandleError(old(Snapshot()), error, now)
    {
      state := Error;
      if retryCount < MAX_RETRY_COUNT && error != NoPermission {
        var backoff := BACKOFF_BASE_MS * Pow2(retryCount);
        if now - lastRetry >= backoff {
          retryCount := retryCount + 1;
          lastRetry := now;
          pending := pending + [RetryTask(backoff)];
          return;
        }
      }
      if callback.Some? {
        notices := notices + [Notice(callback.value, RecognitionError(error))];
      }
    }

    method CheckPrerequisites(env: VoiceEnv) returns (ok: bool)
      requires state == Idle
      modifies this, permissions
      ensures ok <==> env.networkUp && !env.powerSave && P.CheckMicrophone(old(permissions.State()), env.sdk, env.micGranted).granted
      ensures var checked := old(Snapshot()).(perms := permissions.State());
        permissions.State() == (if env.networkUp && !env.powerSave then P.CheckMicrophone(old(permissions.State()), env.sdk, env.micGranted).state else old(permissions.State()))
        && (if !env.networkUp then Snapshot() == HandleError(old(Snapshot()), Network, env.now)
            else if env.powerSave then Snapshot() == HandleError(old(Snapshot()), NotAvailable, env.now)
            else if !ok then Snapshot() == HandleError(checked, NoPermission, env.now)
            else Snapshot() == checked)
    {
      if !env.networkUp {
        HandleRecognitionError(Network, env.now);
        return false;
      }
      if env.powerSave {
        HandleRecognitionError(NotAvailable, env.now);
        return false;
      }
      var granted := permissions.CheckMicrophonePermission(env.sdk, env.micGranted);
      if !granted {
        HandleRecognitionError(NoPermission, env.now);
        return false;
      }
      return true;
    }

    method StartVoiceRecognition(cb: CallbackId, env: VoiceEnv) returns (started: bool)
      requires Valid()
      modifies this, audio, permissions
      ensures Valid()
      ensures Snapshot() == Start(old(Snapshot()), cb, env).snap
      ensures started == Start(old(Snapshot()), cb, env).started
    {
      StartInv(Snapshot(), cb, env);
      if state != Idle {
        return false;
      }
      var ready := CheckPrerequisites(env);
      if !ready {
        return false;
      }
      callback := Some(cb);
      var claimed := audio.InitializeAudioSession(env.audio);
      if !claimed {
        HandleRecognitionError(AudioSession, env.now);
        return false;
      }
      if !hasRecognizer {
        if env.createFails {
          HandleRecognitionError(NotAvailable, env.now);
          return false;
        }
        hasRecognizer := true;
      }
      if env.listenFails {
        HandleRecognitionError(Unknown, env.now);
        return false;
      }
      state := Listening;
      pending := pending + [TimeoutTask];
      notices := notices + [Notice(cb, RecognitionStarted)];
      return true;
    }

    method StopVoiceRecognition()
      requires Valid()
      modifies this, audio
      ensures Valid()
      ensures Snapshot() == Stop(old(Snapshot()))
    {
      pending := [];
      audio.ReleaseAudioSession();
      state := Idle;
      retryCount := 0;
      lastRetry := 0;
      if callback.Some? {
        notices := notices + [Notice(callback.value, RecognitionEnded)];
      }
    }

    method OnReadyForSpeech()
      requires Valid()
      modifies this
      ensures Valid()
      ensures Snapshot() == old(Snapshot()).(pending := [])
    {
      pending := [];
    }

    method OnBeginningOfSpeech()
      requires Valid()
      modifies this
      ensures Valid()
      ensures Snapshot() == old(Snapshot()).(state := Listening)
    {
      state := Listening;
    }

    method OnEndOfSpeech()
      requires Valid()
      modifies this
      ensures Valid()
      ensures Snapshot() == old(Snapshot()).(state := Processing)
    {
      state := Processing;
    }

    method OnError(speechError: int, now: int)
      requires Valid()
      modifies this
      ensures Valid()
      ensures Snapshot() == HandleError(old(Snapshot()), MapSpeechRecognizerError(speechError), now)
    {
      HandleErrorInv(Snapshot(), MapSpeechRecognizerError(speechError), now);
      HandleRecognitionError(MapSpeechRecognizerError(speechError), now);
    }

    method OnResults(matches: Option<seq<string>>, confidences: Option<seq<real>>, now: int) returns (crashed: bool)
      requires Valid()
      modifies this
      ensures Valid()
      ensures Snapshot() == Results(old(Snapshot()), matches, confidences, now).snap
      ensures crashed == Results(old(Snapshot()), matches, confidences, now).crashed
    {
      HandleErrorInv(Snapshot(), Unknown, now);
      if matches.None? || matches.value == [] || confidences.None? {
        return false;
      }
      if confidences.value == [] {
        return true;
      }
      var result := matches.value[0];
      var confidence := confidences.value[0];
      if confidence >= VOICE_RECOGNITION_MIN_CONFIDENCE {
        state := Finished;
        if callback.Some? {
          notices := notices + [Notice(callback.value, RecognitionResult(result, confidence))];
        }
      } else {
        HandleRecognitionError(Unknown, now);
      }
      return false;
    }

    method HandleTimeoutTask(now: int)
      requires Valid()
      modifies this
      ensures Valid()
      ensures Snapshot() == HandleTimeout(old(Snapshot()), now)
    {
      HandleErrorInv(Snapshot(), Timeout, now);
      if state == Listening {
        HandleRecognitionError(Timeout, now);
      }
    }

    /** The handler delivers pending message i. */
    method RunPending(i: nat, env: VoiceEnv)
      requires Valid() && i < |pending|
      modifies this, audio, permissions
      ensures Valid()
      ensures Snapshot() == FirePending(old(Snapshot()), i, env)
    {
      OperationsPreserveInv(Snapshot(), 0, env, 0, None, None);
      HasRetryRemove(pending, i);
      var task := pending[i];
      pending := RemoveAt(pending, i);
      match task
      case TimeoutTask =>
        HandleTimeoutTask(env.now);
      case RetryTask(_) =>
        if callback.Some? {
          var _ := StartVoiceRecognition(callback.value, env);
        }
    }

    method OnLowMemory()
      requires Valid()
      modifies this
      ensures Valid()
      ensures Snapshot() == LowMemory(old(Snapshot()))
    {
      if state == Idle {
        hasRecognizer := false;
      }
    }

    method OnConfigurationChanged()
      requires Valid()
      modifies this
      ensures Valid()
      ensures Snapshot() == ConfigurationChanged(old(Snapshot()))
    {
      hasRecognizer := false;
    }
  }
}
