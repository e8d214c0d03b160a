/** The study-session machine (ai.membo.managers.StudyManager). The FSRS
    arithmetic is left abstract: `Fsrs` carries the initial parameters and
    two uninterpreted functions for the next-review calculation and the
    retention estimate. Session callbacks are appended to a log, as in the
    voice machine; the voice callback's handlers are methods the environment
    calls with the notices the voice machine addressed to it. */
module Study {
  import opened Base
  import opened StudyModes
  import V = Voice
  import VC = VoiceConstants

  /** A flash card: its identity, FSRS memory state, and next review time
      in milliseconds (None for a card never scheduled). */
  datatype Card = Card(id: string, stability: real, difficulty: real, nextReview: Option<int>)

  /** What calculateNextReview produces for a card. */
  datatype Review = Review(stability: real, difficulty: real, nextReview: int)

  /** FSRSParameters together with the two formulas that use them. */
  datatype Fsrs = Fsrs(
    initialStability: real,
    initialDifficulty: real,
    review: (Card, int, int) -> Review,   // card, rating, now
    retention: (Card, int) -> real)       // card, rating

  datatype ErrorReason =
    | InvalidModeOrCount
    | LowConfidenceVoice
    | VoiceRecognitionFailed(code: int)

  /** One invocation of StudySessionCallback. */
  datatype StudyEvent =
    | SessionStarted(mode: string, cardCount: int)
    | CardPresented(card: Card)
    | AnswerProcessed(card: Card, retention: real)
    | SessionCompleted
    | StudyError(reason: ErrorReason)

  datatype StudyNotice = StudyNotice(to: CallbackId, event: StudyEvent)

  /** The manager's fields (the session state is reduced to its
      voice-listening flag) together with the voice machine's state. */
  datatype StudySnap = StudySnap(
    mode: string,
    cards: seq<Card>,
    index: nat,
    active: bool,
    callback: Option<CallbackId>,
    voiceListening: bool,
    events: seq<StudyNotice>,
    voice: V.VoiceSnap)

  datatype StartOutcome = StartOutcome(snap: StudySnap, ok: bool)

  /** A voice callback handler either runs or raises (a null session
      callback, or an index past the card list). */
  datatype HandlerOutcome = HandlerOutcome(snap: StudySnap, crashed: bool)

  /** validateStudyMode: the card count must lie within the mode's range. */
  predicate ValidateStudyMode(mode: string, cardCount: int): (r: bool)
    ensures r ==> (mode == STANDARD || mode == VOICE || mode == QUIZ)
    ensures r ==> STANDARD_MIN_CARDS <= cardCount <= STANDARD_MAX_CARDS
  {
    if mode == STANDARD then STANDARD_MIN_CARDS <= cardCount <= STANDARD_MAX_CARDS
    else if mode == VOICE then VOICE_MIN_CARDS <= cardCount <= VOICE_MAX_CARDS
    else if mode == QUIZ then QUIZ_MIN_CARDS <= cardCount <= QUIZ_MAX_CARDS
    else false
  }

  /** The ranges of the three modes, and nothing accepted for another mode. */
  lemma ValidateStudyModeRanges(mode: string, n: int)
    ensures ValidateStudyMode(mode, n) <==>
      (mode == "standard" && 10 <= n <= 50) || (mode == "voice" && 10 <= n <= 30) || (mode == "quiz" && 20 <= n <= 50)
  {
  }

  /** What a live manager keeps true: an active session has a callback, a
      card count its mode accepts and its cursor on a card; an inactive one
      has no cards and its cursor at 0; the voice machine keeps its own
      invariant. */
  predicate Inv(s: StudySnap)
  {
    (s.active ==> s.index < |s.cards| && s.callback.Some? && ValidateStudyMode(s.mode, |s.cards|))
    && (!s.active ==> s.index == 0 && s.cards == [])
    && V.Inv(s.voice)
  }

  function Emit(s: StudySnap, event: StudyEvent): StudySnap
    requires s.callback.Some?
  {
    s.(events := s.events + [StudyNotice(s.callback.value, event)])
  }

  /** The per-card step of scheduleCards. */
  function Scheduled(c: Card, fsrs: Fsrs, now: int): (r: Card)
    ensures c.nextReview.Some? ==> r == c
    ensures c.nextReview.None? ==>
      r == Card(c.id, fsrs.initialStability, fsrs.initialDifficulty, Some(now))
  {
    if c.nextReview.None? then c.(stability := fsrs.initialStability, difficulty := fsrs.initialDifficulty, nextReview := Some(now))
    else c
  }

  /** scheduleCards over the whole list. */
  function ScheduleAll(cards: seq<Card>, fsrs: Fsrs, now: int): (r: seq<Card>)
    ensures |r| == |cards|
    ensures forall i :: 0 <= i < |r| ==> r[i] == Scheduled(cards[i], fsrs, now)
  {
    seq(|cards|, i requires 0 <= i < |cards| => Scheduled(cards[i], fsrs, now))
  }

  /** After scheduling every card has a review time and keeps its identity;
      scheduling again changes nothing. */
  lemma ScheduleAllProperties(cards: seq<Card>, fsrs: Fsrs, now: int, later: int)
    ensures forall i :: 0 <= i < |cards| ==>
      ScheduleAll(cards, fsrs, now)[i].nextReview.Some? && ScheduleAll(cards, fsrs, now)[i].id == cards[i].id
    ensures ScheduleAll(ScheduleAll(cards, fsrs, now), fsrs, later) == ScheduleAll(cards, fsrs, now)
  {
  }

  /** restartVoiceRecognition: in voice mode, stop then start again with
      the manager's own voice callback. */
  function Restart(s: StudySnap, voiceCallback: CallbackId, venv: V.VoiceEnv): (r: StudySnap)
    ensures s.mode != VOICE ==> r == s
    ensures s.mode == VOICE ==> r == s.(voice := V.Start(V.Stop(s.voice), voiceCallback, venv).snap)
  {
    if s.mode == VOICE then s.(voice := V.Start(V.Stop(s.voice), voiceCallback, venv).snap) else s
  }

  /** presentNextCard. */
  function PresentNext(s: StudySnap, voiceCallback: CallbackId, venv: V.VoiceEnv): (r: StudySnap)
    requires s.index < |s.cards| ==> s.callback.Some?
    ensures s.index >= |s.cards| ==> r == s
    ensures s.index < |s.cards| ==>
      r == Restart(Emit(s, CardPresented(s.cards[s.index])), voiceCallback, venv)
  {
    if s.index < |s.cards| then Restart(Emit(s, CardPresented(s.cards[s.index])), voiceCallback, venv)
    else s
  }

  /** startStudySession. */
  function Start(s: StudySnap, mode: string, cards: seq<Card>, callback: CallbackId,
                 voiceCallback: CallbackId, venv: V.VoiceEnv, fsrs: Fsrs, now: int): (r: StartOutcome)
    ensures s.active ==> r == StartOutcome(s, false)
    ensures !s.active && !ValidateStudyMode(mode, |cards|) ==>
      r == StartOutcome(s.(events := s.events + [StudyNotice(callback, StudyError(InvalidModeOrCount))]), false)
    ensures r.ok <==> !s.active && ValidateStudyMode(mode, |cards|)
    ensures r.ok ==>
      r.snap.active && r.snap.index == 0 && r.snap.mode == mode && r.snap.callback == Some(callback)
      && r.snap.cards == ScheduleAll(cards, fsrs, now)
      && |r.snap.events| == |s.events| + 2
      && r.snap.events[|s.events|] == StudyNotice(callback, SessionStarted(mode, |cards|))
      && r.snap.events[|s.events| + 1] == StudyNotice(callback, CardPresented(ScheduleAll(cards, fsrs, now)[0]))
  {
    if s.active then StartOutcome(s, false)
    else if !ValidateStudyMode(mode, |cards|) then
      StartOutcome(s.(events := s.events + [StudyNotice(callback, StudyError(InvalidModeOrCount))]), false)
    else StartOutcome(Open(s, mode, cards, callback, voiceCallback, venv, fsrs, now), true)
  }

  /** The accepting branch of startStudySession: the fields are set, voice
      recognition started in voice mode, the cards scheduled, the start
      reported and the first card presented. */
  function Open(s: StudySnap, mode: string, cards: seq<Card>, callback: CallbackId,
                voiceCallback: CallbackId, venv: V.VoiceEnv, fsrs: Fsrs, now: int): (r: StudySnap)
    ensures r.active && r.index == 0 && r.mode == mode && r.callback == Some(callback)
    ensures r.cards == ScheduleAll(cards, fsrs, now)
    ensures |r.events| == |s.events| + (if cards == [] then 1 else 2) && r.events[..|s.events|] == s.events
    ensures r.events[|s.events|] == StudyNotice(callback, SessionStarted(mode, |cards|))
    ensures cards != [] ==> r.events[|s.events| + 1] == StudyNotice(callback, CardPresented(r.cards[0]))
  {
    var begun := s.(callback := Some(callback), mode := mode, cards := cards, index := 0, active := true, voiceListening := false);
    var voiced := if mode == VOICE then begun.(voice := V.Start(begun.voice, voiceCallback, venv).snap) else begun;
    var scheduled := voiced.(cards := ScheduleAll(voiced.cards, fsrs, now));
    PresentNext(Emit(scheduled, SessionStarted(mode, |cards|)), voiceCallback, venv)
  }

  /** endStudySession. The stored callback and mode stay as they were. */
  function End(s: StudySnap): (r: StudySnap)
    requires s.active ==> s.callback.Some?
    ensures !s.active ==> r == s
    ensures s.active ==>
      !r.active && r.cards == [] && r.index == 0 && !r.voiceListening
      && r.mode == s.mode && r.callback == s.callback
      && r.events == s.events + [StudyNotice(s.callback.value, SessionCompleted)]
      && r.voice == (if s.mode == VOICE then V.Stop(s.voice) else s.voice)
  {
    if !s.active then s
    else
      var stopped := if s.mode == VOICE then s.(voice := V.Stop(s.voice)) else s;
      Emit(stopped, SessionCompleted).(active := false, cards := [], index := 0, voiceListening := false)
  }

  /** The card after calculateNextReview has updated it. */
  function Reviewed(c: Card, rating: int, fsrs: Fsrs, now: int): Card
  {
    var rv := fsrs.review(c, rating, now);
    c.(stability := rv.stability, difficulty := rv.difficulty, nextReview := Some(rv.nextReview))
  }

  /** submitCardResponse: a no-op unless a card is under the cursor;
      otherwise the card is reviewed, the answer reported, the cursor
      advanced, and the next card presented or the session ended. */
  function Submit(s: StudySnap, rating: int, voiceCallback: CallbackId, venv: V.VoiceEnv, fsrs: Fsrs, now: int): (r: StudySnap)
    requires Inv(s)
    ensures !s.active || s.index >= |s.cards| ==> r == s
    ensures s.active && s.index + 1 < |s.cards| ==>
      r.active && r.index == s.index + 1 && |r.cards| == |s.cards| && r.mode == s.mode
      && r.cards[s.index] == Reviewed(s.cards[s.index], rating, fsrs, now)
      && (forall j :: 0 <= j < |s.cards| && j != s.index ==> r.cards[j] == s.cards[j])
    ensures s.active && s.index + 1 == |s.cards| ==> !r.active && r.cards == [] && r.index == 0
    ensures s.active ==>
      s.events + [StudyNotice(s.callback.value,
        AnswerProcessed(Reviewed(s.cards[s.index], rating, fsrs, now), fsrs.retention(Reviewed(s.cards[s.index], rating, fsrs, now), rating)))] <= r.events
  {
    if !s.active || s.index >= |s.cards| then s
    else
      var card := Reviewed(s.cards[s.index], rating, fsrs, now);
      var answered := Emit(s.(cards := s.cards[s.index := card]), AnswerProcessed(card, fsrs.retention(card, rating)));
      var advanced := answered.(index := s.index + 1);
      if advanced.index < |advanced.cards| then PresentNext(advanced, voiceCallback, venv)
      else End(advanced)
  }

  /** onRecognitionStarted and onRecognitionEnded of mVoiceCallback. */
  function SetListening(s: StudySnap, listening: bool): (r: StudySnap)
    ensures r.voiceListening == listening && r.(voiceListening := s.voiceListening) == s
  {
    s.(voiceListening := listening)
  }

  /** onRecognitionResult of mVoiceCallback: a confident answer is rated 3
      and submitted; anything else is reported and recognition restarted. */
  function OnVoiceResult(s: StudySnap, confidence: real, voiceCallback: CallbackId, venv: V.VoiceEnv, fsrs: Fsrs, now: int): (r: HandlerOutcome)
    requires Inv(s)
    ensures confidence >= VOICE_CONFIDENCE_THRESHOLD ==>
      (r.crashed <==> !s.active) && (s.active ==> r.snap == Submit(s, 3, voiceCallback, venv, fsrs, now))
    ensures confidence < VOICE_CONFIDENCE_THRESHOLD ==>
      (r.crashed <==> s.callback.None?)
      && (s.callback.Some? ==> r.snap == Restart(Emit(s, StudyError(LowConfidenceVoice)), voiceCallback, venv))
    ensures r.crashed ==> r.snap == s
  {
    if confidence >= VOICE_CONFIDENCE_THRESHOLD then
      if s.index >= |s.cards| then HandlerOutcome(s, true)
      else HandlerOutcome(Submit(s, EvaluateVoiceResponse(), voiceCallback, venv, fsrs, now), false)
    else if s.callback.None? then HandlerOutcome(s, true)
    else HandlerOutcome(Restart(Emit(s, StudyError(LowConfidenceVoice)), voiceCallback, venv), false)
  }

  /** evaluateVoiceResponse ignores the response and the card. */
  function EvaluateVoiceResponse(): int
  {
    3
  }

  /** onRecognitionError of mVoiceCallback. */
  function OnVoiceError(s: StudySnap, errorCode: int, voiceCallback: CallbackId, venv: V.VoiceEnv): (r: HandlerOutcome)
    ensures r.crashed <==> s.callback.None?
    ensures s.callback.Some? ==> r.snap == Restart(Emit(s, StudyError(VoiceRecognitionFailed(errorCode))), voiceCallback, venv)
    ensures r.crashed ==> r.snap == s
  {
    if s.callback.None? then HandlerOutcome(s, true)
    else HandlerOutcome(Restart(Emit(s, StudyError(VoiceRecognitionFailed(errorCode))), voiceCallback, venv), false)
  }

  lemma RestartInv(s: StudySnap, voiceCallback: CallbackId, venv: V.VoiceEnv)
    requires Inv(s)
    ensures Inv(Restart(s, voiceCallback, venv))
  {
    V.OperationsPreserveInv(s.voice, voiceCallback, venv, 0, None, None);
    V.OperationsPreserveInv(V.Stop(s.voice), voiceCallback, venv, 0, None, None);
  }

  lemma StartInv(s: StudySnap, mode: string, cards: seq<Card>, callback: CallbackId,
                 voiceCallback: CallbackId, venv: V.VoiceEnv, fsrs: Fsrs, now: int)
    requires Inv(s)
    ensures Inv(Start(s, mode, cards, callback, voiceCallback, venv, fsrs, now).snap)
  {
    if !s.active && ValidateStudyMode(mode, |cards|) {
      V.OperationsPreserveInv(s.voice, voiceCallback, venv, 0, None, None);
      var begun := s.(callback := Some(callback), mode := mode, cards := cards, index := 0, active := true, voiceListening := false);
      var voiced := if mode == VOICE then begun.(voice := V.Start(begun.voice, voiceCallback, venv).snap) else begun;
      var scheduled := voiced.(cards := ScheduleAll(voiced.cards, fsrs, now));
      var announced := Emit(scheduled, SessionStarted(mode, |cards|));
      RestartInv(Emit(announced, CardPresented(announced.cards[0])), voiceCallback, venv);
    }
  }

  lemma SubmitInv(s: StudySnap, rating: int, voiceCallback: CallbackId, venv: V.VoiceEnv, fsrs: Fsrs, now: int)
    requires Inv(s)
    ensures Inv(Submit(s, rating, voiceCallback, venv, fsrs, now))
  {
    if s.active && s.index + 1 < |s.cards| {
      var card := Reviewed(s.cards[s.index], rating, fsrs, now);
      var answered := Emit(s.(cards := s.cards[s.index := card]), AnswerProcessed(card, fsrs.retention(card, rating)));
      var advanced := answered.(index := s.index + 1);
      RestartInv(Emit(advanced, CardPresented(advanced.cards[advanced.index])), voiceCallback, venv);
    } else if s.active {
      V.OperationsPreserveInv(s.voice, voiceCallback, venv, 0, None, None);
    }
  }

  /** Submitting a sequence of ratings, one after the other. */
  function SubmitAll(s: StudySnap, ratings: seq<int>, voiceCallback: CallbackId, venv: V.VoiceEnv, fsrs: Fsrs, now: int): (r: StudySnap)
    requires Inv(s)
    ensures Inv(r)
    decreases |ratings|
  {
    if ratings == [] then s
    else
      SubmitInv(s, ratings[0], voiceCallback, venv, fsrs, now);
      SubmitAll(Submit(s, ratings[0], voiceCallback, venv, fsrs, now), ratings[1..], voiceCallback, venv, fsrs, now)
  }

  /** A session with n cards still to answer stays active through n - 1
      effective submits, with the cursor advanced by one each time, and the
      n-th submit ends it; later submits change nothing. */
  lemma {:induction false} ExactlyOneSubmitPerCard(s: StudySnap, ratings: seq<int>, voiceCallback: CallbackId, venv: V.VoiceEnv, fsrs: Fsrs, now: int)
    requires Inv(s) && s.active && |ratings| <= |s.cards| - s.index
    ensures var r := SubmitAll(s, ratings, voiceCallback, venv, fsrs, now);
      (r.active <==> |ratings| < |s.cards| - s.index)
      && (r.active ==> r.index == s.index + |ratings| && |r.cards| == |s.cards|)
      && (!r.active ==> r.cards == [] && r.index == 0)
    decreases |ratings|
  {
    if ratings != [] {
      var t := Submit(s, ratings[0], voiceCallback, venv, fsrs, now);
      SubmitInv(s, ratings[0], voiceCallback, venv, fsrs, now);
      if t.active {
        ExactlyOneSubmitPerCard(t, ratings[1..], voiceCallback, venv, fsrs, now);
      } else {
        assert ratings[1..] == [];
      }
    }
  }

  /** Once a session is over, submits change nothing. */
  lemma {:induction false} SubmitsAfterEndChangeNothing(s: StudySnap, ratings: seq<int>, voiceCallback: CallbackId, venv: V.VoiceEnv, fsrs: Fsrs, now: int)
    requires Inv(s) && !s.active
    ensures SubmitAll(s, ratings, voiceCallback, venv, fsrs, now) == s
    decreases |ratings|
  {
    if ratings != [] {
      SubmitsAfterEndChangeNothing(s, ratings[1..], voiceCallback, venv, fsrs, now);
    }
  }

  /** A low-confidence voice answer never moves the cursor or touches the
      cards. */
  lemma LowConfidenceKeepsCursor(s: StudySnap, confidence: real, voiceCallback: CallbackId, venv: V.VoiceEnv, fsrs: Fsrs, now: int)
    requires Inv(s) && confidence < VOICE_CONFIDENCE_THRESHOLD
    ensures var r := OnVoiceResult(s, confidence, voiceCallback, venv, fsrs, now).snap;
      r.index == s.index && r.cards == s.cards && r.active == s.active
  {
  }

  class StudyManager {
    const voice: V.VoiceManager
    const fsrs: Fsrs
    /** The identity of mVoiceCallback. */
    const voiceCallback: CallbackId

    var mode: string
    var cards: seq<Card>
    var index: nat
    var active: bool
    var callback: Option<CallbackId>
    var voiceListening: bool
    var events: seq<StudyNotice>

    function Snapshot(): StudySnap
      reads this, voice, voice.audio, voice.permissions
    {
      StudySnap(mode, cards, index, active, callback, voiceListening, events, voice.Snapshot())
    }

    ghost predicate Valid()
      reads this, voice, voice.audio, voice.permissions
    {
      Inv(Snapshot())
    }

    constructor (voice: V.VoiceManager, fsrs: Fsrs, voiceCallback: CallbackId)
      requires voice.Valid()
      ensures this.voice == voice && this.fsrs == fsrs && this.voiceCallback == voiceCallback
      ensures Snapshot() == StudySnap(STANDARD, [], 0, false, None, false, [], voice.Snapshot())
      ensures Valid()
    {
      this.voice := voice;
      this.fsrs := fsrs;
      this.voiceCallback := voiceCallback;
      mode := STANDARD;
      cards := [];
      index := 0;
      active := false;
      callback := None;
      voiceListening := false;
      events := [];
    }

    method ScheduleCards(now: int)
      modifies this
      ensures cards == ScheduleAll(old(cards), fsrs, now)
      ensures mode == old(mode) && index == old(index) && active == old(active) && callback == old(callback)
      ensures voiceListening == old(voiceListening) && events == old(events)
    {
      var i := 0;
      while i < |cards|
        invariant 0 <= i <= |cards| == |old(cards)|
        invariant forall j :: 0 <= j < i ==> cards[j] == Scheduled(old(cards)[j], fsrs, now)
        invariant forall j :: i <= j < |cards| ==> cards[j] == old(cards)[j]
        invariant mode == old(mode) && index == old(index) && active == old(active) && callback == old(callback)
        invariant voiceListening == old(voiceListening) && events == old(events)
      {
        var card := cards[i];
        if card.nextReview.None? {
          cards := cards[i := card.(stability := fsrs.initialStability, difficulty := fsrs.initialDifficulty, nextReview := Some(now))];
        }
        i := i + 1;
      }
    }

    method RestartVoiceRecognition(venv: V.VoiceEnv)
      requires voice.Valid()
      modifies voice, voice.audio, voice.permissions
      ensures voice.Valid()
      ensures Snapshot() == Restart(old(Snapshot()), voiceCallback, venv)
    {
      if mode == VOICE {
        voice.StopVoiceRecognition();
        var _ := voice.StartVoiceRecognition(voiceCallback, venv);
      }
    }

    method PresentNextCard(venv: V.VoiceEnv)
      requires voice.Valid() && (index < |cards| ==> callback.Some?)
      modifies this, voice, voice.audio, voice.permissions
      ensures voice.Valid()
      ensures Snapshot() == PresentNext(old(Snapshot()), voiceCallback, venv)
    {
      if index < |cards| {
        events := events + [StudyNotice(callback.value, CardPresented(cards[index]))];
        RestartVoiceRecognition(venv);
      }
    }

    method OpenSession(mode: string, cards: seq<Card>, callback: CallbackId, venv: V.VoiceEnv, now: int)
      requires voice.Valid()
      modifies this, voice, voice.audio, voice.permissions
      ensures voice.Valid()
      ensures Snapshot() == Open(old(Snapshot()), mode, cards, callback, voiceCallback, venv, fsrs, now)
    {
      ghost var s := Snapshot();
      this.callback := Some(callback);
      this.mode := mode;
      this.cards := cards;
      index := 0;
      active := true;
      voiceListening := false;
      ghost var begun := s.(callback := Some(callback), mode := mode, cards := cards, index := 0, active := true, voiceListening := false);
      assert Snapshot() == begun;
      if mode == VOICE {
        var _ := voice.StartVoiceRecognition(voiceCallback, venv);
      }
      ghost var voiced := if mode == VOICE then begun.(voice := V.Start(begun.voice, voiceCallback, venv).snap) else begun;
      assert Snapshot() == voiced;
      ScheduleCards(now);
      assert Snapshot() == voiced.(cards := ScheduleAll(voiced.cards, fsrs, now));
      events := events + [StudyNotice(callback, SessionStarted(mode, |cards|))];
      PresentNextCard(venv);
    }

    method StartStudySession(mode: string, cards: seq<Card>, callback: CallbackId, venv: V.VoiceEnv, now: int) returns (ok: bool)
      requires Valid()
      modifies this, voice, voice.audio, voice.permissions
      ensures Valid()
      ensures Snapshot() == Start(old(Snapshot()), mode, cards, callback, voiceCallback, venv, fsrs, now).snap
      ensures ok == Start(old(Snapshot()), mode, cards, callback, voiceCallback, venv, fsrs, now).ok
    {
      StartInv(Snapshot(), mode, cards, callback, voiceCallback, venv, fsrs, now);
      if active {
        return false;
      }
      if !ValidateStudyMode(mode, |cards|) {
        events := events + [StudyNotice(callback, StudyError(InvalidModeOrCount))];
        return false;
      }
      OpenSession(mode, cards, callback, venv, now);
      return true;
    }

    /** Valid(), or the moment inside submitCardResponse when the cursor has
        just passed the last card. */
    ghost predicate Closable()
      reads this, voice, voice.audio, voice.permissions
    {
      V.Inv(voice.Snapshot()) && (active ==> callback.Some?) && (!active ==> Valid())
    }

    method EndStudySession()
      requires Closable()
      modifies this, voice, voice.audio, voice.permissions
      ensures Valid()
      ensures Snapshot() == End(old(Snapshot()))
    {
      if !active {
        return;
      }
      if mode == VOICE {
        voice.StopVoiceRecognition();
      }
      events := events + [StudyNotice(callback.value, SessionCompleted)];
      active := false;
      cards := [];
      index := 0;
      voiceListening := false;
    }

    method SubmitCardResponse(rating: int, venv: V.VoiceEnv, now: int)
      requires Valid()
      modifies this, voice, voice.audio, voice.permissions
      ensures Valid()
      ensures Snapshot() == Submit(old(Snapshot()), rating, voiceCallback, venv, fsrs, now)
    {
      SubmitInv(Snapshot(), rating, voiceCallback, venv, fsrs, now);
      if !active || index >= |cards| {
        return;
      }
      var card := cards[index];
      var rv := fsrs.review(card, rating, now);
      card := card.(stability := rv.stability, difficulty := rv.difficulty, nextReview := Some(rv.nextReview));
      cards := cards[index := card];
      var retention := fsrs.retention(card, rating);
      events := events + [StudyNotice(callback.value, AnswerProcessed(card, retention))];
      index := index + 1;
      if index < |cards| {
        PresentNextCard(venv);
      } else {
        EndStudySession();
      }
    }

    method OnRecognitionStarted()
      requires Valid()
      modifies this
      ensures Valid()
      ensures Snapshot() == SetListening(old(Snapshot()), true)
    {
      voiceListening := true;
    }

    method OnRecognitionEnded()
      requires Valid()
      modifies this
      ensures Valid()
      ensures Snapshot() == SetListening(old(Snapshot()), false)
    {
      voiceListening := false;
    }

    method OnRecognitionResult(result: string, confidence: real, venv: V.VoiceEnv, now: int) returns (crashed: bool)
      requires Valid()
      modifies this, voice, voice.audio, voice.permissions
      ensures Valid()
      ensures Snapshot() == OnVoiceResult(old(Snapshot()), confidence, voiceCallback, venv, fsrs, now).snap
      ensures crashed == OnVoiceResult(old(Snapshot()), confidence, voiceCallback, venv, fsrs, now).crashed
    {
      if confidence >= VOICE_CONFIDENCE_THRESHOLD {
        if index >= |cards| {
          return true;
        }
        SubmitCardResponse(EvaluateVoiceResponse(), venv, now);
        return false;
      }
      if callback.None? {
        return true;
      }
      RestartInv(Emit(Snapshot(), StudyError(LowConfidenceVoice)), voiceCallback, venv);
      events := events + [StudyNotice(callback.value, StudyError(LowConfidenceVoice))];
      RestartVoiceRecognition(venv);
      return false;
    }

    method OnRecognitionError(errorCode: int, venv: V.VoiceEnv) returns (crashed: bool)
      requires Valid()
      modifies this, voice, voice.audio, voice.permissions
      ensures Valid()
      ensures Snapshot() == OnVoiceError(old(Snapshot()), errorCode, voiceCallback, venv).snap
      ensures crashed == OnVoiceError(old(Snapshot()), errorCode, voiceCallback, venv).crashed
    {
      if callback.None? {
        return true;
      }
      RestartInv(Emit(Snapshot(), StudyError(VoiceRecognitionFailed(errorCode))), voiceCallback, venv);
      events := events + [StudyNotice(callback.value, StudyError(VoiceRecognitionFailed(errorCode)))];
      RestartVoiceRecognition(venv);
      return false;
    }
  }
}
