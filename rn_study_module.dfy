/** The React Native study bridge (ai.membo.modules.RNStudyModule). It keeps
    its own session flag and a per-rating result cache in front of the study
    manager. The work that the module posts to the main-thread handler is a
    FIFO queue of posted tasks that the environment runs one at a time;
    promise settlements are appended to a reply log. */
module StudyBridge {
  import opened Base
  import opened StudyModes
  import S = Study
  import V = Voice

  const SESSION_ACTIVE: string := "SESSION_ACTIVE"
  const INVALID_MODE: string := "INVALID_MODE"
  const NO_CARDS: string := "NO_CARDS"
  const START_FAILED: string := "START_FAILED"
  const NO_SESSION: string := "NO_SESSION"
  const INVALID_RATING: string := "INVALID_RATING"
  const EXCEPTION: string := "EXCEPTION"

  const MIN_RATING: int := 1
  const MAX_RATING: int := 5

  /** The identity of a JavaScript promise handed to a bridge method. */
  type PromiseId = nat

  /** The maps a promise is resolved with. */
  datatype Payload = StartPayload(cardCount: int) | SubmitPayload(rating: int) | EndPayload

  datatype Reply = Resolved(payload: Payload) | Rejected(code: string)

  datatype PromiseReply = PromiseReply(promise: PromiseId, reply: Reply)

  /** A runnable waiting on the main-thread handler. */
  datatype Posted =
    | PostedStart(mode: string, cards: seq<S.Card>, promise: PromiseId)
    | PostedSubmit(rating: int, promise: PromiseId)
    | PostedEnd(promise: PromiseId)

  /** The module's fields, with the study manager's state. The result cache
      is keyed by the rating: its source key "response_<rating>" is a
      different string for every rating. */
  datatype BridgeSnap = BridgeSnap(
    active: bool,
    cache: map<int, Payload>,
    posted: seq<Posted>,
    replies: seq<PromiseReply>,
    study: S.StudySnap)

  /** What the bridge keeps true: every cached entry is the result map of a
      valid rating, only valid ratings are posted, and the study manager
      keeps its invariant. */
  predicate Inv(b: BridgeSnap)
  {
    (forall k :: k in b.cache ==> MIN_RATING <= k <= MAX_RATING && b.cache[k] == SubmitPayload(k))
    && (forall i :: 0 <= i < |b.posted| && b.posted[i].PostedSubmit? ==> MIN_RATING <= b.posted[i].rating <= MAX_RATING)
    && S.Inv(b.study)
  }

  /** validateStudyMode of the bridge: a null mode is rejected too. */
  predicate ValidMode(mode: Option<string>): (r: bool)
    ensures r <==> mode.Some? && exists n :: S.ValidateStudyMode(mode.value, n)
  {
    var ok := mode.Some? && (mode.value == STANDARD || mode.value == VOICE || mode.value == QUIZ);
    assert ok ==> S.ValidateStudyMode(mode.value, QUIZ_MIN_CARDS);
    ok
  }

  /** An id convertToCardList keeps. */
  predicate Kept(id: Option<string>)
  {
    id.Some? && id.value != []
  }

  /** The ids convertToCardList keeps, in order. */
  function KeptIds(ids: seq<Option<string>>): (r: seq<string>)
    ensures |r| <= |ids|
    ensures forall j :: 0 <= j < |r| ==> r[j] != []
  {
    if ids == [] then []
    else KeptIds(ids[..|ids| - 1]) + (if Kept(ids[|ids| - 1]) then [ids[|ids| - 1].value] else [])
  }

  /** An entry of the JavaScript card-id array: a string or null, which
      `getString` returns, or a value of another type, on which it raises. */
  datatype CardIdEntry = IdString(value: Option<string>) | IdOther

  predicate AllStrings(entries: seq<CardIdEntry>)
  {
    forall i :: 0 <= i < |entries| ==> entries[i].IdString?
  }

  /** What `getString` returns for each entry (read only when every entry
      is a string or null). */
  function Values(entries: seq<CardIdEntry>): (r: seq<Option<string>>)
    ensures |r| == |entries|
    ensures forall i :: 0 <= i < |entries| && entries[i].IdString? ==> r[i] == entries[i].value
  {
    seq(|entries|, i requires 0 <= i < |entries| => if entries[i].IdString? then entries[i].value else None)
  }

  /** The outcome of convertToCardList: None when it raises, on a null
      array or on an entry that is not a string. */
  function Converted(ids: Option<seq<CardIdEntry>>): (r: Option<seq<S.Card>>)
    ensures r.None? <==> ids.None? || exists i :: 0 <= i < |ids.value| && ids.value[i].IdOther?
  {
    if ids.None? || !AllStrings(ids.value) then None else Some(CardList(KeptIds(Values(ids.value))))
  }

  /** A card constructed from its id alone: never scheduled. */
  function NewCard(id: string): S.Card
  {
    S.Card(id, 0.0, 0.0, None)
  }

  function CardList(ids: seq<string>): (r: seq<S.Card>)
    ensures |r| == |ids| && forall i :: 0 <= i < |ids| ==> r[i] == NewCard(ids[i])
  {
    seq(|ids|, i requires 0 <= i < |ids| => NewCard(ids[i]))
  }

  /** Keeping ids distributes over concatenation, so the kept ids appear
      in input order; a single id is kept iff it is non-null and non-empty. */
  lemma {:induction false} KeptIdsAppend(a: seq<Option<string>>, b: seq<Option<string>>)
    ensures KeptIds(a + b) == KeptIds(a) + KeptIds(b)
    decreases |b|
  {
    if b == [] {
      assert a + b == a;
    } else {
      var b' := b[..|b| - 1];
      assert (a + b)[..|a + b| - 1] == a + b';
      assert (a + b)[|a + b| - 1] == b[|b| - 1];
      KeptIdsAppend(a, b');
    }
  }

  lemma KeptIdsSingle(id: Option<string>)
    ensures KeptIds([id]) == if Kept(id) then [id.value] else []
  {
    assert [id][..0] == [];
  }

  /** An id is kept iff some input position holds it, non-null and
      non-empty. */
  lemma {:induction false} KeptIdsMembers(ids: seq<Option<string>>, x: string)
    ensures x in KeptIds(ids) <==> exists i :: 0 <= i < |ids| && ids[i] == Some(x) && x != []
    decreases |ids|
  {
    if ids != [] {
      var init := ids[..|ids| - 1];
      KeptIdsMembers(init, x);
      if x in KeptIds(init) {
        var i :| 0 <= i < |init| && init[i] == Some(x) && x != [];
        assert ids[i] == Some(x);
      }
      if exists i :: 0 <= i < |ids| && ids[i] == Some(x) && x != [] {
        var i :| 0 <= i < |ids| && ids[i] == Some(x) && x != [];
        if i < |ids| - 1 {
          assert init[i] == Some(x);
        }
      }
    }
  }

  /** One more entry of the array extends the values read so far. */
  lemma ValuesStep(entries: seq<CardIdEntry>, i: nat)
    requires i < |entries| && entries[i].IdString?
    ensures Values(entries[..i + 1]) == Values(entries[..i]) + [entries[i].value]
  {
    assert Values(entries[..i + 1])[..i] == Values(entries[..i]);
  }

  /** One more id extends the card list by that id's card. */
  lemma CardListStep(ids: seq<string>, id: string)
    ensures CardList(ids + [id]) == CardList(ids) + [NewCard(id)]
  {
  }

  /** convertToCardList: the cards of the kept ids, in order; it raises
      (None) on a null array or at the first entry that is not a string. */
  method ConvertToCardList(ids: Option<seq<CardIdEntry>>) returns (cards: Option<seq<S.Card>>)
    ensures cards == Converted(ids)
  {
    if ids.None? {
      return None;
    }
    var entries := ids.value;
    var kept: seq<S.Card> := [];
    ghost var values: seq<Option<string>> := [];
    var i := 0;
    while i < |entries|
      invariant 0 <= i <= |entries|
      invariant forall j :: 0 <= j < i ==> entries[j].IdString?
      invariant values == Values(entries[..i])
      invariant kept == CardList(KeptIds(values))
    {
      if entries[i].IdOther? {
        assert !AllStrings(entries);
        return None;
      }
      var id := entries[i].value;
      ValuesStep(entries, i);
      KeptIdsAppend(values, [id]);
      KeptIdsSingle(id);
      if id.Some? && id.value != [] {
        CardListStep(KeptIds(values), id.value);
        kept := kept + [NewCard(id.value)];
      }
      values := values + [id];
      i := i + 1;
    }
    assert entries[..i] == entries;
    cards := Some(kept);
  }

  function Settle(b: BridgeSnap, promise: PromiseId, reply: Reply): BridgeSnap
  {
    b.(replies := b.replies + [PromiseReply(promise, reply)])
  }

  /** startStudySession: the checks run on the caller's thread; the manager
      call is posted. */
  function Start(b: BridgeSnap, mode: Option<string>, ids: Option<seq<CardIdEntry>>, promise: PromiseId): (r: BridgeSnap)
    ensures b.active ==> r == Settle(b, promise, Rejected(SESSION_ACTIVE))
    ensures !b.active && !ValidMode(mode) ==> r == Settle(b, promise, Rejected(INVALID_MODE))
    ensures !b.active && ValidMode(mode) && (ids.None? || !AllStrings(ids.value)) ==>
      r == Settle(b, promise, Rejected(EXCEPTION))
    ensures !b.active && ValidMode(mode) && ids.Some? && AllStrings(ids.value) && KeptIds(Values(ids.value)) == [] ==>
      r == Settle(b, promise, Rejected(NO_CARDS))
    ensures !b.active && ValidMode(mode) && ids.Some? && AllStrings(ids.value) && KeptIds(Values(ids.value)) != [] ==>
      r == b.(posted := b.posted + [PostedStart(mode.value, CardList(KeptIds(Values(ids.value))), promise)])
  {
    if b.active then Settle(b, promise, Rejected(SESSION_ACTIVE))
    else if !ValidMode(mode) then Settle(b, promise, Rejected(INVALID_MODE))
    else match Converted(ids)
      case None => Settle(b, promise, Rejected(EXCEPTION))
      case Some(cards) =>
        if cards == [] then Settle(b, promise, Rejected(NO_CARDS))
        else b.(posted := b.posted + [PostedStart(mode.value, cards, promise)])
  }

  /** submitCardResponse: a cached rating resolves at once with the cached
      map; any other valid rating is posted. */
  function Submit(b: BridgeSnap, rating: int, promise: PromiseId): (r: BridgeSnap)
    ensures !b.active ==> r == Settle(b, promise, Rejected(NO_SESSION))
    ensures b.active && !(MIN_RATING <= rating <= MAX_RATING) ==> r == Settle(b, promise, Rejected(INVALID_RATING))
    ensures b.active && MIN_RATING <= rating <= MAX_RATING && rating in b.cache ==>
      r == Settle(b, promise, Resolved(b.cache[rating]))
    ensures b.active && MIN_RATING <= rating <= MAX_RATING && rating !in b.cache ==>
      r == b.(posted := b.posted + [PostedSubmit(rating, promise)])
  {
    if !b.active then Settle(b, promise, Rejected(NO_SESSION))
    else if rating < MIN_RATING || rating > MAX_RATING then Settle(b, promise, Rejected(INVALID_RATING))
    else if rating in b.cache then Settle(b, promise, Resolved(b.cache[rating]))
    else b.(posted := b.posted + [PostedSubmit(rating, promise)])
  }

  /** endStudySession. */
  function End(b: BridgeSnap, promise: PromiseId): (r: BridgeSnap)
    ensures !b.active ==> r == Settle(b, promise, Rejected(NO_SESSION))
    ensures b.active ==> r == b.(posted := b.posted + [PostedEnd(promise)])
  {
    if !b.active then Settle(b, promise, Rejected(NO_SESSION))
    else b.(posted := b.posted + [PostedEnd(promise)])
  }

  /** A posted start: the manager is asked to start; only when it accepts
      does the flag become true. */
  function RunStart(b: BridgeSnap, mode: string, cards: seq<S.Card>, promise: PromiseId, sessionCallback: CallbackId,
                    voiceCallback: CallbackId, venv: V.VoiceEnv, fsrs: S.Fsrs, now: int): (r: BridgeSnap)
    requires S.Inv(b.study)
    ensures S.Inv(r.study) && r.cache == b.cache && r.posted == b.posted
    ensures var outcome := S.Start(b.study, mode, cards, sessionCallback, voiceCallback, venv, fsrs, now);
      r.study == outcome.snap && r.active == (b.active || outcome.ok)
      && r.replies == b.replies + [PromiseReply(promise, if outcome.ok then Resolved(StartPayload(|cards|)) else Rejected(START_FAILED))]
  {
    S.StartInv(b.study, mode, cards, sessionCallback, voiceCallback, venv, fsrs, now);
    var outcome := S.Start(b.study, mode, cards, sessionCallback, voiceCallback, venv, fsrs, now);
    if outcome.ok then Settle(b.(study := outcome.snap, active := true), promise, Resolved(StartPayload(|cards|)))
    else Settle(b.(study := outcome.snap), promise, Rejected(START_FAILED))
  }

  /** A posted submit: the manager takes the rating and its result map is
      cached under the rating. When the manager raises (`raised`), the
      promise is rejected with EXCEPTION and the cache stays as it was. */
  function RunSubmit(b: BridgeSnap, rating: int, promise: PromiseId, raised: bool,
                     voiceCallback: CallbackId, venv: V.VoiceEnv, fsrs: S.Fsrs, now: int): (r: BridgeSnap)
    requires S.Inv(b.study)
    ensures S.Inv(r.study) && r.active == b.active && r.posted == b.posted
    ensures raised ==> r == Settle(b, promise, Rejected(EXCEPTION))
    ensures !raised ==> r.study == S.Submit(b.study, rating, voiceCallback, venv, fsrs, now)
    ensures !raised ==> r.cache == b.cache[rating := SubmitPayload(rating)]
    ensures !raised ==> r.replies == b.replies + [PromiseReply(promise, Resolved(SubmitPayload(rating)))]
  {
    if raised then Settle(b, promise, Rejected(EXCEPTION))
    else
      S.SubmitInv(b.study, rating, voiceCallback, venv, fsrs, now);
      var submitted := b.(study := S.Submit(b.study, rating, voiceCallback, venv, fsrs, now));
      var result := SubmitPayload(rating);
      Settle(submitted.(cache := submitted.cache[rating := result]), promise, Resolved(result))
  }

  /** A posted end: the manager ends, the flag is cleared and the cache
      emptied. When the manager raises, the promise is rejected with
      EXCEPTION and flag and cache stay as they were. */
  function RunEnd(b: BridgeSnap, promise: PromiseId, raised: bool): (r: BridgeSnap)
    requires S.Inv(b.study)
    ensures S.Inv(r.study) && r.posted == b.posted
    ensures raised ==> r == Settle(b, promise, Rejected(EXCEPTION))
    ensures !raised ==> !r.active && r.cache == map[] && r.study == S.End(b.study)
    ensures !raised ==> r.replies == b.replies + [PromiseReply(promise, Resolved(EndPayload))]
  {
    if raised then Settle(b, promise, Rejected(EXCEPTION))
    else Settle(b.(study := S.End(b.study), active := false, cache := map[]), promise, Resolved(EndPayload))
  }

  /** The handler runs the oldest posted runnable; `raised` says whether
      the manager raises inside a posted submit or end. */
  function RunNext(b: BridgeSnap, raised: bool, sessionCallback: CallbackId, voiceCallback: CallbackId,
                   venv: V.VoiceEnv, fsrs: S.Fsrs, now: int): (r: BridgeSnap)
    requires Inv(b) && b.posted != []
    ensures Inv(r)
    ensures r.active != b.active ==>
      (b.posted[0].PostedStart? && r.active
       && S.Start(b.study, b.posted[0].mode, b.posted[0].cards, sessionCallback, voiceCallback, venv, fsrs, now).ok)
      || (b.posted[0].PostedEnd? && !raised && !r.active)
  {
    var rest := b.(posted := b.posted[1..]);
    assert forall i :: 0 <= i < |rest.posted| ==> rest.posted[i] == b.posted[i + 1];
    match b.posted[0]
    case PostedStart(mode, cards, promise) => RunStart(rest, mode, cards, promise, sessionCallback, voiceCallback, venv, fsrs, now)
    case PostedSubmit(rating, promise) => RunSubmit(rest, rating, promise, raised, voiceCallback, venv, fsrs, now)
    case PostedEnd(promise) => RunEnd(rest, promise, raised)
  }

  /** onCatalystInstanceDestroy: ends the manager's session when the flag is
      set, drops the cache and every posted runnable, and leaves the flag as
      it was. */
  function Destroy(b: BridgeSnap): (r: BridgeSnap)
    requires Inv(b)
    ensures Inv(r)
    ensures r.active == b.active && r.cache == map[] && r.posted == [] && r.replies == b.replies
    ensures r.study == (if b.active then S.End(b.study) else b.study)
  {
    b.(study := if b.active then S.End(b.study) else b.study, cache := map[], posted := [])
  }

  /** Repeating a cached rating settles from the cache: the manager is not
      called, nothing is posted, and the card under the cursor stays. */
  lemma CachedRatingDoesNotAdvance(b: BridgeSnap, rating: int, promise: PromiseId)
    requires Inv(b) && b.active && rating in b.cache
    ensures Submit(b, rating, promise) == Settle(b, promise, Resolved(SubmitPayload(rating)))
    ensures Submit(b, rating, promise).study == b.study
  {
  }

  /** After a submit ran, the same rating is answered from the cache until
      the session is ended. */
  lemma SubmitFillsCache(b: BridgeSnap, rating: int, promise: PromiseId, later: PromiseId,
                         sessionCallback: CallbackId, voiceCallback: CallbackId, venv: V.VoiceEnv, fsrs: S.Fsrs, now: int)
    requires Inv(b) && b.active && MIN_RATING <= rating <= MAX_RATING && rating !in b.cache && b.posted == []
    ensures var ran := RunNext(Submit(b, rating, promise), false, sessionCallback, voiceCallback, venv, fsrs, now);
      Submit(ran, rating, later) == Settle(ran, later, Resolved(SubmitPayload(rating)))
  {
  }

  /** The flag is not tied to the manager's session: when the last card's
      submit ends the manager's session, the flag stays set, and a new start
      is rejected with SESSION_ACTIVE although no session runs. */
  lemma {:induction false} AutoEndKeepsFlag(b: BridgeSnap, rating: int, promise: PromiseId, again: PromiseId,
                         mode: Option<string>, ids: Option<seq<CardIdEntry>>,
                         sessionCallback: CallbackId, voiceCallback: CallbackId, venv: V.VoiceEnv, fsrs: S.Fsrs, now: int)
    requires Inv(b) && b.active && b.study.active && b.study.index + 1 == |b.study.cards|
    requires b.posted == [PostedSubmit(rating, promise)]
    ensures var ran := RunNext(b, false, sessionCallback, voiceCallback, venv, fsrs, now);
      !ran.study.active && ran.active
      && Start(ran, mode, ids, again) == Settle(ran, again, Rejected(SESSION_ACTIVE))
  {
    S.SubmitInv(b.study, rating, voiceCallback, venv, fsrs, now);
  }

  /** Destroying keeps the flag, so a module destroyed with a session open
      rejects every later start. */
  lemma DestroyKeepsFlag(b: BridgeSnap, mode: Option<string>, ids: Option<seq<CardIdEntry>>, promise: PromiseId)
    requires Inv(b) && b.active
    ensures Start(Destroy(b), mode, ids, promise) == Settle(Destroy(b), promise, Rejected(SESSION_ACTIVE))
    ensures !Destroy(b).study.active
  {
  }

  class RNStudyModule {
    const manager: S.StudyManager
    /** The identity of the session callback the module hands the manager. */
    const sessionCallback: CallbackId

    var active: bool
    var cache: map<int, Payload>
    var posted: seq<Posted>
    var replies: seq<PromiseReply>

    function Snapshot(): BridgeSnap
      reads this, manager, manager.voice, manager.voice.audio, manager.voice.permissions
    {
      BridgeSnap(active, cache, posted, replies, manager.Snapshot())
    }

    ghost predicate Valid()
      reads this, manager, manager.voice, manager.voice.audio, manager.voice.permissions
    {
      Inv(Snapshot())
    }

    constructor (manager: S.StudyManager, sessionCallback: CallbackId)
      requires manager.Valid()
      ensures this.manager == manager && this.sessionCallback == sessionCallback
      ensures Snapshot() == BridgeSnap(false, map[], [], [], manager.Snapshot())
      ensures Valid()
    {
      this.manager := manager;
      this.sessionCallback := sessionCallback;
      active := false;
      cache := map[];
      posted := [];
      replies := [];
    }

    method StartStudySession(mode: Option<string>, ids: Option<seq<CardIdEntry>>, promise: PromiseId)
      requires Valid()
      modifies this
      ensures Valid()
      ensures Snapshot() == Start(old(Snapshot()), mode, ids, promise)
    {
      if active {
        replies := replies + [PromiseReply(promise, Rejected(SESSION_ACTIVE))];
        return;
      }
      if !(mode.Some? && (mode.value == STANDARD || mode.value == VOICE || mode.value == QUIZ)) {
        replies := replies + [PromiseReply(promise, Rejected(INVALID_MODE))];
        return;
      }
      var converted := ConvertToCardList(ids);
      if converted.None? {
        replies := replies + [PromiseReply(promise, Rejected(EXCEPTION))];
        return;
      }
      var cards := converted.value;
      if cards == [] {
        replies := replies + [PromiseReply(promise, Rejected(NO_CARDS))];
        return;
      }
      posted := posted + [PostedStart(mode.value, cards, promise)];
    }

    method SubmitCardResponse(rating: int, promise: PromiseId)
      requires Valid()
      modifies this
      ensures Valid()
      ensures Snapshot() == Submit(old(Snapshot()), rating, promise)
    {
      if !active {
        replies := replies + [PromiseReply(promise, Rejected(NO_SESSION))];
        return;
      }
      if rating < MIN_RATING || rating > MAX_RATING {
        replies := replies + [PromiseReply(promise, Rejected(INVALID_RATING))];
        return;
      }
      if rating in cache {
        replies := replies + [PromiseReply(promise, Resolved(cache[rating]))];
        return;
      }
      posted := posted + [PostedSubmit(rating, promise)];
    }

    method EndStudySession(promise: PromiseId)
      requires Valid()
      modifies this
      ensures Valid()
      ensures Snapshot() == End(old(Snapshot()), promise)
    {
      if !active {
        replies := replies + [PromiseReply(promise, Rejected(NO_SESSION))];
        return;
      }
      posted := posted + [PostedEnd(promise)];
    }

    method RunStartTask(mode: string, cards: seq<S.Card>, promise: PromiseId, venv: V.VoiceEnv, now: int)
      requires manager.Valid()
      modifies this, manager, manager.voice, manager.voice.audio, manager.voice.permissions
      ensures manager.Valid()
      ensures Snapshot() == RunStart(old(Snapshot()), mode, cards, promise, sessionCallback, manager.voiceCallback, venv, manager.fsrs, now)
    {
      var started := manager.StartStudySession(mode, cards, sessionCallback, venv, now);
      if started {
        active := true;
        replies := replies + [PromiseReply(promise, Resolved(StartPayload(|cards|)))];
      } else {
        replies := replies + [PromiseReply(promise, Rejected(START_FAILED))];
      }
    }

    method RunSubmitTask(rating: int, promise: PromiseId, raised: bool, venv: V.VoiceEnv, now: int)
      requires manager.Valid()
      modifies this, manager, manager.voice, manager.voice.audio, manager.voice.permissions
      ensures manager.Valid()
      ensures Snapshot() == RunSubmit(old(Snapshot()), rating, promise, raised, manager.voiceCallback, venv, manager.fsrs, now)
    {
      if raised {
        replies := replies + [PromiseReply(promise, Rejected(EXCEPTION))];
        return;
      }
      manager.SubmitCardResponse(rating, venv, now);
      var result := SubmitPayload(rating);
      cache := cache[rating := result];
      replies := replies + [PromiseReply(promise, Resolved(result))];
    }

    method RunEndTask(promise: PromiseId, raised: bool)
      requires manager.Valid()
      modifies this, manager, manager.voice, manager.voice.audio, manager.voice.permissions
      ensures manager.Valid()
      ensures Snapshot() == RunEnd(old(Snapshot()), promise, raised)
    {
      if raised {
        replies := replies + [PromiseReply(promise, Rejected(EXCEPTION))];
        return;
      }
      manager.EndStudySession();
      active := false;
      cache := map[];
      replies := replies + [PromiseReply(promise, Resolved(EndPayload))];
    }

    /** The main looper runs the oldest posted runnable. */
    method RunPosted(raised: bool, venv: V.VoiceEnv, now: int)
      requires Valid() && posted != []
      modifies this, manager, manager.voice, manager.voice.audio, manager.voice.permissions
      ensures Valid()
      ensures Snapshot() == RunNext(old(Snapshot()), raised, sessionCallback, manager.voiceCallback, venv, manager.fsrs, now)
    {
      ghost var b := Snapshot();
      ghost var next := RunNext(b, raised, sessionCallback, manager.voiceCallback, venv, manager.fsrs, now);
      var task := posted[0];
      posted := posted[1..];
      ghost var rest := Snapshot();
      assert rest == b.(posted := b.posted[1..]);
      match task
      case PostedStart(mode, cards, promise) =>
        assert next == RunStart(rest, mode, cards, promise, sessionCallback, manager.voiceCallback, venv, manager.fsrs, now);
        RunStartTask(mode, cards, promise, venv, now);
      case PostedSubmit(rating, promise) =>
        assert next == RunSubmit(rest, rating, promise, raised, manager.voiceCallback, venv, manager.fsrs, now);
        RunSubmitTask(rating, promise, raised, venv, now);
      case PostedEnd(promise) =>
        assert next == RunEnd(rest, promise, raised);
        RunEndTask(promise, raised);
    }

    method OnCatalystInstanceDestroy()
      requires Valid()
      modifies this, manager, manager.voice, manager.voice.audio, manager.voice.permissions
      ensures Valid()
      ensures Snapshot() == Destroy(old(Snapshot()))
    {
      if active {
        manager.EndStudySession();
      }
      cache := map[];
      posted := [];
    }
  }
}
