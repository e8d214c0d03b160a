# membo.ai Android native layer — a Dafny model

This project models the native Android core of the membo.ai flashcard app and proves properties about it. That core has these parts:

- the speech-recognition state machine `VoiceManager`, with its retry back-off, and its two collaborators:
  - `AudioSessionManager`, which holds the recorder and audio focus;
  - `PermissionManager`, which caches runtime-permission answers and debounces permission requests;
- `StudyManager`, which runs a study session over a list of cards (standard, voice or quiz mode);
- the React Native bridge `RNStudyModule`, which guards `StudyManager` with its own session flag, a per-rating result cache and a main-thread task queue;
- the error-code vocabulary `ErrorCodes`;
- the encrypted file store `FileManager`: IV-plus-ciphertext framing, atomic save through a `.tmp` file, read, secure delete, and expiry cleanup;
- `ContentCaptureManager`: filenames, enrichment of caller metadata, the bounded sync queue, and the three-attempt upload loop.

Each stateful component has three layers:

1. A snapshot datatype.
2. Pure transition functions that serve as its specification. Each listed property is proved as a lemma over those functions.
3. A `class` whose fields the methods update as the Java does. Each method ensures `Snapshot() == F(old(Snapshot()), …)`.

The classes are composed as in the code:

- `RNStudyModule` holds a `StudyManager`.
- `StudyManager` holds a `VoiceManager`.
- `VoiceManager` holds an `AudioSessionManager` and a `PermissionManager`.
- `ContentCaptureManager` holds a `FileManager`.

Everything the code asks of the platform arrives as an explicit input:

- the network, power-save mode, the SDK level and permission answers;
- the recognizer, the audio hardware and the clock;
- rename and delete outcomes, the random IV and the cipher;
- backend statuses, thread interrupts and the Kindle book record.

Callbacks are not called back synchronously. Each manager appends a notice addressed to the callback's identity to a log. Delayed handler messages and executor jobs are explicit pending lists, which the environment fires.

The model follows the code, including these behaviours that may look unintended:

- `onCatalystInstanceDestroy` does not clear `mIsSessionActive` (`StudyBridge.Destroy`).
- An ERROR state blocks every later start, so a self-scheduled retry never starts anything (`Voice.RetryNeverStarts`).
- `mCallback` is assigned only after the prerequisite checks (`Voice.PrerequisiteFailureUsesOldCallback`).
- The audio session is not released when the recognizer fails after the session was claimed (`Voice.LateFailureKeepsAudioSession`).

Confidences are modelled as the exact reals denoted by the `float` constants 0.7f and 0.8f. Strings are Unicode scalar sequences. `String.hashCode`, `Math.abs` and `Long.toString` are written out with 32-bit wrap-around (`JavaText`).

## Model

All source paths are under `src/android/app/src/main/java/ai/membo/`; the cells repeat them in full.

| member | source | states |
|---|---|---|
| ErrorCodes.IsValidErrorCode | src/android/app/src/main/java/ai/membo/constants/ErrorCodes.java:56-75 | true exactly for a non-null code among the eight declared constants |
| ErrorCodes.GetLocalizedMessage | src/android/app/src/main/java/ai/membo/constants/ErrorCodes.java:87-127 | IllegalArgumentException exactly when the context is null or the code invalid; a valid code never selects the unknown-error resource |
| ErrorCodes.DeclaredCodesDistinct | src/android/app/src/main/java/ai/membo/constants/ErrorCodes.java:40-47 | the eight declared code strings are pairwise distinct |
| ErrorCodes.ResourcesDistinct | src/android/app/src/main/java/ai/membo/constants/ErrorCodes.java:100-127 | distinct valid codes select distinct message resources |
| ErrorCodes.ResourceFor | src/android/app/src/main/java/ai/membo/constants/ErrorCodes.java:100-127 | the default resource is selected exactly for the strings that are not declared codes |
| VoiceConstants.CodesInjective | src/android/app/src/main/java/ai/membo/constants/VoiceConstants.java:62-87 | the state codes 0–4 and the error codes 100–104, 199 identify their state or error |
| AudioSession.Release | src/android/app/src/main/java/ai/membo/utils/AudioSessionManager.java:121-146 | afterwards the session is inactive; an inactive session is left exactly as it was; an active one has its recorder dropped and its audio focus abandoned |
| AudioSession.Initialize | src/android/app/src/main/java/ai/membo/utils/AudioSessionManager.java:52-116 | succeeds iff the session was inactive and buffer size, construction, initialisation, focus and start all succeed; an active session is refused unchanged |
| AudioSession.ReleaseIdempotent | src/android/app/src/main/java/ai/membo/utils/AudioSessionManager.java:121-146 | releasing twice equals releasing once |
| AudioSession.FailedInitKeepsLeftovers | src/android/app/src/main/java/ai/membo/utils/AudioSessionManager.java:83-113 | a start failure after focus was granted leaves the session inactive with the recorder referenced and focus held, because the release there is a no-op on the unset flag |
| AudioSession.AudioSessionManager.InitializeAudioSession | src/android/app/src/main/java/ai/membo/utils/AudioSessionManager.java:52-116 | new fields and result are those of `Initialize` |
| AudioSession.AudioSessionManager.ReleaseAudioSession | src/android/app/src/main/java/ai/membo/utils/AudioSessionManager.java:121-146 | new fields are those of `Release` |
| AudioSession.AudioSessionManager.IsSessionActive | src/android/app/src/main/java/ai/membo/utils/AudioSessionManager.java:153-155 | the active flag |
| Permissions.CheckMicrophone | src/android/app/src/main/java/ai/membo/utils/PermissionManager.java:66-80 | a cached answer is returned without asking; below SDK 23 true is returned and nothing cached; otherwise the system answer is returned and cached; only the RECORD_AUDIO entry can change |
| Permissions.CheckStorage | src/android/app/src/main/java/ai/membo/utils/PermissionManager.java:107-126 | a cached READ entry answers; below SDK 23 true; otherwise granted iff read and write are granted, cached under both keys |
| Permissions.StorageHitIgnoresWrite | src/android/app/src/main/java/ai/membo/utils/PermissionManager.java:108-111 | with READ cached true and WRITE cached false the storage check answers true |
| Permissions.OnResults | src/android/app/src/main/java/ai/membo/utils/PermissionManager.java:160-181 | another request code leaves the state as it was; the request code appends one callback per entry after the earlier ones |
| Permissions.ResultsUpTo | src/android/app/src/main/java/ai/membo/utils/PermissionManager.java:165-180 | after k entries, exactly k callbacks follow the earlier ones |
| Permissions.ResultsNotices | src/android/app/src/main/java/ai/membo/utils/PermissionManager.java:165-180 | the result loop fires exactly one granted-or-denied callback per entry, in order, and leaves the pending request and prompts alone |
| Permissions.ResultsCacheLastWins | src/android/app/src/main/java/ai/membo/utils/PermissionManager.java:165-170 | each handled permission is cached with the grant of its last occurrence |
| Permissions.ResultsCacheUntouched | src/android/app/src/main/java/ai/membo/utils/PermissionManager.java:165-170 | a key the result does not name keeps its cache entry |
| Permissions.Request | src/android/app/src/main/java/ai/membo/utils/PermissionManager.java:85-87 | the single handler slot holds the new request and nothing else changes |
| Permissions.RequestCancelsPending | src/android/app/src/main/java/ai/membo/utils/PermissionManager.java:85-101 | a second request replaces whatever was pending |
| Permissions.FireDebounced | src/android/app/src/main/java/ai/membo/utils/PermissionManager.java:87-100 | firing empties the slot and never touches the cache; with nothing pending or below SDK 23 no callback or prompt happens |
| Permissions.PermissionManager.CheckMicrophonePermission | src/android/app/src/main/java/ai/membo/utils/PermissionManager.java:66-80 | state and answer are those of `CheckMicrophone` |
| Permissions.PermissionManager.CheckStoragePermission | src/android/app/src/main/java/ai/membo/utils/PermissionManager.java:107-126 | state and answer are those of `CheckStorage` |
| Permissions.PermissionManager.RequestMicrophonePermission | src/android/app/src/main/java/ai/membo/utils/PermissionManager.java:85-101 | state is `Request(old, MicrophoneRequest)` |
| Permissions.PermissionManager.RequestStoragePermission | src/android/app/src/main/java/ai/membo/utils/PermissionManager.java:131-152 | state is `Request(old, StorageRequest)` |
| Permissions.PermissionManager.RunDebouncedRequest | src/android/app/src/main/java/ai/membo/utils/PermissionManager.java:87-151 | state is `FireDebounced` of the old state |
| Permissions.PermissionManager.OnRequestPermissionsResult | src/android/app/src/main/java/ai/membo/utils/PermissionManager.java:160-181 | the loop's final state is `OnResults`: other request codes are ignored |
| Permissions.PermissionManager.ClearPermissionCache | src/android/app/src/main/java/ai/membo/utils/PermissionManager.java:186-188 | the cache is emptied and nothing else changes |
| Voice.MapSpeechRecognizerError | src/android/app/src/main/java/ai/membo/managers/VoiceManager.java:308-321 | Network iff a network error or network timeout; Timeout iff no-match or speech timeout; NoPermission iff insufficient permissions; never NotAvailable or AudioSession |
| Voice.HandleError | src/android/app/src/main/java/ai/membo/managers/VoiceManager.java:165-191 | the state becomes ERROR; below the retry limit, for any error but NO_PERMISSION, once 1000·2^n ms have passed since the last retry, a retry is counted, stamped and posted with that delay; otherwise the callback is notified of the error |
| Voice.Start | src/android/app/src/main/java/ai/membo/managers/VoiceManager.java:84-133 | refused unchanged unless IDLE; started iff IDLE and every prerequisite, audio, recognizer and listen step succeeds; on success LISTENING with the new callback and a posted timeout; on an IDLE failure ERROR, with each step's own error handled: NETWORK, NOT_AVAILABLE (power saving), NO_PERMISSION, AUDIO_SESSION, NOT_AVAILABLE (recognizer creation) or UNKNOWN (startListening) |
| Voice.Stop | src/android/app/src/main/java/ai/membo/managers/VoiceManager.java:138-158 | IDLE with retries reset, no pending messages, the audio session released, and one ended notice when a callback is set |
| Voice.HandleTimeout | src/android/app/src/main/java/ai/membo/managers/VoiceManager.java:296-300 | only a LISTENING machine changes, exactly as a timeout error |
| Voice.Results | src/android/app/src/main/java/ai/membo/managers/VoiceManager.java:231-252 | a null or empty match list or null confidences is ignored; raises exactly when the confidence array is empty; the first match is reported and the state is FINISHED iff its confidence reaches 0.7f, otherwise an unknown error is handled |
| Voice.LowMemory | src/android/app/src/main/java/ai/membo/managers/VoiceManager.java:354-361 | the recognizer is dropped only in IDLE |
| Voice.ConfigurationChanged | src/android/app/src/main/java/ai/membo/managers/VoiceManager.java:366-371 | the recognizer is dropped in every state and nothing else changes |
| Voice.HandleErrorInv | src/android/app/src/main/java/ai/membo/managers/VoiceManager.java:170-182 | error handling keeps the retry count within 0..3 and no retry pending in IDLE |
| Voice.StartInv | src/android/app/src/main/java/ai/membo/managers/VoiceManager.java:84-133 | starting keeps the invariant |
| Voice.OperationsPreserveInv | src/android/app/src/main/java/ai/membo/managers/VoiceManager.java:84-370 | every operation and every handler message keeps the invariant |
| Voice.RetryNeverStarts | src/android/app/src/main/java/ai/membo/managers/VoiceManager.java:170-185 | a fired retry only leaves the pending list: its start is refused because the state is ERROR |
| Voice.FirePending | src/android/app/src/main/java/ai/membo/managers/VoiceManager.java:123-124 | a fired timeout outside LISTENING, or a fired retry without a callback, only leaves the pending list; a timeout in LISTENING is a timeout error |
| Voice.ErrorBlocksStart | src/android/app/src/main/java/ai/membo/managers/VoiceManager.java:84-88 | after any handled error a start is refused and changes nothing |
| Voice.PrerequisiteFailureUsesOldCallback | src/android/app/src/main/java/ai/membo/managers/VoiceManager.java:91-95 | a failed prerequisite check leaves the previously stored callback in place |
| Voice.LateFailureKeepsAudioSession | src/android/app/src/main/java/ai/membo/managers/VoiceManager.java:98-131 | a recognizer creation or listen failure after the audio session was claimed leaves the session active |
| Voice.StopTwice | src/android/app/src/main/java/ai/membo/managers/VoiceManager.java:138-158 | stopping twice reaches the state of stopping once, up to the extra ended notice |
| Voice.VoiceManager.GetCurrentState | src/android/app/src/main/java/ai/membo/managers/VoiceManager.java:347-349 | the current state |
| Voice.VoiceManager.HandleRecognitionError | src/android/app/src/main/java/ai/membo/managers/VoiceManager.java:165-191 | snapshot is `HandleError` of the old one |
| Voice.VoiceManager.CheckPrerequisites | src/android/app/src/main/java/ai/membo/managers/VoiceManager.java:271-291 | true iff network up, not power-saving and microphone granted; on failure the error is handled |
| Voice.VoiceManager.StartVoiceRecognition | src/android/app/src/main/java/ai/membo/managers/VoiceManager.java:84-133 | snapshot and result are those of `Start`; keeps the invariant |
| Voice.VoiceManager.StopVoiceRecognition | src/android/app/src/main/java/ai/membo/managers/VoiceManager.java:138-158 | snapshot is `Stop` of the old one |
| Voice.VoiceManager.OnReadyForSpeech | src/android/app/src/main/java/ai/membo/managers/VoiceManager.java:201-203 | the posted messages are cancelled and nothing else changes |
| Voice.VoiceManager.OnBeginningOfSpeech | src/android/app/src/main/java/ai/membo/managers/VoiceManager.java:206-208 | the state becomes LISTENING |
| Voice.VoiceManager.OnEndOfSpeech | src/android/app/src/main/java/ai/membo/managers/VoiceManager.java:221-223 | the state becomes PROCESSING |
| Voice.VoiceManager.OnError | src/android/app/src/main/java/ai/membo/managers/VoiceManager.java:226-228 | the mapped error is handled |
| Voice.VoiceManager.OnResults | src/android/app/src/main/java/ai/membo/managers/VoiceManager.java:231-252 | snapshot and crash flag are those of `Results` |
| Voice.VoiceManager.HandleTimeoutTask | src/android/app/src/main/java/ai/membo/managers/VoiceManager.java:296-300 | snapshot is `HandleTimeout` of the old one |
| Voice.VoiceManager.RunPending | src/android/app/src/main/java/ai/membo/managers/VoiceManager.java:121-180 | the handler delivers one pending timeout or retry, as `FirePending` |
| Voice.VoiceManager.OnLowMemory | src/android/app/src/main/java/ai/membo/managers/VoiceManager.java:354-361 | snapshot is `LowMemory` of the old one |
| Voice.VoiceManager.OnConfigurationChanged | src/android/app/src/main/java/ai/membo/managers/VoiceManager.java:366-371 | snapshot is `ConfigurationChanged` of the old one |
| Study.ValidateStudyModeRanges | src/android/app/src/main/java/ai/membo/managers/StudyManager.java:238-253 | a count is accepted iff standard 10–50, voice 10–30 or quiz 20–50 |
| Study.ValidateStudyMode | src/android/app/src/main/java/ai/membo/managers/StudyManager.java:238-253 | only the three modes are accepted, and never with fewer than 10 or more than 50 cards |
| Study.Scheduled | src/android/app/src/main/java/ai/membo/managers/StudyManager.java:277-285 | an unscheduled card gets the initial stability, difficulty and a review time of now; a scheduled card is untouched |
| Study.ScheduleAll | src/android/app/src/main/java/ai/membo/managers/StudyManager.java:277-285 | same length, each card scheduled on its own |
| Study.ScheduleAllProperties | src/android/app/src/main/java/ai/membo/managers/StudyManager.java:277-285 | every scheduled card has a review time and keeps its id; scheduling again is a no-op |
| Study.Restart | src/android/app/src/main/java/ai/membo/managers/StudyManager.java:259-264 | only voice mode restarts: stop, then start with the manager's voice callback |
| Study.PresentNext | src/android/app/src/main/java/ai/membo/managers/StudyManager.java:266-275 | with a card under the cursor it is reported and voice restarted; past the end nothing changes |
| Study.Start | src/android/app/src/main/java/ai/membo/managers/StudyManager.java:71-107 | refused unchanged while active; an invalid mode or count reports an error; ok iff inactive and valid; then active at index 0 with the cards scheduled, the start reported and the first card presented |
| Study.Open | src/android/app/src/main/java/ai/membo/managers/StudyManager.java:86-106 | the session is active at index 0 with the mode, callback and scheduled cards; exactly the start event is appended, then the first card presented when there is one |
| Study.End | src/android/app/src/main/java/ai/membo/managers/StudyManager.java:204-220 | an active session ends with no cards, reports completion, stops voice in voice mode and keeps callback and mode; otherwise nothing changes |
| Study.Submit | src/android/app/src/main/java/ai/membo/managers/StudyManager.java:112-133 | no-op without a current card; otherwise the card is reviewed, the answer reported first, the cursor advanced, and the session ended after the last card |
| Study.SetListening | src/android/app/src/main/java/ai/membo/managers/StudyManager.java:174-197 | only the listening flag changes |
| Study.OnVoiceResult | src/android/app/src/main/java/ai/membo/managers/StudyManager.java:179-187 | confidence from 0.8f submits rating 3, raising iff no card is current; lower confidence reports an error and restarts, raising iff no callback |
| Study.OnVoiceError | src/android/app/src/main/java/ai/membo/managers/StudyManager.java:189-192 | reports the error code and restarts; raises iff no callback is set |
| Study.RestartInv | src/android/app/src/main/java/ai/membo/managers/StudyManager.java:259-264 | restarting keeps the study invariant |
| Study.StartInv | src/android/app/src/main/java/ai/membo/managers/StudyManager.java:71-107 | starting keeps the study invariant |
| Study.SubmitInv | src/android/app/src/main/java/ai/membo/managers/StudyManager.java:112-133 | submitting keeps it: the cursor stays on a card while active |
| Study.SubmitAll | src/android/app/src/main/java/ai/membo/managers/StudyManager.java:112-133 | any sequence of submits keeps the invariant |
| Study.ExactlyOneSubmitPerCard | src/android/app/src/main/java/ai/membo/managers/StudyManager.java:125-132 | a session with n cards left stays active through n−1 submits, advancing one card each, and the n-th ends it |
| Study.SubmitsAfterEndChangeNothing | src/android/app/src/main/java/ai/membo/managers/StudyManager.java:113-115 | submits to an inactive manager change nothing |
| Study.LowConfidenceKeepsCursor | src/android/app/src/main/java/ai/membo/managers/StudyManager.java:179-187 | a low-confidence answer keeps cursor, cards and activity |
| Study.StudyManager.ScheduleCards | src/android/app/src/main/java/ai/membo/managers/StudyManager.java:277-285 | the loop leaves `ScheduleAll` of the old cards and nothing else changed |
| Study.StudyManager.RestartVoiceRecognition | src/android/app/src/main/java/ai/membo/managers/StudyManager.java:259-264 | snapshot is `Restart` of the old one |
| Study.StudyManager.PresentNextCard | src/android/app/src/main/java/ai/membo/managers/StudyManager.java:266-275 | snapshot is `PresentNext` of the old one |
| Study.StudyManager.OpenSession | src/android/app/src/main/java/ai/membo/managers/StudyManager.java:86-106 | the accepting branch of start, as `Open` |
| Study.StudyManager.StartStudySession | src/android/app/src/main/java/ai/membo/managers/StudyManager.java:71-107 | snapshot and result are those of `Start` |
| Study.StudyManager.EndStudySession | src/android/app/src/main/java/ai/membo/managers/StudyManager.java:204-220 | snapshot is `End` of the old one |
| Study.StudyManager.SubmitCardResponse | src/android/app/src/main/java/ai/membo/managers/StudyManager.java:112-133 | snapshot is `Submit` of the old one |
| Study.StudyManager.OnRecognitionStarted | src/android/app/src/main/java/ai/membo/managers/StudyManager.java:174-177 | the listening flag is set |
| Study.StudyManager.OnRecognitionEnded | src/android/app/src/main/java/ai/membo/managers/StudyManager.java:194-197 | the listening flag is cleared |
| Study.StudyManager.OnRecognitionResult | src/android/app/src/main/java/ai/membo/managers/StudyManager.java:179-187 | snapshot and crash flag are those of `OnVoiceResult` |
| Study.StudyManager.OnRecognitionError | src/android/app/src/main/java/ai/membo/managers/StudyManager.java:189-192 | snapshot and crash flag are those of `OnVoiceError` |
| StudyBridge.CardList | src/android/app/src/main/java/ai/membo/modules/RNStudyModule.java:229-239 | one new card per id, in order |
| StudyBridge.KeptIdsAppend | src/android/app/src/main/java/ai/membo/modules/RNStudyModule.java:231-237 | filtering distributes over concatenation |
| StudyBridge.KeptIdsSingle | src/android/app/src/main/java/ai/membo/modules/RNStudyModule.java:232-235 | one entry is kept iff it is a non-null, non-empty string |
| StudyBridge.KeptIdsMembers | src/android/app/src/main/java/ai/membo/modules/RNStudyModule.java:231-237 | an id is kept iff some entry holds it and it is non-empty |
| StudyBridge.KeptIds | src/android/app/src/main/java/ai/membo/modules/RNStudyModule.java:229-239 | never more ids than entries, and no kept id is empty |
| StudyBridge.ValidMode | src/android/app/src/main/java/ai/membo/modules/RNStudyModule.java:223-227 | the bridge accepts exactly the modes for which the manager accepts some card count |
| StudyBridge.ConvertToCardList | src/android/app/src/main/java/ai/membo/modules/RNStudyModule.java:229-239 | the loop builds the cards of the kept ids, in order; a null array or an entry that is not a string makes it raise |
| StudyBridge.Start | src/android/app/src/main/java/ai/membo/modules/RNStudyModule.java:70-146 | rejects SESSION_ACTIVE, then INVALID_MODE, then EXCEPTION when the conversion raises, then NO_CARDS, in that order; otherwise posts a start with the converted cards |
| StudyBridge.Submit | src/android/app/src/main/java/ai/membo/modules/RNStudyModule.java:152-183 | rejects NO_SESSION then INVALID_RATING; a cached rating resolves at once; otherwise a submit is posted |
| StudyBridge.End | src/android/app/src/main/java/ai/membo/modules/RNStudyModule.java:189-209 | rejects NO_SESSION; otherwise posts an end |
| StudyBridge.RunStart | src/android/app/src/main/java/ai/membo/modules/RNStudyModule.java:88-141 | the flag is set and the count resolved iff the manager starts; otherwise START_FAILED |
| StudyBridge.RunSubmit | src/android/app/src/main/java/ai/membo/modules/RNStudyModule.java:169-182 | the manager submits, the result is cached under the rating and resolved; when the manager raises, the promise is rejected with EXCEPTION and nothing else changes |
| StudyBridge.RunEnd | src/android/app/src/main/java/ai/membo/modules/RNStudyModule.java:193-206 | the manager ends, the flag is cleared, the cache emptied and the end resolved; when the manager raises, the promise is rejected with EXCEPTION and the flag and cache stay |
| StudyBridge.RunNext | src/android/app/src/main/java/ai/membo/modules/RNStudyModule.java:88-206 | running the oldest posted task keeps the bridge invariant; the flag changes only when that task is a start the manager accepts (set) or an end that does not raise (cleared) |
| StudyBridge.Destroy | src/android/app/src/main/java/ai/membo/modules/RNStudyModule.java:212-219 | the manager's session ends if the flag is set; cache and tasks are dropped; the flag stays |
| StudyBridge.CachedRatingDoesNotAdvance | src/android/app/src/main/java/ai/membo/modules/RNStudyModule.java:163-167 | a cached rating settles from the cache without reaching the manager |
| StudyBridge.SubmitFillsCache | src/android/app/src/main/java/ai/membo/modules/RNStudyModule.java:163-177 | after a submit ran, the same rating is answered from the cache |
| StudyBridge.AutoEndKeepsFlag | src/android/app/src/main/java/ai/membo/modules/RNStudyModule.java:169-182 | when the last card's submit ends the manager's session the flag stays set and a new start is rejected with SESSION_ACTIVE |
| StudyBridge.DestroyKeepsFlag | src/android/app/src/main/java/ai/membo/modules/RNStudyModule.java:212-219 | after destroying with a session open, every start is rejected and the manager is inactive |
| StudyBridge.RNStudyModule.StartStudySession | src/android/app/src/main/java/ai/membo/modules/RNStudyModule.java:70-146 | snapshot is `Start` of the old one |
| StudyBridge.RNStudyModule.SubmitCardResponse | src/android/app/src/main/java/ai/membo/modules/RNStudyModule.java:152-183 | snapshot is `Submit` of the old one |
| StudyBridge.RNStudyModule.EndStudySession | src/android/app/src/main/java/ai/membo/modules/RNStudyModule.java:189-209 | snapshot is `End` of the old one |
| StudyBridge.RNStudyModule.RunStartTask | src/android/app/src/main/java/ai/membo/modules/RNStudyModule.java:88-141 | snapshot is `RunStart` of the old one |
| StudyBridge.RNStudyModule.RunSubmitTask | src/android/app/src/main/java/ai/membo/modules/RNStudyModule.java:169-182 | snapshot is `RunSubmit` of the old one |
| StudyBridge.RNStudyModule.RunEndTask | src/android/app/src/main/java/ai/membo/modules/RNStudyModule.java:193-206 | snapshot is `RunEnd` of the old one |
| StudyBridge.RNStudyModule.RunPosted | src/android/app/src/main/java/ai/membo/modules/RNStudyModule.java:88-206 | snapshot is `RunNext` of the old one |
| StudyBridge.RNStudyModule.OnCatalystInstanceDestroy | src/android/app/src/main/java/ai/membo/modules/RNStudyModule.java:212-219 | snapshot is `Destroy` of the old one |
| Utf8.EncodeChar | src/android/app/src/main/java/ai/membo/utils/FileManager.java:126 | one to four bytes, exactly one for ASCII |
| Utf8.DecodeOneEncodeChar | src/android/app/src/main/java/ai/membo/utils/FileManager.java:234 | decoding one encoded character gives it back and consumes its bytes |
| Utf8.DecodeEncode | src/android/app/src/main/java/ai/membo/utils/FileManager.java:234 | `new String(s.getBytes("UTF-8"), "UTF-8")` is `s` |
| Utf8.Encode | src/android/app/src/main/java/ai/membo/utils/FileManager.java:126 | one to four bytes per character |
| Utf8.Decode | src/android/app/src/main/java/ai/membo/utils/FileManager.java:234 | never more characters than bytes |
| Utf8.AsciiIsOneBytePerChar | src/android/app/src/main/java/ai/membo/utils/FileManager.java:126 | ASCII text encodes to as many bytes as characters |
| JavaText.HashCode | src/android/app/src/main/java/ai/membo/managers/ContentCaptureManager.java:207 | a 32-bit int |
| JavaText.Abs | src/android/app/src/main/java/ai/membo/managers/ContentCaptureManager.java:207 | non-negative and ±x except at the least int, which stays negative |
| JavaText.ParseIntToString | src/android/app/src/main/java/ai/membo/managers/ContentCaptureManager.java:206 | the decimal form reads back as the number |
| JavaText.IntToString | src/android/app/src/main/java/ai/membo/managers/ContentCaptureManager.java:206 | a minus sign exactly for negative numbers, and otherwise decimal digits |
| JavaText.IntToStringHasNoUnderscore | src/android/app/src/main/java/ai/membo/managers/ContentCaptureManager.java:206-207 | the decimal form has no underscore |
| JavaText.HashCollision | src/android/app/src/main/java/ai/membo/managers/ContentCaptureManager.java:207 | "Aa" and "BB" both hash to 2112 |
| JavaText.AbsNegativeOnlyAtMin | src/android/app/src/main/java/ai/membo/managers/ContentCaptureManager.java:207 | Math.abs of a hash is negative iff the hash is the least int |
| FileStore.FrameSplitInverse | src/android/app/src/main/java/ai/membo/utils/FileManager.java:217-226 | splitting a frame gives its IV and ciphertext; every file of 12 or more bytes is the frame of its split |
| FileStore.Frame | src/android/app/src/main/java/ai/membo/utils/FileManager.java:135-137 | the frame is the 12-byte IV followed by the ciphertext |
| FileStore.Split | src/android/app/src/main/java/ai/membo/utils/FileManager.java:217-226 | the IV and the ciphertext concatenate back to the file, and the ciphertext is the file minus 12 bytes |
| FileStore.TmpPath | src/android/app/src/main/java/ai/membo/utils/FileManager.java:130 | the temporary file is a different file in the same directory |
| FileStore.Partial | src/android/app/src/main/java/ai/membo/utils/FileManager.java:140 | what a write that raises part-way leaves: a prefix of the frame, of the given length or the whole frame |
| FileStore.Save | src/android/app/src/main/java/ai/membo/utils/FileManager.java:111-202 | without permission SecurityError and no file touched; when encryption or opening the temporary file fails, IoError and the files as they were; when writing it fails, IoError and the .tmp holds a prefix of the frame; after a complete write, the target holds the IV followed by the ciphertext of the content, stamped now, and the result is Saved; when the rename then fails, the .tmp holds exactly those bytes and the result is IoError |
| FileStore.Read | src/android/app/src/main/java/ai/membo/utils/FileManager.java:209-238 | null iff missing or unreadable; a file shorter than the IV raises; a readable file of 12 or more bytes reads as the UTF-8 decoding of its decryption when the tag authenticates and raises otherwise, and content is never returned otherwise |
| FileStore.SaveTouchesOnlyTargetAndTmp | src/android/app/src/main/java/ai/membo/utils/FileManager.java:130-146 | other files are untouched; a failed rename leaves the target as it was and the .tmp behind; a successful one removes the .tmp |
| FileStore.SaveThenRead | src/android/app/src/main/java/ai/membo/utils/FileManager.java:111-238 | with a cipher whose decryption inverts encryption, reading a saved text gives it back |
| FileStore.ChunksProperties | src/android/app/src/main/java/ai/membo/utils/FileManager.java:253-261 | the chunks sum to the length, each is 1–256 bytes, all but the last are 256 |
| FileStore.WriteZeroChunks | src/android/app/src/main/java/ai/membo/utils/FileManager.java:253-261 | the loop writes `Chunks(length)`: between 1 and 256 bytes each, summing to the length |
| FileStore.AsWrittenOverwritesNothing | src/android/app/src/main/java/ai/membo/utils/FileManager.java:252-261 | as written no zero reaches a non-empty file, which differs from the intended overwrite |
| FileStore.AsWrittenCounterexample | src/android/app/src/main/java/ai/membo/utils/FileManager.java:252-261 | the one-byte file [1] is left empty rather than zeroed |
| FileStore.OverwrittenAsWritten | src/android/app/src/main/java/ai/membo/utils/FileManager.java:252-261 | as written the overwrite leaves nothing of the file, whatever it held |
| FileStore.Overwritten | src/android/app/src/main/java/ai/membo/utils/FileManager.java:253-261 | the corrected overwrite: as many zero bytes as the file had |
| FileStore.Delete | src/android/app/src/main/java/ai/membo/utils/FileManager.java:244-271 | deleteFile with the overwrite of the Findings row corrected: a missing file is untouched; otherwise it is removed iff the delete succeeds, and a failed delete leaves zeros of its original length |
| FileStore.DeleteAsWritten | src/android/app/src/main/java/ai/membo/utils/FileManager.java:244-271 | deleteFile as written: only the deleted path can go, nothing else changes, and a failed delete leaves the file empty |
| FileStore.DeleteAsWrittenCounterexample | src/android/app/src/main/java/ai/membo/utils/FileManager.java:252-266 | for the file [1] with a failing delete, the code leaves an empty file and the corrected deletion leaves [0] |
| FileStore.CleanupSelection | src/android/app/src/main/java/ai/membo/utils/FileManager.java:277-297 | a file goes iff its delete succeeds and it is a voice file strictly older than 24 h or any temp file; others stay exactly as they were |
| FileStore.CleanDir | src/android/app/src/main/java/ai/membo/utils/FileManager.java:277-297 | one pass only removes or rewrites files of its directory that are selected; every other file stays exactly as it was |
| FileStore.Cleanup | src/android/app/src/main/java/ai/membo/utils/FileManager.java:277-297 | no file is added and content files are never touched |
| FileStore.FileManager.SaveCapturedContent | src/android/app/src/main/java/ai/membo/utils/FileManager.java:111-152 | files and result are `Save` of the UTF-8 bytes in the content directory |
| FileStore.FileManager.SaveVoiceRecording | src/android/app/src/main/java/ai/membo/utils/FileManager.java:159-319 | files and result are `Save` in the voice directory; a deletion due 24 h later is scheduled iff saved |
| FileStore.FileManager.WriteAtomically | src/android/app/src/main/java/ai/membo/utils/FileManager.java:112-146 | the shared check, temporary write and rename, as `Save` |
| FileStore.FileManager.ReadFile | src/android/app/src/main/java/ai/membo/utils/FileManager.java:209-238 | the result is `Read` of the current files |
| FileStore.FileManager.DeleteFile | src/android/app/src/main/java/ai/membo/utils/FileManager.java:244-271 | true iff the file existed and the delete succeeded; files are the corrected `Delete` of the old ones |
| FileStore.FileManager.CleanupDirectory | src/android/app/src/main/java/ai/membo/utils/FileManager.java:279-295 | the loop over a directory's listing leaves `CleanDir` of the old files |
| FileStore.FileManager.CleanupExpiredFiles | src/android/app/src/main/java/ai/membo/utils/FileManager.java:277-297 | files are `Cleanup` of the old ones: voice pass, then temp pass |
| FileStore.FileManager.RunScheduledDeletion | src/android/app/src/main/java/ai/membo/utils/FileManager.java:313-319 | run only once the job is due; the job leaves the schedule and its file is deleted |
| ContentCapture.GenerateFilename | src/android/app/src/main/java/ai/membo/managers/ContentCaptureManager.java:205-208 | the name starts with the source and an underscore and ends with ".enc" |
| ContentCapture.FilenameDeterminesSourceAndTime | src/android/app/src/main/java/ai/membo/managers/ContentCaptureManager.java:205-208 | for underscore-free sources, equal filenames have equal source and timestamp |
| ContentCapture.SameMillisecondCollision | src/android/app/src/main/java/ai/membo/managers/ContentCaptureManager.java:205-208 | different identifiers captured in the same millisecond can get the same filename |
| ContentCapture.WebMetadata | src/android/app/src/main/java/ai/membo/managers/ContentCaptureManager.java:75-78 | the caller's keys plus source="web", url and captured_at; other entries unchanged |
| ContentCapture.PdfMetadata | src/android/app/src/main/java/ai/membo/managers/ContentCaptureManager.java:95-99 | the caller's keys plus source="pdf", file_path, page and captured_at; other entries unchanged |
| ContentCapture.KindleMetadata | src/android/app/src/main/java/ai/membo/managers/ContentCaptureManager.java:117-124 | the caller's keys plus source="kindle", book_id, book_title and book_author (the book record's title and author, "" when absent) and captured_at; other entries unchanged |
| ContentCapture.Offer | src/android/app/src/main/java/ai/membo/managers/ContentCaptureManager.java:194-200 | accepted iff fewer than 100 URIs are queued, and then appended |
| ContentCapture.OfferAllKeepsFirst | src/android/app/src/main/java/ai/membo/managers/ContentCaptureManager.java:194-200 | a run of offers appends exactly the first ones that fit |
| ContentCapture.LifetimeAcceptsAtMostCapacity | src/android/app/src/main/java/ai/membo/managers/ContentCaptureManager.java:194-200 | over the manager's lifetime only the first 100 URIs offered are accepted |
| ContentCapture.SyncBounds | src/android/app/src/main/java/ai/membo/managers/ContentCaptureManager.java:143-188 | at most three inserts, and true iff one of the inserts made returned 201 |
| ContentCapture.SyncFromBounds | src/android/app/src/main/java/ai/membo/managers/ContentCaptureManager.java:149-187 | from any attempt: no insert but the last returned 201, and true iff the last did |
| ContentCapture.AfterFailureBounds | src/android/app/src/main/java/ai/membo/managers/ContentCaptureManager.java:173-182 | the same after a counted failure |
| ContentCapture.Sync | src/android/app/src/main/java/ai/membo/managers/ContentCaptureManager.java:139-189 | at most three inserts and at most two sleeps |
| ContentCapture.SyncFrom | src/android/app/src/main/java/ai/membo/managers/ContentCaptureManager.java:149-187 | from any attempt, at most one insert per remaining attempt and fewer sleeps than remaining attempts |
| ContentCapture.AfterFailure | src/android/app/src/main/java/ai/membo/managers/ContentCaptureManager.java:173-182 | after a counted failure, at most one insert and one sleep per remaining attempt |
| ContentCapture.SyncWithoutInterrupts | src/android/app/src/main/java/ai/membo/managers/ContentCaptureManager.java:143-188 | with no interrupts, true iff one of the first three inserts returned 201 |
| ContentCapture.SyncOfUnreadableFile | src/android/app/src/main/java/ai/membo/managers/ContentCaptureManager.java:145-184 | a null read gives false at once with no insert or sleep; a failing read never reaches the backend |
| ContentCapture.InterruptedRetrySleepFails | src/android/app/src/main/java/ai/membo/managers/ContentCaptureManager.java:173-182 | at any attempt but the last, an interrupt in the sleep after a failed insert or a failed read ends the sync with false, with no further insert |
| ContentCapture.InterruptAfterRejectionCostsAnAttempt | src/android/app/src/main/java/ai/membo/managers/ContentCaptureManager.java:169-178 | an interrupt in the sleep after a rejected insert is caught as a second failed attempt, leaving one insert |
| ContentCapture.ContentCaptureManager.QueueForSync | src/android/app/src/main/java/ai/membo/managers/ContentCaptureManager.java:194-200 | the queue is `Offer` of the old one, and a sync job is launched iff accepted |
| ContentCapture.ContentCaptureManager.SyncContent | src/android/app/src/main/java/ai/membo/managers/ContentCaptureManager.java:139-189 | the loop's result is that of `Sync` on the file as it reads back |
| ContentCapture.ContentCaptureManager.RunSyncJob | src/android/app/src/main/java/ai/membo/managers/ContentCaptureManager.java:196 | the executor runs one launched sync and drops it |
| ContentCapture.ContentCaptureManager.CaptureContent | src/android/app/src/main/java/ai/membo/managers/ContentCaptureManager.java:80-83 | the save as `Save`; the URI is offered for sync iff saved |
| ContentCapture.ContentCaptureManager.CaptureWebContent | src/android/app/src/main/java/ai/membo/managers/ContentCaptureManager.java:73-87 | saved under the "web" filename of the URL with the web metadata, queued iff saved |
| ContentCapture.ContentCaptureManager.CapturePdfContent | src/android/app/src/main/java/ai/membo/managers/ContentCaptureManager.java:93-108 | saved under the "pdf" filename of path + "_p" + page with the PDF metadata, queued iff saved |
| ContentCapture.ContentCaptureManager.CaptureKindleContent | src/android/app/src/main/java/ai/membo/managers/ContentCaptureManager.java:114-133 | saved under the "kindle" filename of the book id with the Kindle metadata, queued iff saved |

## Left out

- AudioSession.Release: the `catch (IllegalStateException)` path, where `stop` or `release` raises and only the flag is cleared, is not modelled. In the model an active session always holds an initialised, recording recorder, so that exception cannot arise.
- Concurrency: `synchronized`, `volatile`, the executors and the thread pools are not modelled. Each operation runs to completion; handler messages, executor jobs and scheduled deletions run when the environment fires them.
- Platform services are inputs rather than code: speech recognition, AudioRecord, audio focus, connectivity, power, the keystore, AES-GCM, Supabase and the Kindle client. The cipher is a pair of functions: `Save` writes the IV followed by `encrypt` of the content, and `Read` returns the decoding of `decrypt`, which is None when the tag does not authenticate. `SaveThenRead` assumes that decryption inverts encryption.
- Callbacks are logged, not invoked synchronously. The NO_PERMISSION report inside `startVoiceRecognition` would re-enter the study manager's handler, which restarts voice recognition. That cascade is not modelled.
- Voice.Start: within one operation the environment answers every recognizer and permission query the same way.
- `RNStudyModule`'s constructor calls the `StudyManager` and `VoiceManager` constructors with arguments they do not declare. `FileManager`'s constructor builds `new PermissionManager(null, null)`, which throws on `activity.getApplicationContext()`. The model therefore uses the declared constructors, and the storage-permission answer is an input to the save methods.
- Not part of this model: the FSRS algorithm, analytics, the SessionState class and the Card class. A new `Card(id)` is assumed to be unscheduled, with zero stability and difficulty. Cards are values here, whereas the Java aliases card objects.
- The LruCache of permission answers is a plain map. Its capacity of 10 is never reached by the three keys used.
- ErrorCodes.GetLocalizedMessage: formatting and the fallback to the unknown-error string when `getString` throws are not modelled. The contract states which resource is selected.
- Utf8.Decode: malformed input is replaced by U+FFFD one byte at a time, whereas the JDK replaces each maximal malformed subsequence with a single U+FFFD. Text written by `saveCapturedContent` is well formed and reads back unchanged (`Utf8.DecodeEncode`). Other plaintext, such as a voice recording's bytes read through `readFile`, can decode to a different string: the bytes E1 80 41 give two replacement characters and "A" here, and one replacement character and "A" in the JDK.
- FileStore.Save: which step of encryption and writing raises an IOException is an input, as is how many bytes of the frame reached the `.tmp` before it. The key lookup, the cipher setup, `doFinal` and opening the stream raise before the `.tmp` exists; `write` and `force` raise after it.
- StudyBridge.RunSubmit: when the manager raises, the bridge and study state are kept as they were. A change the manager made before raising is not modelled. The same holds for StudyBridge.RunEnd.
- StudyBridge.RunStart: the posted start runs on the handler, outside the `try` of `startStudySession`, so an exception raised there is not caught. That crash is not modelled: the posted start never raises here.
- FileStore.Read: `File.canRead` is an input. Reading through a `Uri` that names a file outside the three directories is not modelled.
- FileStore.Delete: an IOException while overwriting, and directories in a listing, are not modelled. `listFiles` returning null is not modelled either.
- FileStore.FileManager.DeleteFile: the class, its scheduled deletions and the cleanup run the corrected overwrite of the Findings row. Where a delete fails they leave zeros of the file's original length, whereas the code leaves an empty file (`FileStore.DeleteAsWritten`). The same holds for FileStore.FileManager.CleanupDirectory, FileStore.FileManager.CleanupExpiredFiles and FileStore.FileManager.RunScheduledDeletion.
- The `.tmp` file a failed rename leaves in the content directory is never cleaned up, because the cleanup scans only the voice and temp directories. One left in the voice directory gets no scheduled deletion, since `saveVoiceRecording` raises before scheduling one; the expiry cleanup removes it once it is more than 24 hours old (`FileStore.CleanupSelection`). That is what the code does.
- ContentCapture.CaptureWebContent: the two clock reads for `captured_at` and the filename are one `now`. Null URLs, paths and metadata, and JSON exceptions, are not modelled.
- ContentCapture.SyncContent: the payload and the 200 ms request timeout are not modelled. An insert's timeout counts as a failed call.
- The hourly cleanup schedule and the sleep durations are not modelled. `CleanupExpiredFiles` and the retry sleeps run when invoked.

## Findings

| source | as written | input that shows it | evidently intended | confidence | as-written member | corrected member |
|---|---|---|---|---|---|---|
| src/android/app/src/main/java/ai/membo/utils/FileManager.java:252-261 | `new FileOutputStream(file)` truncates the file before `file.length()` is read, so the overwrite loop sees length 0, writes no zeros, and the old bytes are released unoverwritten | a one-byte file holding [1]: the loop writes nothing and the file becomes empty | read the length before opening the stream, so that exactly that many zero bytes are written | not executed | FileStore.OverwrittenAsWritten (FileStore.AsWrittenOverwritesNothing, FileStore.AsWrittenCounterexample, FileStore.DeleteAsWritten, FileStore.DeleteAsWrittenCounterexample) | FileStore.Overwritten (FileStore.ChunksProperties, FileStore.Delete) |
