/** The runtime-permission cache and its debounced requests
    (ai.membo.utils.PermissionManager). The system's answers (the SDK level,
    checkSelfPermission, shouldShowRequestPermissionRationale) are inputs;
    the callback's invocations and the system prompts are recorded in logs. */
module Permissions {
  import opened Base

  const RECORD_AUDIO: string := "android.permission.RECORD_AUDIO"
  const READ_EXTERNAL_STORAGE: string := "android.permission.READ_EXTERNAL_STORAGE"
  const WRITE_EXTERNAL_STORAGE: string := "android.permission.WRITE_EXTERNAL_STORAGE"

  const PERMISSION_REQUEST_CODE: int := 100
  /** PackageManager.PERMISSION_GRANTED. */
  const PERMISSION_GRANTED: int := 0
  /** Build.VERSION_CODES.M, the first level with runtime permissions. */
  const SDK_M: int := 23
  const DEBOUNCE_DELAY_MS: int := 1000

  /** What the one debounce slot of the handler can hold. */
  datatype RequestKind = MicrophoneRequest | StorageRequest

  /** One invocation of the PermissionCallback. */
  datatype PermissionNotice = Granted(permission: string) | Denied(permission: string, showRationale: bool)

  /** The manager's state: the cache, the debounce slot, the callback
      invocations so far, and the permission prompts shown by the system. */
  datatype PermState = PermState(
    cache: map<string, bool>,
    pending: Option<RequestKind>,
    notices: seq<PermissionNotice>,
    prompts: seq<seq<string>>)

  datatype CheckOutcome = CheckOutcome(state: PermState, granted: bool)

  const InitialPermState: PermState := PermState(map[], None, [], [])

  /** checkMicrophonePermission. */
  function CheckMicrophone(p: PermState, sdk: int, systemGranted: bool): (r: CheckOutcome)
    // a cached entry is answered without asking the system
    ensures RECORD_AUDIO in p.cache ==> r.state == p && r.granted == p.cache[RECORD_AUDIO]
    // below M the answer is true and nothing is cached
    ensures RECORD_AUDIO !in p.cache && sdk < SDK_M ==> r.state == p && r.granted
    // on a miss from M on, the system's answer is returned and cached
    ensures RECORD_AUDIO !in p.cache && sdk >= SDK_M ==>
      r.granted == systemGranted && r.state.cache == p.cache[RECORD_AUDIO := systemGranted]
    // only the cache can change, and only at RECORD_AUDIO
    ensures r.state.pending == p.pending && r.state.notices == p.notices && r.state.prompts == p.prompts
    ensures forall k :: k != RECORD_AUDIO ==> (k in r.state.cache <==> k in p.cache)
    ensures forall k :: k != RECORD_AUDIO && k in p.cache ==> r.state.cache[k] == p.cache[k]
  {
    if RECORD_AUDIO in p.cache then CheckOutcome(p, p.cache[RECORD_AUDIO])
    else if sdk < SDK_M then CheckOutcome(p, true)
    else CheckOutcome(p.(cache := p.cache[RECORD_AUDIO := systemGranted]), systemGranted)
  }

  /** checkStoragePermission. Only the READ key is consulted on lookup. */
  function CheckStorage(p: PermState, sdk: int, readGranted: bool, writeGranted: bool): (r: CheckOutcome)
    ensures READ_EXTERNAL_STORAGE in p.cache ==> r.state == p && r.granted == p.cache[READ_EXTERNAL_STORAGE]
    ensures READ_EXTERNAL_STORAGE !in p.cache && sdk < SDK_M ==> r.state == p && r.granted
    // on a miss from M on: granted iff both are, and that one value is cached under both keys
    ensures READ_EXTERNAL_STORAGE !in p.cache && sdk >= SDK_M ==>
      (r.granted <==> readGranted && writeGranted)
      && r.state.cache == p.cache[READ_EXTERNAL_STORAGE := r.granted][WRITE_EXTERNAL_STORAGE := r.granted]
    ensures r.state.pending == p.pending && r.state.notices == p.notices && r.state.prompts == p.prompts
  {
    if READ_EXTERNAL_STORAGE in p.cache then CheckOutcome(p, p.cache[READ_EXTERNAL_STORAGE])
    else if sdk < SDK_M then CheckOutcome(p, true)
    else
      var granted := readGranted && writeGranted;
      CheckOutcome(p.(cache := p.cache[READ_EXTERNAL_STORAGE := granted][WRITE_EXTERNAL_STORAGE := granted]), granted)
  }

  /** A result that granted READ and denied WRITE leaves the storage check
      answering true, because the lookup reads only the READ entry. */
  lemma StorageHitIgnoresWrite(p: PermState, sdk: int, readGranted: bool, writeGranted: bool)
    requires p.cache == map[READ_EXTERNAL_STORAGE := true, WRITE_EXTERNAL_STORAGE := false]
    ensures CheckStorage(p, sdk, readGranted, writeGranted).granted
  {
  }

  /** The callback invocation for one entry of a permission result. */
  function NoticeFor(permission: string, grant: int, rationale: bool): PermissionNotice
  {
    if grant == PERMISSION_GRANTED then Granted(permission) else Denied(permission, rationale)
  }

  /** The state after the loop of onRequestPermissionsResult has handled
      the first k entries. */
  function ResultsUpTo(p: PermState, permissions: seq<string>, grants: seq<int>, rationale: seq<bool>, k: nat): (r: PermState)
    requires |grants| == |permissions| && |rationale| == |permissions| && k <= |permissions|
    ensures |r.notices| == |p.notices| + k && r.notices[..|p.notices|] == p.notices
  {
    if k == 0 then p
    else
      var q := ResultsUpTo(p, permissions, grants, rationale, k - 1);
      q.(cache := q.cache[permissions[k - 1] := grants[k - 1] == PERMISSION_GRANTED],
         notices := q.notices + [NoticeFor(permissions[k - 1], grants[k - 1], rationale[k - 1])])
  }

  /** onRequestPermissionsResult: any other request code is ignored. */
  function OnResults(p: PermState, requestCode: int, permissions: seq<string>, grants: seq<int>, rationale: seq<bool>): (r: PermState)
    requires |grants| == |permissions| && |rationale| == |permissions|
    ensures requestCode != PERMISSION_REQUEST_CODE ==> r == p
    ensures requestCode == PERMISSION_REQUEST_CODE ==> |r.notices| == |p.notices| + |permissions|
    ensures requestCode == PERMISSION_REQUEST_CODE ==> r.notices[..|p.notices|] == p.notices
  {
    if requestCode != PERMISSION_REQUEST_CODE then p
    else ResultsUpTo(p, permissions, grants, rationale, |permissions|)
  }

  /** Each handled entry fires exactly one callback, granted or denied, in
      order, and nothing else in the state but the cache changes. */
  lemma {:induction false} ResultsNotices(p: PermState, permissions: seq<string>, grants: seq<int>, rationale: seq<bool>, k: nat)
    requires |grants| == |permissions| && |rationale| == |permissions| && k <= |permissions|
    ensures var q := ResultsUpTo(p, permissions, grants, rationale, k);
      |q.notices| == |p.notices| + k && q.notices[..|p.notices|] == p.notices
      && q.pending == p.pending && q.prompts == p.prompts
      && forall i :: 0 <= i < k ==>
           q.notices[|p.notices| + i] == NoticeFor(permissions[i], grants[i], rationale[i])
  {
    if k > 0 {
      ResultsNotices(p, permissions, grants, rationale, k - 1);
    }
  }

  /** After the first k entries, the cache holds for every handled
      permission the grant of its last occurrence. */
  lemma {:induction false} ResultsCacheLastWins(p: PermState, permissions: seq<string>, grants: seq<int>, rationale: seq<bool>, k: nat)
    requires |grants| == |permissions| && |rationale| == |permissions| && k <= |permissions|
    ensures var q := ResultsUpTo(p, permissions, grants, rationale, k);
      forall i :: 0 <= i < k && (forall j :: i < j < k ==> permissions[j] != permissions[i]) ==>
        permissions[i] in q.cache && q.cache[permissions[i]] == (grants[i] == PERMISSION_GRANTED)
  {
    if k > 0 {
      ResultsCacheLastWins(p, permissions, grants, rationale, k - 1);
      var q0 := ResultsUpTo(p, permissions, grants, rationale, k - 1);
      var q := ResultsUpTo(p, permissions, grants, rationale, k);
      assert q.cache == q0.cache[permissions[k - 1] := grants[k - 1] == PERMISSION_GRANTED];
      forall i | 0 <= i < k && (forall j :: i < j < k ==> permissions[j] != permissions[i])
        ensures permissions[i] in q.cache && q.cache[permissions[i]] == (grants[i] == PERMISSION_GRANTED)
      {
        if i < k - 1 {
          assert permissions[k - 1] != permissions[i];
        }
      }
    }
  }

  /** After the first k entries, a key none of them names is as it was. */
  lemma {:induction false} ResultsCacheUntouched(p: PermState, permissions: seq<string>, grants: seq<int>, rationale: seq<bool>, k: nat, key: string)
    requires |grants| == |permissions| && |rationale| == |permissions| && k <= |permissions|
    requires forall j :: 0 <= j < k ==> permissions[j] != key
    ensures var q := ResultsUpTo(p, permissions, grants, rationale, k);
      (key in q.cache <==> key in p.cache) && (key in p.cache ==> q.cache[key] == p.cache[key])
  {
    if k > 0 {
      ResultsCacheUntouched(p, permissions, grants, rationale, k - 1, key);
    }
  }

  /** Both request methods clear the one handler slot and post their own
      delayed request there. */
  function Request(p: PermState, kind: RequestKind): (r: PermState)
    ensures r.pending == Some(kind)
    ensures r.cache == p.cache && r.notices == p.notices && r.prompts == p.prompts
  {
    p.(pending := Some(kind))
  }

  /** A new request of either kind cancels any pending one: whatever was
      pending before, the state is that of the last request alone. */
  lemma RequestCancelsPending(p: PermState, first: RequestKind, second: RequestKind)
    ensures Request(Request(p, first), second) == Request(p, second)
  {
  }

  /** The delayed body of a request, run when the debounce delay expires:
      below M nothing is asked; otherwise the rationale case reports a
      denial with rationale, and the other case shows the system prompt. */
  function FireDebounced(p: PermState, sdk: int, rationaleAudio: bool, rationaleRead: bool, rationaleWrite: bool): (r: PermState)
    ensures r.pending == None && r.cache == p.cache
    ensures p.pending.None? || sdk < SDK_M ==> r.notices == p.notices && r.prompts == p.prompts
  {
    match p.pending
    case None => p
    case Some(kind) =>
      var q := p.(pending := None);
      if sdk < SDK_M then q
      else match kind
        case MicrophoneRequest =>
          if rationaleAudio then q.(notices := q.notices + [Denied(RECORD_AUDIO, true)])
          else q.(prompts := q.prompts + [[RECORD_AUDIO]])
        case StorageRequest =>
          if rationaleRead || rationaleWrite then q.(notices := q.notices + [Denied(READ_EXTERNAL_STORAGE, true)])
          else q.(prompts := q.prompts + [[READ_EXTERNAL_STORAGE, WRITE_EXTERNAL_STORAGE]])
  }

  class PermissionManager {
    var cache: map<string, bool>
    var pending: Option<RequestKind>
    var notices: seq<PermissionNotice>
    var prompts: seq<seq<string>>

    function State(): PermState
      reads this
    {
      PermState(cache, pending, notices, prompts)
    }

    constructor ()
      ensures State() == InitialPermState
    {
      cache := map[];
      pending := None;
      notices := [];
      prompts := [];
    }

    method CheckMicrophonePermission(sdk: int, systemGranted: bool) returns (granted: bool)
      modifies this
      ensures State() == CheckMicrophone(old(State()), sdk, systemGranted).state
      ensures granted == CheckMicrophone(old(State()), sdk, systemGranted).granted
    {
      if RECORD_AUDIO in cache {
        return cache[RECORD_AUDIO];
      }
      if sdk < SDK_M {
        return true;
      }
      granted := systemGranted;
      cache := cache[RECORD_AUDIO := granted];
    }

    method CheckStoragePermission(sdk: int, readGranted: bool, writeGranted: bool) returns (granted: bool)
      modifies this
      ensures State() == CheckStorage(old(State()), sdk, readGranted, writeGranted).state
      ensures granted == CheckStorage(old(State()), sdk, readGranted, writeGranted).granted
    {
      if READ_EXTERNAL_STORAGE in cache {
        return cache[READ_EXTERNAL_STORAGE];
      }
      if sdk < SDK_M {
        return true;
      }
      granted := readGranted && writeGranted;
      cache := cache[READ_EXTERNAL_STORAGE := granted];
      cache := cache[WRITE_EXTERNAL_STORAGE := granted];
    }

    method RequestMicrophonePermission()
      modifies this
      ensures State() == Request(old(State()), MicrophoneRequest)
    {
      pending := Some(MicrophoneRequest);
    }

    method RequestStoragePermission()
      modifies this
      ensures State() == Request(old(State()), StorageRequest)
    {
      pending := Some(StorageRequest);
    }

    /** The handler runs the delayed request body. */
    method RunDebouncedRequest(sdk: int, rationaleAudio: bool, rationaleRead: bool, rationaleWrite: bool)
      modifies this
      ensures State() == FireDebounced(old(State()), sdk, rationaleAudio, rationaleRead, rationaleWrite)
    {
      if pending.None? {
        return;
      }
      var kind := pending.value;
      pending := None;
      if sdk < SDK_M {
        return;
      }
      match kind
      case MicrophoneRequest =>
        if rationaleAudio {
          notices := notices + [Denied(RECORD_AUDIO, true)];
        } else {
          prompts := prompts + [[RECORD_AUDIO]];
        }
      case StorageRequest =>
        if rationaleRead || rationaleWrite {
          notices := notices + [Denied(READ_EXTERNAL_STORAGE, true)];
        } else {
          prompts := prompts + [[READ_EXTERNAL_STORAGE, WRITE_EXTERNAL_STORAGE]];
        }
    }

    /** `grants` and `rationale` are indexed like `permissions`; the system
        delivers arrays of equal length, and `rationale[i]` is what
        shouldShowRequestPermissionRationale answers for `permissions[i]`. */
    method OnRequestPermissionsResult(requestCode: int, permissions: seq<string>, grants: seq<int>, rationale: seq<bool>)
      requires |grants| == |permissions| && |rationale| == |permissions|
      modifies this
      ensures State() == OnResults(old(State()), requestCode, permissions, grants, rationale)
    {
      if requestCode != PERMISSION_REQUEST_CODE {
        return;
      }
      var i := 0;
      while i < |permissions|
        invariant 0 <= i <= |permissions|
        invariant State() == ResultsUpTo(old(State()), permissions, grants, rationale, i)
      {
        var isGranted := grants[i] == PERMISSION_GRANTED;
        cache := cache[permissions[i] := isGranted];
        if isGranted {
          notices := notices + [Granted(permissions[i])];
        } else {
          notices := notices + [Denied(permissions[i], rationale[i])];
        }
        i := i + 1;
      }
    }

    method ClearPermissionCache()
      modifies this
      ensures State() == old(State()).(cache := map[])
    {
      cache := map[];
    }
  }
}
