/** ContentCaptureManager: filenames for captured content, enrichment of
    the caller's metadata, the bounded sync queue and the retrying upload
    to the backend. The backend's answers, thread interrupts during the
    retry sleeps and the Kindle book record are inputs. */
module ContentCapture {
  import opened Base
  import F = FileStore
  import J = JavaText
  import Utf8

  const SYNC_RETRY_ATTEMPTS: nat := 3
  const SYNC_RETRY_DELAY_MS: int := 1000
  const SYNC_QUEUE_CAPACITY: nat := 100
  const SYNC_TIMEOUT_MS: int := 200
  /** The HTTP status the insert must return to count as synced. */
  const STATUS_CREATED: int := 201
  const ENC_SUFFIX: string := ".enc"

  // ------------------------------------------------------------- filenames

  /** generateFilename: the source, the capture time and the absolute hash
      of the identifier, separated by underscores. */
  function GenerateFilename(source: string, identifier: string, now: int): (r: string)
    ensures |r| > |source| + |ENC_SUFFIX| && r[..|source|] == source && r[|source|] == '_'
    ensures r[|r| - |ENC_SUFFIX|..] == ENC_SUFFIX
  {
    source + "_" + J.IntToString(now) + "_" + HashField(identifier)
  }

  /** The last field: the absolute hash code and the ".enc" extension. */
  function HashField(identifier: string): string
  {
    J.IntToString(J.Abs(J.HashCode(identifier))) + ENC_SUFFIX
  }

  /** The characters before the first underscore. */
  function FieldBefore(s: string): string
  {
    if s == [] || s[0] == '_' then [] else [s[0]] + FieldBefore(s[1..])
  }

  lemma {:induction false} FieldBeforeJoin(x: string, y: string)
    requires '_' !in x
    ensures FieldBefore(x + "_" + y) == x
  {
    if x == [] {
      assert (x + "_" + y)[0] == '_';
    } else {
      assert (x + "_" + y)[1..] == x[1..] + "_" + y;
      FieldBeforeJoin(x[1..], y);
    }
  }

  /** The part before the first underscore determines the rest. */
  lemma SplitAtUnderscore(x1: string, y1: string, x2: string, y2: string)
    requires '_' !in x1 && '_' !in x2
    requires x1 + "_" + y1 == x2 + "_" + y2
    ensures x1 == x2 && y1 == y2
  {
    var s := x1 + "_" + y1;
    FieldBeforeJoin(x1, y1);
    FieldBeforeJoin(x2, y2);
    assert y1 == s[|x1| + 1..];
    assert y2 == (x2 + "_" + y2)[|x2| + 1..];
  }

  /** For an underscore-free source, the filename gives back its source
      and its capture time: equal names mean equal sources and times. */
  lemma FilenameDeterminesSourceAndTime(s1: string, id1: string, t1: int, s2: string, id2: string, t2: int)
    requires '_' !in s1 && '_' !in s2
    requires GenerateFilename(s1, id1, t1) == GenerateFilename(s2, id2, t2)
    ensures s1 == s2 && t1 == t2
  {
    J.IntToStringHasNoUnderscore(t1);
    J.IntToStringHasNoUnderscore(t2);
    LeadingFields(s1, J.IntToString(t1), HashField(id1), s2, J.IntToString(t2), HashField(id2));
    J.ParseIntToString(t1);
    J.ParseIntToString(t2);
  }

  /** The first two underscore-free fields of `x_d_h` are determined. */
  lemma LeadingFields(x1: string, d1: string, h1: string, x2: string, d2: string, h2: string)
    requires '_' !in x1 && '_' !in x2 && '_' !in d1 && '_' !in d2
    requires x1 + "_" + d1 + "_" + h1 == x2 + "_" + d2 + "_" + h2
    ensures x1 == x2 && d1 == d2
  {
    assert x1 + "_" + d1 + "_" + h1 == x1 + "_" + (d1 + "_" + h1);
    assert x2 + "_" + d2 + "_" + h2 == x2 + "_" + (d2 + "_" + h2);
    SplitAtUnderscore(x1, d1 + "_" + h1, x2, d2 + "_" + h2);
    SplitAtUnderscore(d1, h1, d2, h2);
  }

  /** Two captures of the same kind in the same millisecond get the same
      filename even for different identifiers: "Aa" and "BB" share a hash
      code, so the second save replaces the first. */
  lemma SameMillisecondCollision(source: string, now: int)
    ensures "Aa" != "BB" && GenerateFilename(source, "Aa", now) == GenerateFilename(source, "BB", now)
  {
    J.HashCollision();
  }

  // -------------------------------------------------------------- metadata

  /** The JSON values the enrichment writes; anything else the caller put
      in is carried along unexamined. */
  datatype Json = JString(str: string) | JNumber(n: int) | JOther

  type Metadata = map<string, Json>

  /** The identifier a PDF capture hashes: the path, "_p" and the page. */
  function PdfIdentifier(pdfPath: string, page: int): string
  {
    pdfPath + "_p" + J.IntToString(page)
  }

  /** captureWebContent's metadata: the caller's entries, with "source",
      "url" and "captured_at" set. */
  function WebMetadata(metadata: Metadata, url: string, now: int): (r: Metadata)
    ensures r.Keys == metadata.Keys + {"source", "url", "captured_at"}
    ensures r["source"] == JString("web") && r["url"] == JString(url) && r["captured_at"] == JNumber(now)
    ensures forall k :: k in metadata && k !in {"source", "url", "captured_at"} ==> r[k] == metadata[k]
  {
    metadata["source" := JString("web")]["url" := JString(url)]["captured_at" := JNumber(now)]
  }

  /** capturePdfContent's metadata: "source", "file_path", "page" and
      "captured_at" set over the caller's entries. */
  function PdfMetadata(metadata: Metadata, pdfPath: string, page: int, now: int): (r: Metadata)
    ensures r.Keys == metadata.Keys + {"source", "file_path", "page", "captured_at"}
    ensures r["source"] == JString("pdf") && r["file_path"] == JString(pdfPath) && r["page"] == JNumber(page)
    ensures r["captured_at"] == JNumber(now)
    ensures forall k :: k in metadata && k !in {"source", "file_path", "page", "captured_at"} ==> r[k] == metadata[k]
  {
    metadata["source" := JString("pdf")]["file_path" := JString(pdfPath)]["page" := JNumber(page)]["captured_at" := JNumber(now)]
  }

  /** JSONObject.optString: the string under a key, or "" when absent. */
  function OptString(record: map<string, string>, key: string): string
  {
    if key in record then record[key] else ""
  }

  /** captureKindleContent's metadata: "source", "book_id", the book's
      title and author (empty when the book record lacks them) and
      "captured_at" set over the caller's entries. */
  function KindleMetadata(metadata: Metadata, bookId: string, book: map<string, string>, now: int): (r: Metadata)
    ensures r.Keys == metadata.Keys + {"source", "book_id", "book_title", "book_author", "captured_at"}
    ensures r["source"] == JString("kindle") && r["book_id"] == JString(bookId) && r["captured_at"] == JNumber(now)
    ensures r["book_title"] == JString(if "title" in book then book["title"] else "")
    ensures r["book_author"] == JString(if "author" in book then book["author"] else "")
    ensures forall k :: k in metadata && k !in {"source", "book_id", "book_title", "book_author", "captured_at"} ==> r[k] == metadata[k]
  {
    metadata["source" := JString("kindle")]["book_id" := JString(bookId)]
      ["book_title" := JString(OptString(book, "title"))]["book_author" := JString(OptString(book, "author"))]
      ["captured_at" := JNumber(now)]
  }

  // ------------------------------------------------------------ sync queue

  /** The bounded queue's offer: accepted iff fewer than 100 URIs are
      queued. */
  function Offer(queue: seq<F.Path>, uri: F.Path): (r: (seq<F.Path>, bool))
    ensures r.1 <==> |queue| < SYNC_QUEUE_CAPACITY
    ensures r.0 == if r.1 then queue + [uri] else queue
  {
    if |queue| < SYNC_QUEUE_CAPACITY then (queue + [uri], true) else (queue, false)
  }

  /** The queue after offering `uris` in order. */
  function OfferAll(queue: seq<F.Path>, uris: seq<F.Path>): seq<F.Path>
    decreases |uris|
  {
    if uris == [] then queue else OfferAll(Offer(queue, uris[0]).0, uris[1..])
  }

  function Min(a: int, b: int): int
  {
    if a < b then a else b
  }

  /** Nothing is ever taken off the queue, so over the manager's lifetime
      only the first 100 URIs offered are accepted and the rest are
      dropped. */
  lemma {:induction false} OfferAllKeepsFirst(queue: seq<F.Path>, uris: seq<F.Path>)
    requires |queue| <= SYNC_QUEUE_CAPACITY
    ensures OfferAll(queue, uris) == queue + uris[..Min(|uris|, SYNC_QUEUE_CAPACITY - |queue|)]
    decreases |uris|
  {
    if uris != [] {
      var next := Offer(queue, uris[0]).0;
      OfferAllKeepsFirst(next, uris[1..]);
      if |queue| < SYNC_QUEUE_CAPACITY {
        var n := Min(|uris| - 1, SYNC_QUEUE_CAPACITY - |queue| - 1);
        assert uris[1..][..n] == uris[1..n + 1];
        assert queue + [uris[0]] + uris[1..n + 1] == queue + uris[..n + 1];
      } else {
        assert uris[1..][..0] == [] && uris[..0] == [];
      }
    }
  }

  lemma LifetimeAcceptsAtMostCapacity(uris: seq<F.Path>)
    ensures OfferAll([], uris) == uris[..Min(|uris|, SYNC_QUEUE_CAPACITY)]
    ensures |OfferAll([], uris)| <= SYNC_QUEUE_CAPACITY
  {
    OfferAllKeepsFirst([], uris);
  }

  // ------------------------------------------------------------------ sync

  /** What one insert request returns: an HTTP status, or an exception. */
  datatype CallOutcome = Status(code: int) | Failed

  /** A sync: whether it returned true, and how many inserts and sleeps it
      made. */
  datatype SyncRun = SyncRun(ok: bool, calls: nat, sleeps: nat)

  /** syncContent from the head of its loop with `attempts` used, `calls`
      inserts and `sleeps` sleeps so far. The read result is the same on
      every attempt; `call(k)` answers the k-th insert and `interrupted(k)`
      says whether the k-th sleep is interrupted. */
  function SyncFrom(read: F.ReadResult, call: nat -> CallOutcome, interrupted: nat -> bool,
                    attempts: nat, calls: nat, sleeps: nat): (r: SyncRun)
    requires attempts <= SYNC_RETRY_ATTEMPTS
    ensures calls <= r.calls && r.calls - calls <= SYNC_RETRY_ATTEMPTS - attempts
    ensures sleeps <= r.sleeps && (attempts < SYNC_RETRY_ATTEMPTS ==> r.sleeps - sleeps < SYNC_RETRY_ATTEMPTS - attempts)
    decreases SYNC_RETRY_ATTEMPTS - attempts, 1
  {
    if attempts == SYNC_RETRY_ATTEMPTS then SyncRun(false, calls, sleeps)
    else match read
      case NoFile => SyncRun(false, calls, sleeps)
      case ReadError => AfterFailure(read, call, interrupted, attempts + 1, calls, sleeps)
      case Content(_) =>
        match call(calls)
        case Failed => AfterFailure(read, call, interrupted, attempts + 1, calls + 1, sleeps)
        case Status(code) =>
          if code == STATUS_CREATED then SyncRun(true, calls + 1, sleeps)
          else if attempts + 1 == SYNC_RETRY_ATTEMPTS then SyncRun(false, calls + 1, sleeps)
          else if interrupted(sleeps) then AfterFailure(read, call, interrupted, attempts + 2, calls + 1, sleeps + 1)
          else SyncFrom(read, call, interrupted, attempts + 1, calls + 1, sleeps + 1)
  }

  /** The catch block: the attempt is already counted; a sleep follows
      unless the attempts are used up, and an interrupt there ends the
      sync with false. */
  function AfterFailure(read: F.ReadResult, call: nat -> CallOutcome, interrupted: nat -> bool,
                        attempts: nat, calls: nat, sleeps: nat): (r: SyncRun)
    requires 1 <= attempts <= SYNC_RETRY_ATTEMPTS
    ensures calls <= r.calls && r.calls - calls <= SYNC_RETRY_ATTEMPTS - attempts
    ensures sleeps <= r.sleeps && r.sleeps - sleeps <= SYNC_RETRY_ATTEMPTS - attempts
    decreases SYNC_RETRY_ATTEMPTS - attempts + 1, 0
  {
    if attempts == SYNC_RETRY_ATTEMPTS then SyncRun(false, calls, sleeps)
    else if interrupted(sleeps) then SyncRun(false, calls, sleeps + 1)
    else SyncFrom(read, call, interrupted, attempts, calls, sleeps + 1)
  }

  function Sync(read: F.ReadResult, call: nat -> CallOutcome, interrupted: nat -> bool): (r: SyncRun)
    ensures r.calls <= SYNC_RETRY_ATTEMPTS && r.sleeps < SYNC_RETRY_ATTEMPTS
  {
    SyncFrom(read, call, interrupted, 0, 0, 0)
  }

  /** From any point of the loop: at most one insert per remaining
      attempt, no insert but the last returned 201, and the result is true
      iff the last insert did. */
  lemma {:induction false} SyncFromBounds(read: F.ReadResult, call: nat -> CallOutcome, interrupted: nat -> bool,
                                          attempts: nat, calls: nat, sleeps: nat)
    requires attempts <= SYNC_RETRY_ATTEMPTS && calls <= attempts
    ensures var r := SyncFrom(read, call, interrupted, attempts, calls, sleeps);
      calls <= r.calls <= SYNC_RETRY_ATTEMPTS
      && (forall k :: calls <= k < r.calls - 1 ==> call(k) != Status(STATUS_CREATED))
      && (r.ok <==> r.calls > calls && call(r.calls - 1) == Status(STATUS_CREATED))
    decreases SYNC_RETRY_ATTEMPTS - attempts, 1
  {
    if attempts < SYNC_RETRY_ATTEMPTS {
      match read
      case NoFile =>
      case ReadError =>
        AfterFailureBounds(read, call, interrupted, attempts + 1, calls, sleeps);
      case Content(_) =>
        match call(calls)
        case Failed =>
          AfterFailureBounds(read, call, interrupted, attempts + 1, calls + 1, sleeps);
        case Status(code) =>
          if code != STATUS_CREATED && attempts + 1 < SYNC_RETRY_ATTEMPTS {
            if interrupted(sleeps) {
              AfterFailureBounds(read, call, interrupted, attempts + 2, calls + 1, sleeps + 1);
            } else {
              SyncFromBounds(read, call, interrupted, attempts + 1, calls + 1, sleeps + 1);
            }
          }
    }
  }

  lemma {:induction false} AfterFailureBounds(read: F.ReadResult, call: nat -> CallOutcome, interrupted: nat -> bool,
                                              attempts: nat, calls: nat, sleeps: nat)
    requires 1 <= attempts <= SYNC_RETRY_ATTEMPTS && calls <= attempts
    ensures var r := AfterFailure(read, call, interrupted, attempts, calls, sleeps);
      calls <= r.calls <= SYNC_RETRY_ATTEMPTS
      && (forall k :: calls <= k < r.calls - 1 ==> call(k) != Status(STATUS_CREATED))
      && (r.ok <==> r.calls > calls && call(r.calls - 1) == Status(STATUS_CREATED))
    decreases SYNC_RETRY_ATTEMPTS - attempts + 1, 0
  {
    if attempts < SYNC_RETRY_ATTEMPTS && !interrupted(sleeps) {
      SyncFromBounds(read, call, interrupted, attempts, calls, sleeps + 1);
    }
  }

  /** syncContent makes at most three inserts, and returns true iff one
      of the inserts it made returned 201. */
  lemma SyncBounds(read: F.ReadResult, call: nat -> CallOutcome, interrupted: nat -> bool)
    ensures var r := Sync(read, call, interrupted);
      r.calls <= SYNC_RETRY_ATTEMPTS
      && (r.ok <==> exists k :: 0 <= k < r.calls && call(k) == Status(STATUS_CREATED))
  {
    SyncFromBounds(read, call, interrupted, 0, 0, 0);
    var r := Sync(read, call, interrupted);
    if r.ok {
      assert call(r.calls - 1) == Status(STATUS_CREATED);
    }
  }

  /** With no interrupts, the attempts are the first three inserts, and the
      sync succeeds iff one of them returned 201. */
  lemma {:induction false} SyncFromWithoutInterrupts(text: string, call: nat -> CallOutcome, interrupted: nat -> bool,
                                                     attempts: nat, sleeps: nat)
    requires attempts <= SYNC_RETRY_ATTEMPTS
    requires forall k :: !interrupted(k)
    ensures SyncFrom(F.Content(text), call, interrupted, attempts, attempts, sleeps).ok
      <==> exists k :: attempts <= k < SYNC_RETRY_ATTEMPTS && call(k) == Status(STATUS_CREATED)
    decreases SYNC_RETRY_ATTEMPTS - attempts
  {
    var read := F.Content(text);
    if attempts < SYNC_RETRY_ATTEMPTS {
      if call(attempts) != Status(STATUS_CREATED) {
        SyncFromWithoutInterrupts(text, call, interrupted, attempts + 1, sleeps + 1);
        if attempts + 1 < SYNC_RETRY_ATTEMPTS {
          assert !interrupted(sleeps);
          assert SyncFrom(read, call, interrupted, attempts, attempts, sleeps)
              == SyncFrom(read, call, interrupted, attempts + 1, attempts + 1, sleeps + 1);
        }
        assert forall k :: attempts <= k < SYNC_RETRY_ATTEMPTS && call(k) == Status(STATUS_CREATED) ==> k > attempts;
      }
    }
  }

  lemma SyncWithoutInterrupts(text: string, call: nat -> CallOutcome, interrupted: nat -> bool)
    requires forall k :: !interrupted(k)
    ensures Sync(F.Content(text), call, interrupted).ok
      <==> exists k :: 0 <= k < SYNC_RETRY_ATTEMPTS && call(k) == Status(STATUS_CREATED)
  {
    SyncFromWithoutInterrupts(text, call, interrupted, 0, 0);
  }

  /** A file that reads back as null ends the sync at once: false, with no
      insert and no sleep. A file that fails to read or decrypt never
      reaches the backend. */
  lemma SyncOfUnreadableFile(call: nat -> CallOutcome, interrupted: nat -> bool)
    ensures Sync(F.NoFile, call, interrupted) == SyncRun(false, 0, 0)
    ensures !Sync(F.ReadError, call, interrupted).ok && Sync(F.ReadError, call, interrupted).calls == 0
  {
    SyncFromBounds(F.ReadError, call, interrupted, 0, 0, 0);
    ReadErrorMakesNoCalls(call, interrupted, 0, 0);
  }

  lemma {:induction false} ReadErrorMakesNoCalls(call: nat -> CallOutcome, interrupted: nat -> bool, attempts: nat, sleeps: nat)
    requires attempts <= SYNC_RETRY_ATTEMPTS
    ensures SyncFrom(F.ReadError, call, interrupted, attempts, 0, sleeps).calls == 0
    decreases SYNC_RETRY_ATTEMPTS - attempts
  {
    if attempts + 1 < SYNC_RETRY_ATTEMPTS && !interrupted(sleeps) {
      ReadErrorMakesNoCalls(call, interrupted, attempts + 1, sleeps + 1);
    }
  }

  /** At any attempt that leaves a retry, an interrupt during the sleep of
      the catch block ends the sync with false, whatever the backend would
      have answered next: after a failed insert, and after a failed read. */
  lemma InterruptedRetrySleepFails(text: string, call: nat -> CallOutcome, interrupted: nat -> bool,
                                   attempts: nat, calls: nat, sleeps: nat)
    requires attempts + 1 < SYNC_RETRY_ATTEMPTS && interrupted(sleeps)
    ensures call(calls) == Failed ==>
      SyncFrom(F.Content(text), call, interrupted, attempts, calls, sleeps) == SyncRun(false, calls + 1, sleeps + 1)
    ensures SyncFrom(F.ReadError, call, interrupted, attempts, calls, sleeps) == SyncRun(false, calls, sleeps + 1)
  {
  }

  /** An interrupt during the sleep after a rejected insert is caught by
      the loop's own handler and costs a second attempt: one insert is
      left, and it decides the result. */
  lemma InterruptAfterRejectionCostsAnAttempt(text: string, call: nat -> CallOutcome, interrupted: nat -> bool)
    requires call(0).Status? && call(0).code != STATUS_CREATED && interrupted(0) && !interrupted(1)
    ensures Sync(F.Content(text), call, interrupted)
      == SyncRun(call(1) == Status(STATUS_CREATED), 2, 2)
  {
  }

  // --------------------------------------------------------------- manager

  /** A sync handed to the executor: the accepted URI and its metadata. */
  datatype SyncJob = SyncJob(uri: F.Path, metadata: Metadata)

  class ContentCaptureManager {
    const fileManager: F.FileManager
    var syncQueue: seq<F.Path>
    var jobs: seq<SyncJob>

    ghost predicate Valid()
      reads this
    {
      |syncQueue| <= SYNC_QUEUE_CAPACITY
    }

    constructor (fileManager: F.FileManager)
      ensures this.fileManager == fileManager && syncQueue == [] && jobs == [] && Valid()
    {
      this.fileManager := fileManager;
      syncQueue := [];
      jobs := [];
    }

    /** queueForSync: a sync is launched only for an accepted URI. */
    method QueueForSync(uri: F.Path, metadata: Metadata) returns (accepted: bool)
      requires Valid()
      modifies this
      ensures Valid()
      ensures (syncQueue, accepted) == Offer(old(syncQueue), uri)
      ensures jobs == old(jobs) + (if accepted then [SyncJob(uri, metadata)] else [])
    {
      accepted := |syncQueue| < SYNC_QUEUE_CAPACITY;
      if accepted {
        syncQueue := syncQueue + [uri];
        jobs := jobs + [SyncJob(uri, metadata)];
      }
    }

    /** syncContent's attempt loop. */
    method SyncContent(uri: F.Path, readable: bool, call: nat -> CallOutcome, interrupted: nat -> bool)
      returns (ok: bool)
      ensures ok == Sync(F.Read(fileManager.files, uri, readable, fileManager.cipher), call, interrupted).ok
    {
      ghost var read := F.Read(fileManager.files, uri, readable, fileManager.cipher);
      var attempts: nat := 0;
      var calls: nat := 0;
      var sleeps: nat := 0;
      while attempts < SYNC_RETRY_ATTEMPTS
        invariant attempts <= SYNC_RETRY_ATTEMPTS
        invariant SyncFrom(read, call, interrupted, attempts, calls, sleeps) == Sync(read, call, interrupted)
        decreases SYNC_RETRY_ATTEMPTS - attempts
      {
        var content := fileManager.ReadFile(uri, readable);
        if content.NoFile? {
          return false;
        }
        var failed := content.ReadError?;
        if !failed {
          var outcome := call(calls);
          calls := calls + 1;
          if outcome.Failed? {
            failed := true;
          } else if outcome.code == STATUS_CREATED {
            return true;
          } else {
            attempts := attempts + 1;
            if attempts < SYNC_RETRY_ATTEMPTS {
              failed := interrupted(sleeps);
              sleeps := sleeps + 1;
            }
          }
        }
        if failed {
          attempts := attempts + 1;
          if attempts < SYNC_RETRY_ATTEMPTS {
            var stop := interrupted(sleeps);
            sleeps := sleeps + 1;
            if stop {
              return false;
            }
          }
        }
      }
      return false;
    }

    /** The executor runs the sync of job i and drops it. */
    method RunSyncJob(i: nat, readable: bool, call: nat -> CallOutcome, interrupted: nat -> bool)
      returns (ok: bool)
      requires i < |jobs|
      modifies this
      ensures ok == Sync(F.Read(fileManager.files, old(jobs[i].uri), readable, fileManager.cipher), call, interrupted).ok
      ensures jobs == old(jobs[..i] + jobs[i + 1..]) && syncQueue == old(syncQueue)
    {
      var job := jobs[i];
      jobs := jobs[..i] + jobs[i + 1..];
      ok := SyncContent(job.uri, readable, call, interrupted);
    }

    /** The content is saved under its generated name and, once saved,
        offered for sync with the enriched metadata. */
    method CaptureContent(text: string, filename: string, enriched: Metadata,
                          granted: bool, iv: F.Iv, fault: F.WriteFault, renameOk: bool, now: int)
      returns (result: F.SaveResult)
      requires Valid()
      modifies this, fileManager
      ensures Valid()
      ensures F.SaveOutcome(fileManager.files, result)
        == F.Save(old(fileManager.files), granted, F.ContentDir, filename, Utf8.Encode(text), iv, fileManager.cipher, fault, renameOk, now)
      ensures fileManager.scheduled == old(fileManager.scheduled)
      ensures result.Saved? ==> (syncQueue == Offer(old(syncQueue), result.path).0
        && jobs == old(jobs) + (if Offer(old(syncQueue), result.path).1 then [SyncJob(result.path, enriched)] else []))
      ensures !result.Saved? ==> syncQueue == old(syncQueue) && jobs == old(jobs)
    {
      result := fileManager.SaveCapturedContent(text, filename, granted, iv, fault, renameOk, now);
      if result.Saved? {
        var _ := QueueForSync(result.path, enriched);
      }
    }

    method CaptureWebContent(text: string, url: string, metadata: Metadata,
                             granted: bool, iv: F.Iv, fault: F.WriteFault, renameOk: bool, now: int)
      returns (result: F.SaveResult)
      requires Valid()
      modifies this, fileManager
      ensures Valid()
      ensures F.SaveOutcome(fileManager.files, result)
        == F.Save(old(fileManager.files), granted, F.ContentDir, GenerateFilename("web", url, now), Utf8.Encode(text), iv, fileManager.cipher, fault, renameOk, now)
      ensures result.Saved? ==> (syncQueue == Offer(old(syncQueue), result.path).0
        && jobs == old(jobs) + (if Offer(old(syncQueue), result.path).1 then [SyncJob(result.path, WebMetadata(metadata, url, now))] else []))
      ensures !result.Saved? ==> syncQueue == old(syncQueue) && jobs == old(jobs)
    {
      result := CaptureContent(text, GenerateFilename("web", url, now), WebMetadata(metadata, url, now), granted, iv, fault, renameOk, now);
    }

    method CapturePdfContent(text: string, pdfPath: string, page: int, metadata: Metadata,
                             granted: bool, iv: F.Iv, fault: F.WriteFault, renameOk: bool, now: int)
      returns (result: F.SaveResult)
      requires Valid()
      modifies this, fileManager
      ensures Valid()
      ensures F.SaveOutcome(fileManager.files, result)
        == F.Save(old(fileManager.files), granted, F.ContentDir, GenerateFilename("pdf", PdfIdentifier(pdfPath, page), now),
                  Utf8.Encode(text), iv, fileManager.cipher, fault, renameOk, now)
      ensures result.Saved? ==> (syncQueue == Offer(old(syncQueue), result.path).0
        && jobs == old(jobs) + (if Offer(old(syncQueue), result.path).1 then [SyncJob(result.path, PdfMetadata(metadata, pdfPath, page, now))] else []))
      ensures !result.Saved? ==> syncQueue == old(syncQueue) && jobs == old(jobs)
    {
      result := CaptureContent(text, GenerateFilename("pdf", PdfIdentifier(pdfPath, page), now),
                               PdfMetadata(metadata, pdfPath, page, now), granted, iv, fault, renameOk, now);
    }

    /** `book` is the record the Kindle client returns for `bookId`. */
    method CaptureKindleContent(bookId: string, highlight: string, metadata: Metadata, book: map<string, string>,
                                granted: bool, iv: F.Iv, fault: F.WriteFault, renameOk: bool, now: int)
      returns (result: F.SaveResult)
      requires Valid()
      modifies this, fileManager
      ensures Valid()
      ensures F.SaveOutcome(fileManager.files, result)
        == F.Save(old(fileManager.files), granted, F.ContentDir, GenerateFilename("kindle", bookId, now),
                  Utf8.Encode(highlight), iv, fileManager.cipher, fault, renameOk, now)
      ensures result.Saved? ==> (syncQueue == Offer(old(syncQueue), result.path).0
        && jobs == old(jobs) + (if Offer(old(syncQueue), result.path).1 then [SyncJob(result.path, KindleMetadata(metadata, bookId, book, now))] else []))
      ensures !result.Saved? ==> syncQueue == old(syncQueue) && jobs == old(jobs)
    {
      result := CaptureContent(highlight, GenerateFilename("kindle", bookId, now),
                               KindleMetadata(metadata, bookId, book, now), granted, iv, fault, renameOk, now);
    }
  }
}
