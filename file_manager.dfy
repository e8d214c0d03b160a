/** The encrypted file store (ai.membo.utils.FileManager), narrowed to its
    framing, atomic save, read, secure delete and expiry cleanup. The
    filesystem is a map from paths to bytes and modification times; the
    AES-GCM cipher is a pair of functions over (IV, bytes); the random IV,
    the storage-permission answer and the outcomes of rename and delete are
    inputs. */
module FileStore {
  import opened Base
  import Utf8

  const ENCRYPTION_BLOCK_SIZE: nat := 256
  const GCM_IV_LENGTH: nat := 12
  const VOICE_FILE_TTL_MS: int := 24 * 60 * 60 * 1000
  const TMP_SUFFIX: string := ".tmp"

  /** The three private directories: "content", "voice" and "temp". */
  datatype Dir = ContentDir | VoiceDir | TempDir

  datatype Path = Path(dir: Dir, name: string)

  datatype FileEntry = FileEntry(data: seq<Byte>, lastModified: int)

  type Files = map<Path, FileEntry>

  type Iv = s: seq<Byte> | |s| == GCM_IV_LENGTH witness [0, 0, 0, 0, 0, 0, 0, 0, 0, 0, 0, 0]

  /** AES/GCM/NoPadding under the keystore key: encryption and the
      authenticated decryption, which fails (None) on a bad tag. */
  datatype Cipher = Cipher(
    encrypt: (seq<Byte>, seq<Byte>) -> seq<Byte>,
    decrypt: (seq<Byte>, seq<Byte>) -> Option<seq<Byte>>)

  /** Decryption under an IV undoes encryption under the same IV. */
  ghost predicate Inverts(c: Cipher)
  {
    forall iv: seq<Byte>, plain: seq<Byte> :: c.decrypt(iv, c.encrypt(iv, plain)) == Some(plain)
  }

  /** A scheduled secure delete: the path and the time it is due. */
  datatype Deletion = Deletion(path: Path, due: int)

  // ---------------------------------------------------------------- framing

  /** The on-disk form: the IV, then the ciphertext. */
  function Frame(iv: Iv, ciphertext: seq<Byte>): (r: seq<Byte>)
    ensures |r| == GCM_IV_LENGTH + |ciphertext|
    ensures r[..GCM_IV_LENGTH] == iv && r[GCM_IV_LENGTH..] == ciphertext
  {
    iv + ciphertext
  }

  /** readFile's split: the first 12 bytes are the IV, the rest the
      ciphertext. */
  function Split(data: seq<Byte>): (r: (Iv, seq<Byte>))
    requires |data| >= GCM_IV_LENGTH
    ensures |r.1| == |data| - GCM_IV_LENGTH
    ensures r.0 + r.1 == data
  {
    (data[..GCM_IV_LENGTH], data[GCM_IV_LENGTH..])
  }

  /** Splitting a frame gives back its IV and ciphertext, and every file
      of at least 12 bytes is the frame of its split. */
  lemma FrameSplitInverse(iv: Iv, ciphertext: seq<Byte>, data: seq<Byte>)
    ensures |Frame(iv, ciphertext)| == GCM_IV_LENGTH + |ciphertext|
    ensures Split(Frame(iv, ciphertext)) == (iv, ciphertext)
    ensures |data| >= GCM_IV_LENGTH ==> Frame(Split(data).0, Split(data).1) == data
  {
    var f := Frame(iv, ciphertext);
    assert f[..GCM_IV_LENGTH] == iv;
    assert f[GCM_IV_LENGTH..] == ciphertext;
    if |data| >= GCM_IV_LENGTH {
      assert data[..GCM_IV_LENGTH] + data[GCM_IV_LENGTH..] == data;
    }
  }

  // ------------------------------------------------------------- save/read

  datatype SaveResult = Saved(path: Path) | SecurityError | IoError

  datatype SaveOutcome = SaveOutcome(files: Files, result: SaveResult)

  /** The temporary file a save writes first: the target's name plus
      ".tmp", in the target's own directory. */
  function TmpPath(target: Path): (r: Path)
    ensures r != target && r.dir == target.dir
  {
    var r := Path(target.dir, target.name + TMP_SUFFIX);
    assert |r.name| > |target.name|;
    r
  }

  /** How writing the temporary file goes. It completes; or the key
      lookup, the cipher set-up, the encryption or opening the stream
      raises before the temporary file exists; or writing or forcing the
      channel raises once the first `count` bytes of the frame have reached
      it. */
  datatype WriteFault = NoFault | FailsBeforeTmp | FailsWriting(count: nat)

  /** The first `count` bytes of `frame`, or all of it: what a write that
      raises part-way leaves in the file. */
  function Partial(frame: seq<Byte>, count: nat): (r: seq<Byte>)
    ensures r <= frame
    ensures |r| == if count < |frame| then count else |frame|
  {
    if count < |frame| then frame[..count] else frame
  }

  /** saveCapturedContent and saveVoiceRecording: without storage
      permission nothing is touched; otherwise the frame is written to the
      temporary file, which a successful rename moves onto the target. A
      failure inside the try block is an IOException: one before the
      temporary file exists leaves the files as they were, one while
      writing leaves the partial temporary file, and a failed rename leaves
      the complete one. */
  function Save(files: Files, granted: bool, dir: Dir, name: string, plain: seq<Byte>, iv: Iv,
                cipher: Cipher, fault: WriteFault, renameOk: bool, now: int): (r: SaveOutcome)
    ensures !granted ==> r == SaveOutcome(files, SecurityError)
    ensures granted && fault.NoFault? && renameOk ==>
      r.result == Saved(Path(dir, name)) && Path(dir, name) in r.files
      && r.files[Path(dir, name)] == FileEntry(Frame(iv, cipher.encrypt(iv, plain)), now)
    ensures granted && fault.NoFault? && !renameOk ==>
      r.result == IoError && TmpPath(Path(dir, name)) in r.files
      && r.files[TmpPath(Path(dir, name))] == FileEntry(Frame(iv, cipher.encrypt(iv, plain)), now)
    ensures granted && fault.FailsBeforeTmp? ==> r == SaveOutcome(files, IoError)
    ensures granted && fault.FailsWriting? ==>
      r.result == IoError && TmpPath(Path(dir, name)) in r.files
      && r.files[TmpPath(Path(dir, name))].data <= Frame(iv, cipher.encrypt(iv, plain))
      && r.files == files[TmpPath(Path(dir, name)) := FileEntry(Partial(Frame(iv, cipher.encrypt(iv, plain)), fault.count), now)]
  {
    var target := Path(dir, name);
    var tmp := TmpPath(target);
    if !granted then SaveOutcome(files, SecurityError)
    else if fault.FailsBeforeTmp? then SaveOutcome(files, IoError)
    else
      var frame := Frame(iv, cipher.encrypt(iv, plain));
      if fault.FailsWriting? then SaveOutcome(files[tmp := FileEntry(Partial(frame, fault.count), now)], IoError)
      else
        var written := files[tmp := FileEntry(frame, now)];
        if !renameOk then SaveOutcome(written, IoError)
        else SaveOutcome((written - {tmp})[target := written[tmp]], Saved(target))
  }

  datatype ReadResult = NoFile | ReadError | Content(text: string)

  /** readFile: a missing or unreadable file reads as null; a file too
      short for its IV, or one whose ciphertext does not authenticate,
      raises; otherwise the plaintext is decoded as UTF-8. */
  function Read(files: Files, path: Path, readable: bool, cipher: Cipher): (r: ReadResult)
    ensures r.NoFile? <==> path !in files || !readable
    ensures path in files && readable && |files[path].data| < GCM_IV_LENGTH ==> r == ReadError
    ensures path in files && readable && |files[path].data| >= GCM_IV_LENGTH ==>
      var (iv, ciphertext) := Split(files[path].data);
      r == (if cipher.decrypt(iv, ciphertext).Some? then Content(Utf8.Decode(cipher.decrypt(iv, ciphertext).value)) else ReadError)
    ensures r.Content? ==>
      |files[path].data| >= GCM_IV_LENGTH
      && cipher.decrypt(Split(files[path].data).0, Split(files[path].data).1).Some?
      && r.text == Utf8.Decode(cipher.decrypt(Split(files[path].data).0, Split(files[path].data).1).value)
  {
    if path !in files || !readable then NoFile
    else
      var data := files[path].data;
      if |data| < GCM_IV_LENGTH then ReadError
      else
        var (iv, ciphertext) := Split(data);
        match cipher.decrypt(iv, ciphertext)
        case None => ReadError
        case Some(plain) => Content(Utf8.Decode(plain))
  }

  /** Only the rename puts bytes under the target name: while the rename
      fails the target keeps whatever it held, and after a successful one
      the temporary file is gone. Every other path is untouched. */
  lemma SaveTouchesOnlyTargetAndTmp(files: Files, granted: bool, dir: Dir, name: string, plain: seq<Byte>, iv: Iv,
                                    cipher: Cipher, fault: WriteFault, renameOk: bool, now: int, other: Path)
    requires other != Path(dir, name) && other != TmpPath(Path(dir, name))
    ensures var r := Save(files, granted, dir, name, plain, iv, cipher, fault, renameOk, now);
      var saved := granted && fault.NoFault? && renameOk;
      (other in r.files <==> other in files) && (other in files ==> r.files[other] == files[other])
      && (!saved ==> (Path(dir, name) in r.files <==> Path(dir, name) in files)
                     && (Path(dir, name) in files ==> r.files[Path(dir, name)] == files[Path(dir, name)]))
      && (saved ==> TmpPath(Path(dir, name)) !in r.files)
      && (granted && !fault.FailsBeforeTmp? && !saved ==> TmpPath(Path(dir, name)) in r.files)
  {
  }

  /** What a successful save writes reads back as the saved text. */
  lemma SaveThenRead(files: Files, dir: Dir, name: string, content: string, iv: Iv, cipher: Cipher, now: int)
    requires Inverts(cipher)
    ensures var r := Save(files, true, dir, name, Utf8.Encode(content), iv, cipher, NoFault, true, now);
      r.result == Saved(Path(dir, name)) && Read(r.files, Path(dir, name), true, cipher) == Content(content)
  {
    var plain := Utf8.Encode(content);
    var ciphertext := cipher.encrypt(iv, plain);
    FrameSplitInverse(iv, ciphertext, []);
    assert cipher.decrypt(iv, ciphertext) == Some(plain);
    Utf8.DecodeEncode(content);
  }

  // ------------------------------------------------------------ zero fill

  /** The write sizes of deleteFile's loop for a given remaining length. */
  function Chunks(length: int): seq<nat>
    decreases length
  {
    if length <= 0 then []
    else
      var size := if length < ENCRYPTION_BLOCK_SIZE then length else ENCRYPTION_BLOCK_SIZE;
      [size] + Chunks(length - size)
  }

  function Sum(s: seq<nat>): nat
  {
    if s == [] then 0 else s[0] + Sum(s[1..])
  }

  function Zeros(n: nat): (r: seq<Byte>)
    ensures |r| == n && forall i :: 0 <= i < n ==> r[i] == 0
  {
    seq(n, i => 0)
  }

  /** The chunks add up to the length (none for a length of 0 or less),
      each is between 1 and 256 bytes, and all but the last are full. */
  lemma {:induction false} ChunksProperties(length: int)
    ensures Sum(Chunks(length)) == if length <= 0 then 0 else length
    ensures forall i :: 0 <= i < |Chunks(length)| ==> 1 <= Chunks(length)[i] <= ENCRYPTION_BLOCK_SIZE
    ensures forall i :: 0 <= i < |Chunks(length)| - 1 ==> Chunks(length)[i] == ENCRYPTION_BLOCK_SIZE
    decreases length
  {
    if length > 0 {
      var size := if length < ENCRYPTION_BLOCK_SIZE then length else ENCRYPTION_BLOCK_SIZE;
      ChunksProperties(length - size);
      var c := Chunks(length);
      assert c == [size] + Chunks(length - size);
      assert c[1..] == Chunks(length - size);
      forall i | 0 <= i < |c|
        ensures 1 <= c[i] <= ENCRYPTION_BLOCK_SIZE
      {
        if i > 0 {
          assert c[i] == Chunks(length - size)[i - 1];
        }
      }
      if size < ENCRYPTION_BLOCK_SIZE {
        assert Chunks(length - size) == [];
      }
      forall i | 0 <= i < |c| - 1
        ensures c[i] == ENCRYPTION_BLOCK_SIZE
      {
        if i > 0 {
          assert c[i] == Chunks(length - size)[i - 1];
        }
      }
    }
  }

  /** deleteFile's overwrite loop: chunks of at most 256 zero bytes until
      `length` is used up. */
  method WriteZeroChunks(length: int) returns (chunks: seq<nat>)
    ensures chunks == Chunks(length)
    ensures Sum(chunks) == if length <= 0 then 0 else length
    ensures forall i :: 0 <= i < |chunks| ==> 1 <= chunks[i] <= ENCRYPTION_BLOCK_SIZE
  {
    chunks := [];
    var remaining := length;
    while remaining > 0
      invariant chunks + Chunks(remaining) == Chunks(length)
      decreases remaining
    {
      var size: nat := if remaining < ENCRYPTION_BLOCK_SIZE then remaining else ENCRYPTION_BLOCK_SIZE;
      assert Chunks(remaining) == [size] + Chunks(remaining - size);
      assert chunks + Chunks(remaining) == (chunks + [size]) + Chunks(remaining - size);
      chunks := chunks + [size];
      remaining := remaining - size;
    }
    assert Chunks(remaining) == [];
    assert chunks + [] == chunks;
    ChunksProperties(length);
  }

  /** What deleteFile leaves in the file AS WRITTEN: the FileOutputStream
      truncates the file when it opens, so file.length() is already 0 when
      the loop reads it, and no zero is written. */
  function OverwrittenAsWritten(data: seq<Byte>): (r: seq<Byte>)
    ensures r == []
  {
    var truncated: seq<Byte> := [];
    Zeros(Sum(Chunks(|truncated|)))
  }

  /** The loop as written never writes the original length: for every
      non-empty file the chunks sum to 0, and the old bytes are discarded
      unoverwritten. The one-byte file [1] shows it. */
  lemma AsWrittenOverwritesNothing(data: seq<Byte>)
    ensures OverwrittenAsWritten(data) == []
    ensures |data| > 0 ==> OverwrittenAsWritten(data) != Overwritten(data)
  {
  }

  /** The one-byte file [1] is deleted without any zero reaching it. */
  lemma AsWrittenCounterexample()
    ensures OverwrittenAsWritten([1]) == [] && Overwritten([1]) == [0]
  {
  }

  /** The intended overwrite: the length is taken before the stream
      truncates the file, and exactly that many zeros are written. */
  function Overwritten(data: seq<Byte>): (r: seq<Byte>)
    ensures |r| == |data| && forall i :: 0 <= i < |r| ==> r[i] == 0
  {
    ChunksProperties(|data|);
    Zeros(Sum(Chunks(|data|)))
  }

  /** deleteFile (with the overwrite corrected): false for a missing file;
      otherwise the bytes are zeroed and the file removed when the delete
      succeeds. */
  function Delete(files: Files, path: Path, deleteOk: bool, now: int): (r: Files)
    ensures path !in files ==> r == files
    ensures path in files && deleteOk ==> r == files - {path}
    ensures path in files && !deleteOk ==> r == files[path := FileEntry(Overwritten(files[path].data), now)]
  {
    if path !in files then files
    else if deleteOk then files - {path}
    else files[path := FileEntry(Overwritten(files[path].data), now)]
  }
  /** deleteFile AS WRITTEN: the truncating open empties the file, so a
      failed delete() leaves an empty file where the corrected `Delete`
      leaves zeros of the original length. */
  function DeleteAsWritten(files: Files, path: Path, deleteOk: bool, now: int): (r: Files)
    ensures r.Keys == if path in files && deleteOk then files.Keys - {path} else files.Keys
    ensures path in files && !deleteOk ==> r[path] == FileEntry([], now)
    ensures forall p :: p in files && p != path ==> r[p] == files[p]
  {
    if path !in files then files
    else if deleteOk then files - {path}
    else files[path := FileEntry(OverwrittenAsWritten(files[path].data), now)]
  }

  /** A one-byte file whose delete() fails: the code leaves it empty, the
      corrected deletion leaves one zero byte. */
  lemma DeleteAsWrittenCounterexample(p: Path, now: int)
    ensures var files := map[p := FileEntry([1], 0)];
      DeleteAsWritten(files, p, false, now)[p].data == [] && Delete(files, p, false, now)[p].data == [0]
  {
    var files := map[p := FileEntry([1], 0)];
    assert Overwritten(files[p].data) == [0];
  }


  // --------------------------------------------------------------- cleanup

  /** cleanupExpiredFiles' test for a file of the directory it is
      scanning: every temp file, and voice files strictly older than the
      24-hour TTL. */
  predicate Selected(dir: Dir, e: FileEntry, now: int)
  {
    dir == TempDir || (dir == VoiceDir && now - e.lastModified > VOICE_FILE_TTL_MS)
  }

  /** The files after secure deletes of the selected paths of `dir` that
      lie in `done`. */
  function CleanedOver(files: Files, dir: Dir, done: set<Path>, now: int, deleteOk: Path -> bool): Files
  {
    map p | p in files && !(p in done && p.dir == dir && Selected(dir, files[p], now) && deleteOk(p)) ::
      if p in done && p.dir == dir && Selected(dir, files[p], now) then FileEntry(Overwritten(files[p].data), now) else files[p]
  }

  /** The paths `listFiles` returns for a directory. */
  function Listing(files: Files, dir: Dir): set<Path>
  {
    set p | p in files && p.dir == dir
  }

  /** One directory pass of cleanupExpiredFiles. */
  function CleanDir(files: Files, dir: Dir, now: int, deleteOk: Path -> bool): (r: Files)
    ensures r.Keys <= files.Keys
    ensures forall p :: p in files && p.dir != dir ==> p in r && r[p] == files[p]
    ensures forall p :: p in files && p.dir == dir && !Selected(dir, files[p], now) ==> p in r && r[p] == files[p]
  {
    CleanedOver(files, dir, Listing(files, dir), now, deleteOk)
  }

  /** cleanupExpiredFiles: the voice pass, then the temp pass. */
  function Cleanup(files: Files, now: int, deleteOk: Path -> bool): (r: Files)
    ensures r.Keys <= files.Keys
    ensures forall p :: p in files && p.dir == ContentDir ==> p in r && r[p] == files[p]
  {
    CleanDir(CleanDir(files, VoiceDir, now, deleteOk), TempDir, now, deleteOk)
  }

  /** Cleanup removes a file iff its delete succeeds and it is a voice file
      strictly older than 24 hours or any temp file; content files and
      young voice files stay exactly as they were. */
  lemma CleanupSelection(files: Files, now: int, deleteOk: Path -> bool, p: Path)
    requires p in files
    ensures var expired := (p.dir == VoiceDir && now - files[p].lastModified > VOICE_FILE_TTL_MS) || p.dir == TempDir;
      (p !in Cleanup(files, now, deleteOk) <==> expired && deleteOk(p))
      && (!expired ==> Cleanup(files, now, deleteOk)[p] == files[p])
  {
  }

  /** One more processed path keeps the loop's account of the files. */
  lemma CleanStep(files: Files, dir: Dir, done: set<Path>, p: Path, now: int, deleteOk: Path -> bool)
    requires p in files && p !in done && p.dir == dir
    ensures var cur := CleanedOver(files, dir, done, now, deleteOk);
      p in cur && cur[p] == files[p]
      && CleanedOver(files, dir, done + {p}, now, deleteOk)
         == (if Selected(dir, files[p], now) then Delete(cur, p, deleteOk(p), now) else cur)
  {
    var cur := CleanedOver(files, dir, done, now, deleteOk);
    var next := CleanedOver(files, dir, done + {p}, now, deleteOk);
    var wanted := if Selected(dir, files[p], now) then Delete(cur, p, deleteOk(p), now) else cur;
    assert forall q :: q in next <==> q in wanted;
    assert forall q :: q in next ==> next[q] == wanted[q];
  }

  class FileManager {
    const cipher: Cipher
    var files: Files
    var scheduled: seq<Deletion>

    constructor (cipher: Cipher, files: Files)
      ensures this.cipher == cipher && this.files == files && scheduled == []
    {
      this.cipher := cipher;
      this.files := files;
      scheduled := [];
    }

    method SaveCapturedContent(content: string, filename: string, granted: bool, iv: Iv, fault: WriteFault, renameOk: bool, now: int)
      returns (result: SaveResult)
      modifies this
      ensures SaveOutcome(files, result) == Save(old(files), granted, ContentDir, filename, Utf8.Encode(content), iv, cipher, fault, renameOk, now)
      ensures scheduled == old(scheduled)
    {
      result := WriteAtomically(ContentDir, filename, Utf8.Encode(content), granted, iv, fault, renameOk, now);
    }

    method SaveVoiceRecording(audio: seq<Byte>, filename: string, granted: bool, iv: Iv, fault: WriteFault, renameOk: bool, now: int)
      returns (result: SaveResult)
      modifies this
      ensures SaveOutcome(files, result) == Save(old(files), granted, VoiceDir, filename, audio, iv, cipher, fault, renameOk, now)
      ensures scheduled == old(scheduled) + (if result.Saved? then [Deletion(result.path, now + VOICE_FILE_TTL_MS)] else [])
    {
      result := WriteAtomically(VoiceDir, filename, audio, granted, iv, fault, renameOk, now);
      if result.Saved? {
        scheduled := scheduled + [Deletion(result.path, now + VOICE_FILE_TTL_MS)];
      }
    }

    /** The permission check, the temporary write and the rename shared by
        both save methods. */
    method WriteAtomically(dir: Dir, filename: string, plain: seq<Byte>, granted: bool, iv: Iv, fault: WriteFault, renameOk: bool, now: int)
      returns (result: SaveResult)
      modifies this
      ensures SaveOutcome(files, result) == Save(old(files), granted, dir, filename, plain, iv, cipher, fault, renameOk, now)
      ensures scheduled == old(scheduled)
    {
      if !granted {
        return SecurityError;
      }
      var target := Path(dir, filename);
      var tmp := Path(dir, filename + TMP_SUFFIX);
      if fault.FailsBeforeTmp? {
        return IoError;
      }
      var encrypted := cipher.encrypt(iv, plain);
      if fault.FailsWriting? {
        files := files[tmp := FileEntry(Partial(iv + encrypted, fault.count), now)];
        return IoError;
      }
      files := files[tmp := FileEntry(iv + encrypted, now)];
      if !renameOk {
        return IoError;
      }
      var moved := files[tmp];
      files := (files - {tmp})[target := moved];
      return Saved(target);
    }

    method ReadFile(path: Path, readable: bool) returns (r: ReadResult)
      ensures r == Read(files, path, readable, cipher)
    {
      if path !in files || !readable {
        return NoFile;
      }
      var data := files[path].data;
      if |data| < GCM_IV_LENGTH {
        return ReadError;
      }
      var iv := data[..GCM_IV_LENGTH];
      var decrypted := cipher.decrypt(iv, data[GCM_IV_LENGTH..]);
      if decrypted.None? {
        return ReadError;
      }
      return Content(Utf8.Decode(decrypted.value));
    }

    method DeleteFile(path: Path, deleteOk: bool, now: int) returns (deleted: bool)
      modifies this
      ensures deleted <==> path in old(files) && deleteOk
      ensures files == Delete(old(files), path, deleteOk, now)
      ensures scheduled == old(scheduled)
    {
      if path !in files {
        return false;
      }
      var length := |files[path].data|;
      var chunks := WriteZeroChunks(length);
      files := files[path := FileEntry(Zeros(Sum(chunks)), now)];
      if !deleteOk {
        return false;
      }
      files := files - {path};
      return true;
    }

    method CleanupDirectory(dir: Dir, now: int, deleteOk: Path -> bool)
      modifies this
      ensures files == CleanDir(old(files), dir, now, deleteOk)
      ensures scheduled == old(scheduled)
    {
      ghost var start := files;
      var listing := Listing(files, dir);
      var todo := listing;
      while todo != {}
        invariant todo <= listing
        invariant files == CleanedOver(start, dir, listing - todo, now, deleteOk)
        invariant scheduled == old(scheduled)
        decreases |todo|
      {
        var p :| p in todo;
        ghost var done := listing - todo;
        CleanStep(start, dir, done, p, now, deleteOk);
        if Selected(dir, files[p], now) {
          var _ := DeleteFile(p, deleteOk(p), now);
        }
        assert files == CleanedOver(start, dir, done + {p}, now, deleteOk);
        assert listing - (todo - {p}) == done + {p};
        todo := todo - {p};
      }
      assert listing - todo == listing;
    }

    method CleanupExpiredFiles(now: int, deleteOk: Path -> bool)
      modifies this
      ensures files == Cleanup(old(files), now, deleteOk)
      ensures scheduled == old(scheduled)
    {
      CleanupDirectory(VoiceDir, now, deleteOk);
      CleanupDirectory(TempDir, now, deleteOk);
    }

    /** The executor runs scheduled deletion i once it is due. */
    method RunScheduledDeletion(i: nat, deleteOk: bool, now: int)
      requires i < |scheduled| && now >= scheduled[i].due
      modifies this
      ensures scheduled == old(scheduled[..i] + scheduled[i + 1..])
      ensures files == Delete(old(files), old(scheduled[i].path), deleteOk, now)
    {
      var job := scheduled[i];
      scheduled := scheduled[..i] + scheduled[i + 1..];
      var _ := DeleteFile(job.path, deleteOk, now);
    }
  }
}
