/** The encrypted-archive loop (`zip_dir` in `src/middleware.rs`): every entry
    of a directory walk becomes a record of a zip archive. The zip codec is
    abstracted to the sequence of records it is asked to write; the archive
    file it writes to is abstracted to an oracle saying which of its
    operations fail; the filesystem is a map from path to file content. */
module Middleware {
  import opened Common

  newtype byte = b: int | 0 <= b < 256

  /** A path as its components: `Path::strip_prefix` compares whole
      components, not characters. */
  type Path = seq<string>

  /** A walk entry: its path, and whether `path.is_file()` holds. */
  datatype DirEntry = DirEntry(path: Path, isFile: bool)

  datatype CompressionMethod = Stored | Deflated

  /** The options of a zip entry; `password` is the key of the legacy
      (ZipCrypto) encryption. */
  datatype FileOptions = FileOptions(compression: CompressionMethod, unixPermissions: nat, password: Option<string>)

  datatype Record =
    | FileRecord(name: Path, data: seq<byte>, options: FileOptions)
    | DirectoryRecord(name: Path, options: FileOptions)

  datatype ZipError =
    | SinkFailed(op: nat)                  // the archive file refused the writer's op-th operation
    | NoFileStarted                        // data written while no file entry is open
    | OpenFailed(path: Path)               // `File::open` failed
    | ReadFailed(path: Path, message: string)  // `read_to_end` failed

  /** What reading a file gives: its bytes, or the error `read_to_end` reports. */
  datatype FileContent = Readable(bytes: seq<byte>) | Unreadable(message: string)

  /** The options every entry is written with: deflate, mode 0o755 (493),
      and encryption with `key`. */
  function EntryOptions(key: string): FileOptions
  {
    FileOptions(Deflated, 493, Some(key))
  }

  /** `Path::strip_prefix`: the rest of `path` after the components of
      `base`, when `base` is a prefix of it. */
  function StripPrefix(path: Path, base: Path): (r: Option<Path>)
    ensures r.Some? <==> base <= path
    ensures r.Some? ==> base + r.value == path
  {
    if base <= path then Some(path[|base|..]) else None
  }

  /** `zip::ZipWriter` as the records it has been asked to write. Each
      operation that writes to the archive file is numbered; the ones that
      `sinkFails` names fail. */
  class ZipWriter {
    var records: seq<Record>
    var writingToFile: bool
    var finished: bool
    var ops: nat
    const sinkFails: nat -> bool

    /** While a file entry is open, it is the last record. */
    ghost predicate Valid()
      reads this
    {
      writingToFile ==> |records| > 0 && records[|records| - 1].FileRecord?
    }

    constructor (sinkFails: nat -> bool)
      ensures Valid() && this.sinkFails == sinkFails
      ensures records == [] && !writingToFile && !finished && ops == 0
    {
      this.sinkFails := sinkFails;
      records := [];
      writingToFile := false;
      finished := false;
      ops := 0;
    }

    /** `start_file_from_path`: opens a new, empty file entry. */
    method StartFileFromPath(name: Path, options: FileOptions) returns (r: Result<(), ZipError>)
      requires Valid()
      modifies this
      ensures Valid() && finished == old(finished) && ops == old(ops) + 1
      ensures r == if sinkFails(old(ops)) then Err(SinkFailed(old(ops))) else Ok(())
      ensures r.Ok? ==> records == old(records) + [FileRecord(name, [], options)] && writingToFile
      ensures r.Err? ==> records == old(records) && writingToFile == old(writingToFile)
    {
      if sinkFails(ops) {
        r := Err(SinkFailed(ops));
      } else {
        records := records + [FileRecord(name, [], options)];
        writingToFile := true;
        r := Ok(());
      }
      ops := ops + 1;
    }

    /** `write_all`: appends `data` to the open file entry. Writing nothing
        succeeds without touching the archive. */
    method WriteAll(data: seq<byte>) returns (r: Result<(), ZipError>)
      requires Valid()
      modifies this
      ensures Valid() && finished == old(finished) && writingToFile == old(writingToFile)
      ensures data == [] ==> r == Ok(()) && records == old(records) && ops == old(ops)
      ensures data != [] && !old(writingToFile) ==>
        r == Err(NoFileStarted) && records == old(records) && ops == old(ops)
      ensures data != [] && old(writingToFile) ==>
        ops == old(ops) + 1 &&
        r == (if sinkFails(old(ops)) then Err(SinkFailed(old(ops))) else Ok(())) &&
        records == if r.Err? then old(records) else AppendToLast(old(records), data)
    {
      if data == [] {
        r := Ok(());
      } else if !writingToFile {
        r := Err(NoFileStarted);
      } else {
        if sinkFails(ops) {
          r := Err(SinkFailed(ops));
        } else {
          records := AppendToLast(records, data);
          r := Ok(());
        }
        ops := ops + 1;
      }
    }

    /** `add_directory_from_path`: closes any open file and adds a directory entry. */
    method AddDirectoryFromPath(name: Path, options: FileOptions) returns (r: Result<(), ZipError>)
      requires Valid()
      modifies this
      ensures Valid() && finished == old(finished) && ops == old(ops) + 1
      ensures r == if sinkFails(old(ops)) then Err(SinkFailed(old(ops))) else Ok(())
      ensures r.Ok? ==> records == old(records) + [DirectoryRecord(name, options)] && !writingToFile
      ensures r.Err? ==> records == old(records) && writingToFile == old(writingToFile)
    {
      if sinkFails(ops) {
        r := Err(SinkFailed(ops));
      } else {
        records := records + [DirectoryRecord(name, options)];
        writingToFile := false;
        r := Ok(());
      }
      ops := ops + 1;
    }

    /** `finish`: writes the central directory and closes the archive. */
    method Finish() returns (r: Result<(), ZipError>)
      requires Valid()
      modifies this
      ensures Valid() && records == old(records) && ops == old(ops) + 1
      ensures r == if sinkFails(old(ops)) then Err(SinkFailed(old(ops))) else Ok(())
      ensures finished == (old(finished) || r.Ok?)
      ensures writingToFile == (old(writingToFile) && r.Err?)
    {
      if sinkFails(ops) {
        r := Err(SinkFailed(ops));
      } else {
        finished := true;
        writingToFile := false;
        r := Ok(());
      }
      ops := ops + 1;
    }
  }

  /** The records with `data` appended to the last one, a file entry. */
  function AppendToLast(records: seq<Record>, data: seq<byte>): (rs: seq<Record>)
    requires |records| > 0 && records[|records| - 1].FileRecord?
    ensures |rs| == |records| && rs[..|rs| - 1] == records[..|records| - 1]
    ensures rs[|rs| - 1] == records[|records| - 1].(data := records[|records| - 1].data + data)
  {
    var last := records[|records| - 1];
    records[..|records| - 1] + [last.(data := last.data + data)]
  }

  // ---------------------------------------------------------------------
  // What a complete walk writes

  predicate AllUnder(items: seq<DirEntry>, directory: Path)
  {
    forall i :: 0 <= i < |items| ==> directory <= items[i].path
  }

  /** A file entry can be opened and read; other entries need nothing. */
  predicate EntryReadable(e: DirEntry, fs: map<Path, FileContent>)
  {
    e.isFile ==> e.path in fs && fs[e.path].Readable?
  }

  predicate AllReadable(items: seq<DirEntry>, fs: map<Path, FileContent>)
  {
    forall i :: 0 <= i < |items| ==> EntryReadable(items[i], fs)
  }

  /** The records one entry turns into: a file its bytes, any other entry
      but the walk's root an empty directory entry, and the root nothing. Each record
      carries the options given and a name that leads back to the entry. */
  function EntryRecords(e: DirEntry, directory: Path, options: FileOptions, fs: map<Path, FileContent>): (rs: seq<Record>)
    requires directory <= e.path && EntryReadable(e, fs)
    ensures |rs| <= 1
    ensures rs == [] <==> !e.isFile && e.path == directory
    ensures forall r :: r in rs ==> r.options == options && directory + r.name == e.path
  {
    var name := e.path[|directory|..];
    assert directory + name == e.path;
    if e.isFile then [FileRecord(name, fs[e.path].bytes, options)]
    else if name != [] then [DirectoryRecord(name, options)]
    else []
  }

  /** The records a successful walk writes, entry after entry. */
  function Records(items: seq<DirEntry>, directory: Path, options: FileOptions, fs: map<Path, FileContent>): (rs: seq<Record>)
    requires AllUnder(items, directory) && AllReadable(items, fs)
    decreases |items|
  {
    if items == [] then []
    else
      var n := |items| - 1;
      Records(items[..n], directory, options, fs) + EntryRecords(items[n], directory, options, fs)
  }

  /** Every record of a walk carries the options it was given. */
  lemma {:induction false} RecordsCarryOptions(items: seq<DirEntry>, directory: Path, options: FileOptions,
                                               fs: map<Path, FileContent>)
    requires AllUnder(items, directory) && AllReadable(items, fs)
    ensures forall r :: r in Records(items, directory, options, fs) ==> r.options == options
    decreases |items|
  {
    if items != [] {
      RecordsCarryOptions(items[..|items| - 1], directory, options, fs);
    }
  }

  /** Every file record holds exactly the bytes of the file its name, under
      the walked folder, leads back to. */
  lemma {:induction false} FileRecordsHoldFileBytes(items: seq<DirEntry>, directory: Path, options: FileOptions,
                                                    fs: map<Path, FileContent>)
    requires AllUnder(items, directory) && AllReadable(items, fs)
    ensures forall r :: r in Records(items, directory, options, fs) && r.FileRecord? ==>
      directory + r.name in fs && fs[directory + r.name] == Readable(r.data)
    decreases |items|
  {
    if items != [] {
      var n := |items| - 1;
      FileRecordsHoldFileBytes(items[..n], directory, options, fs);
      var e := items[n];
      assert directory + e.path[|directory|..] == e.path;
    }
  }

  /** Operations on the archive file one entry needs: a file one to start
      it and one to write its bytes unless it is empty, any other entry but
      the root one, the root none. */
  function EntryOps(e: DirEntry, directory: Path, fs: map<Path, FileContent>): nat
    requires EntryReadable(e, fs)
  {
    if e.isFile then (if fs[e.path].bytes == [] then 1 else 2)
    else if e.path != directory then 1
    else 0
  }

  function SinkOps(items: seq<DirEntry>, directory: Path, fs: map<Path, FileContent>): nat
    requires AllReadable(items, fs)
    decreases |items|
  {
    if items == [] then 0
    else
      var n := |items| - 1;
      SinkOps(items[..n], directory, fs) + EntryOps(items[n], directory, fs)
  }

  /** The archive file accepts its operations numbered `from` to `to - 1`. */
  predicate SinkAccepts(sinkFails: nat -> bool, from: nat, to: nat)
  {
    forall k: nat :: from <= k < to ==> !sinkFails(k)
  }

  /** What one turn of the walk returns when the writer has already done
      `ops` operations: the error of its first failing step, in the order
      start file, open, read, write; or the error of adding a directory. */
  function EntryOutcome(e: DirEntry, directory: Path, fs: map<Path, FileContent>,
                        sinkFails: nat -> bool, ops: nat): (r: Result<(), ZipError>)
    ensures r.Ok? <==> EntryReadable(e, fs) && SinkAccepts(sinkFails, ops, ops + EntryOps(e, directory, fs))
    ensures r.Err? && r.error.SinkFailed? ==>
      sinkFails(r.error.op) && SinkAccepts(sinkFails, ops, r.error.op)
    ensures r.Err? && !r.error.SinkFailed? ==>
      e.isFile && !sinkFails(ops) && !EntryReadable(e, fs) &&
      (r.error.OpenFailed? || r.error.ReadFailed?) && r.error.path == e.path
  {
    if e.isFile then
      if sinkFails(ops) then Err(SinkFailed(ops))
      else if e.path !in fs then Err(OpenFailed(e.path))
      else match fs[e.path]
        case Unreadable(message) => Err(ReadFailed(e.path, message))
        case Readable(bytes) =>
          if bytes != [] && sinkFails(ops + 1) then Err(SinkFailed(ops + 1)) else Ok(())
    else if e.path != directory && sinkFails(ops) then Err(SinkFailed(ops))
    else Ok(())
  }

  /** What a failed turn leaves behind: the empty file record it started,
      when the start itself succeeded. */
  function StartedRecord(e: DirEntry, directory: Path, options: FileOptions,
                         sinkFails: nat -> bool, ops: nat): (rs: seq<Record>)
    requires directory <= e.path
    ensures rs != [] <==> e.isFile && !sinkFails(ops)
    ensures forall r :: r in rs ==> r == FileRecord(r.name, [], options) && directory + r.name == e.path
  {
    var name := e.path[|directory|..];
    assert directory + name == e.path;
    if e.isFile && !sinkFails(ops) then [FileRecord(name, [], options)] else []
  }

  /** A walk that stopped at entry `i` (at `finish` when `i == |items|`):
      every entry before it succeeded, the archive holds their records and,
      after them, whatever the failed turn left; `error` is what it failed
      with. */
  ghost predicate StoppedAt(i: nat, records: seq<Record>, error: ZipError, items: seq<DirEntry>,
                            directory: Path, options: FileOptions, fs: map<Path, FileContent>,
                            sinkFails: nat -> bool)
    requires AllUnder(items, directory)
  {
    i <= |items| && AllReadable(items[..i], fs) &&
    var ops := SinkOps(items[..i], directory, fs);
    SinkAccepts(sinkFails, 0, ops) &&
    if i < |items| then
      EntryOutcome(items[i], directory, fs, sinkFails, ops) == Err(error) &&
      records == Records(items[..i], directory, options, fs) +
                 StartedRecord(items[i], directory, options, sinkFails, ops)
    else
      sinkFails(ops) && error == SinkFailed(ops) &&
      records == Records(items[..i], directory, options, fs)
  }

  /** A walk stops at one place only: the first entry that fails, or
      `finish` when none does. So the records and error of a stopped walk
      are determined by the walk. */
  lemma StopIsFirstFailure(i: nat, j: nat, records1: seq<Record>, error1: ZipError,
                           records2: seq<Record>, error2: ZipError, items: seq<DirEntry>,
                           directory: Path, options: FileOptions, fs: map<Path, FileContent>,
                           sinkFails: nat -> bool)
    requires AllUnder(items, directory)
    requires StoppedAt(i, records1, error1, items, directory, options, fs, sinkFails)
    requires StoppedAt(j, records2, error2, items, directory, options, fs, sinkFails)
    ensures i == j && records1 == records2 && error1 == error2
  {
    if i < j {
      NoStopBefore(i, j, items, directory, fs, sinkFails);
    } else if j < i {
      NoStopBefore(j, i, items, directory, fs, sinkFails);
    }
  }

  /** An entry before the one a walk stopped at succeeded. */
  lemma NoStopBefore(i: nat, j: nat, items: seq<DirEntry>, directory: Path, fs: map<Path, FileContent>,
                     sinkFails: nat -> bool)
    requires i < j <= |items| && AllReadable(items[..j], fs)
    requires SinkAccepts(sinkFails, 0, SinkOps(items[..j], directory, fs))
    ensures AllReadable(items[..i], fs)
    ensures EntryOutcome(items[i], directory, fs, sinkFails, SinkOps(items[..i], directory, fs)).Ok?
  {
    assert items[..j][..i] == items[..i] && items[..j][i] == items[i];
    SinkOpsOfPrefix(items[..j], i, directory, fs);
  }

  /** A prefix of the walk needs no more operations than the whole walk. */
  lemma {:induction false} SinkOpsOfPrefix(items: seq<DirEntry>, j: nat, directory: Path, fs: map<Path, FileContent>)
    requires AllReadable(items, fs) && j < |items|
    ensures AllReadable(items[..j], fs)
    ensures SinkOps(items[..j], directory, fs) + EntryOps(items[j], directory, fs) <= SinkOps(items, directory, fs)
    decreases |items|
  {
    var n := |items| - 1;
    if j < n {
      assert items[..n][..j] == items[..j];
      SinkOpsOfPrefix(items[..n], j, directory, fs);
    }
  }

  /** One turn of the walk: a file is started, read into `buffer` (empty on
      entry) and written out, after which the buffer is cleared; any other
      entry but the root is added as a directory; the root is skipped. It
      returns the error of its first failing step; on success it has written
      the entry's records, on failure only the file record it started. */
  method ZipEntry(zip: ZipWriter, entry: DirEntry, directory: Path, options: FileOptions,
                  fs: map<Path, FileContent>, buffer: seq<byte>)
    returns (r: Result<(), ZipError>, rest: seq<byte>)
    requires zip.Valid() && directory <= entry.path && buffer == []
    modifies zip
    ensures zip.Valid() && zip.finished == old(zip.finished)
    ensures r == EntryOutcome(entry, directory, fs, zip.sinkFails, old(zip.ops))
    ensures r.Ok? ==> (rest == [] &&
      zip.records == old(zip.records) + EntryRecords(entry, directory, options, fs) &&
      zip.ops == old(zip.ops) + EntryOps(entry, directory, fs))
    ensures r.Err? ==>
      zip.records == old(zip.records) + StartedRecord(entry, directory, options, zip.sinkFails, old(zip.ops))
  {
    rest := buffer;
    var name := StripPrefix(entry.path, directory).value;
    if entry.isFile {
      r := zip.StartFileFromPath(name, options);
      if r.Err? {
        return;
      }
      if entry.path !in fs {
        r := Err(OpenFailed(entry.path));
        return;
      }
      match fs[entry.path]
      case Unreadable(message) =>
        r := Err(ReadFailed(entry.path, message));
        return;
      case Readable(bytes) =>
        rest := rest + bytes;
      ghost var started := zip.records;
      assert zip.writingToFile && rest == bytes;
      assert started[|started| - 1] == FileRecord(name, [], options);
      r := zip.WriteAll(rest);
      if r.Err? {
        return;
      }
      assert EntryRecords(entry, directory, options, fs) == [FileRecord(name, bytes, options)];
      assert zip.records == started[..|started| - 1] + [FileRecord(name, bytes, options)] by {
        if bytes != [] {
          assert zip.records == AppendToLast(started, bytes);
        }
      }
      rest := [];
    } else if name != [] {
      assert EntryRecords(entry, directory, options, fs) == [DirectoryRecord(name, options)];
      r := zip.AddDirectoryFromPath(name, options);
    } else {
      assert EntryRecords(entry, directory, options, fs) == [];
      r := Ok(());
    }
  }

  /** `zip_dir`: walks `items` in order and then calls `finish`; the first
      failing operation ends the walk with its error. It succeeds exactly
      when every file reads and the archive file accepts every operation;
      it then holds the records of the whole walk. When it fails, it has
      stopped at the first failing entry (or at `finish`), returns that
      error, holds the records of the entries before it and the file record
      the failed turn started, and `finish` has not succeeded. */
  method ZipDir(items: seq<DirEntry>, directory: Path, sinkFails: nat -> bool, key: string,
                fs: map<Path, FileContent>)
    returns (result: Result<(), ZipError>, zip: ZipWriter)
    requires AllUnder(items, directory)
    ensures fresh(zip) && zip.Valid()
    ensures result.Ok? <==>
      AllReadable(items, fs) && SinkAccepts(sinkFails, 0, SinkOps(items, directory, fs) + 1)
    ensures result.Ok? ==>
      zip.finished && zip.records == Records(items, directory, EntryOptions(key), fs)
    ensures result.Err? ==> !zip.finished
    ensures result.Err? ==>
      exists i :: StoppedAt(i, zip.records, result.error, items, directory, EntryOptions(key), fs, sinkFails)
    ensures forall r :: r in zip.records ==> r.options == EntryOptions(key)
  {
    zip := new ZipWriter(sinkFails);
    var options := EntryOptions(key);
    var buffer: seq<byte> := [];
    var i := 0;
    while i < |items|
      invariant 0 <= i <= |items|
      invariant zip.Valid() && !zip.finished && zip.sinkFails == sinkFails
      invariant buffer == []
      invariant AllReadable(items[..i], fs)
      invariant zip.records == Records(items[..i], directory, options, fs)
      invariant zip.ops == SinkOps(items[..i], directory, fs)
      invariant SinkAccepts(sinkFails, 0, zip.ops)
    {
      ghost var before := zip.records;
      ghost var opsBefore := zip.ops;
      var r;
      r, buffer := ZipEntry(zip, items[i], directory, options, fs, buffer);
      if r.Err? {
        result := r;
        FailedWalk(zip.records, before, items, i, directory, options, fs, sinkFails, opsBefore, r.error);
        return;
      }
      NextPrefix(items, i, directory, options, fs, sinkFails);
      i := i + 1;
    }
    result := zip.Finish();
    FinishOutcome(zip.records, items, directory, options, fs, sinkFails);
  }

  /** A turn that succeeds extends the prefix of the walk done so far: its
      records and operations are those of the prefix followed by the
      entry's, and the archive has accepted them all. */
  lemma NextPrefix(items: seq<DirEntry>, i: nat, directory: Path, options: FileOptions, fs: map<Path, FileContent>,
                   sinkFails: nat -> bool)
    requires i < |items| && AllUnder(items, directory) && AllReadable(items[..i], fs)
    requires SinkAccepts(sinkFails, 0, SinkOps(items[..i], directory, fs))
    requires EntryOutcome(items[i], directory, fs, sinkFails, SinkOps(items[..i], directory, fs)).Ok?
    ensures AllReadable(items[..i + 1], fs)
    ensures Records(items[..i + 1], directory, options, fs) ==
            Records(items[..i], directory, options, fs) + EntryRecords(items[i], directory, options, fs)
    ensures SinkOps(items[..i + 1], directory, fs) == SinkOps(items[..i], directory, fs) + EntryOps(items[i], directory, fs)
    ensures SinkAccepts(sinkFails, 0, SinkOps(items[..i + 1], directory, fs))
  {
    assert items[..i + 1][..i] == items[..i];
  }

  /** A walk whose entry `i` failed, after the entries before it were
      written, has stopped at `i` and fails as a whole; every record it
      wrote carries the walk's options. */
  lemma FailedWalk(records: seq<Record>, before: seq<Record>, items: seq<DirEntry>, i: nat, directory: Path,
                   options: FileOptions, fs: map<Path, FileContent>, sinkFails: nat -> bool, ops: nat,
                   error: ZipError)
    requires i < |items| && AllUnder(items, directory) && AllReadable(items[..i], fs)
    requires before == Records(items[..i], directory, options, fs) && ops == SinkOps(items[..i], directory, fs)
    requires SinkAccepts(sinkFails, 0, ops)
    requires EntryOutcome(items[i], directory, fs, sinkFails, ops) == Err(error)
    requires records == before + StartedRecord(items[i], directory, options, sinkFails, ops)
    ensures StoppedAt(i, records, error, items, directory, options, fs, sinkFails)
    ensures exists k :: StoppedAt(k, records, error, items, directory, options, fs, sinkFails)
    ensures !(AllReadable(items, fs) && SinkAccepts(sinkFails, 0, SinkOps(items, directory, fs) + 1))
    ensures forall rec :: rec in records ==> rec.options == options
  {
    FailureNoticed(items, i, directory, fs, sinkFails, ops);
    RecordsCarryOptions(items[..i], directory, options, fs);
    assert StoppedAt(i, records, error, items, directory, options, fs, sinkFails);
  }

  /** After every entry succeeded, the walk succeeds exactly when `finish`
      does; when it does not, the walk has stopped at `finish`. */
  lemma FinishOutcome(records: seq<Record>, items: seq<DirEntry>, directory: Path, options: FileOptions,
                      fs: map<Path, FileContent>, sinkFails: nat -> bool)
    requires AllUnder(items, directory) && AllReadable(items[..|items|], fs)
    requires SinkAccepts(sinkFails, 0, SinkOps(items[..|items|], directory, fs))
    requires records == Records(items[..|items|], directory, options, fs)
    ensures AllReadable(items, fs) && records == Records(items, directory, options, fs)
    ensures SinkOps(items[..|items|], directory, fs) == SinkOps(items, directory, fs)
    ensures SinkAccepts(sinkFails, 0, SinkOps(items, directory, fs) + 1) <==> !sinkFails(SinkOps(items, directory, fs))
    ensures sinkFails(SinkOps(items, directory, fs)) ==>
      StoppedAt(|items|, records, SinkFailed(SinkOps(items, directory, fs)), items, directory, options, fs, sinkFails) &&
      exists k :: StoppedAt(k, records, SinkFailed(SinkOps(items, directory, fs)), items, directory, options, fs, sinkFails)
    ensures forall rec :: rec in records ==> rec.options == options
  {
    assert items[..|items|] == items;
    RecordsCarryOptions(items, directory, options, fs);
    var ops := SinkOps(items, directory, fs);
    if sinkFails(ops) {
      assert StoppedAt(|items|, records, SinkFailed(ops), items, directory, options, fs, sinkFails);
    }
  }

  /** A turn that fails, at entry `i`, fails a walk that would need it. */
  lemma FailureNoticed(items: seq<DirEntry>, i: nat, directory: Path, fs: map<Path, FileContent>,
                       sinkFails: nat -> bool, ops: nat)
    requires i < |items| && AllReadable(items[..i], fs) && ops == SinkOps(items[..i], directory, fs)
    requires EntryOutcome(items[i], directory, fs, sinkFails, ops).Err?
    ensures !(AllReadable(items, fs) && SinkAccepts(sinkFails, 0, SinkOps(items, directory, fs) + 1))
  {
    if AllReadable(items, fs) {
      SinkOpsOfPrefix(items, i, directory, fs);
    }
  }

  // ---------------------------------------------------------------------
  // What the archive holds

  /** The files of a walk, in walk order: name inside the archive and bytes. */
  function Files(items: seq<DirEntry>, directory: Path, fs: map<Path, FileContent>): seq<(Path, seq<byte>)>
    requires AllUnder(items, directory) && AllReadable(items, fs)
    decreases |items|
  {
    if items == [] then []
    else
      var n := |items| - 1;
      var e := items[n];
      Files(items[..n], directory, fs) + (if e.isFile then [(e.path[|directory|..], fs[e.path].bytes)] else [])
  }

  /** The entries of a walk that are not files, other than its root, in walk
      order: folders, and also symbolic links, pipes and sockets, for which
      `is_file` is false too. */
  function Directories(items: seq<DirEntry>, directory: Path): seq<Path>
    requires AllUnder(items, directory)
    decreases |items|
  {
    if items == [] then []
    else
      var n := |items| - 1;
      var e := items[n];
      Directories(items[..n], directory) + (if !e.isFile && e.path != directory then [e.path[|directory|..]] else [])
  }

  /** The file records of an archive: name and data. */
  function FileContents(records: seq<Record>): seq<(Path, seq<byte>)>
    decreases |records|
  {
    if records == [] then []
    else
      var n := |records| - 1;
      FileContents(records[..n]) +
        (if records[n].FileRecord? then [(records[n].name, records[n].data)] else [])
  }

  /** The directory records of an archive, by name. */
  function DirectoryNames(records: seq<Record>): seq<Path>
    decreases |records|
  {
    if records == [] then []
    else
      var n := |records| - 1;
      DirectoryNames(records[..n]) + (if records[n].DirectoryRecord? then [records[n].name] else [])
  }

  lemma {:induction false} FileContentsAppend(a: seq<Record>, b: seq<Record>)
    ensures FileContents(a + b) == FileContents(a) + FileContents(b)
    decreases |b|
  {
    if b == [] {
      assert a + b == a;
    } else {
      var n := |b| - 1;
      assert (a + b)[..|a + b| - 1] == a + b[..n];
      FileContentsAppend(a, b[..n]);
    }
  }

  lemma {:induction false} DirectoryNamesAppend(a: seq<Record>, b: seq<Record>)
    ensures DirectoryNames(a + b) == DirectoryNames(a) + DirectoryNames(b)
    decreases |b|
  {
    if b == [] {
      assert a + b == a;
    } else {
      var n := |b| - 1;
      assert (a + b)[..|a + b| - 1] == a + b[..n];
      DirectoryNamesAppend(a, b[..n]);
    }
  }

  /** The archive of a complete walk holds every file of the walk, once, in
      walk order, under its path relative to the walked folder, with all of
      its bytes and nothing else. */
  lemma {:induction false} ArchiveHoldsFiles(items: seq<DirEntry>, directory: Path, options: FileOptions,
                                             fs: map<Path, FileContent>)
    requires AllUnder(items, directory) && AllReadable(items, fs)
    ensures FileContents(Records(items, directory, options, fs)) == Files(items, directory, fs)
    decreases |items|
  {
    if items != [] {
      var n := |items| - 1;
      var e := items[n];
      var one := EntryRecords(e, directory, options, fs);
      ArchiveHoldsFiles(items[..n], directory, options, fs);
      FileContentsAppend(Records(items[..n], directory, options, fs), one);
      assert FileContents(one) == if e.isFile then [(e.path[|directory|..], fs[e.path].bytes)] else [] by {
        if one != [] {
          assert one[..0] == [];
        }
      }
    }
  }

  /** The archive of a complete walk holds one directory entry per entry
      that is not a file, other than the walked folder, in walk order; the
      walked folder itself is not stored. */
  lemma {:induction false} ArchiveHoldsDirectories(items: seq<DirEntry>, directory: Path, options: FileOptions,
                                                   fs: map<Path, FileContent>)
    requires AllUnder(items, directory) && AllReadable(items, fs)
    ensures DirectoryNames(Records(items, directory, options, fs)) == Directories(items, directory)
    decreases |items|
  {
    if items != [] {
      var n := |items| - 1;
      var e := items[n];
      var one := EntryRecords(e, directory, options, fs);
      ArchiveHoldsDirectories(items[..n], directory, options, fs);
      DirectoryNamesAppend(Records(items[..n], directory, options, fs), one);
      assert DirectoryNames(one) == if !e.isFile && e.path != directory then [e.path[|directory|..]] else [] by {
        if one != [] {
          assert one[..0] == [];
        }
      }
    }
  }

  /** The files and the other non-root entries account for every record. */
  lemma {:induction false} RecordCount(items: seq<DirEntry>, directory: Path, options: FileOptions,
                                       fs: map<Path, FileContent>)
    requires AllUnder(items, directory) && AllReadable(items, fs)
    ensures |Records(items, directory, options, fs)| == |Files(items, directory, fs)| + |Directories(items, directory)|
    decreases |items|
  {
    if items != [] {
      RecordCount(items[..|items| - 1], directory, options, fs);
    }
  }
}
