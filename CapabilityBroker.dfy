/** The storage the file handlers reach through `fs/promises`: a tree of directories and
    text files keyed by canonical segment lists (the resolved path), with the errors
    `readFile`, `writeFile`, `readdir` and `mkdir` raise when the tree does not allow the
    call. */
module FileStore {
  import opened Wrappers
  import opened PosixPath

  /** The error codes the modelled operations raise, with their descriptions. */
  datatype Errno = ENOENT | EISDIR | ENOTDIR | EEXIST
  {
    function Text(): string {
      match this
      case ENOENT => "ENOENT: no such file or directory"
      case EISDIR => "EISDIR: illegal operation on a directory"
      case ENOTDIR => "ENOTDIR: not a directory"
      case EEXIST => "EEXIST: file already exists"
    }
  }

  /** The error message of a failed call, in the "CODE: description, syscall 'path'" form;
      a read of a directory names no path. */
  function ErrorMessage(code: Errno, syscall: string, path: Option<string>): string {
    code.Text() + ", " + syscall + (if path.Some? then " '" + path.value + "'" else "")
  }

  function Parent(key: Segments): Segments
    requires key != []
  {
    key[..|key| - 1]
  }

  /** Every prefix of `key`, the root and `key` itself included. */
  function Prefixes(key: Segments): (r: set<Segments>)
    ensures forall k :: 0 <= k <= |key| ==> key[..k] in r
    ensures forall d :: d in r ==> |d| <= |key| && d == key[..|d|]
  {
    set k | 0 <= k <= |key| :: key[..k]
  }

  /** The result of a call that yields a value. */
  datatype Got<T> = Ok(value: T) | Err(code: Errno)

  /** A directory tree of text files. */
  datatype Volume = Volume(files: map<Segments, string>, dirs: set<Segments>)
  {
    /** The root exists; nothing is both a file and a directory; every file and directory
        other than the root sits in an existing directory. */
    ghost predicate Valid() {
      && [] in dirs
      && (forall f :: f in files ==> f != [] && f !in dirs && Parent(f) in dirs)
      && (forall d :: d in dirs && d != [] ==> Parent(d) in dirs)
    }

    /** Some proper prefix of `key` is a file. */
    predicate BelowFile(key: Segments) {
      exists k | 0 < k < |key| :: key[..k] in files
    }

    /** The names directly inside directory `key`. */
    function Children(key: Segments): set<string> {
      (set f | f in files && |f| == |key| + 1 && f[..|key|] == key :: f[|key|])
      + (set d | d in dirs && |d| == |key| + 1 && d[..|key|] == key :: d[|key|])
    }

    /** Why `key` cannot be opened: a file above it, or nothing there. */
    function Missing(key: Segments): Errno {
      if BelowFile(key) then ENOTDIR else ENOENT
    }

    /** `fs.readFile`. */
    function Read(key: Segments): Got<string> {
      if key in files then Ok(files[key])
      else if key in dirs then Err(EISDIR)
      else Err(Missing(key))
    }

    /** `fs.writeFile`: creates or replaces a file inside an existing directory. */
    function Write(key: Segments, content: string): (r: (Volume, Option<Errno>))
      ensures r.1.Some? ==> r.0 == this
      ensures r.1.None? ==> r.0 == Volume(files[key := content], dirs)
      ensures r.1.None? <==> key != [] && key !in dirs && Parent(key) in dirs
    {
      if key == [] || key in dirs then (this, Some(EISDIR))
      else if Parent(key) !in dirs then (this, Some(Missing(key)))
      else (Volume(files[key := content], dirs), None)
    }

    /** `fs.readdir`. */
    function List(key: Segments): Got<set<string>> {
      if key in dirs then Ok(Children(key))
      else if key in files then Err(ENOTDIR)
      else Err(Missing(key))
    }

    /** `fs.mkdir` with `recursive: true`: creates every missing directory on the way;
        a directory that already exists is not an error. */
    function MakeDirs(key: Segments): (r: (Volume, Option<Errno>))
      ensures r.1.Some? ==> r.0 == this
      ensures r.1.None? ==> r.0 == Volume(files, dirs + Prefixes(key))
      ensures r.1.None? <==> key !in files && !BelowFile(key)
    {
      if key in files then (this, Some(EEXIST))
      else if BelowFile(key) then (this, Some(ENOTDIR))
      else (Volume(files, dirs + Prefixes(key)), None)
    }
  }

  /** In a valid tree every ancestor of a directory is a directory. */
  lemma {:induction false} DirAncestors(v: Volume, d: Segments, k: nat)
    requires v.Valid() && d in v.dirs && k <= |d|
    ensures d[..k] in v.dirs
    decreases |d| - k
  {
    if k < |d| {
      DirAncestors(v, Parent(d), k);
      assert Parent(d)[..k] == d[..k];
    } else {
      assert d[..k] == d;
    }
  }

  /** A write keeps the tree valid. */
  lemma WriteKeepsValid(v: Volume, key: Segments, content: string)
    requires v.Valid()
    ensures v.Write(key, content).0.Valid()
  {
  }

  /** Creating directories keeps the tree valid. */
  lemma MakeDirsKeepsValid(v: Volume, key: Segments)
    requires v.Valid()
    ensures v.MakeDirs(key).0.Valid()
  {
    var (w, out) := v.MakeDirs(key);
    if out.None? {
      forall k | 0 <= k <= |key|
        ensures key[..k] !in v.files
      {
        if k == |key| {
          assert key[..k] == key;
        }
      }
      forall d | d in w.dirs && d != []
        ensures Parent(d) in w.dirs
      {
        if d in Prefixes(key) {
          assert d == key[..|d|];
          assert Parent(d) == key[..|d| - 1];
        }
      }
    }
  }

  /** Creating a directory that already exists changes nothing and succeeds. */
  lemma MakeDirsExisting(v: Volume, key: Segments)
    requires v.Valid() && key in v.dirs
    ensures v.MakeDirs(key) == (v, None)
  {
    assert key !in v.files;
    assert !v.BelowFile(key) by {
      forall k | 0 < k < |key|
        ensures key[..k] !in v.files
      {
        DirAncestors(v, key, k);
      }
    }
    forall d | d in Prefixes(key)
      ensures d in v.dirs
    {
      DirAncestors(v, key, |d|);
    }
    assert v.dirs + Prefixes(key) == v.dirs;
  }

  /** Creating directories twice is creating them once. */
  lemma MakeDirsIdempotent(v: Volume, key: Segments)
    requires v.Valid()
    ensures var (w, _) := v.MakeDirs(key); w.MakeDirs(key).0 == w
  {
    var (w, out) := v.MakeDirs(key);
    MakeDirsKeepsValid(v, key);
    if out.None? {
      assert key == key[..|key|];
      MakeDirsExisting(w, key);
    }
  }

  /** After a successful write, reading the same file gives what was written, and every
      other file and directory reads as before. */
  lemma WriteThenRead(v: Volume, key: Segments, content: string, other: Segments)
    requires v.Write(key, content).1.None?
    ensures v.Write(key, content).0.Read(key) == Ok(content)
    ensures other != key && v.Read(other).Ok? ==> v.Write(key, content).0.Read(other) == v.Read(other)
    ensures v.Write(key, content).0.dirs == v.dirs
  {
  }

  /** After a successful write the file is listed in its directory. */
  lemma WriteThenList(v: Volume, key: Segments, content: string)
    requires v.Write(key, content).1.None?
    ensures v.Write(key, content).0.List(Parent(key)) ==
      Ok(v.Children(Parent(key)) + {key[|key| - 1]})
  {
    var w := v.Write(key, content).0;
    var p := Parent(key);
    assert key[..|p|] == p;
    assert w.Children(p) == v.Children(p) + {key[|key| - 1]};
  }
}


/** The file-system handlers the host process exposes to the renderer over IPC
    (`read-file`, `write-file`, `list-dir`, `create-dir`) and the two dialog handlers.
    Each file handler consults the allow-list guard first and touches storage only when it
    passes; any error storage raises is returned as the envelope's `error` text. Storage
    faults that do not follow from the tree (permissions, a full disk, I/O errors) are an
    input: `Fault(message)`. */
module CapabilityBroker {
  import opened Wrappers
  import opened PosixPath
  import opened PathGuard
  import opened FileStore

  const AccessDenied := "Access denied: Path not in allowed directories"

  /** What a storage call runs into besides the tree itself. */
  datatype Storage = Healthy | Fault(message: string)

  /** The reply envelopes: `{success: true, content}`, `{success: true}`,
      `{success: true, files}`, `{success: true, path}`, `{success: false, error}` and
      `{success: false, canceled: true}`. */
  datatype Reply =
    | ReadOk(content: string)
    | Done
    | Listing(files: set<string>)
    | Chosen(path: Option<string>)
    | Failure(error: string)
    | Canceled
  {
    predicate Success() { !Failure? && !Canceled? }
  }

  /** The `read-file` handler. */
  function HandleRead(v: Volume, cwd: string, allowedDirs: seq<string>, p: string, storage: Storage): (r: Reply)
    ensures !IsPathAllowed(cwd, allowedDirs, p) ==> r == Failure(AccessDenied)
    ensures r.ReadOk? <==> IsPathAllowed(cwd, allowedDirs, p) && storage.Healthy?
                           && ResolvedSegments(cwd, p) in v.files
    ensures r.ReadOk? ==> r.content == v.files[ResolvedSegments(cwd, p)]
  {
    if !IsPathAllowed(cwd, allowedDirs, p) then Failure(AccessDenied)
    else if storage.Fault? then Failure(storage.message)
    else
      match v.Read(ResolvedSegments(cwd, p))
      case Ok(content) => ReadOk(content)
      case Err(EISDIR) => Failure(ErrorMessage(EISDIR, "read", None))
      case Err(code) => Failure(ErrorMessage(code, "open", Some(p)))
  }

  /** The `write-file` handler: the new tree and the reply. */
  function HandleWrite(v: Volume, cwd: string, allowedDirs: seq<string>, p: string, content: string,
                       storage: Storage): (r: (Volume, Reply))
    ensures !IsPathAllowed(cwd, allowedDirs, p) ==> r == (v, Failure(AccessDenied))
    ensures r.1 != Done ==> r.0 == v
    ensures r.1 == Done <==> IsPathAllowed(cwd, allowedDirs, p) && storage.Healthy?
                             && v.Write(ResolvedSegments(cwd, p), content).1.None?
    ensures r.1 == Done ==> r.0 == Volume(v.files[ResolvedSegments(cwd, p) := content], v.dirs)
  {
    if !IsPathAllowed(cwd, allowedDirs, p) then (v, Failure(AccessDenied))
    else if storage.Fault? then (v, Failure(storage.message))
    else
      var (w, err) := v.Write(ResolvedSegments(cwd, p), content);
      if err.Some? then (v, Failure(ErrorMessage(err.value, "open", Some(p)))) else (w, Done)
  }

  /** The `list-dir` handler. */
  function HandleList(v: Volume, cwd: string, allowedDirs: seq<string>, p: string, storage: Storage): (r: Reply)
    ensures !IsPathAllowed(cwd, allowedDirs, p) ==> r == Failure(AccessDenied)
    ensures r.Listing? <==> IsPathAllowed(cwd, allowedDirs, p) && storage.Healthy?
                            && ResolvedSegments(cwd, p) in v.dirs
    ensures r.Listing? ==> r.files == v.Children(ResolvedSegments(cwd, p))
  {
    if !IsPathAllowed(cwd, allowedDirs, p) then Failure(AccessDenied)
    else if storage.Fault? then Failure(storage.message)
    else
      match v.List(ResolvedSegments(cwd, p))
      case Ok(names) => Listing(names)
      case Err(code) => Failure(ErrorMessage(code, "scandir", Some(p)))
  }

  /** The `create-dir` handler: the new tree and the reply. */
  function HandleCreateDir(v: Volume, cwd: string, allowedDirs: seq<string>, p: string,
                           storage: Storage): (r: (Volume, Reply))
    ensures !IsPathAllowed(cwd, allowedDirs, p) ==> r == (v, Failure(AccessDenied))
    ensures r.1 != Done ==> r.0 == v
    ensures r.1 == Done <==> IsPathAllowed(cwd, allowedDirs, p) && storage.Healthy?
                             && v.MakeDirs(ResolvedSegments(cwd, p)).1.None?
    ensures r.1 == Done ==> r.0 == Volume(v.files, v.dirs + Prefixes(ResolvedSegments(cwd, p)))
  {
    if !IsPathAllowed(cwd, allowedDirs, p) then (v, Failure(AccessDenied))
    else if storage.Fault? then (v, Failure(storage.message))
    else
      var (w, err) := v.MakeDirs(ResolvedSegments(cwd, p));
      if err.Some? then (v, Failure(ErrorMessage(err.value, "mkdir", Some(p)))) else (w, Done)
  }

  /** A storage fault is reported with its own message, and nothing changes. */
  lemma FaultsReported(v: Volume, cwd: string, allowedDirs: seq<string>, p: string, content: string, msg: string)
    requires IsPathAllowed(cwd, allowedDirs, p)
    ensures HandleRead(v, cwd, allowedDirs, p, Fault(msg)) == Failure(msg)
    ensures HandleWrite(v, cwd, allowedDirs, p, content, Fault(msg)) == (v, Failure(msg))
    ensures HandleList(v, cwd, allowedDirs, p, Fault(msg)) == Failure(msg)
    ensures HandleCreateDir(v, cwd, allowedDirs, p, Fault(msg)) == (v, Failure(msg))
  {
  }

  /** Writing then reading the same allowed path returns what was written. */
  lemma WriteThenReadBack(v: Volume, cwd: string, allowedDirs: seq<string>, p: string, content: string)
    requires HandleWrite(v, cwd, allowedDirs, p, content, Healthy).1 == Done
    ensures HandleRead(HandleWrite(v, cwd, allowedDirs, p, content, Healthy).0,
                       cwd, allowedDirs, p, Healthy) == ReadOk(content)
  {
  }

  /** `create-dir` on an existing allowed directory succeeds and changes nothing. */
  lemma CreateExistingDir(v: Volume, cwd: string, allowedDirs: seq<string>, p: string)
    requires v.Valid()
    requires IsPathAllowed(cwd, allowedDirs, p) && ResolvedSegments(cwd, p) in v.dirs
    ensures HandleCreateDir(v, cwd, allowedDirs, p, Healthy) == (v, Done)
  {
    MakeDirsExisting(v, ResolvedSegments(cwd, p));
  }

  /** Every handler keeps the tree valid. */
  lemma HandlersKeepValid(v: Volume, cwd: string, allowedDirs: seq<string>, p: string, content: string,
                          storage: Storage)
    requires v.Valid()
    ensures HandleWrite(v, cwd, allowedDirs, p, content, storage).0.Valid()
    ensures HandleCreateDir(v, cwd, allowedDirs, p, storage).0.Valid()
  {
    WriteKeepsValid(v, ResolvedSegments(cwd, p), content);
    MakeDirsKeepsValid(v, ResolvedSegments(cwd, p));
  }

  /** What the open dialog reports: canceled, or the chosen paths. */
  datatype OpenResult = OpenCanceled | OpenPicked(filePaths: seq<string>)

  /** The `open-file-dialog` handler: the first chosen path, which is absent when the
      dialog returned no path. */
  function OpenFileDialog(result: OpenResult): (r: Reply)
    ensures r == Canceled <==> result.OpenCanceled?
    ensures result.OpenPicked? ==> r.Chosen? && r.Success()
    ensures result.OpenPicked? && result.filePaths != [] ==> r.path == Some(result.filePaths[0])
  {
    match result
    case OpenCanceled => Canceled
    case OpenPicked(paths) => Chosen(if paths != [] then Some(paths[0]) else None)
  }

  /** What the save dialog reports: canceled, or the chosen path. */
  datatype SaveResult = SaveCanceled | SavePicked(filePath: string)

  /** `defaultFileName || 'project.firecalc.yaml'`: None stands for `undefined` or `null`. */
  function SaveDefaultPath(defaultFileName: Option<string>): (r: string)
    ensures r != ""
    ensures defaultFileName.Some? && defaultFileName.value != "" ==> r == defaultFileName.value
    ensures defaultFileName.None? || defaultFileName.value == "" ==> r == "project.firecalc.yaml"
  {
    if defaultFileName.Some? && defaultFileName.value != "" then defaultFileName.value
    else "project.firecalc.yaml"
  }

  /** The `save-file-dialog` handler. */
  function SaveFileDialog(result: SaveResult): (r: Reply)
    ensures r == Canceled <==> result.SaveCanceled?
    ensures result.SavePicked? ==> r == Chosen(Some(result.filePath))
  {
    match result
    case SaveCanceled => Canceled
    case SavePicked(path) => Chosen(Some(path))
  }

  /** The dialogs do not consult the guard: a path chosen outside every allowed directory
      is handed back, but the file handlers still refuse it. */
  lemma ChosenPathStillGuarded(v: Volume, cwd: string, allowedDirs: seq<string>, p: string, storage: Storage)
    requires !IsPathAllowed(cwd, allowedDirs, p)
    ensures OpenFileDialog(OpenPicked([p])) == Chosen(Some(p))
    ensures HandleRead(v, cwd, allowedDirs, p, storage) == Failure(AccessDenied)
  {
  }

  /** The handler object: the storage tree it serves, the process's working directory and
      the allow-list. */
  class Broker {
    var files: map<Segments, string>
    var dirs: set<Segments>
    const cwd: string
    const allowedDirs: seq<string>

    function Vol(): Volume
      reads this
    {
      Volume(files, dirs)
    }

    ghost predicate Valid()
      reads this
    {
      Vol().Valid()
    }

    constructor (cwd: string, allowedDirs: seq<string>, initial: Volume)
      requires initial.Valid()
      ensures Valid() && Vol() == initial
      ensures this.cwd == cwd && this.allowedDirs == allowedDirs
    {
      this.cwd := cwd;
      this.allowedDirs := allowedDirs;
      files := initial.files;
      dirs := initial.dirs;
    }

    method ReadFile(p: string, storage: Storage) returns (reply: Reply)
      ensures reply == HandleRead(Vol(), cwd, allowedDirs, p, storage)
    {
      if !IsPathAllowed(cwd, allowedDirs, p) {
        return Failure(AccessDenied);
      }
      if storage.Fault? {
        return Failure(storage.message);
      }
      var key := ResolvedSegments(cwd, p);
      if key in files {
        reply := ReadOk(files[key]);
      } else if key in dirs {
        reply := Failure(ErrorMessage(EISDIR, "read", None));
      } else {
        reply := Failure(ErrorMessage(Vol().Missing(key), "open", Some(p)));
      }
    }

    method WriteFile(p: string, content: string, storage: Storage) returns (reply: Reply)
      requires Valid()
      modifies this
      ensures Valid()
      ensures (Vol(), reply) == HandleWrite(old(Vol()), cwd, allowedDirs, p, content, storage)
    {
      if !IsPathAllowed(cwd, allowedDirs, p) {
        return Failure(AccessDenied);
      }
      if storage.Fault? {
        return Failure(storage.message);
      }
      var key := ResolvedSegments(cwd, p);
      WriteKeepsValid(Vol(), key, content);
      if key == [] || key in dirs {
        reply := Failure(ErrorMessage(EISDIR, "open", Some(p)));
      } else if key[..|key| - 1] !in dirs {
        reply := Failure(ErrorMessage(Vol().Missing(key), "open", Some(p)));
      } else {
        files := files[key := content];
        reply := Done;
      }
    }

    method ListDir(p: string, storage: Storage) returns (reply: Reply)
      ensures reply == HandleList(Vol(), cwd, allowedDirs, p, storage)
    {
      if !IsPathAllowed(cwd, allowedDirs, p) {
        return Failure(AccessDenied);
      }
      if storage.Fault? {
        return Failure(storage.message);
      }
      var key := ResolvedSegments(cwd, p);
      if key in dirs {
        reply := Listing(Vol().Children(key));
      } else if key in files {
        reply := Failure(ErrorMessage(ENOTDIR, "scandir", Some(p)));
      } else {
        reply := Failure(ErrorMessage(Vol().Missing(key), "scandir", Some(p)));
      }
    }

    method CreateDir(p: string, storage: Storage) returns (reply: Reply)
      requires Valid()
      modifies this
      ensures Valid()
      ensures (Vol(), reply) == HandleCreateDir(old(Vol()), cwd, allowedDirs, p, storage)
    {
      if !IsPathAllowed(cwd, allowedDirs, p) {
        return Failure(AccessDenied);
      }
      if storage.Fault? {
        return Failure(storage.message);
      }
      var key := ResolvedSegments(cwd, p);
      MakeDirsKeepsValid(Vol(), key);
      if key in files {
        reply := Failure(ErrorMessage(EEXIST, "mkdir", Some(p)));
      } else if Vol().BelowFile(key) {
        reply := Failure(ErrorMessage(ENOTDIR, "mkdir", Some(p)));
      } else {
        dirs := dirs + Prefixes(key);
        reply := Done;
      }
    }
  }
}
