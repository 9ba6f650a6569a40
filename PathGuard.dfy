/** The allow-list guard of the IPC file handlers (`isPathAllowed` over `ALLOWED_DIRS`).
    A path passes when its resolved form starts, character by character, with the resolved
    form of one of the allowed directories. The comparison is a string prefix, not a
    segment prefix: "/home/u/Documents-x" passes for "/home/u/Documents". */
module PathGuard {
  import opened Text
  import opened PosixPath

  /** `ALLOWED_DIRS`: the documents, downloads, user-data and desktop directories, in that order. */
  function AllowedDirs(documents: string, downloads: string, userData: string, desktop: string): (dirs: seq<string>)
    ensures |dirs| == 4
    ensures forall d :: d in dirs <==> d == documents || d == downloads || d == userData || d == desktop
  {
    [documents, downloads, userData, desktop]
  }

  /** `path.resolve(p).startsWith(path.resolve(dir))` */
  predicate Under(cwd: string, dir: string, p: string) {
    IsPrefix(Resolve(cwd, dir), Resolve(cwd, p))
  }

  /** `ALLOWED_DIRS.some(dir => ...)`: tries the directories in order and stops at the first
      that covers the path; the result is true exactly when some allowed directory covers it. */
  function IsPathAllowed(cwd: string, allowedDirs: seq<string>, p: string): (r: bool)
    ensures r <==> exists i :: 0 <= i < |allowedDirs| && Under(cwd, allowedDirs[i], p)
  {
    if allowedDirs == [] then false
    else if Under(cwd, allowedDirs[0], p) then true
    else
      var rest := IsPathAllowed(cwd, allowedDirs[1..], p);
      assert forall i :: 1 <= i < |allowedDirs| ==> allowedDirs[i] == allowedDirs[1..][i - 1];
      rest
  }

  /** Only the resolved form matters: a path and its resolved form are judged alike, so
      no spelling of a path ("..", ".", doubled slashes, relative steps) changes the verdict. */
  lemma VerdictDependsOnResolvedForm(cwd: string, allowedDirs: seq<string>, p: string)
    ensures IsPathAllowed(cwd, allowedDirs, p) == IsPathAllowed(cwd, allowedDirs, Resolve(cwd, p))
  {
    ResolveIdempotent(cwd, p);
  }

  /** Resolving a '/'-joined segment list that starts with an empty segment (an absolute
      path) is walking its segments. */
  lemma ResolveJoined(cwd: string, segs: Segments)
    requires |segs| >= 2 && segs[0] == ""
    requires forall k :: 0 <= k < |segs| ==> '/' !in segs[k]
    ensures ResolvedSegments(cwd, Join(segs, "/")) == Walk([], segs, false)
  {
    assert Join(segs, "/") == "/" + Join(segs[1..], "/");
    SplitJoin(segs, '/');
  }

  /** An allowed directory admits itself and everything nested under it. */
  lemma NestedPathsAllowed(cwd: string, allowedDirs: seq<string>, i: int, names: Segments)
    requires 0 <= i < |allowedDirs|
    requires Canonical(names)
    ensures IsPathAllowed(cwd, allowedDirs, "/" + Join(ResolvedSegments(cwd, allowedDirs[i]) + names, "/"))
  {
    var root := ResolvedSegments(cwd, allowedDirs[i]);
    var p := "/" + Join(root + names, "/");
    ResolvedForm(cwd, root + names);
    if root != [] && names != [] {
      JoinAppend(root, names);
    } else if names == [] {
      assert root + names == root;
    }
    assert Under(cwd, allowedDirs[i], p);
  }

  /** A path spelled as "/" and canonical segments is its own resolved form. */
  lemma ResolvedForm(cwd: string, names: Segments)
    requires Canonical(names)
    ensures ResolvedSegments(cwd, "/" + Join(names, "/")) == names
    ensures Resolve(cwd, "/" + Join(names, "/")) == "/" + Join(names, "/")
  {
    var p := "/" + Join(names, "/");
    AbsoluteSplit(names);
    if names == [] {
      assert Split(p, '/') == ["", ""];
      assert Walk([], [""], false) == [];
    } else {
      assert Split(p, '/')[1..] == names;
      WalkNames([], names, false);
    }
  }

  /** The guard compares characters, not segments: appending any text `ext` to an allowed
      directory's last name gives a sibling directory (not a path under it), and the guard
      admits it all the same. */
  lemma SiblingNameAdmitted(cwd: string, allowedDirs: seq<string>, i: int, ext: string)
    requires 0 <= i < |allowedDirs|
    requires ResolvedSegments(cwd, allowedDirs[i]) != []
    requires ext != "" && '/' !in ext
    ensures var root := ResolvedSegments(cwd, allowedDirs[i]);
      && ResolvedSegments(cwd, Resolve(cwd, allowedDirs[i]) + ext)
         == root[..|root| - 1] + [root[|root| - 1] + ext]
      && IsPathAllowed(cwd, allowedDirs, Resolve(cwd, allowedDirs[i]) + ext)
  {
    var root := ResolvedSegments(cwd, allowedDirs[i]);
    var r := Resolve(cwd, allowedDirs[i]);
    SiblingResolved(cwd, root, r, ext);
    ResolveIdempotent(cwd, allowedDirs[i]);
    assert Under(cwd, allowedDirs[i], r + ext);
  }

  /** The resolved form of a directory with text appended to its last name. */
  lemma SiblingResolved(cwd: string, root: Segments, r: string, ext: string)
    requires root != [] && Canonical(root) && r == "/" + Join(root, "/")
    requires ext != "" && '/' !in ext
    ensures ResolvedSegments(cwd, r + ext) == root[..|root| - 1] + [root[|root| - 1] + ext]
    ensures Resolve(cwd, r + ext) == r + ext
  {
    var sib := root[..|root| - 1] + [root[|root| - 1] + ext];
    ExtendedCanonical(root, ext, sib);
    SiblingText(root, r, ext, sib);
    ResolvedForm(cwd, sib);
  }

  /** The directory's path with text appended, spelled as "/" and the extended segments. */
  lemma SiblingText(root: Segments, r: string, ext: string, sib: Segments)
    requires root != [] && r == "/" + Join(root, "/")
    requires sib == root[..|root| - 1] + [root[|root| - 1] + ext]
    ensures r + ext == "/" + Join(sib, "/")
  {
    JoinExtendLast(root, ext);
    RootedAppend(Join(root, "/"), ext, Join(sib, "/"));
  }

  lemma RootedAppend(j: string, ext: string, extended: string)
    requires j + ext == extended
    ensures "/" + j + ext == "/" + extended
  {
  }

  /** Extending the last name keeps every segment a name. */
  lemma ExtendedCanonical(root: Segments, ext: string, sib: Segments)
    requires root != [] && Canonical(root)
    requires ext != "" && '/' !in ext
    requires sib == root[..|root| - 1] + [root[|root| - 1] + ext]
    ensures Canonical(sib)
  {
    NameExtended(root[|root| - 1], ext);
    forall k | 0 <= k < |sib|
      ensures IsName(sib[k])
    {
      if k < |root| - 1 {
        assert sib[k] == root[k];
      }
    }
  }

  lemma NameExtended(a: string, ext: string)
    requires IsName(a) && ext != "" && '/' !in ext
    ensures IsName(a + ext)
  {
    if |a| == 1 {
      assert a == [a[0]];
      assert (a + ext)[0] == a[0];
    }
  }

  /** `k` ".." segments after a directory climb exactly `k` levels. */
  lemma {:induction false} ParentsClimb(stack: Segments, k: nat)
    requires k <= |stack|
    requires Canonical(stack)
    ensures Walk(stack, seq(k, _ => ".."), false) == stack[..|stack| - k]
    decreases k
  {
    if k > 0 {
      var dots := seq(k, _ => "..");
      assert dots[1..] == seq(k - 1, _ => "..");
      assert Step(stack, "..", false) == stack[..|stack| - 1];
      ParentsClimb(stack[..|stack| - 1], k - 1);
      assert stack[..|stack| - 1][..|stack| - 1 - (k - 1)] == stack[..|stack| - k];
    }
  }
}


/** The guard on the paths of the worked examples: a file in the documents directory and a
    traversal out of it. */
module PathGuardExamples {
  import opened Text
  import opened PosixPath
  import opened PathGuard

  /** Resolving a path given as '/'-joined segments, with the result of walking them. */
  lemma ResolveLiteral(cwd: string, p: string, segs: Segments, walked: Segments)
    requires |segs| >= 2 && segs[0] == ""
    requires forall k :: 0 <= k < |segs| ==> '/' !in segs[k]
    requires Join(segs, "/") == p
    requires Walk([], segs, false) == walked
    ensures Resolve(cwd, p) == "/" + Join(walked, "/")
  {
    ResolveJoined(cwd, segs);
  }

  lemma DocumentsJoin()
    ensures Join(["", "home", "u", "Documents"], "/") == "/home/u/Documents"
  {
  }

  lemma DocumentsNamesJoin()
    ensures Join(["home", "u", "Documents"], "/") == "home/u/Documents"
  {
  }

  /** "/home/u/Documents" is already in resolved form. */
  lemma DocumentsResolved(cwd: string, docs: string)
    requires docs == "/home/u/Documents"
    ensures ResolvedSegments(cwd, docs) == ["home", "u", "Documents"]
    ensures Resolve(cwd, docs) == docs
  {
    DocumentsJoin();
    DocumentsNamesJoin();
    assert docs == "/" + Join(["home", "u", "Documents"], "/");
    ResolvedForm(cwd, ["home", "u", "Documents"]);
  }

  lemma EscapeJoin()
    ensures Join(["..", "..", "etc", "passwd"], "/") == "../../etc/passwd"
  {
  }

  lemma EscapeResultJoin()
    ensures Join(["home", "etc", "passwd"], "/") == "home/etc/passwd"
  {
  }

  /** The traversal path, as '/'-joined segments. */
  lemma TraversalJoin(docs: string, p: string)
    requires docs == "/home/u/Documents"
    requires p == docs + "/../../etc/passwd"
    ensures Join(["", "home", "u", "Documents"] + ["..", "..", "etc", "passwd"], "/") == p
  {
    DocumentsJoin();
    EscapeJoin();
    JoinAppend(["", "home", "u", "Documents"], ["..", "..", "etc", "passwd"]);
  }

  /** The two ".." segments pop "Documents" and "u". */
  lemma TraversalWalk()
    ensures Walk([], ["", "home", "u", "Documents"] + ["..", "..", "etc", "passwd"], false)
      == ["home", "etc", "passwd"]
  {
    WalkAppend([], ["", "home", "u", "Documents"], ["..", "..", "etc", "passwd"], false);
    assert Walk([], ["", "home", "u", "Documents"], false) == ["home", "u", "Documents"];
  }

  /** "/home/u/Documents/../../etc/passwd" resolves to "/home/etc/passwd", which lies
      outside "/home/u/Documents", so the guard rejects it. */
  lemma TraversalRejected(cwd: string, docs: string, p: string)
    requires docs == "/home/u/Documents"
    requires p == docs + "/../../etc/passwd"
    ensures Resolve(cwd, p) == "/" + Join(["home", "etc", "passwd"], "/")
    ensures !IsPathAllowed(cwd, [docs], p)
  {
    TraversalJoin(docs, p);
    TraversalWalk();
    ResolveLiteral(cwd, p, ["", "home", "u", "Documents"] + ["..", "..", "etc", "passwd"], ["home", "etc", "passwd"]);
    EscapeResultJoin();
    DocumentsResolved(cwd, docs);
    assert docs[6] != Resolve(cwd, p)[6];
  }

  /** A file inside the documents directory is admitted. */
  lemma DocumentAdmitted(cwd: string, docs: string, p: string)
    requires docs == "/home/u/Documents"
    requires p == docs + "/project.yaml"
    ensures IsPathAllowed(cwd, [docs], p)
  {
    DocumentsResolved(cwd, docs);
    DocumentsNamesJoin();
    var root := ["home", "u", "Documents"];
    NestedPathsAllowed(cwd, [docs], 0, ["project.yaml"]);
    JoinAppend(root, ["project.yaml"]);
    assert "/" + Join(root + ["project.yaml"], "/") == p;
  }
}
