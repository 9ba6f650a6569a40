/** Node's `path.posix`: `resolve`, `normalize` and `join`. A path is split at '/' into
    segments; normalisation walks the segments left to right with a stack, skipping empty
    and "." segments and letting ".." pop the last real segment. Nothing here looks at a
    filesystem: ".." is resolved lexically, as Node does. */
module PosixPath {
  import opened Text

  type Segments = seq<string>

  predicate IsAbsolute(p: string) {
    |p| > 0 && p[0] == '/'
  }

  /** A segment that survives normalisation of an absolute path. */
  predicate IsName(seg: string) {
    seg != "" && seg != "." && seg != ".." && '/' !in seg
  }

  /** Every segment is a plain name: no empty, ".", ".." or slash-bearing segment. */
  predicate Canonical(segs: Segments) {
    forall k :: 0 <= k < |segs| ==> IsName(segs[k])
  }

  /** ".." occurs only in a leading run (the shape of a normalised relative path). */
  predicate ParentsLead(segs: Segments) {
    forall k :: 1 <= k < |segs| && segs[k] == ".." ==> segs[k - 1] == ".."
  }

  /** One step of the stack walk. `aboveRoot` is true for relative paths, which keep a
      ".." that has nothing left to pop. */
  function Step(stack: Segments, seg: string, aboveRoot: bool): Segments {
    if seg == "" || seg == "." then stack
    else if seg == ".." then
      if |stack| > 0 && stack[|stack| - 1] != ".." then stack[..|stack| - 1]
      else if aboveRoot then stack + [".."]
      else stack
    else stack + [seg]
  }

  /** The stack walk over `segs`, starting from `stack`. */
  function Walk(stack: Segments, segs: Segments, aboveRoot: bool): Segments
    decreases |segs|
  {
    if segs == [] then stack else Walk(Step(stack, segs[0], aboveRoot), segs[1..], aboveRoot)
  }

  /** Walking a concatenation is walking one part, then the other. */
  lemma {:induction false} WalkAppend(stack: Segments, a: Segments, b: Segments, aboveRoot: bool)
    ensures Walk(stack, a + b, aboveRoot) == Walk(Walk(stack, a, aboveRoot), b, aboveRoot)
    decreases |a|
  {
    if a == [] {
      assert a + b == b;
    } else {
      assert (a + b)[1..] == a[1..] + b;
      WalkAppend(Step(stack, a[0], aboveRoot), a[1..], b, aboveRoot);
    }
  }

  /** Walking an absolute path never leaves anything but names on the stack. */
  lemma {:induction false} WalkCanonical(stack: Segments, segs: Segments)
    requires Canonical(stack)
    requires forall k :: 0 <= k < |segs| ==> '/' !in segs[k]
    ensures Canonical(Walk(stack, segs, false))
    decreases |segs|
  {
    if segs != [] {
      WalkCanonical(Step(stack, segs[0], false), segs[1..]);
    }
  }

  /** Walking a relative path keeps every ".." in front of every name. */
  lemma {:induction false} WalkParentsLead(stack: Segments, segs: Segments)
    requires ParentsLead(stack)
    ensures ParentsLead(Walk(stack, segs, true))
    decreases |segs|
  {
    if segs != [] {
      WalkParentsLead(Step(stack, segs[0], true), segs[1..]);
    }
  }

  /** Names are pushed one by one: walking names only appends them. */
  lemma {:induction false} WalkNames(stack: Segments, names: Segments, aboveRoot: bool)
    requires Canonical(names)
    ensures Walk(stack, names, aboveRoot) == stack + names
    decreases |names|
  {
    if names == [] {
      assert stack + names == stack;
    } else {
      WalkNames(stack + [names[0]], names[1..], aboveRoot);
      assert stack + [names[0]] + names[1..] == stack + names;
    }
  }

  /** Without "..", the walk only pushes: the starting stack stays underneath. */
  lemma {:induction false} WalkKeepsBase(stack: Segments, segs: Segments, aboveRoot: bool)
    requires forall k :: 0 <= k < |segs| ==> segs[k] != ".."
    ensures |stack| <= |Walk(stack, segs, aboveRoot)|
    ensures Walk(stack, segs, aboveRoot)[..|stack|] == stack
    decreases |segs|
  {
    if segs != [] {
      var next := Step(stack, segs[0], aboveRoot);
      WalkKeepsBase(next, segs[1..], aboveRoot);
      assert next[..|stack|] == stack;
      var w := Walk(next, segs[1..], aboveRoot);
      assert w[..|stack|] == w[..|next|][..|stack|];
    }
  }

  /** Joining two non-empty segment lists puts one separator between them. */
  lemma {:induction false} JoinAppend(a: Segments, b: Segments)
    requires b != []
    ensures Join(a + b, "/") == (if a == [] then "" else Join(a, "/") + "/") + Join(b, "/")
    decreases |a|
  {
    if a != [] {
      if |a| == 1 {
        assert (a + b)[1..] == b;
      } else {
        assert (a + b)[1..] == a[1..] + b;
        JoinAppend(a[1..], b);
      }
    } else {
      assert a + b == b;
    }
  }
  /** Text appended to a join lands on its last piece. */
  lemma {:induction false} JoinExtendLast(parts: Segments, ext: string)
    requires parts != []
    ensures Join(parts, "/") + ext == Join(parts[..|parts| - 1] + [parts[|parts| - 1] + ext], "/")
    decreases |parts|
  {
    if |parts| > 1 {
      JoinExtendLast(parts[1..], ext);
      var ext' := parts[..|parts| - 1] + [parts[|parts| - 1] + ext];
      assert ext'[1..] == parts[1..][..|parts| - 2] + [parts[|parts| - 1] + ext];
    }
  }

  /** A join of names ends with the last character of the last name. */
  lemma {:induction false} JoinLastChar(w: Segments)
    requires w != [] && Canonical(w)
    ensures var j := Join(w, "/"); |j| > 0 && j[|j| - 1] == w[|w| - 1][|w[|w| - 1]| - 1]
    decreases |w|
  {
    if |w| > 1 {
      JoinLastChar(w[1..]);
      var j := Join(w, "/");
      var rest := Join(w[1..], "/");
      assert j == w[0] + "/" + rest;
      assert j[|j| - 1] == rest[|rest| - 1];
    }
  }

  /** The canonical segments of `path.resolve(p)`, with `cwd` the process's working
      directory (always absolute): a relative `p` is taken from `cwd`. */
  function ResolvedSegments(cwd: string, p: string): (r: Segments)
    ensures Canonical(r)
  {
    var full := if IsAbsolute(p) then p else cwd + "/" + p;
    WalkCanonical([], Split(full, '/'));
    Walk([], Split(full, '/'), false)
  }

  /** `path.resolve(p)`: always absolute, without trailing separator. */
  function Resolve(cwd: string, p: string): (r: string)
    ensures IsAbsolute(r)
  {
    "/" + Join(ResolvedSegments(cwd, p), "/")
  }

  /** The string `"/" + Join(segs)` splits back into its segments. */
  lemma AbsoluteSplit(segs: Segments)
    requires Canonical(segs)
    ensures Split("/" + Join(segs, "/"), '/') == [""] + (if segs == [] then [""] else segs)
  {
    var parts := [""] + (if segs == [] then [""] else segs);
    assert Join(parts, "/") == "/" + Join(segs, "/") by {
      assert parts[1..] == (if segs == [] then [""] else segs);
    }
    SplitJoin(parts, '/');
  }

  /** Resolving a resolved path changes nothing. */
  lemma ResolveIdempotent(cwd: string, p: string)
    ensures Resolve(cwd, Resolve(cwd, p)) == Resolve(cwd, p)
  {
    var c := ResolvedSegments(cwd, p);
    var r := Resolve(cwd, p);
    AbsoluteSplit(c);
    if c == [] {
      assert Split(r, '/') == ["", ""];
      assert Walk([], [""], false) == [];
    } else {
      assert Split(r, '/')[1..] == c;
      WalkNames([], c, false);
      assert Walk([], Split(r, '/'), false) == c;
    }
  }

  /** `path.normalize(p)`. */
  function Normalize(p: string): (r: string)
    ensures r != ""
  {
    if p == "" then "."
    else
      var abs := IsAbsolute(p);
      var trailing := p[|p| - 1] == '/';
      var body := Join(Walk([], Split(p, '/'), !abs), "/");
      if body == "" then (if abs then "/" else if trailing then "./" else ".")
      else
        var b := if trailing then body + "/" else body;
        if abs then "/" + b else b
  }

  /** The non-empty arguments, in order (`path.join` ignores empty ones). */
  function NonEmpty(args: seq<string>): (r: seq<string>)
    ensures forall k :: 0 <= k < |r| ==> r[k] != ""
    ensures |r| <= |args|
  {
    if args == [] then []
    else if args[0] == "" then NonEmpty(args[1..])
    else [args[0]] + NonEmpty(args[1..])
  }

  /** Arguments that are all non-empty are all kept. */
  lemma {:induction false} NonEmptyAll(args: seq<string>)
    requires forall k :: 0 <= k < |args| ==> args[k] != ""
    ensures NonEmpty(args) == args
    decreases |args|
  {
    if args != [] {
      NonEmptyAll(args[1..]);
    }
  }

  /** `path.join(...args)`. */
  function JoinPaths(args: seq<string>): (r: string)
    ensures r != ""
  {
    var parts := NonEmpty(args);
    if parts == [] then "." else Normalize(Join(parts, "/"))
  }
}
