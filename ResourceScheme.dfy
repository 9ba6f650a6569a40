/** The `firecalcafpma://` scheme handler. The request's pathname is normalised, a leading
    run of "../" (or "..\") groups is cut off, and the result is joined under
    `<appPath>/dist-app`. A joined path that does not start with the bundle directory's
    path is answered with 403; any other is redirected (301) to `file://` and that path.
    The pathname is taken as the URL parser returns it (still percent-encoded). */
module ResourceScheme {
  import opened Text
  import opened PosixPath

  datatype Response = Denied | Redirect(location: string)
  {
    function Status(): int {
      if Denied? then 403 else 301
    }
  }

  /** ".." followed by a forward or a backward slash. */
  predicate IsParentGroup(g: string) {
    |g| == 3 && g[..2] == ".." && (g[2] == '/' || g[2] == '\\')
  }

  /** `t` is a run of parent groups, one after another. */
  predicate ParentRun(t: string)
    decreases |t|
  {
    t == "" || (|t| >= 3 && IsParentGroup(t[..3]) && ParentRun(t[3..]))
  }

  /** `.replace(/^(\.\.[\/\\])+/, '')`: removes the longest leading run of parent groups. */
  function StripParents(s: string): (r: string)
    ensures IsSuffix(r, s)
    ensures ParentRun(s[..|s| - |r|])
    ensures !(|r| >= 3 && IsParentGroup(r[..3]))
    ensures IsAbsolute(s) ==> r == s
    decreases |s|
  {
    if |s| >= 3 && IsParentGroup(s[..3]) then
      var r := StripParents(s[3..]);
      assert s[..|s| - |r|][..3] == s[..3];
      assert s[..|s| - |r|][3..] == s[3..][..|s[3..]| - |r|];
      r
    else
      assert s[..0] == "";
      s
  }

  /** The partner characterisation: whatever run of parent groups leads a path whose
      remainder does not start with one, the strip removes exactly that run. */
  lemma {:induction false} StripParentsOfRun(run: string, rest: string)
    requires ParentRun(run)
    requires !(|rest| >= 3 && IsParentGroup(rest[..3]))
    ensures StripParents(run + rest) == rest
    decreases |run|
  {
    if run == "" {
      assert run + rest == rest;
    } else {
      assert (run + rest)[..3] == run[..3];
      assert (run + rest)[3..] == run[3..] + rest;
      StripParentsOfRun(run[3..], rest);
    }
  }

  /** `path.join(appPath, 'dist-app')` */
  function BundleRoot(appPath: string): string {
    JoinPaths([appPath, "dist-app"])
  }

  /** `path.join(appPath, 'dist-app', sanitizedPath)` */
  function BundlePath(appPath: string, pathname: string): string {
    JoinPaths([appPath, "dist-app", StripParents(Normalize(pathname))])
  }

  /** The scheme handler: `appPath` is `app.getAppPath()`. */
  function SchemeResponse(appPath: string, pathname: string): (r: Response)
    ensures r.Status() == 403 <==> !IsPrefix(BundleRoot(appPath), BundlePath(appPath, pathname))
    ensures r.Status() == 301 ==> r == Redirect("file://" + BundlePath(appPath, pathname))
  {
    var filePath := BundlePath(appPath, pathname);
    if !IsPrefix(BundleRoot(appPath), filePath) then Denied
    else Redirect("file://" + filePath)
  }

  /** A segment list of names joins to the empty string only when it is empty. */
  lemma JoinNamesEmpty(names: Segments)
    requires Canonical(names)
    ensures Join(names, "/") == "" <==> names == []
  {
    if |names| > 1 {
      assert Join(names, "/") == names[0] + "/" + Join(names[1..], "/");
    }
  }

  /** The segments an absolute path normalises to. */
  function AbsoluteNames(p: string): (w: Segments)
    ensures Canonical(w)
  {
    WalkCanonical([], Split(p, '/'));
    Walk([], Split(p, '/'), false)
  }

  /** An absolute path normalises to "/" and its names, with a trailing "/" kept when
      the path had one and some name remains. */
  lemma NormalizeAbsolute(p: string)
    requires IsAbsolute(p)
    ensures Normalize(p) == "/" + Join(AbsoluteNames(p), "/")
                            + (if AbsoluteNames(p) != [] && p[|p| - 1] == '/' then "/" else "")
  {
    JoinNamesEmpty(AbsoluteNames(p));
  }

  /** How the normal form of an absolute path splits. */
  lemma SplitAbsoluteForm(w: Segments, trailing: bool)
    requires Canonical(w)
    ensures Split("/" + Join(w, "/") + (if w != [] && trailing then "/" else ""), '/')
            == [""] + w + (if w == [] || trailing then [""] else [])
  {
    AbsoluteSplit(w);
    if w != [] && trailing {
      SplitConcat("/" + Join(w, "/"), '/', "");
      assert "/" + Join(w, "/") + "/" == "/" + Join(w, "/") + ['/'] + "";
    } else {
      assert "/" + Join(w, "/") + "" == "/" + Join(w, "/");
    }
  }

  /** Walking an absolute form: the empty segments are skipped and the names pushed. */
  lemma WalkAbsoluteForm(stack: Segments, w: Segments, extra: Segments)
    requires Canonical(w)
    requires extra == [] || extra == [""]
    ensures Walk(stack, [""] + w + extra, false) == stack + w
  {
    WalkAppend(stack, [""] + w, extra, false);
    WalkAppend(stack, [""], w, false);
    WalkNames(stack, w, false);
    if extra == [""] {
      assert Walk(stack + w, extra, false) == stack + w;
    } else {
      assert Walk(stack + w, extra, false) == stack + w;
    }
  }

  /** The joined path "<app>/<name>/<rest>" splits into the application's segments,
      the name, and the segments of `rest`. */
  lemma SplitUnderJoin(appSegs: Segments, name: string, rest: string)
    requires appSegs != [] && Canonical(appSegs) && IsName(name)
    ensures Split(Join(["/" + Join(appSegs, "/"), name, rest], "/"), '/')
            == [""] + appSegs + [name] + Split(rest, '/')
  {
    var appPath := "/" + Join(appSegs, "/");
    var parts := [appPath, name, rest];
    assert parts[1..][1..] == [rest];
    assert Join(parts[1..], "/") == name + "/" + rest;
    assert Join(parts, "/") == (appPath + ['/'] + name) + ['/'] + rest;
    SplitConcat(appPath + ['/'] + name, '/', rest);
    SplitConcat(appPath, '/', name);
    SplitPlain(name, '/');
    AbsoluteSplit(appSegs);
  }

  /** A path written as "/" and names is already normal. */
  lemma NormalizeCanonical(names: Segments)
    requires names != [] && Canonical(names)
    ensures Normalize("/" + Join(names, "/")) == "/" + Join(names, "/")
  {
    var p := "/" + Join(names, "/");
    AbsoluteSplit(names);
    WalkAbsoluteForm([], names, []);
    assert [""] + names + [] == Split(p, '/');
    assert [] + names == names;
    assert Walk([], Split(p, '/'), !IsAbsolute(p)) == names;
    JoinNamesEmpty(names);
    JoinLastChar(names);
    assert p[|p| - 1] != '/';
  }

  /** `path.join(app, name)` for an absolute, normal `app` and a plain name. */
  lemma JoinUnder(appSegs: Segments, name: string)
    requires appSegs != [] && Canonical(appSegs) && IsName(name)
    ensures JoinPaths(["/" + Join(appSegs, "/"), name]) == "/" + Join(appSegs + [name], "/")
  {
    var appPath := "/" + Join(appSegs, "/");
    var parts := [appPath, name];
    NonEmptyAll(parts);
    assert parts[1..] == [name];
    assert Join(parts, "/") == appPath + "/" + name;
    JoinAppend(appSegs, [name]);
    assert Join(parts, "/") == "/" + Join(appSegs + [name], "/");
    NormalizeCanonical(appSegs + [name]);
  }

  lemma DistAppIsName()
    ensures IsName("dist-app")
  {
  }

  /** The string `path.join` normalises for an absolute request path. */
  function BundleJoin(appSegs: Segments, pathname: string): string {
    Join(["/" + Join(appSegs, "/"), "dist-app", Normalize(pathname)], "/")
  }

  /** Its segments walk to the application's names, "dist-app", and the request's names. */
  lemma BundleJoinWalk(appSegs: Segments, pathname: string)
    requires appSegs != [] && Canonical(appSegs)
    requires IsAbsolute(pathname)
    ensures Walk([], Split(BundleJoin(appSegs, pathname), '/'), false)
            == appSegs + ["dist-app"] + AbsoluteNames(pathname)
  {
    var w := AbsoluteNames(pathname);
    var trailing := pathname[|pathname| - 1] == '/';
    var s := Normalize(pathname);
    NormalizeAbsolute(pathname);
    DistAppIsName();
    SplitUnderJoin(appSegs, "dist-app", s);
    SplitAbsoluteForm(w, trailing);
    var extra := if w == [] || trailing then [""] else [];
    var base := appSegs + ["dist-app"];
    assert s == "/" + Join(w, "/") + (if w != [] && trailing then "/" else "");
    assert Split(s, '/') == [""] + w + extra;
    assert Split(BundleJoin(appSegs, pathname), '/') == ([""] + base + []) + ([""] + w + extra);
    WalkAppend([], [""] + base + [], [""] + w + extra, false);
    WalkAbsoluteForm([], base, []);
    assert [] + base == base;
    WalkAbsoluteForm(base, w, extra);
  }

  /** It is absolute, and it ends in "/" exactly when the request path names nothing or
      itself ends in "/". */
  lemma BundleJoinShape(appSegs: Segments, pathname: string)
    requires appSegs != [] && Canonical(appSegs)
    requires IsAbsolute(pathname)
    ensures var j := BundleJoin(appSegs, pathname);
      && IsAbsolute(j)
      && (j[|j| - 1] == '/' <==> AbsoluteNames(pathname) == [] || pathname[|pathname| - 1] == '/')
  {
    var appPath := "/" + Join(appSegs, "/");
    var w := AbsoluteNames(pathname);
    var s := Normalize(pathname);
    NormalizeAbsolute(pathname);
    var parts := [appPath, "dist-app", s];
    var joined := Join(parts, "/");
    assert parts[1..][1..] == [s];
    assert Join(parts[1..], "/") == "dist-app" + "/" + s;
    assert joined == appPath + "/" + "dist-app" + "/" + s;
    assert joined[|joined| - 1] == s[|s| - 1];
    if w != [] {
      JoinNamesEmpty(w);
      JoinLastChar(w);
    }
  }

  /** The joined path for an absolute request: the application's names, "dist-app", the
      request's names, and a trailing "/" when the request names nothing or ends in "/". */
  lemma BundlePathOfAbsolute(appSegs: Segments, pathname: string)
    requires appSegs != [] && Canonical(appSegs)
    requires IsAbsolute(pathname)
    ensures var w := AbsoluteNames(pathname);
      BundlePath("/" + Join(appSegs, "/"), pathname)
      == "/" + Join(appSegs + ["dist-app"] + w, "/")
         + (if w == [] || pathname[|pathname| - 1] == '/' then "/" else "")
  {
    var appPath := "/" + Join(appSegs, "/");
    var s := Normalize(pathname);
    NormalizeAbsolute(pathname);
    assert StripParents(s) == s;
    NonEmptyAll([appPath, "dist-app", s]);
    BundleJoinWalk(appSegs, pathname);
    BundleJoinShape(appSegs, pathname);
    DistAppIsName();
    JoinNamesEmpty(appSegs + ["dist-app"] + AbsoluteNames(pathname));
  }

  /** A path extending a list of names starts with that list's path. */
  lemma ExtensionHasPrefix(base: Segments, w: Segments, t: string)
    requires base != []
    ensures IsPrefix("/" + Join(base, "/"), "/" + Join(base + w, "/") + t)
  {
    var root := "/" + Join(base, "/");
    var longer := "/" + Join(base + w, "/") + t;
    if w != [] {
      JoinAppend(base, w);
      assert longer == root + ("/" + Join(w, "/") + t);
    } else {
      assert base + w == base;
      assert longer == root + t;
    }
  }

  /** For an absolute request path the joined path starts with the bundle directory's path. */
  lemma AbsoluteRequestInBundle(appSegs: Segments, pathname: string)
    requires appSegs != [] && Canonical(appSegs)
    requires IsAbsolute(pathname)
    ensures IsPrefix(BundleRoot("/" + Join(appSegs, "/")), BundlePath("/" + Join(appSegs, "/"), pathname))
  {
    var w := AbsoluteNames(pathname);
    var t := if w == [] || pathname[|pathname| - 1] == '/' then "/" else "";
    BundlePathOfAbsolute(appSegs, pathname);
    DistAppIsName();
    JoinUnder(appSegs, "dist-app");
    ExtensionHasPrefix(appSegs + ["dist-app"], w, t);
  }

  /** Every absolute request path (the form a URL's pathname takes) is redirected, never
      refused, to the file named by its normalised segments inside the bundle directory:
      ".." segments climb at most to the bundle directory itself. A trailing "/" is kept. */
  lemma AbsoluteRequestRedirects(appSegs: Segments, pathname: string)
    requires appSegs != [] && Canonical(appSegs)
    requires IsAbsolute(pathname)
    ensures var w := AbsoluteNames(pathname);
      SchemeResponse("/" + Join(appSegs, "/"), pathname)
      == Redirect("file://" + ("/" + Join(appSegs + ["dist-app"] + w, "/")
                  + (if w == [] || pathname[|pathname| - 1] == '/' then "/" else "")))
  {
    AbsoluteRequestInBundle(appSegs, pathname);
    BundlePathOfAbsolute(appSegs, pathname);
  }

  /** The segments of "/../../etc/passwd". */
  lemma TraversalSplit(pathname: string)
    requires pathname == "/../../etc/passwd"
    ensures Split(pathname, '/') == ["", "..", "..", "etc", "passwd"]
  {
    var segs := ["", "..", "..", "etc", "passwd"];
    assert Join(segs, "/") == pathname;
    SplitJoin(segs, '/');
  }

  /** Its ".." segments have nothing to pop: only "etc" and "passwd" remain. */
  lemma TraversalNames(pathname: string)
    requires pathname == "/../../etc/passwd"
    ensures AbsoluteNames(pathname) == ["etc", "passwd"]
  {
    var segs := ["", "..", "..", "etc", "passwd"];
    TraversalSplit(pathname);
    assert segs[1..][1..][1..] == ["etc", "passwd"];
    assert Walk([], segs, false) == Walk([], ["etc", "passwd"], false);
    WalkNames([], ["etc", "passwd"], false);
  }

  /** The request path "/../../etc/passwd" is not refused: its ".." segments stop at the
      root, so it is redirected to "etc/passwd" inside the bundle directory. */
  lemma TraversalRedirectedIntoBundle(appSegs: Segments, pathname: string)
    requires appSegs != [] && Canonical(appSegs)
    requires pathname == "/../../etc/passwd"
    ensures SchemeResponse("/" + Join(appSegs, "/"), pathname)
            == Redirect("file://" + ("/" + Join(appSegs + ["dist-app"] + ["etc", "passwd"], "/")))
  {
    TraversalNames(pathname);
    AbsoluteRequestRedirects(appSegs, pathname);
  }

  /** ".." normalises to itself and the strip leaves it: no separator follows it. */
  lemma ParentSanitized(pathname: string)
    requires pathname == ".."
    ensures StripParents(Normalize(pathname)) == ".."
  {
    SplitPlain(pathname, '/');
    assert Normalize(pathname) == "..";
  }

  /** "../.." normalises to itself, and the strip removes only its first group. */
  lemma TwoParentsSanitized(pathname: string)
    requires pathname == "../.."
    ensures StripParents(Normalize(pathname)) == ".."
  {
    var segs := ["..", ".."];
    assert Join(segs, "/") == pathname;
    SplitJoin(segs, '/');
    assert Walk([], segs, true) == segs;
    assert Normalize(pathname) == pathname;
    assert pathname[..3] == "../" && pathname[3..] == "..";
  }

  /** "../.." is refused like "..". */
  lemma TwoParentsRefused(appSegs: Segments, pathname: string)
    requires appSegs != [] && Canonical(appSegs)
    requires pathname == "../.."
    ensures SchemeResponse("/" + Join(appSegs, "/"), pathname) == Denied
  {
    TwoParentsSanitized(pathname);
    ParentOfBundleRefused(appSegs, pathname);
  }

  /** `path.join(app, name, '..')` is `app`. */
  lemma JoinUnderThenUp(appSegs: Segments, name: string)
    requires appSegs != [] && Canonical(appSegs) && IsName(name)
    ensures JoinPaths(["/" + Join(appSegs, "/"), name, ".."]) == "/" + Join(appSegs, "/")
  {
    var appPath := "/" + Join(appSegs, "/");
    var parts := [appPath, name, ".."];
    NonEmptyAll(parts);
    var joined := Join(parts, "/");
    UnderThenUpText(appSegs, name, joined);
    UnderThenUpWalk(appSegs, name);
    JoinNamesEmpty(appSegs);
  }

  /** The text of `path.join(app, name, '..')` before normalisation: absolute, ending in
      ".", and splitting into the app's segments, the name and "..". */
  lemma UnderThenUpText(appSegs: Segments, name: string, joined: string)
    requires appSegs != [] && Canonical(appSegs) && IsName(name)
    requires joined == Join(["/" + Join(appSegs, "/"), name, ".."], "/")
    ensures Split(joined, '/') == [""] + appSegs + [name] + [".."]
    ensures IsAbsolute(joined) && joined[|joined| - 1] == '.'
  {
    SplitUnderJoin(appSegs, name, "..");
    SplitPlain("..", '/');
    UnderThenUpShape(appSegs, name, joined);
  }

  lemma UnderThenUpShape(appSegs: Segments, name: string, joined: string)
    requires joined == Join(["/" + Join(appSegs, "/"), name, ".."], "/")
    ensures joined == ("/" + Join(appSegs, "/")) + "/" + (name + "/" + "..")
  {
    var parts := ["/" + Join(appSegs, "/"), name, ".."];
    assert parts[1..][1..] == [".."];
    assert Join(parts[1..], "/") == name + "/" + "..";
  }

  /** Walking the app's segments, a name and ".." leaves the app's segments. */
  lemma UnderThenUpWalk(appSegs: Segments, name: string)
    requires appSegs != [] && Canonical(appSegs) && IsName(name)
    ensures Walk([], [""] + appSegs + [name] + [".."], false) == appSegs
  {
    assert [""] + appSegs + [name] + [".."] == ([""] + appSegs + []) + [name, ".."];
    WalkAppend([], [""] + appSegs + [], [name, ".."], false);
    WalkAbsoluteForm([], appSegs, []);
    assert [] + appSegs == appSegs;
    assert Step(appSegs, name, false) == appSegs + [name];
    assert (appSegs + [name])[..|appSegs|] == appSegs;
    assert Step(appSegs + [name], "..", false) == appSegs;
    assert [name, ".."][1..] == [".."];
    assert Walk(appSegs + [name], [".."], false) == Walk(appSegs, [], false);
  }

  /** A request path that sanitises to ".." (such as ".." itself or "../..") names the
      application directory, outside the bundle: it is refused. */
  lemma ParentOfBundleRefused(appSegs: Segments, pathname: string)
    requires appSegs != [] && Canonical(appSegs)
    requires StripParents(Normalize(pathname)) == ".."
    ensures SchemeResponse("/" + Join(appSegs, "/"), pathname) == Denied
  {
    var appPath := "/" + Join(appSegs, "/");
    DistAppIsName();
    JoinUnderThenUp(appSegs, "dist-app");
    assert BundlePath(appPath, pathname) == appPath;
    JoinUnder(appSegs, "dist-app");
    JoinAppend(appSegs, ["dist-app"]);
    assert |BundleRoot(appPath)| > |appPath|;
  }
}
