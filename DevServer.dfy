/** The two middlewares of the UI dev server. The first rewrites absolute file-system URLs
    (as Scala.js source maps emit them) to the server's `/@fs` form, by the first matching
    entry of a three-entry table. The second buffers the Scala.js `fastopt` bundles and
    replaces their inline base64 source map with a reference to an external `.map` file.
    `decodeURIComponent` is an input: it yields None where it would throw. */
module DevServer {
  import opened Wrappers
  import opened Text

  /** A rewrite entry: URLs starting with `prefix` lose their first `cut` characters and
      gain `insert` in front. */
  datatype Rule = Rule(prefix: string, cut: nat, insert: string)
  {
    predicate WellFormed() {
      cut <= |prefix|
    }

    predicate Matches(url: string) {
      IsPrefix(prefix, url)
    }

    function Apply(url: string): string
      requires WellFormed() && Matches(url)
    {
      insert + url[cut..]
    }
  }

  /** `/file:///X` to `/@fs/X`; `/home/...` and `/Users/...` get `/@fs` in front. */
  const Rewrites: seq<Rule> := [
    Rule("/file:///", 9, "/@fs/"),
    Rule("/home/", 0, "/@fs"),
    Rule("/Users/", 0, "/@fs")]

  /** The first matching entry of `rules` rewrites the URL; with none, it is kept. */
  function RewriteWith(rules: seq<Rule>, url: string): (r: string)
    requires forall k :: 0 <= k < |rules| ==> rules[k].WellFormed()
    ensures (forall k :: 0 <= k < |rules| ==> !rules[k].Matches(url)) ==> r == url
  {
    if rules == [] then url
    else if rules[0].Matches(url) then rules[0].Apply(url)
    else
      var r := RewriteWith(rules[1..], url);
      assert forall k :: 1 <= k < |rules| ==> rules[k] == rules[1..][k - 1];
      r
  }

  /** The entry that rewrites is the first that matches: the earlier ones are passed over. */
  lemma {:induction false} RewriteWithFirst(rules: seq<Rule>, url: string, k: nat)
    requires forall i :: 0 <= i < |rules| ==> rules[i].WellFormed()
    requires k < |rules| && rules[k].Matches(url)
    requires forall j :: 0 <= j < k ==> !rules[j].Matches(url)
    ensures RewriteWith(rules, url) == rules[k].Apply(url)
    decreases k
  {
    if k > 0 {
      assert rules[1..][k - 1] == rules[k];
      assert forall j :: 0 <= j < k - 1 ==> rules[1..][j] == rules[j + 1];
      RewriteWithFirst(rules[1..], url, k - 1);
    }
  }

  function Rewrite(url: string): string {
    RewriteWith(Rewrites, url)
  }

  /** The request as the middleware sees it; its URL may be absent. */
  class Request {
    var url: Option<string>

    constructor (url: Option<string>)
      ensures this.url == url
    {
      this.url := url;
    }
  }

  /** The `rewrite-abs-path-sources` middleware: tries the entries in order and rewrites the
      request's URL by the first that matches; an absent or empty URL is left alone. */
  method RewriteRequest(req: Request)
    modifies req
    ensures old(req.url).Some? && old(req.url).value != "" ==> req.url == Some(Rewrite(old(req.url).value))
    ensures old(req.url).None? || old(req.url).value == "" ==> req.url == old(req.url)
  {
    if req.url.Some? && req.url.value != "" {
      var url := req.url.value;
      for i := 0 to |Rewrites|
        invariant req.url == Some(url)
        invariant RewriteWith(Rewrites[i..], url) == Rewrite(url)
      {
        assert Rewrites[i..][1..] == Rewrites[i + 1..];
        if Rewrites[i].Matches(url) {
          req.url := Some(Rewrites[i].Apply(url));
          break;
        }
      }
    }
  }

  /** A URL an entry matches has the entry's second character at index 1. */
  lemma MatchSecondChar(rule: Rule, url: string)
    requires |rule.prefix| >= 2 && rule.Matches(url)
    ensures url[1] == rule.prefix[1]
  {
    assert url[..|rule.prefix|][1] == url[1];
  }

  /** No URL matches two entries: the prefixes differ at their second character, so the
      order of the table does not change which entry applies. */
  lemma EntriesExclusive(url: string, j: int, k: int)
    requires 0 <= j < k < |Rewrites|
    ensures Rewrites[j].Matches(url) ==> !Rewrites[k].Matches(url)
  {
    if Rewrites[j].Matches(url) {
      MatchSecondChar(Rewrites[j], url);
      assert url[1] != Rewrites[k].prefix[1];
      if |Rewrites[k].prefix| <= |url| {
        assert url[..|Rewrites[k].prefix|][1] == url[1];
      }
    }
  }

  /** What each entry produces. */
  lemma RewriteCases(url: string)
    ensures IsPrefix("/file:///", url) ==> Rewrite(url) == "/@fs/" + url[9..]
    ensures IsPrefix("/home/", url) ==> Rewrite(url) == "/@fs" + url
    ensures IsPrefix("/Users/", url) ==> Rewrite(url) == "/@fs" + url
    ensures !IsPrefix("/file:///", url) && !IsPrefix("/home/", url) && !IsPrefix("/Users/", url)
            ==> Rewrite(url) == url
  {
    assert Rewrites[0] == Rule("/file:///", 9, "/@fs/");
    assert Rewrites[1] == Rule("/home/", 0, "/@fs");
    assert Rewrites[2] == Rule("/Users/", 0, "/@fs");
    EntriesExclusive(url, 0, 1);
    EntriesExclusive(url, 0, 2);
    EntriesExclusive(url, 1, 2);
    if Rewrites[0].Matches(url) {
      RewriteWithFirst(Rewrites, url, 0);
    } else if Rewrites[1].Matches(url) {
      RewriteWithFirst(Rewrites, url, 1);
    } else if Rewrites[2].Matches(url) {
      RewriteWithFirst(Rewrites, url, 2);
    }
  }

  /** A rewritten URL starts with "/@fs/". */
  lemma RewrittenIsFs(url: string)
    requires Rewrite(url) != url
    ensures IsPrefix("/@fs/", Rewrite(url))
  {
    RewriteCases(url);
    if IsPrefix("/home/", url) || IsPrefix("/Users/", url) {
      assert url[0] == '/';
    }
  }

  /** "/@fs/" URLs match no entry. */
  lemma FsUnmatched(url: string)
    requires IsPrefix("/@fs/", url)
    ensures Rewrite(url) == url
  {
    assert url[1] == '@';
    RewriteCases(url);
    if IsPrefix("/file:///", url) {
      MatchSecondChar(Rewrites[0], url);
    }
    if IsPrefix("/home/", url) {
      MatchSecondChar(Rewrites[1], url);
    }
    if IsPrefix("/Users/", url) {
      MatchSecondChar(Rewrites[2], url);
    }
  }

  /** Rewriting is idempotent: a rewritten URL matches no entry. */
  lemma RewriteIdempotent(url: string)
    ensures Rewrite(Rewrite(url)) == Rewrite(url)
  {
    if Rewrite(url) != url {
      RewrittenIsFs(url);
      FsUnmatched(Rewrite(url));
    }
  }

  const FastoptDir := "/firecalc-ui-fastopt/"

  /** Which responses the sourcemap middleware buffers: URLs inside the fastopt output
      that end in ".js" and not in ".js.map". */
  predicate Intercepts(url: Option<string>) {
    url.Some? && url.value != "" && Contains(url.value, FastoptDir)
    && IsSuffix(".js", url.value) && !IsSuffix(".js.map", url.value)
  }

  /** The ".js.map" exclusion never decides anything: a URL ending in ".js" cannot end in
      ".js.map". */
  lemma MapExclusionRedundant(url: Option<string>)
    ensures Intercepts(url) <==> url.Some? && Contains(url.value, FastoptDir) && IsSuffix(".js", url.value)
  {
    if url.Some? {
      SuffixesExclusive(url.value);
    }
  }

  /** The marker whose presence triggers the rewrite. */
  const Marker := "sourceMappingURL=data:application/json;base64,"

  /** The literal start of the pattern `//# sourceMappingURL=data:application/json;base64,`. */
  const CommentStart := "//# " + Marker

  /** The end of the run of non-whitespace characters starting at `k`. */
  function RunEnd(s: string, k: nat): (e: nat)
    requires k <= |s|
    ensures k <= e <= |s|
    ensures forall m :: k <= m < e ==> !IsWhitespace(s[m])
    ensures e == |s| || IsWhitespace(s[e])
    decreases |s| - k
  {
    if k == |s| || IsWhitespace(s[k]) then k else RunEnd(s, k + 1)
  }

  /** The pattern `start` + `[^\s]+$` under the multiline flag matches at `i`: the literal
      start, at least one non-whitespace character, then the end of the text or of the line.
      Since the run is greedy and `$` needs a line end right after it, the match always
      takes the whole run. */
  predicate MatchAt(s: string, start: string, i: nat) {
    var p := i + |start|;
    && p <= |s|
    && s[i..p] == start
    && RunEnd(s, p) > p
    && (RunEnd(s, p) == |s| || IsLineTerminator(s[RunEnd(s, p)]))
  }

  /** The leftmost match at or after `from`, as the regular-expression engine scans. */
  function FirstMatch(s: string, start: string, from: nat): (r: Option<nat>)
    requires from <= |s|
    ensures r.Some? ==> from <= r.value <= |s| && MatchAt(s, start, r.value)
    ensures r.Some? ==> forall k :: from <= k < r.value ==> !MatchAt(s, start, k)
    ensures r.None? ==> forall k :: from <= k <= |s| ==> !MatchAt(s, start, k)
    decreases |s| - from
  {
    if MatchAt(s, start, from) then Some(from)
    else if from == |s| then None
    else FirstMatch(s, start, from + 1)
  }

  /** `s.replace(pattern, () => replacement)`: only the leftmost match is replaced, and the
      replacement is taken literally. */
  function ReplaceFirst(s: string, start: string, replacement: string): (r: string)
    ensures FirstMatch(s, start, 0).None? ==> r == s
    ensures FirstMatch(s, start, 0).Some? ==>
      var i := FirstMatch(s, start, 0).value;
      r == s[..i] + replacement + s[RunEnd(s, i + |start|)..]
  {
    match FirstMatch(s, start, 0)
    case None => s
    case Some(i) => s[..i] + replacement + s[RunEnd(s, i + |start|)..]
  }

  /** The comment of an inline map replaced by a reference to the external map file. */
  function ReplaceComment(body: string, fileName: string): string {
    ReplaceFirst(body, CommentStart, "//# sourceMappingURL=" + fileName + ".map")
  }

  /** What the buffered response becomes: sent unchanged, sent rewritten with a
      Content-Length header, or an exception from decoding the file name. */
  datatype Emitted = Unchanged(body: string) | Fixed(body: string, contentLength: nat) | Thrown

  /** The body transform of `scalajs-sourcemap-fix`. */
  function FixBody(body: string, url: string, decode: string -> Option<string>): (r: Emitted)
    ensures !Contains(body, Marker) <==> r == Unchanged(body)
    ensures r.Thrown? <==> Contains(body, Marker) && decode(LastPiece(url, '/')).None?
    ensures r.Fixed? ==> r.body == ReplaceComment(body, decode(LastPiece(url, '/')).value)
                         && r.contentLength == Utf8Length(r.body)
  {
    if !Contains(body, Marker) then Unchanged(body)
    else
      match decode(LastPiece(url, '/'))
      case None => Thrown
      case Some(fileName) =>
        var fixed := ReplaceComment(body, fileName);
        Fixed(fixed, Utf8Length(fixed))
  }

  /** A pattern without line breaks that does not occur in `code` does not occur at any
      position up to the line break that follows `code`. */
  lemma NoOccurrenceBeforeBreak(code: string, rest: string, pat: string, k: nat)
    requires !Contains(code, pat) && '\n' !in pat
    requires |rest| > 0 && rest[0] == '\n'
    requires k <= |code|
    ensures !OccursAt(code + rest, pat, k)
  {
    var s := code + rest;
    var p := k + |pat|;
    if p <= |code| {
      assert s[k..p] == code[k..p];
      ContainsOccurs(code, pat);
      assert !OccursAt(code, pat, k);
    } else if p <= |s| {
      assert s[k..p][|code| - k] == s[|code|] == '\n';
      assert '\n' in s[k..p];
    }
  }

  /** No match starts before the line break that ends code free of the pattern's start. */
  lemma NoMatchBeforeBreak(code: string, rest: string, start: string, s: string)
    requires !Contains(code, start) && '\n' !in start
    requires |rest| > 0 && rest[0] == '\n'
    requires s == code + rest
    ensures forall k :: 0 <= k < |code| + 1 ==> !MatchAt(s, start, k)
  {
    forall k | 0 <= k < |code| + 1
      ensures !MatchAt(s, start, k)
    {
      NoOccurrenceBeforeBreak(code, rest, start, k);
    }
  }

  /** A run that reaches the end of the text ends there. */
  lemma {:induction false} RunEndOfRun(s: string, k: nat)
    requires k <= |s|
    requires forall m :: k <= m < |s| ==> !IsWhitespace(s[m])
    ensures RunEnd(s, k) == |s|
    decreases |s| - k
  {
    if k < |s| {
      RunEndOfRun(s, k + 1);
    }
  }

  /** The start followed by a non-empty run that ends the text matches where it starts. */
  lemma FinalMatch(line: string, start: string, payload: string, body: string)
    requires payload != []
    requires body == line + (start + payload)
    requires RunEnd(body, |line| + |start|) == |body|
    ensures MatchAt(body, start, |line|)
  {
    StartAt(line, start, payload, body);
  }

  lemma StartAt(line: string, start: string, payload: string, body: string)
    requires body == line + (start + payload)
    ensures |line| + |start| + |payload| == |body|
    ensures body[|line|..|line| + |start|] == start
    ensures body[|line| + |start|..] == payload
  {
    assert body[|line|..|line| + |start|] == (start + payload)[..|start|];
  }

  /** A text that ends in a non-empty run of non-whitespace has its run end at the end. */
  lemma FinalRun(body: string, k: nat, payload: string)
    requires payload != [] && forall m :: 0 <= m < |payload| ==> !IsWhitespace(payload[m])
    requires k <= |body| && body[k..] == payload
    ensures RunEnd(body, k) == |body|
  {
    forall m | k <= m < |body|
      ensures !IsWhitespace(body[m])
    {
      assert body[m] == payload[m - k];
    }
    RunEndOfRun(body, k);
  }

  /** The scan from `from` stops at the first position that matches. */
  lemma {:induction false} FirstMatchFrom(s: string, start: string, from: nat, i: nat)
    requires from <= i <= |s| && MatchAt(s, start, i)
    requires forall k :: from <= k < i ==> !MatchAt(s, start, k)
    ensures FirstMatch(s, start, from) == Some(i)
    decreases i - from
  {
    if from < i {
      FirstMatchFrom(s, start, from + 1, i);
    }
  }

  /** Code free of the start, a line break, then the start and a final run: the match
      begins right after the line break. */
  lemma TrailingMatchFirst(code: string, start: string, payload: string, body: string)
    requires !Contains(code, start) && '\n' !in start
    requires payload != [] && forall m :: 0 <= m < |payload| ==> !IsWhitespace(payload[m])
    requires body == (code + "\n") + (start + payload)
    ensures FirstMatch(body, start, 0) == Some(|code| + 1)
  {
    var line := code + "\n";
    assert body == code + ("\n" + (start + payload));
    StartAt(line, start, payload, body);
    FinalRun(body, |line| + |start|, payload);
    FinalMatch(line, start, payload, body);
    NoMatchBeforeBreak(code, "\n" + (start + payload), start, body);
    FirstMatchFrom(body, start, 0, |line|);
  }

  /** In that text exactly the final run and its start are replaced. */
  lemma TrailingMatchReplaced(code: string, start: string, payload: string, replacement: string)
    requires !Contains(code, start) && '\n' !in start
    requires payload != [] && forall m :: 0 <= m < |payload| ==> !IsWhitespace(payload[m])
    ensures ReplaceFirst((code + "\n") + (start + payload), start, replacement)
            == (code + "\n") + replacement
  {
    var line := code + "\n";
    var body := line + (start + payload);
    TrailingMatchFirst(code, start, payload, body);
    StartAt(line, start, payload, body);
    FinalRun(body, |line| + |start|, payload);
    assert body[..|line|] == line;
    assert body[|body|..] == "";
  }

  /** The comment start holds no line break, so a match never spans two lines. */
  lemma CommentStartSingleLine()
    ensures '\n' !in CommentStart
  {
    PiecesSingleLine();
    assert Marker == "sourceMappingURL=" + "data:application/json;base64,";
  }

  lemma PiecesSingleLine()
    ensures '\n' !in "//# "
    ensures '\n' !in "sourceMappingURL="
    ensures '\n' !in "data:application/json;base64,"
  {
  }

  /** A bundle whose code ends with a line break and the inline map comment has that
      comment, and only that, replaced by the reference to the external map. */
  lemma TrailingInlineMapReplaced(code: string, payload: string, fileName: string)
    requires !Contains(code, CommentStart)
    requires payload != [] && forall m :: 0 <= m < |payload| ==> !IsWhitespace(payload[m])
    ensures ReplaceComment((code + "\n") + (CommentStart + payload), fileName)
            == (code + "\n") + ("//# sourceMappingURL=" + fileName + ".map")
  {
    CommentStartSingleLine();
    TrailingMatchReplaced(code, CommentStart, payload, "//# sourceMappingURL=" + fileName + ".map");
  }

  /** A marker that is not part of a line-final comment still makes the response fixed:
      the body is sent as it was, now with a Content-Length header. */
  lemma MarkerWithoutFinalComment(body: string, url: string, decode: string -> Option<string>)
    requires Contains(body, Marker) && decode(LastPiece(url, '/')).Some?
    requires FirstMatch(body, CommentStart, 0).None?
    ensures FixBody(body, url, decode) == Fixed(body, Utf8Length(body))
  {
  }

  /** The response object's buffering: written chunks are kept, and the end call sends the
      transformed body. `sent` is what reaches the original `end`. */
  class BufferedResponse {
    var chunks: seq<string>
    var sent: Option<Emitted>
    const url: string
    const decode: string -> Option<string>

    constructor (url: string, decode: string -> Option<string>)
      ensures chunks == [] && sent == None
      ensures this.url == url && this.decode == decode
    {
      chunks := [];
      sent := None;
      this.url := url;
      this.decode := decode;
    }

    /** `res.write(chunk)`: buffers the chunk and reports success. */
    method Write(chunk: string) returns (ok: bool)
      modifies this
      ensures chunks == old(chunks) + [chunk] && sent == old(sent)
      ensures ok
    {
      chunks := chunks + [chunk];
      ok := true;
    }

    /** `res.end(chunk)`: a non-empty final chunk is buffered too, then the whole body is
        transformed and sent. */
    method End(chunk: Option<string>)
      modifies this
      ensures chunks == old(chunks) + (if chunk.Some? && chunk.value != "" then [chunk.value] else [])
      ensures sent == Some(FixBody(Concat(chunks), url, decode))
    {
      if chunk.Some? && chunk.value != "" {
        chunks := chunks + [chunk.value];
      }
      var all := chunks;
      var body := "";
      for i := 0 to |all|
        invariant body == Concat(all[..i])
      {
        assert all[..i + 1][..i] == all[..i];
        body := body + all[i];
      }
      assert all[..|all|] == all;
      sent := Some(FixBody(body, url, decode));
    }
  }
}
