/** The JavaScript string operations the host process and the dev-server middleware rely on:
    `startsWith`, `endsWith`, `includes`, `trim`, `toUpperCase`, `split`, `join`, and the
    UTF-8 byte length computed by `Buffer.byteLength`. Strings are sequences of Unicode
    scalar values. */
module Text {

  /** `s.startsWith(p)` */
  predicate IsPrefix(p: string, s: string) {
    |p| <= |s| && s[..|p|] == p
  }

  /** `s.endsWith(t)` */
  predicate IsSuffix(t: string, s: string) {
    |t| <= |s| && s[|s| - |t|..] == t
  }

  /** `sub` occurs in `s` starting at index `i`. */
  ghost predicate OccursAt(s: string, sub: string, i: int) {
    0 <= i && i + |sub| <= |s| && s[i..i + |sub|] == sub
  }

  /** `s.includes(sub)`: a left-to-right scan for an occurrence. */
  predicate Contains(s: string, sub: string)
    decreases |s|
  {
    IsPrefix(sub, s) || (|s| > 0 && Contains(s[1..], sub))
  }

  /** The scan finds an occurrence exactly when one exists. */
  lemma {:induction false} ContainsOccurs(s: string, sub: string)
    ensures Contains(s, sub) <==> exists i :: OccursAt(s, sub, i)
    decreases |s|
  {
    if IsPrefix(sub, s) {
      assert OccursAt(s, sub, 0);
    } else {
      assert !OccursAt(s, sub, 0) by {
        if |sub| <= |s| { assert s[0..|sub|] == s[..|sub|]; }
      }
      if |s| > 0 {
        ContainsOccurs(s[1..], sub);
        if Contains(s[1..], sub) {
          var i :| OccursAt(s[1..], sub, i);
          assert s[1..][i..i + |sub|] == s[i + 1..i + 1 + |sub|];
          assert OccursAt(s, sub, i + 1);
        }
        if i :| OccursAt(s, sub, i) {
          assert s[1..][i - 1..i - 1 + |sub|] == s[i..i + |sub|];
          assert OccursAt(s[1..], sub, i - 1);
        }
      }
    }
  }

  /** A string always contains what was placed inside it. */
  lemma ContainsInfix(a: string, sub: string, b: string)
    ensures Contains(a + sub + b, sub)
  {
    var s := a + sub + b;
    assert s[|a|..|a| + |sub|] == sub;
    assert OccursAt(s, sub, |a|);
    ContainsOccurs(s, sub);
  }

  /** Nothing longer than `s` occurs in `s`. */
  lemma ContainsTooLong(s: string, sub: string)
    requires |sub| > |s|
    ensures !Contains(s, sub)
  {
    ContainsOccurs(s, sub);
  }

  /** A string ending in ".js" never ends in ".js.map": their last characters differ. */
  lemma SuffixesExclusive(u: string)
    ensures IsSuffix(".js", u) ==> !IsSuffix(".js.map", u)
  {
    if IsSuffix(".js", u) {
      assert u[|u| - 1] == 's' by { assert u[|u| - 3..][2] == u[|u| - 1]; }
      if |u| >= 7 { assert u[|u| - 7..][6] == u[|u| - 1]; }
    }
  }

  /** The line terminators of ECMAScript (those at which a multiline `$` matches). */
  predicate IsLineTerminator(c: char) {
    c == '\n' || c == '\r' || c == '\U{2028}' || c == '\U{2029}'
  }

  /** The characters ECMAScript's `trim` removes and its regular-expression class `\s`
      matches: WhiteSpace (tab, vertical tab, form feed, space, no-break space, the
      byte-order mark and the Unicode space separators) and LineTerminator. */
  predicate IsWhitespace(c: char) {
    || IsLineTerminator(c)
    || c == '\t' || c == '\U{B}' || c == '\U{C}' || c == ' ' || c == '\U{A0}'
    || c == '\U{1680}' || ('\U{2000}' <= c <= '\U{200A}')
    || c == '\U{202F}' || c == '\U{205F}' || c == '\U{3000}' || c == '\U{FEFF}'
  }

  ghost predicate AllWhitespace(s: string) {
    forall k :: 0 <= k < |s| ==> IsWhitespace(s[k])
  }

  /** `s.trimStart()`: drops the leading whitespace and keeps everything after it. */
  function TrimStart(s: string): (r: string)
    ensures IsSuffix(r, s)
    ensures AllWhitespace(s[..|s| - |r|])
    ensures r == [] || !IsWhitespace(r[0])
  {
    if |s| > 0 && IsWhitespace(s[0]) then TrimStart(s[1..]) else s
  }

  /** `s.trimEnd()`: drops the trailing whitespace and keeps everything before it. */
  function TrimEnd(s: string): (r: string)
    ensures IsPrefix(r, s)
    ensures AllWhitespace(s[|r|..])
    ensures r == [] || !IsWhitespace(r[|r| - 1])
  {
    if |s| > 0 && IsWhitespace(s[|s| - 1]) then TrimEnd(s[..|s| - 1]) else s
  }

  /** `s.trim()` */
  function Trim(s: string): (r: string)
    ensures r == [] || (!IsWhitespace(r[0]) && !IsWhitespace(r[|r| - 1]))
    ensures exists i :: Padded(s, i, r)
  {
    var t := TrimStart(s);
    var r := TrimEnd(t);
    assert Padded(s, |s| - |t|, r) by {
      assert s[|s| - |t|..][..|r|] == s[|s| - |t|..|s| - |t| + |r|];
      assert s[|s| - |t| + |r|..] == t[|r|..];
    }
    r
  }

  /** `s` is `t` surrounded, from index `i` on, by whitespace only. */
  ghost predicate Padded(s: string, i: int, t: string) {
    0 <= i && i + |t| <= |s| && s[i..i + |t|] == t
    && AllWhitespace(s[..i]) && AllWhitespace(s[i + |t|..])
  }

  lemma {:induction false} TrimStartOfPadded(a: string, u: string)
    requires AllWhitespace(a)
    requires u == [] || !IsWhitespace(u[0])
    ensures TrimStart(a + u) == u
    decreases |a|
  {
    if a == [] {
      assert a + u == u;
    } else {
      assert (a + u)[1..] == a[1..] + u;
      TrimStartOfPadded(a[1..], u);
    }
  }

  lemma {:induction false} TrimEndOfPadded(u: string, b: string)
    requires AllWhitespace(b)
    requires u == [] || !IsWhitespace(u[|u| - 1])
    ensures TrimEnd(u + b) == u
    decreases |b|
  {
    if b == [] {
      assert u + b == u;
    } else {
      assert (u + b)[..|u + b| - 1] == u + b[..|b| - 1];
      TrimEndOfPadded(u, b[..|b| - 1]);
    }
  }

  /** `trim` recovers exactly the text between whitespace padding: together with the
      postcondition of Trim, `Trim(s) == t` holds iff `s` is `t` padded by whitespace. */
  lemma TrimPadded(a: string, t: string, b: string)
    requires AllWhitespace(a) && AllWhitespace(b)
    requires t == [] || (!IsWhitespace(t[0]) && !IsWhitespace(t[|t| - 1]))
    ensures Trim(a + t + b) == t
  {
    if t == [] {
      assert a + t + b == a + b;
      assert AllWhitespace(a + b);
      TrimStartOfPadded(a + b, []);
      assert a + b + [] == a + b;
    } else {
      assert a + t + b == a + (t + b);
      TrimStartOfPadded(a, t + b);
      TrimEndOfPadded(t, b);
    }
  }

  /** The ASCII part of `toUpperCase`. */
  function UpperChar(c: char): (u: char)
    ensures 'a' <= c <= 'z' ==> u as int == c as int - 32
    ensures !('a' <= c <= 'z') ==> u == c
  {
    if 'a' <= c <= 'z' then (c as int - 32) as char else c
  }

  /** `s.toUpperCase()`, character by character. */
  function ToUpper(s: string): (r: string)
    ensures |r| == |s|
    ensures forall k :: 0 <= k < |s| ==> r[k] == UpperChar(s[k])
  {
    seq(|s|, k requires 0 <= k < |s| => UpperChar(s[k]))
  }

  /** Upper-casing keeps occurrences: if `w` occurs in `s`, its upper-cased form occurs
      in the upper-cased `s`, so a search on upper-cased text ignores letter case. */
  lemma UpperKeepsContains(s: string, w: string)
    requires Contains(s, w)
    ensures Contains(ToUpper(s), ToUpper(w))
  {
    ContainsOccurs(s, w);
    var i :| OccursAt(s, w, i);
    assert ToUpper(s)[i..i + |w|] == ToUpper(w) by {
      forall k | 0 <= k < |w|
        ensures ToUpper(s)[i..i + |w|][k] == ToUpper(w)[k]
      {
        assert s[i..i + |w|][k] == w[k];
      }
    }
    assert OccursAt(ToUpper(s), ToUpper(w), i);
    ContainsOccurs(ToUpper(s), ToUpper(w));
  }

  /** `s.split(sep)` for a one-character separator. */
  function Split(s: string, sep: char): (r: seq<string>)
    ensures |r| >= 1
    ensures forall k :: 0 <= k < |r| ==> sep !in r[k]
  {
    if |s| == 0 then [""]
    else
      var rest := Split(s[1..], sep);
      if s[0] == sep then [""] + rest else [[s[0]] + rest[0]] + rest[1..]
  }

  /** `parts.join(sep)` */
  function Join(parts: seq<string>, sep: string): string {
    if |parts| == 0 then ""
    else if |parts| == 1 then parts[0]
    else parts[0] + sep + Join(parts[1..], sep)
  }

  /** Joining the pieces of a split with the separator gives back the string. */
  lemma {:induction false} JoinSplit(s: string, sep: char)
    ensures Join(Split(s, sep), [sep]) == s
    decreases |s|
  {
    if |s| > 0 {
      var rest := Split(s[1..], sep);
      JoinSplit(s[1..], sep);
      if s[0] == sep {
        assert ([""] + rest)[1..] == rest;
      } else {
        var parts := [[s[0]] + rest[0]] + rest[1..];
        if |rest| == 1 {
          assert Join(parts, [sep]) == [s[0]] + rest[0];
        } else {
          assert parts[1..] == rest[1..];
          assert Join(parts, [sep]) == [s[0]] + (rest[0] + [sep] + Join(rest[1..], [sep]));
        }
        assert s == [s[0]] + s[1..];
      }
    }
  }

  lemma {:induction false} SplitPlain(x: string, sep: char)
    requires sep !in x
    ensures Split(x, sep) == [x]
    decreases |x|
  {
    if |x| > 0 {
      SplitPlain(x[1..], sep);
      assert [x[0]] + x[1..] == x;
    }
  }

  lemma {:induction false} SplitAtSeparator(x: string, sep: char, y: string)
    requires sep !in x
    ensures Split(x + [sep] + y, sep) == [x] + Split(y, sep)
    decreases |x|
  {
    if x == [] {
      assert x + [sep] + y == [sep] + y;
      assert ([sep] + y)[1..] == y;
    } else {
      assert (x + [sep] + y)[1..] == x[1..] + [sep] + y;
      SplitAtSeparator(x[1..], sep, y);
      assert [x[0]] + x[1..] == x;
    }
  }

  /** Splitting at a separator splits the two sides independently. */
  lemma {:induction false} SplitConcat(x: string, sep: char, y: string)
    ensures Split(x + [sep] + y, sep) == Split(x, sep) + Split(y, sep)
    decreases |x|
  {
    if x == [] {
      assert x + [sep] + y == [sep] + y;
      assert ([sep] + y)[1..] == y;
    } else {
      assert (x + [sep] + y)[1..] == x[1..] + [sep] + y;
      SplitConcat(x[1..], sep, y);
    }
  }

  /** Splitting a join of separator-free pieces gives back the pieces. */
  lemma {:induction false} SplitJoin(parts: seq<string>, sep: char)
    requires |parts| >= 1
    requires forall k :: 0 <= k < |parts| ==> sep !in parts[k]
    ensures Split(Join(parts, [sep]), sep) == parts
    decreases |parts|
  {
    if |parts| == 1 {
      SplitPlain(parts[0], sep);
    } else {
      SplitJoin(parts[1..], sep);
      SplitAtSeparator(parts[0], sep, Join(parts[1..], [sep]));
      assert [parts[0]] + parts[1..] == parts;
    }
  }

  /** The last piece of `s.split(sep)`: everything after the last separator. */
  function LastPiece(s: string, sep: char): (r: string)
    ensures sep !in r
    ensures IsSuffix(r, s)
    ensures r == s || s[|s| - |r| - 1] == sep
  {
    var parts := Split(s, sep);
    JoinSplit(s, sep);
    LastOfJoin(parts, sep);
    parts[|parts| - 1]
  }

  lemma {:induction false} LastOfJoin(parts: seq<string>, sep: char)
    requires |parts| >= 1
    ensures var j := Join(parts, [sep]); var l := parts[|parts| - 1];
      IsSuffix(l, j) && (|parts| == 1 || (|l| < |j| && j[|j| - |l| - 1] == sep))
    decreases |parts|
  {
    if |parts| > 1 {
      LastOfJoin(parts[1..], sep);
      var j' := Join(parts[1..], [sep]);
      var j := Join(parts, [sep]);
      assert j == parts[0] + [sep] + j';
      assert j[|j| - |j'|..] == j';
    }
  }

  /** `chunks.join('')` after each chunk was decoded as text (what `Buffer.concat` then
      `toString` yields for chunks that split no character). */
  function Concat(chunks: seq<string>): (r: string)
    ensures |chunks| > 0 ==> IsSuffix(chunks[|chunks| - 1], r)
  {
    if chunks == [] then "" else Concat(chunks[..|chunks| - 1]) + chunks[|chunks| - 1]
  }

  /** The number of bytes UTF-8 needs for one Unicode scalar value. */
  function Utf8Width(c: char): (n: nat)
    ensures 1 <= n <= 4
    ensures n == 1 <==> c as int < 0x80
  {
    if c as int < 0x80 then 1
    else if c as int < 0x800 then 2
    else if c as int < 0x1_0000 then 3
    else 4
  }

  /** `Buffer.byteLength(s)`: the UTF-8 length of `s`. */
  function Utf8Length(s: string): (n: nat)
    ensures |s| <= n <= 4 * |s|
  {
    if s == [] then 0 else Utf8Width(s[0]) + Utf8Length(s[1..])
  }

  lemma {:induction false} Utf8LengthConcat(a: string, b: string)
    ensures Utf8Length(a + b) == Utf8Length(a) + Utf8Length(b)
    decreases |a|
  {
    if a != [] {
      assert (a + b)[1..] == a[1..] + b;
      Utf8LengthConcat(a[1..], b);
    } else {
      assert a + b == b;
    }
  }
}
