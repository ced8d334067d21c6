/**
 * The Foundation string operations the clipboard item relies on, over `string`
 * (a sequence of characters; Swift's grapheme-cluster count is the length here):
 * lowercasing, substring search, splitting at a character set, joining with a
 * separator, whitespace collapsing, truncation and the last component of a path.
 */
module Strings {

  // ---------------------------------------------------------------------------
  // Lowercasing (ASCII letters only)
  // ---------------------------------------------------------------------------

  predicate IsUpper(c: char) {
    'A' <= c <= 'Z'
  }

  function LowerChar(c: char): (r: char)
    ensures !IsUpper(r)
    ensures !IsUpper(c) ==> r == c
  {
    if IsUpper(c) then (c as int + 32) as char else c
  }

  /** No upper-case letter anywhere in `s`. */
  predicate IsLowercase(s: string) {
    forall i :: 0 <= i < |s| ==> !IsUpper(s[i])
  }

  /** `String.lowercased()`: every letter in lower case, nothing else touched. */
  function Lower(s: string): (r: string)
    ensures |r| == |s| && IsLowercase(r)
    ensures forall i :: 0 <= i < |s| ==> r[i] == LowerChar(s[i])
  {
    seq(|s|, i requires 0 <= i < |s| => LowerChar(s[i]))
  }

  /** Lowercasing a lower-case string changes nothing, so lowercasing twice is lowercasing once. */
  lemma LowerIdempotent(s: string)
    ensures IsLowercase(s) ==> Lower(s) == s
    ensures Lower(Lower(s)) == Lower(s)
  {
    assert forall i :: 0 <= i < |s| ==> Lower(Lower(s))[i] == Lower(s)[i];
  }

  // ---------------------------------------------------------------------------
  // Substring search
  // ---------------------------------------------------------------------------

  /** `text.contains(query)`: `query` occurs in `text` at some position. */
  predicate Contains(text: string, query: string)
    ensures Contains(text, query) ==> |query| <= |text|
    ensures query <= text ==> Contains(text, query)
  {
    assert query <= text ==> OccursAt(text, query, 0);
    exists i | 0 <= i <= |text| - |query| :: OccursAt(text, query, i)
  }

  predicate OccursAt(text: string, query: string, i: int) {
    0 <= i <= |text| - |query| && text[i..i + |query|] == query
  }

  /** An occurrence survives lowercasing both sides: the search is case-insensitive. */
  lemma ContainsLower(text: string, query: string)
    requires Contains(text, query)
    ensures Contains(Lower(text), Lower(query))
  {
    var i :| 0 <= i <= |text| - |query| && OccursAt(text, query, i);
    assert 0 <= i <= |text| - |query| && text[i..i + |query|] == query;
    assert forall j :: 0 <= j < |query| ==> Lower(text)[i..i + |query|][j] == Lower(query)[j];
    assert OccursAt(Lower(text), Lower(query), i);
  }

  // ---------------------------------------------------------------------------
  // Splitting and joining
  // ---------------------------------------------------------------------------

  /** No character of `s` satisfies `isSep`. */
  predicate NoneOf(s: string, isSep: char -> bool) {
    forall i :: 0 <= i < |s| ==> !isSep(s[i])
  }

  /**
   * `components(separatedBy:)` with a character set: cut at EVERY separator
   * character, so adjacent separators give empty components and there is
   * always at least one component.
   */
  function Split(s: string, isSep: char -> bool): (r: seq<string>)
    ensures |r| >= 1 && |r| == 1 + |s| - |Visible(s, isSep)|
    ensures forall k :: 0 <= k < |r| ==> NoneOf(r[k], isSep)
    decreases |s|
  {
    if s == [] then [""]
    else
      var rest := Split(s[1..], isSep);
      if isSep(s[0]) then [""] + rest
      else [[s[0]] + rest[0]] + rest[1..]
  }

  /** `joined(separator:)`. */
  function Join(parts: seq<string>, sep: string): (r: string)
    ensures parts != [] ==> parts[0] <= r
    ensures |r| == |Concat(parts)| + if parts == [] then 0 else (|parts| - 1) * |sep|
    decreases |parts|
  {
    if |parts| == 0 then ""
    else if |parts| == 1 then parts[0]
    else parts[0] + sep + Join(parts[1..], sep)
  }

  /** The characters of `s` that are not separators, in order. */
  function Visible(s: string, isSep: char -> bool): (r: string)
    ensures |r| <= |s| && NoneOf(r, isSep)
  {
    if s == [] then ""
    else (if isSep(s[0]) then "" else [s[0]]) + Visible(s[1..], isSep)
  }

  /** All parts laid end to end. */
  function Concat(parts: seq<string>): string {
    if parts == [] then "" else parts[0] + Concat(parts[1..])
  }

  /** Splitting a text with a known first character. */
  lemma SplitCons(c: char, t: string, isSep: char -> bool)
    ensures Split([c] + t, isSep) ==
      if isSep(c) then [""] + Split(t, isSep) else [[c] + Split(t, isSep)[0]] + Split(t, isSep)[1..]
  {
    assert ([c] + t)[1..] == t;
  }

  /** A separator-free prefix only lengthens the first component. */
  lemma {:induction false} SplitPrefix(a: string, b: string, isSep: char -> bool)
    requires NoneOf(a, isSep)
    ensures Split(a + b, isSep) == [a + Split(b, isSep)[0]] + Split(b, isSep)[1..]
    decreases |a|
  {
    if a == [] {
      SplitPrefixEmpty(b, isSep);
    } else {
      SplitPrefix(a[1..], b, isSep);
      SplitPrefixStep(a, b, isSep);
    }
  }

  lemma SplitPrefixEmpty(b: string, isSep: char -> bool)
    ensures Split([] + b, isSep) == [[] + Split(b, isSep)[0]] + Split(b, isSep)[1..]
  {
    var r := Split(b, isSep);
    assert [] + b == b;
    assert [] + r[0] == r[0];
    assert [r[0]] + r[1..] == r;
  }

  lemma SplitPrefixStep(a: string, b: string, isSep: char -> bool)
    requires a != [] && !isSep(a[0])
    requires Split(a[1..] + b, isSep) == [a[1..] + Split(b, isSep)[0]] + Split(b, isSep)[1..]
    ensures Split(a + b, isSep) == [a + Split(b, isSep)[0]] + Split(b, isSep)[1..]
  {
    var r := Split(b, isSep);
    var c, u := a[0], a[1..];
    AppendParts(a, b);
    SplitCons(c, u + b, isSep);
    ConsParts(u + r[0], r[1..]);
    ConsAppend(c, u, r[0]);
  }

  lemma ConsAppend<T>(x: T, u: seq<T>, w: seq<T>)
    ensures [x] + (u + w) == ([x] + u) + w
  {
  }

  lemma ConsParts<T>(x: T, u: seq<T>)
    ensures ([x] + u)[0] == x && ([x] + u)[1..] == u
  {
  }

  lemma AppendParts<T>(a: seq<T>, b: seq<T>)
    requires a != []
    ensures a == [a[0]] + a[1..] && a + b == [a[0]] + (a[1..] + b)
  {
  }

  /**
   * Joining with a separator character and splitting at it round-trips, as
   * long as no part contains a separator.
   */
  lemma {:induction false} SplitJoin(parts: seq<string>, sep: char, isSep: char -> bool)
    requires |parts| >= 1 && isSep(sep)
    requires forall k :: 0 <= k < |parts| ==> NoneOf(parts[k], isSep)
    ensures Split(Join(parts, [sep]), isSep) == parts
    decreases |parts|
  {
    if |parts| == 1 {
      SplitPrefix(parts[0], "", isSep);
      assert parts[0] + "" == parts[0];
    } else {
      var rest := Join(parts[1..], [sep]);
      SplitJoin(parts[1..], sep, isSep);
      SplitCons(sep, rest, isSep);
      SplitPrefix(parts[0], [sep] + rest, isSep);
      assert Join(parts, [sep]) == parts[0] + ([sep] + rest);
      assert parts[0] + "" == parts[0];
      assert [parts[0]] + parts[1..] == parts;
    }
  }

  /** Every part occurs in the joined text. */
  lemma {:induction false} JoinContainsPart(parts: seq<string>, sep: string, k: nat)
    requires k < |parts|
    ensures Contains(Join(parts, sep), parts[k])
    decreases |parts|
  {
    var j := Join(parts, sep);
    if k == 0 {
      assert j[..|parts[0]|] == parts[0];
      assert OccursAt(j, parts[0], 0);
    } else {
      var rest := Join(parts[1..], sep);
      JoinContainsPart(parts[1..], sep, k - 1);
      assert parts[1..][k - 1] == parts[k];
      var i :| 0 <= i <= |rest| - |parts[k]| && OccursAt(rest, parts[k], i);
      var off := |parts[0]| + |sep|;
      assert j == parts[0] + sep + rest;
      assert j[off + i..off + i + |parts[k]|] == rest[i..i + |parts[k]|];
      assert OccursAt(j, parts[k], off + i);
    }
  }

  lemma {:induction false} VisibleAppend(a: string, b: string, isSep: char -> bool)
    ensures Visible(a + b, isSep) == Visible(a, isSep) + Visible(b, isSep)
    decreases |a|
  {
    if a == [] {
      assert a + b == b;
    } else {
      assert (a + b)[1..] == a[1..] + b;
      VisibleAppend(a[1..], b, isSep);
    }
  }

  lemma {:induction false} VisibleOfNoneOf(s: string, isSep: char -> bool)
    requires NoneOf(s, isSep)
    ensures Visible(s, isSep) == s
    decreases |s|
  {
    if s != [] {
      VisibleOfNoneOf(s[1..], isSep);
    }
  }

  /** Splitting loses exactly the separators. */
  lemma {:induction false} ConcatSplit(s: string, isSep: char -> bool)
    ensures Concat(Split(s, isSep)) == Visible(s, isSep)
    decreases |s|
  {
    if s != [] {
      var rest := Split(s[1..], isSep);
      ConcatSplit(s[1..], isSep);
      assert Concat(rest) == rest[0] + Concat(rest[1..]);
      if isSep(s[0]) {
        assert ([""] + rest)[1..] == rest;
      } else {
        assert ([[s[0]] + rest[0]] + rest[1..])[1..] == rest[1..];
      }
    }
  }

  // ---------------------------------------------------------------------------
  // Whitespace collapsing
  // ---------------------------------------------------------------------------

  /**
   * `CharacterSet.whitespacesAndNewlines`: the Unicode space separators (Zs),
   * line and paragraph separators (Zl, Zp), U+0009 to U+000D and U+0085.
   */
  predicate IsWhitespace(c: char)
    ensures c == ' ' || c == '\t' || c == '\n' || c == '\r' ==> IsWhitespace(c)
    ensures '0' <= c <= '9' || 'A' <= c <= 'Z' || 'a' <= c <= 'z' || c == '/' || c == '.' ==> !IsWhitespace(c)
  {
    || c == ' ' || '\t' <= c <= '\r' || c == '\U{85}' || c == '\U{A0}' || c == '\U{1680}'
    || '\U{2000}' <= c <= '\U{200A}' || c == '\U{2028}' || c == '\U{2029}'
    || c == '\U{202F}' || c == '\U{205F}' || c == '\U{3000}'
  }

  /** Words: non-empty and free of whitespace. */
  predicate AreWords(ws: seq<string>) {
    forall k :: 0 <= k < |ws| ==> ws[k] != [] && NoneOf(ws[k], IsWhitespace)
  }

  /** `filter { !$0.isEmpty }`: the non-empty parts, all of them, in order (see `NonEmptyAppend`). */
  function NonEmpty(parts: seq<string>): (r: seq<string>)
    ensures |r| <= |parts|
    ensures forall k :: 0 <= k < |r| ==> r[k] != [] && r[k] in parts
    ensures forall k :: 0 <= k < |parts| && parts[k] != [] ==> parts[k] in r
  {
    if parts == [] then []
    else (if parts[0] == [] then [] else [parts[0]]) + NonEmpty(parts[1..])
  }

  /** The filter works part by part: it keeps the order of the parts it keeps. */
  lemma {:induction false} NonEmptyAppend(a: seq<string>, b: seq<string>)
    ensures NonEmpty(a + b) == NonEmpty(a) + NonEmpty(b)
    decreases |a|
  {
    if a == [] {
      assert a + b == b;
    } else {
      assert (a + b)[0] == a[0];
      assert (a + b)[1..] == a[1..] + b;
      NonEmptyAppend(a[1..], b);
    }
  }

  lemma {:induction false} ConcatNonEmpty(parts: seq<string>)
    ensures Concat(NonEmpty(parts)) == Concat(parts)
  {
    if parts != [] {
      ConcatNonEmpty(parts[1..]);
      var head := if parts[0] == [] then [] else [parts[0]];
      assert Concat(head + NonEmpty(parts[1..])) == Concat(head) + Concat(NonEmpty(parts[1..])) by {
        if head != [] {
          assert (head + NonEmpty(parts[1..]))[0] == parts[0];
          assert (head + NonEmpty(parts[1..]))[1..] == NonEmpty(parts[1..]);
        } else {
          assert head + NonEmpty(parts[1..]) == NonEmpty(parts[1..]);
        }
      }
    }
  }

  lemma {:induction false} NonEmptyOfWords(ws: seq<string>)
    requires forall k :: 0 <= k < |ws| ==> ws[k] != []
    ensures NonEmpty(ws) == ws
  {
    if ws != [] {
      NonEmptyOfWords(ws[1..]);
    }
  }

  /** The words of `s`: the whitespace-separated runs, empty ones dropped. */
  function Words(s: string): (r: seq<string>)
    ensures AreWords(r)
    ensures Concat(r) == Visible(s, IsWhitespace)
  {
    ConcatNonEmpty(Split(s, IsWhitespace));
    ConcatSplit(s, IsWhitespace);
    NonEmpty(Split(s, IsWhitespace))
  }

  /** The preview's one-line form: the words of `s` joined by single spaces. */
  function Collapse(s: string): (r: string)
    ensures SingleSpaced(r)
    ensures Visible(r, IsWhitespace) == Visible(s, IsWhitespace)
    ensures Words(r) == Words(s)
  {
    JoinWordsSingleSpaced(Words(s));
    VisibleJoinWords(Words(s));
    WordsOfJoin(Words(s));
    Join(Words(s), " ")
  }

  /**
   * The shape of collapsed text: every whitespace character is a plain space
   * with a non-whitespace character on each side, so there is no leading or
   * trailing whitespace, no line break and no run of spaces.
   */
  predicate SingleSpaced(t: string) {
    forall i :: 0 <= i < |t| && IsWhitespace(t[i]) ==>
      t[i] == ' ' && 0 < i < |t| - 1 && !IsWhitespace(t[i - 1]) && !IsWhitespace(t[i + 1])
  }

  lemma {:induction false} JoinWordsSingleSpaced(ws: seq<string>)
    requires AreWords(ws)
    ensures SingleSpaced(Join(ws, " "))
    ensures |ws| > 0 ==> Join(ws, " ") != [] && !IsWhitespace(Join(ws, " ")[0])
    decreases |ws|
  {
    if |ws| == 1 {
      assert NoneOf(ws[0], IsWhitespace);
    } else if |ws| > 1 {
      var w, rest := ws[0], Join(ws[1..], " ");
      JoinWordsSingleSpaced(ws[1..]);
      var t := w + " " + rest;
      assert Join(ws, " ") == t;
      assert NoneOf(w, IsWhitespace);
      forall i | 0 <= i < |t| && IsWhitespace(t[i])
        ensures t[i] == ' ' && 0 < i < |t| - 1 && !IsWhitespace(t[i - 1]) && !IsWhitespace(t[i + 1])
      {
        if i < |w| {
          assert false;
        } else if i == |w| {
          assert t[i - 1] == w[|w| - 1] && t[i + 1] == rest[0];
        } else {
          var j := i - |w| - 1;
          assert t[i] == rest[j];
          assert 0 < j < |rest| - 1;
          assert t[i - 1] == rest[j - 1] && t[i + 1] == rest[j + 1];
        }
      }
      assert t[0] == w[0];
    }
  }

  lemma {:induction false} VisibleJoinWords(ws: seq<string>)
    requires AreWords(ws)
    ensures Visible(Join(ws, " "), IsWhitespace) == Concat(ws)
    decreases |ws|
  {
    if |ws| == 1 {
      VisibleOfNoneOf(ws[0], IsWhitespace);
      assert Concat(ws[1..]) == "";
    } else if |ws| > 1 {
      var rest := Join(ws[1..], " ");
      VisibleJoinWords(ws[1..]);
      VisibleOfNoneOf(ws[0], IsWhitespace);
      VisibleAppend(ws[0] + " ", rest, IsWhitespace);
      VisibleAppend(ws[0], " ", IsWhitespace);
      assert Visible(" ", IsWhitespace) == "";
    }
  }

  /** Words joined by single spaces split back into those words: a space falls exactly at each word boundary. */
  lemma WordsOfJoin(ws: seq<string>)
    requires AreWords(ws)
    ensures Words(Join(ws, " ")) == ws
  {
    if ws == [] {
      assert Join(ws, " ") == "";
      assert Split("", IsWhitespace) == [""];
      assert NonEmpty([""]) == [];
    } else {
      assert IsWhitespace(' ');
      SplitJoin(ws, ' ', IsWhitespace);
      assert " " == [' '];
      NonEmptyOfWords(ws);
    }
  }

  /** Collapsing collapsed text changes nothing. */
  lemma CollapseIdempotent(s: string)
    ensures Collapse(Collapse(s)) == Collapse(s)
  {
  }

  // ---------------------------------------------------------------------------
  // Truncation
  // ---------------------------------------------------------------------------

  /** `String(s.prefix(limit)) + "..."` when `s` is longer than `limit`, else `s` itself. */
  function Truncate(s: string, limit: nat): (r: string)
    ensures |r| <= limit + 3
    ensures |r| > limit <==> |s| > limit
    ensures |s| <= limit ==> r == s
    ensures |s| > limit ==> r[..limit] == s[..limit] && r[limit..] == "..."
  {
    if |s| > limit then s[..limit] + "..." else s
  }

  /** Cutting a single-spaced line and appending the ellipsis keeps it single-spaced. */
  lemma TruncateSingleSpaced(s: string, limit: nat)
    requires SingleSpaced(s)
    ensures SingleSpaced(Truncate(s, limit))
  {
    if |s| > limit {
      var t := Truncate(s, limit);
      forall i | 0 <= i < |t| && IsWhitespace(t[i])
        ensures t[i] == ' ' && 0 < i < |t| - 1 && !IsWhitespace(t[i - 1]) && !IsWhitespace(t[i + 1])
      {
        assert i < limit && t[i] == s[i];
        assert t[i - 1] == s[i - 1];
        assert i + 1 < limit ==> t[i + 1] == s[i + 1];
      }
    }
  }

  // ---------------------------------------------------------------------------
  // Path components
  // ---------------------------------------------------------------------------

  function DropTrailingSlashes(p: string): (r: string)
    ensures r == [] || r[|r| - 1] != '/'
    ensures r <= p
  {
    if p != [] && p[|p| - 1] == '/' then DropTrailingSlashes(p[..|p| - 1]) else p
  }

  /** The longest suffix of `p` without a slash. */
  function AfterLastSlash(p: string): (r: string)
    ensures '/' !in r
    ensures |r| <= |p| && r == p[|p| - |r|..]
    ensures |r| < |p| ==> p[|p| - |r| - 1] == '/'
  {
    if p == [] || p[|p| - 1] == '/' then [] else AfterLastSlash(p[..|p| - 1]) + [p[|p| - 1]]
  }

  /**
   * `URL(fileURLWithPath:).lastPathComponent`, on '/'-separated paths:
   * trailing slashes are ignored, the root is "/".
   */
  function LastPathComponent(path: string): (r: string)
    ensures r == [] <==> path == []
    ensures r == "/" || '/' !in r
    ensures r != "/" ==> Contains(path, r)
  {
    var trimmed := DropTrailingSlashes(path);
    if trimmed == [] then (if path == [] then "" else "/")
    else
      var r := AfterLastSlash(trimmed);
      assert r != [] by { assert trimmed[|trimmed| - 1] != '/'; }
      assert OccursAt(path, r, |trimmed| - |r|) by { assert path[..|trimmed|] == trimmed; }
      r
  }

  lemma {:induction false} AfterLastSlashSuffix(dir: string, name: string)
    requires dir == [] || dir[|dir| - 1] == '/'
    requires '/' !in name
    ensures AfterLastSlash(dir + name) == name
    decreases |name|
  {
    if name == [] {
      assert dir + name == dir;
    } else {
      AfterLastSlashSuffix(dir, name[..|name| - 1]);
      AppendDropLast(dir, name);
    }
  }

  lemma AppendDropLast<T>(a: seq<T>, b: seq<T>)
    requires b != []
    ensures (a + b)[|a + b| - 1] == b[|b| - 1]
    ensures (a + b)[..|a + b| - 1] == a + b[..|b| - 1]
    ensures b[..|b| - 1] + [b[|b| - 1]] == b
  {
  }

  /** The last component of `dir/name` (with or without a trailing slash) is `name`. */
  lemma LastPathComponentOfPath(dir: string, name: string)
    requires name != [] && '/' !in name
    ensures LastPathComponent(dir + "/" + name) == name
    ensures LastPathComponent(dir + "/" + name + "/") == name
  {
    var p := dir + "/" + name;
    assert p[|p| - 1] == name[|name| - 1];
    assert DropTrailingSlashes(p) == p;
    assert (p + "/")[..|p + "/"| - 1] == p;
    AfterLastSlashSuffix(dir + "/", name);
  }
}
