/** The JavaScript string operations the request authenticator relies on:
    `startsWith`, `split` on a single character, `trim`, and truthiness of
    an optional string. Strings are sequences of characters. */
module JsString {
  import opened Wrappers

  /** Characters removed by `String.prototype.trim`: the WhiteSpace and
      LineTerminator code points of ECMA-262 (sections 12.2 and 12.3). */
  predicate IsWhitespace(c: char) {
    || c == '\t' || c == '\n' || c == '\U{B}' || c == '\U{C}' || c == '\r'
    || c == ' ' || c == '\U{A0}' || c == '\U{1680}'
    || ('\U{2000}' <= c <= '\U{200A}')
    || c == '\U{2028}' || c == '\U{2029}' || c == '\U{202F}' || c == '\U{205F}'
    || c == '\U{3000}' || c == '\U{FEFF}'
  }

  /** Every character of `s` is whitespace (true of the empty string). */
  predicate Blank(s: string) {
    forall i :: 0 <= i < |s| ==> IsWhitespace(s[i])
  }

  /** No character of `s` is whitespace. */
  predicate NoWhitespace(s: string) {
    forall i :: 0 <= i < |s| ==> !IsWhitespace(s[i])
  }

  /** `s` neither starts nor ends with whitespace: the strings `trim` leaves alone. */
  predicate Trimmed(s: string) {
    s == [] || (!IsWhitespace(s[0]) && !IsWhitespace(s[|s| - 1]))
  }

  /** JavaScript truthiness of a value that is either `undefined` or a
      string: only a non-empty string is truthy. */
  predicate Truthy(v: Option<string>) {
    v.Some? && v.value != ""
  }

  /** `s.startsWith(prefix)`. */
  predicate StartsWith(s: string, prefix: string) {
    prefix <= s
  }

  /** Helper for `Split` and `FirstField`: the position of the first
      occurrence of `c` in `s`. */
  function IndexOf(s: string, c: char): (i: nat)
    requires c in s
    ensures i < |s| && s[i] == c && c !in s[..i]
  {
    if s[0] == c then 0
    else
      var j := IndexOf(s[1..], c);
      assert s[..j + 1] == [s[0]] + s[1..][..j];
      j + 1
  }

  /** Any position holding `c` with no earlier `c` is the one `IndexOf` finds. */
  lemma IndexOfUnique(s: string, c: char, i: nat)
    requires i < |s| && s[i] == c && c !in s[..i]
    ensures IndexOf(s, c) == i
  {
  }

  /** `fields.join(sep)` with a one-character separator. */
  function Join(fields: seq<string>, sep: char): string {
    if |fields| == 0 then ""
    else if |fields| == 1 then fields[0]
    else fields[0] + [sep] + Join(fields[1..], sep)
  }

  /** `s.split(sep)` for a one-character separator: the maximal runs of
      `s` between occurrences of `sep`, always at least one (possibly
      empty) field. */
  function Split(s: string, sep: char): (fields: seq<string>)
    ensures |fields| >= 1
    ensures sep in s <==> |fields| >= 2
    ensures forall i :: 0 <= i < |fields| ==> sep !in fields[i]
    ensures Join(fields, sep) == s
    decreases |s|
  {
    if sep !in s then [s]
    else
      var i := IndexOf(s, sep);
      var rest := Split(s[i + 1..], sep);
      assert s == s[..i] + [sep] + s[i + 1..];
      assert ([s[..i]] + rest)[1..] == rest;
      [s[..i]] + rest
  }

  /** `split` is the inverse of `join` on fields free of the separator:
      the fields are determined by the string. */
  lemma {:induction false} SplitJoin(fields: seq<string>, sep: char)
    requires |fields| >= 1
    requires forall i :: 0 <= i < |fields| ==> sep !in fields[i]
    ensures Split(Join(fields, sep), sep) == fields
    decreases |fields|
  {
    if |fields| > 1 {
      var f := fields[0];
      var tail := Join(fields[1..], sep);
      var s := f + [sep] + tail;
      assert Join(fields, sep) == s;
      assert s[..|f|] == f;
      assert s[|f| + 1..] == tail;
      IndexOfUnique(s, sep, |f|);
      SplitCons(s, sep);
      SplitJoin(fields[1..], sep);
      assert fields == [f] + fields[1..];
    }
  }

  /** The first field of `s.split(sep)`: everything before the first `sep`. */
  function FirstField(s: string, sep: char): (f: string)
    ensures f <= s && sep !in f
    ensures |f| < |s| ==> s[|f|] == sep
  {
    if sep in s then s[..IndexOf(s, sep)] else s
  }

  /** The field list of a string is its first field followed by the
      fields of what comes after the first separator. */
  lemma SplitCons(s: string, sep: char)
    requires sep in s
    ensures Split(s, sep) == [FirstField(s, sep)] + Split(s[IndexOf(s, sep) + 1..], sep)
  {
  }

  /** `t` is `s` with a blank prefix cut off. */
  predicate CutsBlankPrefix(s: string, t: string) {
    |t| <= |s| && t == s[|s| - |t|..] && Blank(s[..|s| - |t|])
  }

  /** `r` is `t` with a blank suffix cut off. */
  predicate CutsBlankSuffix(t: string, r: string) {
    r <= t && Blank(t[|r|..])
  }

  /** `s.trimStart()`: drops the leading whitespace and nothing else. */
  function TrimStart(s: string): (r: string)
    ensures CutsBlankPrefix(s, r)
    ensures r == [] || !IsWhitespace(r[0])
  {
    if |s| > 0 && IsWhitespace(s[0]) then
      var r := TrimStart(s[1..]);
      var n := |s| - |r|;
      assert s[1..][n - 1..] == s[n..];
      assert Blank(s[..n]) by {
        forall i | 0 < i < n ensures IsWhitespace(s[..n][i]) {
          assert s[..n][i] == s[1..][..n - 1][i - 1];
        }
      }
      r
    else s
  }

  /** `s.trimEnd()`: drops the trailing whitespace and nothing else. */
  function TrimEnd(s: string): (r: string)
    ensures CutsBlankSuffix(s, r)
    ensures r == [] || !IsWhitespace(r[|r| - 1])
  {
    if |s| > 0 && IsWhitespace(s[|s| - 1]) then
      var r := TrimEnd(s[..|s| - 1]);
      assert Blank(s[|r|..]) by {
        forall i | |r| <= i < |s| - 1 ensures IsWhitespace(s[i]) {
          assert s[..|s| - 1][|r|..][i - |r|] == s[i];
        }
      }
      r
    else s
  }

  /** `r` is what is left of `s` once a blank prefix and a blank suffix
      are cut off: a contiguous section of `s` with only whitespace around it. */
  ghost predicate BlankEndsOf(s: string, r: string) {
    exists pre, post :: s == pre + r + post && Blank(pre) && Blank(post)
  }

  /** Cutting a blank prefix and then a blank suffix leaves a middle
      section of the original string between two blank ends. */
  lemma CutBlankEnds(s: string, t: string, r: string)
    requires CutsBlankPrefix(s, t) && CutsBlankSuffix(t, r)
    ensures BlankEndsOf(s, r)
  {
    var pre, post := s[..|s| - |t|], t[|r|..];
    assert t == r + post;
    assert s == pre + t;
    assert s == pre + r + post;
  }

  /** When the prefix cut was maximal, the middle section is empty
      exactly when the whole string is blank. */
  lemma CutBlankEndsEmpty(s: string, t: string, r: string)
    requires CutsBlankPrefix(s, t) && CutsBlankSuffix(t, r)
    requires t == [] || !IsWhitespace(t[0])
    ensures r == [] <==> Blank(s)
  {
    if r == [] {
      assert Blank(t[0..]);
      assert t == [];
      assert s[..|s| - |t|] == s;
    } else {
      assert !Blank(s) by {
        assert s[|s| - |t|] == t[0];
      }
    }
  }

  /** When both cuts were maximal, the middle section is trimmed, and it
      is the whole string when there was no surrounding whitespace. */
  lemma CutBlankEndsTrimmed(s: string, t: string, r: string)
    requires CutsBlankPrefix(s, t) && CutsBlankSuffix(t, r)
    requires t == [] || !IsWhitespace(t[0])
    requires r == [] || !IsWhitespace(r[|r| - 1])
    ensures Trimmed(r)
    ensures Trimmed(s) ==> r == s
  {
    if r != [] {
      assert r[0] == t[0];
    }
    if |t| < |s| {
      assert s[..|s| - |t|][0] == s[0];
    }
    if |r| < |t| {
      assert t[|r|..][|t| - |r| - 1] == t[|t| - 1];
    }
  }

  /** `s.trim()`: `s` with leading and trailing whitespace removed. The
      result is the middle of `s` between a blank prefix and a blank
      suffix; it neither starts nor ends with whitespace, is empty exactly
      when `s` is blank, and equals `s` when `s` has no surrounding
      whitespace. */
  function Trim(s: string): (r: string)
    ensures Trimmed(r)
    ensures |r| <= |s|
    ensures BlankEndsOf(s, r)
    ensures r == [] <==> Blank(s)
    ensures Trimmed(s) ==> r == s
  {
    var t := TrimStart(s);
    var r := TrimEnd(t);
    CutBlankEnds(s, t, r);
    CutBlankEndsEmpty(s, t, r);
    CutBlankEndsTrimmed(s, t, r);
    r
  }

  /** Trimming is idempotent. */
  lemma TrimIdempotent(s: string)
    ensures Trim(Trim(s)) == Trim(s)
  {
  }
}
