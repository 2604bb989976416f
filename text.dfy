/**
 * The JavaScript string operations the G-code emitter and the DAT parser
 * use: `split` on one separator character, `join`, `trim`, and
 * `split(/\s+/)` applied to an already trimmed string.
 */
module Text {

  /**
   * The characters `String.prototype.trim` removes and `\s` matches:
   * ECMAScript WhiteSpace and LineTerminator code points.
   */
  predicate IsWhitespace(c: char) {
    || c == ' ' || c == '\t' || c == '\n' || c == '\r'
    || c == '\U{000B}' || c == '\U{000C}' || c == '\U{00A0}' || c == '\U{1680}'
    || ('\U{2000}' <= c <= '\U{200A}')
    || c == '\U{2028}' || c == '\U{2029}' || c == '\U{202F}' || c == '\U{205F}'
    || c == '\U{3000}' || c == '\U{FEFF}'
  }

  /** `s.split(sep)`: the pieces between separators, at least one, none holding `sep`. */
  function Split(s: string, sep: char): (parts: seq<string>)
    ensures |parts| >= 1
    ensures forall i :: 0 <= i < |parts| ==> sep !in parts[i]
    decreases |s|
  {
    if |s| == 0 then [""]
    else
      var rest := Split(s[1..], sep);
      if s[0] == sep then [""] + rest
      else [[s[0]] + rest[0]] + rest[1..]
  }

  /** `parts.join(sep)`. */
  function Join(parts: seq<string>, sep: char): (s: string)
    decreases |parts|
  {
    if |parts| == 0 then ""
    else if |parts| == 1 then parts[0]
    else parts[0] + [sep] + Join(parts[1..], sep)
  }

  lemma {:induction false} JoinConsHead(c: char, first: string, rest: seq<string>, sep: char)
    ensures Join([[c] + first] + rest, sep) == [c] + Join([first] + rest, sep)
  {
    if |rest| > 0 {
      assert ([[c] + first] + rest)[1..] == rest;
      assert ([first] + rest)[1..] == rest;
    }
  }

  /** Splitting and joining again gives back the original string. */
  lemma {:induction false} JoinSplit(s: string, sep: char)
    ensures Join(Split(s, sep), sep) == s
    decreases |s|
  {
    if |s| > 0 {
      var rest := Split(s[1..], sep);
      JoinSplit(s[1..], sep);
      if s[0] == sep {
        assert ([""] + rest)[1..] == rest;
        assert s == [sep] + s[1..];
      } else {
        assert rest == [rest[0]] + rest[1..];
        JoinConsHead(s[0], rest[0], rest[1..], sep);
        assert s == [s[0]] + s[1..];
      }
    }
  }

  /** A string without the separator splits into itself alone. */
  lemma {:induction false} SplitNoSeparator(w: string, sep: char)
    requires sep !in w
    ensures Split(w, sep) == [w]
    decreases |w|
  {
    if |w| > 0 {
      SplitNoSeparator(w[1..], sep);
      assert [w[0]] + w[1..] == w;
    }
  }

  /** Splitting `w + sep + t` cuts at the first separator when `w` has none. */
  lemma {:induction false} SplitAtSeparator(w: string, t: string, sep: char)
    requires sep !in w
    ensures Split(w + [sep] + t, sep) == [w] + Split(t, sep)
    decreases |w|
  {
    if |w| == 0 {
      assert w + [sep] + t == [sep] + t;
      assert (w + [sep] + t)[1..] == t;
    } else {
      assert (w + [sep] + t)[1..] == w[1..] + [sep] + t;
      SplitAtSeparator(w[1..], t, sep);
      assert [w[0]] + w[1..] == w;
    }
  }

  /**
   * Joining pieces that hold no separator and splitting again gives back the
   * pieces: the line count and every line survive the round trip.
   */
  lemma {:induction false} SplitJoin(parts: seq<string>, sep: char)
    requires |parts| >= 1
    requires forall i :: 0 <= i < |parts| ==> sep !in parts[i]
    ensures Split(Join(parts, sep), sep) == parts
    decreases |parts|
  {
    if |parts| == 1 {
      SplitNoSeparator(parts[0], sep);
    } else {
      SplitJoin(parts[1..], sep);
      SplitAtSeparator(parts[0], Join(parts[1..], sep), sep);
      assert [parts[0]] + parts[1..] == parts;
    }
  }

  /** `s.trimStart()`: drops the leading whitespace. */
  function TrimStart(s: string): (r: string)
    ensures |r| <= |s| && r == s[|s| - |r|..]
    ensures forall i :: 0 <= i < |s| - |r| ==> IsWhitespace(s[i])
    ensures |r| == 0 || !IsWhitespace(r[0])
    decreases |s|
  {
    if |s| > 0 && IsWhitespace(s[0]) then TrimStart(s[1..]) else s
  }

  /** `s.trimEnd()`: drops the trailing whitespace. */
  function TrimEnd(s: string): (r: string)
    ensures |r| <= |s| && r == s[..|r|]
    ensures forall i :: |r| <= i < |s| ==> IsWhitespace(s[i])
    ensures |r| == 0 || !IsWhitespace(r[|r| - 1])
    decreases |s|
  {
    if |s| > 0 && IsWhitespace(s[|s| - 1]) then TrimEnd(s[..|s| - 1]) else s
  }

  /** `s.trim()`. */
  function Trim(s: string): string {
    TrimEnd(TrimStart(s))
  }

  /**
   * The trimmed string is the slice of `s` that starts after the leading
   * whitespace and stops before the trailing whitespace, and it neither
   * starts nor ends with whitespace.
   */
  lemma TrimIsInnerSlice(s: string) returns (lo: nat, r: string)
    ensures r == Trim(s) && lo == |s| - |TrimStart(s)|
    ensures lo + |r| <= |s| && r == s[lo..lo + |r|]
    ensures forall i :: 0 <= i < lo ==> IsWhitespace(s[i])
    ensures forall i :: lo + |r| <= i < |s| ==> IsWhitespace(s[i])
    ensures |r| == 0 || (!IsWhitespace(r[0]) && !IsWhitespace(r[|r| - 1]))
  {
    var a := TrimStart(s);
    r := TrimEnd(a);
    lo := |s| - |a|;
    InnerSlice(s, a, r, lo);
    TrimEndKeepsStart(a);
  }

  /** Trimming the end of a string that starts with non-whitespace leaves both ends non-whitespace. */
  lemma TrimEndKeepsStart(a: string)
    requires |a| == 0 || !IsWhitespace(a[0])
    ensures var r := TrimEnd(a); |r| == 0 || (!IsWhitespace(r[0]) && !IsWhitespace(r[|r| - 1]))
  {
    var r := TrimEnd(a);
    if |r| > 0 {
      assert r[0] == a[0];
    }
  }

  /** A prefix `r` of the suffix `a` of `s` is a slice of `s`, and what follows it in `s` follows it in `a`. */
  lemma InnerSlice(s: string, a: string, r: string, lo: nat)
    requires lo <= |s| && a == s[lo..] && |r| <= |a| && r == a[..|r|]
    requires forall i :: |r| <= i < |a| ==> IsWhitespace(a[i])
    ensures lo + |r| <= |s| && r == s[lo..lo + |r|]
    ensures forall i :: lo + |r| <= i < |s| ==> IsWhitespace(s[i])
  {
    forall i | lo + |r| <= i < |s|
      ensures IsWhitespace(s[i])
    {
      assert s[i] == a[i - lo];
    }
  }

  /** The longest prefix of `s` holding no whitespace. */
  function Word(s: string): (w: string)
    ensures |w| <= |s| && w == s[..|w|]
    ensures forall i :: 0 <= i < |w| ==> !IsWhitespace(w[i])
    ensures |w| == |s| || IsWhitespace(s[|w|])
    decreases |s|
  {
    if |s| == 0 || IsWhitespace(s[0]) then "" else [s[0]] + Word(s[1..])
  }

  /**
   * The maximal whitespace-free runs of `s`, in order. On a trimmed string
   * (the only kind it is applied to) this is `s.split(/\s+/)`.
   */
  function Tokens(s: string): (toks: seq<string>)
    ensures forall i :: 0 <= i < |toks| ==> |toks[i]| > 0
    ensures forall i, j :: 0 <= i < |toks| && 0 <= j < |toks[i]| ==> !IsWhitespace(toks[i][j])
    decreases |s|
  {
    if |s| == 0 then []
    else if IsWhitespace(s[0]) then Tokens(s[1..])
    else
      var w := Word(s);
      [w] + Tokens(s[|w|..])
  }

  /** A string with a non-whitespace character has at least one token. */
  lemma {:induction false} TokensNonEmpty(s: string, k: nat)
    requires k < |s| && !IsWhitespace(s[k])
    ensures |Tokens(s)| >= 1
    decreases |s|
  {
    if IsWhitespace(s[0]) {
      TokensNonEmpty(s[1..], k - 1);
    }
  }

  /** A nonempty string without whitespace. */
  predicate IsWord(w: string) {
    |w| > 0 && forall i :: 0 <= i < |w| ==> !IsWhitespace(w[i])
  }

  /** `Word` reads a whole word up to the whitespace character after it. */
  lemma {:induction false} WordOfWordThen(w: string, rest: string)
    requires forall i :: 0 <= i < |w| ==> !IsWhitespace(w[i])
    requires |rest| == 0 || IsWhitespace(rest[0])
    ensures Word(w + rest) == w
    decreases |w|
  {
    if |w| > 0 {
      assert (w + rest)[1..] == w[1..] + rest;
      WordOfWordThen(w[1..], rest);
    } else {
      assert w + rest == rest;
    }
  }

  /** A run of whitespace characters, possibly empty. */
  predicate IsBlank(ws: string) {
    forall i :: 0 <= i < |ws| ==> IsWhitespace(ws[i])
  }

  /** Leading whitespace, however long, neither starts nor changes a token. */
  lemma {:induction false} TokensSkipBlank(ws: string, s: string)
    requires IsBlank(ws)
    ensures Tokens(ws + s) == Tokens(s)
    decreases |ws|
  {
    if |ws| == 0 {
      assert ws + s == s;
    } else {
      assert (ws + s)[0] == ws[0];
      assert (ws + s)[1..] == ws[1..] + s;
      TokensSkipBlank(ws[1..], s);
    }
  }

  /**
   * A word, then a nonempty whitespace run of any length, then anything:
   * the word is the first token and the run separates it from the rest.
   */
  lemma WordThenBlankTokens(w: string, ws: string, rest: string)
    requires IsWord(w) && IsBlank(ws) && |ws| > 0
    ensures Tokens(w + ws + rest) == [w] + Tokens(rest)
  {
    var s := w + ws + rest;
    WordOfWordThen(w, ws + rest);
    assert w + (ws + rest) == s;
    assert s[|w|..] == ws + rest;
    TokensSkipBlank(ws, rest);
  }

  /** Appending text that starts with whitespace does not lengthen the first word. */
  lemma {:induction false} WordBeforeBlank(s: string, t: string)
    requires |t| == 0 || IsWhitespace(t[0])
    ensures Word(s + t) == Word(s)
    decreases |s|
  {
    if |s| == 0 {
      assert s + t == t;
    } else if !IsWhitespace(s[0]) {
      assert (s + t)[1..] == s[1..] + t;
      WordBeforeBlank(s[1..], t);
    }
  }

  /** Trailing whitespace after a string that does not end in whitespace adds no token. */
  lemma {:induction false} TokensDropBlank(s: string, ws: string)
    requires IsBlank(ws)
    requires |s| == 0 || !IsWhitespace(s[|s| - 1])
    ensures Tokens(s + ws) == Tokens(s)
    decreases |s|
  {
    if |ws| == 0 {
      assert s + ws == s;
    } else if |s| == 0 {
      assert s + ws == ws + s;
      TokensSkipBlank(ws, s);
    } else if IsWhitespace(s[0]) {
      assert (s + ws)[0] == s[0];
      assert (s + ws)[1..] == s[1..] + ws;
      TokensDropBlank(s[1..], ws);
    } else {
      WordBeforeBlank(s, ws);
      var w := Word(s);
      var tail := s[|w|..];
      assert (s + ws)[|w|..] == tail + ws;
      assert |tail| == 0 || tail[|tail| - 1] == s[|s| - 1];
      TokensDropBlank(tail, ws);
    }
  }

  /**
   * Trimming first changes no token: `Tokens` of the trimmed string, which is
   * what `s.trim().split(/\s+/)` computes, equals `Tokens(s)`.
   */
  lemma TokensOfTrim(s: string)
    ensures Tokens(Trim(s)) == Tokens(s)
  {
    var lo, r := TrimIsInnerSlice(s);
    var pre, post := SplitAroundSlice(s, lo, r);
    TokensOfPadded(pre, r, post);
  }

  /** A slice with whitespace on both sides splits `s` into whitespace, the slice, whitespace. */
  lemma SplitAroundSlice(s: string, lo: nat, r: string) returns (pre: string, post: string)
    requires lo + |r| <= |s| && r == s[lo..lo + |r|]
    requires forall i :: 0 <= i < lo ==> IsWhitespace(s[i])
    requires forall i :: lo + |r| <= i < |s| ==> IsWhitespace(s[i])
    ensures s == pre + (r + post)
    ensures IsBlank(pre) && IsBlank(post)
  {
    pre, post := s[..lo], s[lo + |r|..];
    assert s[lo..] == r + post;
    assert s == pre + s[lo..];
  }

  /** Whitespace runs around a string that does not end in whitespace add no token. */
  lemma TokensOfPadded(pre: string, r: string, post: string)
    requires IsBlank(pre) && IsBlank(post)
    requires |r| == 0 || !IsWhitespace(r[|r| - 1])
    ensures Tokens(pre + (r + post)) == Tokens(r)
  {
    TokensSkipBlank(pre, r + post);
    TokensDropBlank(r, post);
  }

  /** A single word is a single token. */
  lemma SingleWordTokens(w: string)
    requires IsWord(w)
    ensures Tokens(w) == [w]
  {
    WordOfWordThen(w, "");
    assert w + "" == w;
    assert w[|w|..] == "";
  }

  /** A string that starts and ends with non-whitespace is its own trim. */
  lemma TrimOfTrimmed(s: string)
    requires |s| > 0 && !IsWhitespace(s[0]) && !IsWhitespace(s[|s| - 1])
    ensures Trim(s) == s
  {
    var a := TrimStart(s);
    assert |a| == |s|;
    assert a == s;
    var b := TrimEnd(a);
    assert |b| == |a|;
  }

  /** A string of whitespace only trims to the empty string. */
  lemma TrimOfBlank(s: string)
    requires IsBlank(s)
    ensures Trim(s) == ""
  {
  }
}
