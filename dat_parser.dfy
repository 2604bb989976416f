/**
 * src/utils/datParser.ts: reads an airfoil `.dat` file, one "X Y" pair per
 * line. Lines are taken one at a time, in file order; a line contributes a
 * point exactly when its first two whitespace-separated tokens both parse as
 * numbers, and contributes nothing otherwise.
 */
module DatParser {
  import opened Wrappers
  import opened Types
  import opened Text

  /**
   * `parseFloat`, which this model takes as a parameter: `None` stands for
   * a `NaN` result.
   */
  type ParseFloat = string -> Option<real>

  /** The point one line contributes, if any. */
  function LinePoint(parseFloat: ParseFloat, line: string): Option<Point> {
    var trimmed := Trim(line);
    if |trimmed| == 0 then None
    else TokensPoint(parseFloat, Tokens(trimmed))
  }

  /** The point named by the first two tokens, when both parse as numbers. */
  function TokensPoint(parseFloat: ParseFloat, parts: seq<string>): Option<Point> {
    if |parts| >= 2 then
      match (parseFloat(parts[0]), parseFloat(parts[1]))
      case (Some(x), Some(y)) => Some(Point(x, y))
      case _ => None
    else None
  }

  /** What one line adds to the result: its point, or nothing. */
  function Added(parseFloat: ParseFloat, line: string): seq<Point> {
    match LinePoint(parseFloat, line)
    case Some(p) => [p]
    case None => []
  }

  /** The points of `lines`, in order. */
  function LinesPoints(parseFloat: ParseFloat, lines: seq<string>): seq<Point>
    decreases |lines|
  {
    if |lines| == 0 then []
    else LinesPoints(parseFloat, lines[..|lines| - 1]) + Added(parseFloat, lines[|lines| - 1])
  }

  /** The points of a whole file. */
  function DatPoints(parseFloat: ParseFloat, content: string): seq<Point> {
    LinesPoints(parseFloat, Split(content, '\n'))
  }

  /** `parseDatFile(content)`: the `for…of` loop over the lines, with its `continue`. */
  method ParseDatFile(parseFloat: ParseFloat, content: string) returns (points: seq<Point>)
    ensures points == DatPoints(parseFloat, content)
  {
    points := [];
    var lines := Split(content, '\n');
    for i := 0 to |lines|
      invariant points == LinesPoints(parseFloat, lines[..i])
    {
      var line := lines[i];
      assert LinesPoints(parseFloat, lines[..i + 1]) == points + Added(parseFloat, line) by {
        assert lines[..i + 1][..i] == lines[..i];
      }
      var trimmed := Trim(line);
      if |trimmed| == 0 {
        assert Added(parseFloat, line) == [];
        continue;
      }
      var parts := Tokens(trimmed);
      assert LinePoint(parseFloat, line) == TokensPoint(parseFloat, parts);
      if |parts| >= 2 {
        var x := parseFloat(parts[0]);
        var y := parseFloat(parts[1]);
        if x.Some? && y.Some? {
          points := points + [Point(x.value, y.value)];
        }
      }
    }
    assert lines[..|lines|] == lines;
  }

  /** Lines are handled independently: the points of two runs of lines concatenate. */
  lemma {:induction false} LinesPointsAppend(parseFloat: ParseFloat, a: seq<string>, b: seq<string>)
    ensures LinesPoints(parseFloat, a + b) == LinesPoints(parseFloat, a) + LinesPoints(parseFloat, b)
    decreases |b|
  {
    if |b| == 0 {
      assert a + b == a;
    } else {
      var init := b[..|b| - 1];
      assert (a + b)[..|a + b| - 1] == a + init;
      LinesPointsAppend(parseFloat, a, init);
    }
  }

  /** Each line yields at most one point, so a file has at most one point per line. */
  lemma {:induction false} AtMostOnePointPerLine(parseFloat: ParseFloat, lines: seq<string>)
    ensures |LinesPoints(parseFloat, lines)| <= |lines|
    decreases |lines|
  {
    if |lines| > 0 {
      AtMostOnePointPerLine(parseFloat, lines[..|lines| - 1]);
    }
  }

  /**
   * A file written as separate lines joined by '\n' yields the points of
   * those lines, in order; so no point is lost or reordered by the split.
   */
  lemma FilePointsAreLinePoints(parseFloat: ParseFloat, lines: seq<string>)
    requires |lines| >= 1
    requires forall i :: 0 <= i < |lines| ==> '\n' !in lines[i]
    ensures DatPoints(parseFloat, Join(lines, '\n')) == LinesPoints(parseFloat, lines)
    ensures |DatPoints(parseFloat, Join(lines, '\n'))| <= |lines|
  {
    SplitJoin(lines, '\n');
    AtMostOnePointPerLine(parseFloat, lines);
  }

  /**
   * The `trim` and the empty-line `continue` change no outcome: a line's
   * point is the one its first two tokens name.
   */
  lemma LinePointOfTokens(parseFloat: ParseFloat, line: string)
    ensures LinePoint(parseFloat, line) == TokensPoint(parseFloat, Tokens(line))
  {
    TokensOfTrim(line);
  }

  /** A line holding only whitespace yields no point. */
  lemma BlankLineNoPoint(parseFloat: ParseFloat, line: string)
    requires IsBlank(line)
    ensures LinePoint(parseFloat, line) == None
  {
    TrimOfBlank(line);
  }

  /** A line holding a single token, with any whitespace around it, yields no point. */
  lemma SingleTokenNoPoint(parseFloat: ParseFloat, lead: string, w: string, trail: string)
    requires IsBlank(lead) && IsWord(w) && IsBlank(trail)
    ensures LinePoint(parseFloat, lead + w + trail) == None
  {
    var line, mid := lead + w + trail, w + trail;
    assert line == lead + mid;
    TokensSkipBlank(lead, mid);
    TokensDropBlank(w, trail);
    SingleWordTokens(w);
    assert Tokens(line) == [w];
    LinePointOfTokens(parseFloat, line);
  }

  /**
   * "X Y" with any whitespace before, between and after (as in
   * "  1.000000  0.001260\r") yields the point (X, Y) when both tokens are
   * numeric, and no point otherwise.
   */
  lemma TwoTokenLine(parseFloat: ParseFloat, lead: string, xs: string, sep: string, ys: string, trail: string)
    requires IsBlank(lead) && IsBlank(sep) && |sep| > 0 && IsBlank(trail)
    requires IsWord(xs) && IsWord(ys)
    ensures var p := LinePoint(parseFloat, lead + xs + sep + ys + trail);
      && (parseFloat(xs).Some? && parseFloat(ys).Some? ==> p == Some(Point(parseFloat(xs).value, parseFloat(ys).value)))
      && (parseFloat(xs).None? || parseFloat(ys).None? ==> p == None)
  {
    var line := lead + xs + sep + ys + trail;
    PaddedPairTokens(lead, xs, sep, ys, trail);
    LinePointOfTokens(parseFloat, line);
  }

  /** Two words separated and surrounded by whitespace runs are exactly two tokens. */
  lemma PaddedPairTokens(lead: string, xs: string, sep: string, ys: string, trail: string)
    requires IsBlank(lead) && IsBlank(sep) && |sep| > 0 && IsBlank(trail)
    requires IsWord(xs) && IsWord(ys)
    ensures Tokens(lead + xs + sep + ys + trail) == [xs, ys]
  {
    var mid := xs + sep + (ys + trail);
    assert lead + xs + sep + ys + trail == lead + mid;
    TokensSkipBlank(lead, mid);
    WordThenBlankTokens(xs, sep, ys + trail);
    TrailedWordTokens(ys, trail);
  }

  /** A word followed by a whitespace run is one token. */
  lemma TrailedWordTokens(w: string, trail: string)
    requires IsWord(w) && IsBlank(trail)
    ensures Tokens(w + trail) == [w]
  {
    TokensDropBlank(w, trail);
    SingleWordTokens(w);
  }

  /**
   * Whatever follows the second token after whitespace is ignored:
   * "X Y <anything>" yields what "X Y" yields.
   */
  lemma ExtraTokensIgnored(parseFloat: ParseFloat, lead: string, xs: string, sep: string, ys: string, sep2: string, rest: string)
    requires IsBlank(lead) && IsBlank(sep) && |sep| > 0 && IsBlank(sep2) && |sep2| > 0
    requires IsWord(xs) && IsWord(ys)
    ensures LinePoint(parseFloat, lead + xs + sep + ys + sep2 + rest) == LinePoint(parseFloat, xs + [' '] + ys)
  {
    var line := lead + xs + sep + ys + sep2 + rest;
    LeadingPairTokens(lead, xs, sep, ys, sep2, rest);
    LinePointOfTokens(parseFloat, line);
    assert TokensPoint(parseFloat, [xs, ys] + Tokens(rest)) == TokensPoint(parseFloat, [xs, ys]);
    SpacedPairPoint(parseFloat, xs, ys);
  }

  /** The first two tokens of a line that starts, after whitespace, with two words and more whitespace. */
  lemma LeadingPairTokens(lead: string, xs: string, sep: string, ys: string, sep2: string, rest: string)
    requires IsBlank(lead) && IsBlank(sep) && |sep| > 0 && IsBlank(sep2) && |sep2| > 0
    requires IsWord(xs) && IsWord(ys)
    ensures Tokens(lead + xs + sep + ys + sep2 + rest) == [xs, ys] + Tokens(rest)
  {
    var mid := xs + sep + (ys + sep2 + rest);
    assert lead + xs + sep + ys + sep2 + rest == lead + mid;
    TokensSkipBlank(lead, mid);
    PairTokens(xs, sep, ys, sep2, rest);
  }

  /** Two words, each followed by a whitespace run, are the first two tokens. */
  lemma PairTokens(xs: string, sep: string, ys: string, sep2: string, rest: string)
    requires IsBlank(sep) && |sep| > 0 && IsBlank(sep2) && |sep2| > 0
    requires IsWord(xs) && IsWord(ys)
    ensures Tokens(xs + sep + (ys + sep2 + rest)) == [xs, ys] + Tokens(rest)
  {
    WordThenBlankTokens(xs, sep, ys + sep2 + rest);
    WordThenBlankTokens(ys, sep2, rest);
  }

  /** "X Y" with one space names the point of its two tokens. */
  lemma SpacedPairPoint(parseFloat: ParseFloat, xs: string, ys: string)
    requires IsWord(xs) && IsWord(ys)
    ensures LinePoint(parseFloat, xs + [' '] + ys) == TokensPoint(parseFloat, [xs, ys])
  {
    var short := xs + [' '] + ys;
    WordThenBlankTokens(xs, [' '], ys);
    SingleWordTokens(ys);
    assert Tokens(short) == [xs, ys];
    LinePointOfTokens(parseFloat, short);
  }
}
