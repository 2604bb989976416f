/**
 * src/geometry/gcode.ts: serializes a polyline as G-code. A non-empty
 * polyline gives the units line (G21 millimetres, G20 inches), G90 absolute
 * distance mode, one G0 rapid move to the first point, the feed declaration
 * `G1 F...`, one G1 linear move per remaining point, and M2 program end
 * (sections 3.5 and 3.6 of the NIST RS274NGC Interpreter, version 3), all
 * joined by newlines. Coordinates are written as `(value - origin) * scale`.
 */
module GCode {
  import opened Types
  import opened Text

  datatype Units = Mm | Inch

  datatype GCodeOptions = GCodeOptions(feedRate: real, units: Units, origin: Point, scale: real)

  /**
   * `Number.prototype.toFixed(digits)`, taken as a parameter: decimal text
   * for a value, which never holds a line feed.
   */
  type ToFixed = f: (real, nat) -> string | forall x, d :: '\n' !in f(x, d)
    witness (x: real, d: nat) => "0"

  /** A drawing coordinate in machine space: `(v - origin) * scale`. */
  function ToMachine(v: real, origin: real, scale: real): real {
    (v - origin) * scale
  }

  function UnitsLine(units: Units): string {
    if units == Mm then "G21" else "G20"
  }

  /** The G0 rapid move to `p`, coordinates with three decimals. */
  function RapidLine(p: Point, opt: GCodeOptions, toFixed: ToFixed): string {
    "G0 X" + toFixed(ToMachine(p.x, opt.origin.x, opt.scale), 3)
      + " Y" + toFixed(ToMachine(p.y, opt.origin.y, opt.scale), 3)
  }

  function FeedLine(opt: GCodeOptions, toFixed: ToFixed): string {
    "G1 F" + toFixed(opt.feedRate, 1)
  }

  /** The G1 linear move to `p`, coordinates with three decimals. */
  function MoveLine(p: Point, opt: GCodeOptions, toFixed: ToFixed): string {
    "G1 X" + toFixed(ToMachine(p.x, opt.origin.x, opt.scale), 3)
      + " Y" + toFixed(ToMachine(p.y, opt.origin.y, opt.scale), 3)
  }

  /** One G1 line per point, in order. */
  function MoveLines(pts: seq<Point>, opt: GCodeOptions, toFixed: ToFixed): (lines: seq<string>)
    ensures |lines| == |pts|
    ensures forall i :: 0 <= i < |pts| ==> lines[i] == MoveLine(pts[i], opt, toFixed)
    decreases |pts|
  {
    if |pts| == 0 then []
    else MoveLines(pts[..|pts| - 1], opt, toFixed) + [MoveLine(pts[|pts| - 1], opt, toFixed)]
  }

  /** The lines of the program; none for an empty polyline. */
  function GCodeLines(polyline: seq<Point>, opt: GCodeOptions, toFixed: ToFixed): seq<string> {
    if |polyline| == 0 then []
    else
      var header := [UnitsLine(opt.units), "G90", RapidLine(polyline[0], opt, toFixed), FeedLine(opt, toFixed)];
      header + MoveLines(polyline[1..], opt, toFixed) + ["M2"]
  }

  /** `generateGCode(polyline, opt)`. */
  method GenerateGCode(polyline: seq<Point>, opt: GCodeOptions, toFixed: ToFixed) returns (text: string)
    ensures text == Join(GCodeLines(polyline, opt, toFixed), '\n')
  {
    if |polyline| == 0 {
      return "";
    }
    var lines: seq<string> := [];
    lines := lines + [if opt.units == Mm then "G21" else "G20"];
    lines := lines + ["G90"];
    var start := polyline[0];
    var sx := (start.x - opt.origin.x) * opt.scale;
    var sy := (start.y - opt.origin.y) * opt.scale;
    lines := lines + ["G0 X" + toFixed(sx, 3) + " Y" + toFixed(sy, 3)];
    lines := lines + ["G1 F" + toFixed(opt.feedRate, 1)];
    HeaderComputed(polyline, opt, toFixed, sx, sy, lines);
    lines := PushMoves(lines, polyline, opt, toFixed);
    lines := lines + ["M2"];
    text := Join(lines, '\n');
  }

  /** The `for` loop over the points after the first: one G1 line each, pushed after `lines`. */
  method PushMoves(lines: seq<string>, polyline: seq<Point>, opt: GCodeOptions, toFixed: ToFixed) returns (result: seq<string>)
    requires |polyline| > 0
    ensures result == lines + MoveLines(polyline[1..], opt, toFixed)
  {
    result := lines;
    for i := 1 to |polyline|
      invariant result == lines + MoveLines(polyline[1..i], opt, toFixed)
    {
      var p := polyline[i];
      var x := (p.x - opt.origin.x) * opt.scale;
      var y := (p.y - opt.origin.y) * opt.scale;
      MoveLineStep(polyline, opt, toFixed, i, x, y);
      result := result + ["G1 X" + toFixed(x, 3) + " Y" + toFixed(y, 3)];
    }
    assert polyline[1..|polyline|] == polyline[1..];
  }

  /** The four header lines the method pushes are those of `GCodeLines`. */
  lemma HeaderComputed(polyline: seq<Point>, opt: GCodeOptions, toFixed: ToFixed, sx: real, sy: real, lines: seq<string>)
    requires |polyline| > 0
    requires sx == (polyline[0].x - opt.origin.x) * opt.scale && sy == (polyline[0].y - opt.origin.y) * opt.scale
    requires lines == [if opt.units == Mm then "G21" else "G20"] + ["G90"]
      + ["G0 X" + toFixed(sx, 3) + " Y" + toFixed(sy, 3)] + ["G1 F" + toFixed(opt.feedRate, 1)]
    ensures lines == [UnitsLine(opt.units), "G90", RapidLine(polyline[0], opt, toFixed), FeedLine(opt, toFixed)]
  {
    assert sx == ToMachine(polyline[0].x, opt.origin.x, opt.scale);
    assert sy == ToMachine(polyline[0].y, opt.origin.y, opt.scale);
  }

  /** The move line the loop pushes for point `i` is `MoveLine`'s, appended to the earlier moves. */
  lemma MoveLineStep(polyline: seq<Point>, opt: GCodeOptions, toFixed: ToFixed, i: nat, x: real, y: real)
    requires 1 <= i < |polyline|
    requires x == (polyline[i].x - opt.origin.x) * opt.scale && y == (polyline[i].y - opt.origin.y) * opt.scale
    ensures MoveLines(polyline[1..i + 1], opt, toFixed)
      == MoveLines(polyline[1..i], opt, toFixed) + ["G1 X" + toFixed(x, 3) + " Y" + toFixed(y, 3)]
  {
    assert x == ToMachine(polyline[i].x, opt.origin.x, opt.scale);
    assert y == ToMachine(polyline[i].y, opt.origin.y, opt.scale);
    assert polyline[1..i + 1][..i - 1] == polyline[1..i];
  }

  /** An empty polyline gives the empty program: no header at all. */
  lemma EmptyPolylineEmptyProgram(opt: GCodeOptions, toFixed: ToFixed)
    ensures Join(GCodeLines([], opt, toFixed), '\n') == ""
  {
  }

  /** Whether a line is a G0 rapid move. */
  predicate IsRapid(line: string) {
    |line| >= 2 && line[..2] == "G0"
  }

  /** No line of the program holds a line feed. */
  lemma {:induction false} LinesHoldNoNewline(polyline: seq<Point>, opt: GCodeOptions, toFixed: ToFixed)
    ensures forall i :: 0 <= i < |GCodeLines(polyline, opt, toFixed)| ==> '\n' !in GCodeLines(polyline, opt, toFixed)[i]
  {
    forall p: Point
      ensures '\n' !in RapidLine(p, opt, toFixed) && '\n' !in MoveLine(p, opt, toFixed)
    {
      var a := toFixed(ToMachine(p.x, opt.origin.x, opt.scale), 3);
      var b := toFixed(ToMachine(p.y, opt.origin.y, opt.scale), 3);
      assert RapidLine(p, opt, toFixed) == "G0 X" + a + " Y" + b;
      assert MoveLine(p, opt, toFixed) == "G1 X" + a + " Y" + b;
    }
    assert '\n' !in FeedLine(opt, toFixed) by {
      assert FeedLine(opt, toFixed) == "G1 F" + toFixed(opt.feedRate, 1);
    }
  }

  /**
   * Splitting the text of a non-empty polyline's program on line feeds gives
   * `|polyline| + 4` lines: the units line, G90, the only G0 line (to the
   * first point), the feed declaration, one G1 line per further point in
   * order, and M2 last.
   */
  lemma ProgramLines(polyline: seq<Point>, opt: GCodeOptions, toFixed: ToFixed)
    requires |polyline| > 0
    ensures var lines := Split(Join(GCodeLines(polyline, opt, toFixed), '\n'), '\n');
      && |lines| == |polyline| + 4
      && lines[0] == (if opt.units == Mm then "G21" else "G20")
      && lines[1] == "G90"
      && lines[2] == RapidLine(polyline[0], opt, toFixed)
      && lines[3] == FeedLine(opt, toFixed)
      && (forall i :: 1 <= i < |polyline| ==> lines[i + 3] == MoveLine(polyline[i], opt, toFixed))
      && lines[|lines| - 1] == "M2"
      && IsRapid(lines[2])
      && (forall i :: 0 <= i < |lines| && i != 2 ==> !IsRapid(lines[i]))
  {
    var lines := GCodeLines(polyline, opt, toFixed);
    GCodeLinesShape(polyline, opt, toFixed);
    LinesHoldNoNewline(polyline, opt, toFixed);
    SplitJoin(lines, '\n');
    SingleRapidMove(polyline, opt, toFixed);
  }

  /** The program lines of a non-empty polyline, one by one. */
  lemma GCodeLinesShape(polyline: seq<Point>, opt: GCodeOptions, toFixed: ToFixed)
    requires |polyline| > 0
    ensures var lines := GCodeLines(polyline, opt, toFixed);
      && |lines| == |polyline| + 4
      && lines[0] == UnitsLine(opt.units)
      && lines[1] == "G90"
      && lines[2] == RapidLine(polyline[0], opt, toFixed)
      && lines[3] == FeedLine(opt, toFixed)
      && (forall i :: 1 <= i < |polyline| ==> lines[i + 3] == MoveLine(polyline[i], opt, toFixed))
      && lines[|lines| - 1] == "M2"
  {
    var header := [UnitsLine(opt.units), "G90", RapidLine(polyline[0], opt, toFixed), FeedLine(opt, toFixed)];
    var moves := MoveLines(polyline[1..], opt, toFixed);
    var lines := header + moves + ["M2"];
    assert GCodeLines(polyline, opt, toFixed) == lines;
    forall i | 1 <= i < |polyline|
      ensures lines[i + 3] == MoveLine(polyline[i], opt, toFixed)
    {
      assert lines[i + 3] == moves[i - 1];
      assert polyline[1..][i - 1] == polyline[i];
    }
  }

  /** The G0 line is the third line, and no other line is a rapid move. */
  lemma SingleRapidMove(polyline: seq<Point>, opt: GCodeOptions, toFixed: ToFixed)
    requires |polyline| > 0
    ensures var lines := GCodeLines(polyline, opt, toFixed);
      && IsRapid(lines[2])
      && (forall i :: 0 <= i < |lines| && i != 2 ==> !IsRapid(lines[i]))
  {
    var lines := GCodeLines(polyline, opt, toFixed);
    GCodeLinesShape(polyline, opt, toFixed);
    forall i | 0 <= i < |lines| && i != 2
      ensures !IsRapid(lines[i])
    {
      if i == 0 {
        assert lines[0][..2] == "G2";
      } else if i == 1 {
        assert lines[1][..2] == "G9";
      } else if i == 3 {
        assert lines[3][..2] == "G1";
      } else if i == |lines| - 1 {
        assert lines[i][..2] == "M2";
      } else {
        assert lines[i] == MoveLine(polyline[i - 3], opt, toFixed);
        assert lines[i][..2] == "G1";
      }
    }
    assert lines[2][..2] == "G0";
  }
}
