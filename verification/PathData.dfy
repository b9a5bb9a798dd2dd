/** The SVG path reader and writer of the intro animation
    (apps/minds/electron/intro-wobble.js), character by character. */
module PathData {
  import opened Decimal

  /** A coordinate; `NaN` is what a missing or unreadable token becomes. */
  datatype Number = Finite(value: real) | NaN

  datatype Point = Point(x: Number, y: Number)

  datatype Curve = Curve(control1: Point, control2: Point, end: Point)

  datatype Subpath = Subpath(start: Point, curves: seq<Curve>)

  datatype ParseResult = Parsed(subpaths: seq<Subpath>) | CurveBeforeMove | Unsupported(token: string)

  // Printing

  /** `toFixed(3)` counts in thousandths: the nearest whole number of them, the larger on a tie. */
  function Thousandths(x: real): (n: nat)
    requires x >= 0.0
    ensures n as real - 0.5 <= x * 1000.0 < n as real + 0.5
  {
    (x * 1000.0 + 0.5).Floor
  }

  function ThousandthsNumeral(n: nat): (s: string)
  {
    Numeral(n / 1000) + "." + Padded(n % 1000, 3)
  }

  function ToFixed3(number: Number): (s: string)
  {
    match number
    case NaN => "NaN"
    case Finite(x) =>
      if x < 0.0 then "-" + ThousandthsNumeral(Thousandths(-x)) else ThousandthsNumeral(Thousandths(x))
  }

  function PrintPoint(p: Point): string
  {
    ToFixed3(p.x) + " " + ToFixed3(p.y)
  }

  function PrintCurve(c: Curve): string
  {
    "C" + PrintPoint(c.control1) + " " + PrintPoint(c.control2) + " " + PrintPoint(c.end)
  }

  function WarpCurve(c: Curve, warp: Point -> Point): Curve
  {
    Curve(warp(c.control1), warp(c.control2), warp(c.end))
  }

  /** One piece of a written path. */
  datatype Item = Move(start: Point) | Bend(curve: Curve) | Close

  function PieceOf(item: Item): string
  {
    match item
    case Move(p) => "M" + PrintPoint(p)
    case Bend(c) => PrintCurve(c)
    case Close => "Z"
  }

  function PiecesOf(items: seq<Item>): seq<string>
  {
    seq(|items|, i requires 0 <= i < |items| => PieceOf(items[i]))
  }

  function BendItems(curves: seq<Curve>, warp: Point -> Point): seq<Item>
  {
    seq(|curves|, i requires 0 <= i < |curves| => Bend(WarpCurve(curves[i], warp)))
  }

  /** One subpath: its move, its curves in order, its close, every point through `warp`. */
  function SubpathItems(sp: Subpath, warp: Point -> Point): seq<Item>
  {
    [Move(warp(sp.start))] + BendItems(sp.curves, warp) + [Close]
  }

  function Items(subpaths: seq<Subpath>, warp: Point -> Point): seq<Item>
  {
    if subpaths == [] then [] else SubpathItems(subpaths[0], warp) + Items(subpaths[1..], warp)
  }

  function Concat(pieces: seq<string>): string
  {
    if pieces == [] then "" else pieces[0] + Concat(pieces[1..])
  }

  function Print(subpaths: seq<Subpath>, warp: Point -> Point): string
  {
    Concat(PiecesOf(Items(subpaths, warp)))
  }

  lemma {:induction false} ItemsUpTo(subpaths: seq<Subpath>, i: nat, warp: Point -> Point)
    requires i < |subpaths|
    ensures Items(subpaths[..i + 1], warp) == Items(subpaths[..i], warp) + SubpathItems(subpaths[i], warp)
    decreases i
  {
    if i == 0 {
      assert subpaths[..1] == [subpaths[0]];
    } else {
      ItemsUpTo(subpaths[1..], i - 1, warp);
      assert subpaths[..i + 1][1..] == subpaths[1..][..i];
      assert subpaths[..i][1..] == subpaths[1..][..i - 1];
    }
  }

  lemma PiecesOfAppend(items: seq<Item>, item: Item)
    ensures PiecesOf(items + [item]) == PiecesOf(items) + [PieceOf(item)]
  {
  }

  lemma SubpathDone(subpaths: seq<Subpath>, i: nat, warp: Point -> Point)
    requires i < |subpaths|
    ensures var s := subpaths[i];
      Items(subpaths[..i], warp) + [Move(warp(s.start))] + BendItems(s.curves, warp) + [Close] ==
        Items(subpaths[..i + 1], warp)
  {
    ItemsUpTo(subpaths, i, warp);
  }

  lemma NextBend(items: seq<Item>, curves: seq<Curve>, j: nat, warp: Point -> Point)
    requires j < |curves|
    ensures items + BendItems(curves[..j], warp) + [Bend(WarpCurve(curves[j], warp))] ==
      items + BendItems(curves[..j + 1], warp)
  {
    assert BendItems(curves[..j + 1], warp) == BendItems(curves[..j], warp) + [Bend(WarpCurve(curves[j], warp))];
  }

  /** The writer: pieces pushed one by one, joined at the end. */
  method EmitPath(subpaths: seq<Subpath>, warp: Point -> Point) returns (text: string)
    ensures text == Print(subpaths, warp)
  {
    var out: seq<string> := [];
    ghost var items: seq<Item> := [];
    for i := 0 to |subpaths|
      invariant items == Items(subpaths[..i], warp)
      invariant out == PiecesOf(items)
    {
      var curves := subpaths[i].curves;
      var move := Move(warp(subpaths[i].start));
      PiecesOfAppend(items, move);
      out, items := out + [PieceOf(move)], items + [move];
      ghost var begun := items;
      for j := 0 to |curves|
        invariant items == begun + BendItems(curves[..j], warp)
        invariant out == PiecesOf(items)
      {
        var bend := Bend(WarpCurve(curves[j], warp));
        PiecesOfAppend(items, bend);
        NextBend(begun, curves, j, warp);
        out, items := out + [PieceOf(bend)], items + [bend];
      }
      assert curves[..|curves|] == curves;
      PiecesOfAppend(items, Close);
      out, items := out + [PieceOf(Close)], items + [Close];
      SubpathDone(subpaths, i, warp);
    }
    assert subpaths[..|subpaths|] == subpaths;
    text := Concat(out);
  }

  // Tokenizing: /[MCZmcz]|-?\d*\.?\d+(?:[eE][-+]?\d+)?/g

  predicate IsCommand(c: char) { c in "MCZmcz" }

  /** How many digits follow from position `i`. */
  function DigitRun(s: string, i: nat): (n: nat)
    requires i <= |s|
    ensures i + n <= |s| && AllDigits(s[i..i + n])
    ensures i + n < |s| ==> !IsDigit(s[i + n])
    decreases |s| - i
  {
    if i < |s| && IsDigit(s[i]) then
      var n := DigitRun(s, i + 1);
      assert s[i..i + n + 1] == [s[i]] + s[i + 1..i + 1 + n];
      n + 1
    else 0
  }

  function SignLength(s: string): (n: nat)
    ensures n <= |s| && n <= 1
  {
    if s != "" && s[0] == '-' then 1 else 0
  }

  /** Where the mantissa the pattern matches at the start of `s` ends; 0 when it matches nothing. */
  function MantissaEnd(s: string): (end: nat)
    ensures end <= |s|
  {
    var sign := SignLength(s);
    var whole := sign + DigitRun(s, sign);
    if whole < |s| && s[whole] == '.' && DigitRun(s, whole + 1) > 0 then whole + 1 + DigitRun(s, whole + 1)
    else if whole > sign then whole
    else 0
  }

  /** Where an exponent starting at `i` ends; `i` when there is none. */
  function ExponentEnd(s: string, i: nat): (end: nat)
    requires i <= |s|
    ensures i <= end <= |s|
  {
    if i < |s| && (s[i] == 'e' || s[i] == 'E') then
      var digits := if i + 1 < |s| && (s[i + 1] == '-' || s[i + 1] == '+') then i + 2 else i + 1;
      if DigitRun(s, digits) > 0 then digits + DigitRun(s, digits) else i
    else i
  }

  function NumberEnd(s: string): (end: nat)
    ensures end <= |s|
  {
    if MantissaEnd(s) == 0 then 0 else ExponentEnd(s, MantissaEnd(s))
  }

  function Tokenize(s: string): seq<string>
    decreases |s|
  {
    if s == "" then []
    else if IsCommand(s[0]) then [s[..1]] + Tokenize(s[1..])
    else if NumberEnd(s) > 0 then [s[..NumberEnd(s)]] + Tokenize(s[NumberEnd(s)..])
    else Tokenize(s[1..])
  }

  // Reading

  /** A number with its decimal point moved by `e` places. */
  function Shift(x: real, e: int): real
    decreases if e < 0 then -e else e
  {
    if e == 0 then x else if e > 0 then 10.0 * Shift(x, e - 1) else Shift(x, e + 1) / 10.0
  }

  function ExponentValue(s: string): int
  {
    var negative := |s| > 1 && s[1] == '-';
    var digits := if |s| > 1 && (s[1] == '-' || s[1] == '+') then s[2..] else if s == "" then "" else s[1..];
    if !AllDigits(digits) then 0 else if negative then -(Value(digits) as int) else Value(digits)
  }

  /** The digits before a point and those after it. */
  function Magnitude(whole: string, fraction: string): real
    requires AllDigits(whole) && AllDigits(fraction)
  {
    Value(whole) as real + Shift(Value(fraction) as real, -|fraction|)
  }

  function FractionOf(s: string, whole: nat): (fraction: string)
    ensures AllDigits(fraction)
  {
    if whole < |s| && AllDigits(s[whole + 1..]) then s[whole + 1..] else ""
  }

  /** The value of a mantissa: its digits, scaled down by those after the point. */
  function MantissaValue(s: string): real
  {
    var sign := SignLength(s);
    var whole := sign + DigitRun(s, sign);
    var magnitude := Magnitude(s[sign..whole], FractionOf(s, whole));
    if sign == 1 then -magnitude else magnitude
  }

  /** `Number(token)` on a token the pattern can produce. */
  function ToNumber(token: string): Number
  {
    if token == "" || NumberEnd(token) != |token| then NaN
    else
      var m := MantissaEnd(token);
      Finite(Shift(MantissaValue(token[..m]), ExponentValue(token[m..])))
  }

  function NumberAt(tokens: seq<string>, i: nat): Number
  {
    if i < |tokens| then ToNumber(tokens[i]) else NaN
  }

  function PointAt(tokens: seq<string>, i: nat): Point
  {
    Point(NumberAt(tokens, i), NumberAt(tokens, i + 1))
  }

  function CurveAt(tokens: seq<string>, i: nat): Curve
  {
    Curve(PointAt(tokens, i), PointAt(tokens, i + 2), PointAt(tokens, i + 4))
  }

  function AddCurve(subpaths: seq<Subpath>, c: Curve): seq<Subpath>
    requires subpaths != []
  {
    var last := |subpaths| - 1;
    subpaths[last := subpaths[last].(curves := subpaths[last].curves + [c])]
  }

  predicate IsMove(op: string) { op == "M" || op == "m" }

  predicate IsCurve(op: string) { op == "C" || op == "c" }

  predicate IsClose(op: string) { op == "Z" || op == "z" }

  /** Reading the tokens from `i` on, with `subpaths` read so far and the last one open or closed. */
  function ReadFrom(tokens: seq<string>, i: nat, subpaths: seq<Subpath>, isOpen: bool): ParseResult
    requires isOpen ==> subpaths != []
    decreases |tokens| - i
  {
    if i >= |tokens| then Parsed(subpaths)
    else
      var op := tokens[i];
      if IsMove(op) then
        ReadFrom(tokens, i + 3, subpaths + [Subpath(PointAt(tokens, i + 1), [])], true)
      else if IsCurve(op) then
        if isOpen then ReadFrom(tokens, i + 7, AddCurve(subpaths, CurveAt(tokens, i + 1)), true) else CurveBeforeMove
      else if IsClose(op) then ReadFrom(tokens, i + 1, subpaths, false)
      else Unsupported(op)
  }

  function Parse(text: string): ParseResult
  {
    ReadFrom(Tokenize(text), 0, [], false)
  }

  /** The reader: a token index, the subpaths pushed so far, and whether one is open. */
  method ParsePath(text: string) returns (result: ParseResult)
    ensures result == Parse(text)
  {
    var tokens := Tokenize(text);
    var subpaths: seq<Subpath> := [];
    var isOpen := false;
    var i := 0;
    while i < |tokens|
      invariant isOpen ==> subpaths != []
      invariant ReadFrom(tokens, i, subpaths, isOpen) == Parse(text)
    {
      var op := tokens[i];
      i := i + 1;
      if IsMove(op) {
        subpaths := subpaths + [Subpath(PointAt(tokens, i), [])];
        isOpen := true;
        i := i + 2;
      } else if IsCurve(op) {
        if !isOpen { return CurveBeforeMove; }
        subpaths := AddCurve(subpaths, CurveAt(tokens, i));
        i := i + 6;
      } else if IsClose(op) {
        isOpen := false;
      } else {
        return Unsupported(op);
      }
    }
    result := Parsed(subpaths);
  }
}
