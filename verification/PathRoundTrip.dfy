/** Reading what the writer prints gives back the same path, at the three
    decimals it prints (apps/minds/electron/intro-wobble.js:73-113). */
module PathRoundTrip {
  import opened Decimal
  import opened PathData

  /** What three printed decimals keep of a coordinate: the nearest thousandth. */
  function RoundReal(x: real): real
  {
    if x < 0.0 then -(Thousandths(-x) as real / 1000.0) else Thousandths(x) as real / 1000.0
  }

  function RoundNumber(n: Number): Number
  {
    if n.Finite? then Finite(RoundReal(n.value)) else NaN
  }

  function RoundPoint(p: Point): Point
  {
    Point(RoundNumber(p.x), RoundNumber(p.y))
  }

  function RoundCurve(c: Curve): Curve
  {
    Curve(RoundPoint(c.control1), RoundPoint(c.control2), RoundPoint(c.end))
  }

  function RoundCurves(curves: seq<Curve>, warp: Point -> Point): seq<Curve>
  {
    seq(|curves|, i requires 0 <= i < |curves| => RoundCurve(WarpCurve(curves[i], warp)))
  }

  function RoundSubpath(sp: Subpath, warp: Point -> Point): Subpath
  {
    Subpath(RoundPoint(warp(sp.start)), RoundCurves(sp.curves, warp))
  }

  function Rounded(subpaths: seq<Subpath>, warp: Point -> Point): seq<Subpath>
  {
    seq(|subpaths|, i requires 0 <= i < |subpaths| => RoundSubpath(subpaths[i], warp))
  }

  predicate IsFinite(p: Point) { p.x.Finite? && p.y.Finite? }

  predicate IsFiniteCurve(c: Curve) { IsFinite(c.control1) && IsFinite(c.control2) && IsFinite(c.end) }

  predicate IsFiniteSubpath(sp: Subpath, warp: Point -> Point)
  {
    IsFinite(warp(sp.start)) && forall c <- sp.curves :: IsFiniteCurve(WarpCurve(c, warp))
  }

  /** What may follow a printed number: nothing, or a character no number contains. */
  predicate Breaks(rest: string)
  {
    rest == "" || rest[0] == ' ' || IsCommand(rest[0])
  }

  // Numbers

  lemma {:induction false} DigitRunIs(s: string, i: nat, n: nat)
    requires i + n <= |s| && forall k :: i <= k < i + n ==> IsDigit(s[k])
    requires i + n < |s| ==> !IsDigit(s[i + n])
    ensures DigitRun(s, i) == n
    decreases n
  {
    if n > 0 {
      DigitRunIs(s, i + 1, n - 1);
    }
  }

  /** `s` starts with a decimal: a sign up to `sign`, digits up to `w`, a point, digits up to `end`. */
  predicate StartsWithDecimal(s: string, sign: nat, w: nat, end: nat)
  {
    && sign <= 1 && sign < w && w + 1 < end <= |s|
    && (sign == 1 ==> s[0] == '-')
    && (forall k :: sign <= k < w ==> IsDigit(s[k]))
    && s[w] == '.'
    && (forall k :: w + 1 <= k < end ==> IsDigit(s[k]))
    && (end < |s| ==> s[end] == ' ' || IsCommand(s[end]))
  }

  lemma DecimalRuns(s: string, sign: nat, w: nat, end: nat)
    requires StartsWithDecimal(s, sign, w, end)
    ensures SignLength(s) == sign && DigitRun(s, sign) == w - sign && DigitRun(s, w + 1) == end - (w + 1)
  {
    assert IsDigit(s[sign]);
    DigitRunIs(s, sign, w - sign);
    DigitRunIs(s, w + 1, end - (w + 1));
  }

  /** The pattern matches a decimal and stops at its end. */
  lemma DecimalMatched(s: string, sign: nat, w: nat, end: nat)
    requires StartsWithDecimal(s, sign, w, end)
    ensures MantissaEnd(s) == end && NumberEnd(s) == end
  {
    DecimalRuns(s, sign, w, end);
  }

  predicate IsSign(sign: string) { sign == "" || sign == "-" }

  function Decimals(sign: string, whole: string, fraction: string): string
  {
    sign + whole + "." + fraction
  }

  lemma DecimalsLayout(sign: string, whole: string, fraction: string, rest: string)
    requires IsSign(sign) && whole != "" && AllDigits(whole) && fraction != "" && AllDigits(fraction)
    requires Breaks(rest)
    ensures var t := Decimals(sign, whole, fraction);
      StartsWithDecimal(t + rest, |sign|, |sign| + |whole|, |t|)
  {
  }

  lemma DecimalsParts(sign: string, whole: string, fraction: string)
    ensures var t := Decimals(sign, whole, fraction);
      var w := |sign| + |whole|;
      w < |t| && t[|sign|..w] == whole && t[w] == '.' && t[w + 1..] == fraction
  {
  }

  lemma MantissaFrom(s: string, sign: nat, w: nat, whole: string, fraction: string)
    requires sign == SignLength(s) && w == sign + DigitRun(s, sign)
    requires s[sign..w] == whole && AllDigits(whole) && FractionOf(s, w) == fraction
    ensures MantissaValue(s) == if sign == 1 then -Magnitude(whole, fraction) else Magnitude(whole, fraction)
  {
  }

  lemma DecimalsMantissa(sign: string, whole: string, fraction: string)
    requires IsSign(sign) && whole != "" && AllDigits(whole) && fraction != "" && AllDigits(fraction)
    ensures MantissaValue(Decimals(sign, whole, fraction)) ==
      if sign == "-" then -Magnitude(whole, fraction) else Magnitude(whole, fraction)
  {
    var t := Decimals(sign, whole, fraction);
    assert t + "" == t;
    DecimalsLayout(sign, whole, fraction, "");
    DecimalRuns(t, |sign|, |sign| + |whole|, |t|);
    DecimalsParts(sign, whole, fraction);
    MantissaFrom(t, |sign|, |sign| + |whole|, whole, fraction);
  }

  lemma DecimalsRead(sign: string, whole: string, fraction: string)
    requires IsSign(sign) && whole != "" && AllDigits(whole) && fraction != "" && AllDigits(fraction)
    ensures ToNumber(Decimals(sign, whole, fraction)) ==
      Finite(if sign == "-" then -Magnitude(whole, fraction) else Magnitude(whole, fraction))
  {
    var t := Decimals(sign, whole, fraction);
    assert t + "" == t;
    DecimalsLayout(sign, whole, fraction, "");
    DecimalMatched(t, |sign|, |sign| + |whole|, |t|);
    DecimalsMantissa(sign, whole, fraction);
    WholeTokenRead(t);
  }

  lemma WholeTokenRead(t: string)
    requires t != "" && MantissaEnd(t) == NumberEnd(t) == |t|
    ensures ToNumber(t) == Finite(MantissaValue(t))
  {
    assert t[..|t|] == t && t[|t|..] == "";
    assert ExponentValue("") == 0;
  }

  function SignOf(n: Number): string
  {
    if n.Finite? && n.value < 0.0 then "-" else ""
  }

  function Count(n: Number): nat
    requires n.Finite?
  {
    if n.value < 0.0 then Thousandths(-n.value) else Thousandths(n.value)
  }

  /** A printed coordinate is a sign, a whole part and three decimals. */
  lemma PrintedShape(n: Number)
    requires n.Finite?
    ensures ToFixed3(n) == Decimals(SignOf(n), Numeral(Count(n) / 1000), Padded(Count(n) % 1000, 3))
    ensures |Padded(Count(n) % 1000, 3)| == 3 && Pow10(3) == 1000
  {
    var k := Count(n);
    var w, f := Numeral(k / 1000), Padded(k % 1000, 3);
    assert Pow10(3) == 10 * Pow10(2) == 10 * (10 * Pow10(1)) == 1000;
    PaddedLength(k % 1000, 3);
    Signed(SignOf(n), w, f);
    assert "" + ThousandthsNumeral(k) == ThousandthsNumeral(k);
  }

  lemma Signed(sign: string, whole: string, fraction: string)
    ensures sign + (whole + "." + fraction) == Decimals(sign, whole, fraction)
  {
  }

  /** A printed coordinate is one token, whatever may follow a number. */
  lemma PrintedIsOneToken(n: Number, rest: string)
    requires n.Finite? && Breaks(rest)
    ensures Tokenize(ToFixed3(n) + rest) == [ToFixed3(n)] + Tokenize(rest)
  {
    var sign, w, f := SignOf(n), Numeral(Count(n) / 1000), Padded(Count(n) % 1000, 3);
    PrintedShape(n);
    var t := ToFixed3(n);
    DecimalsLayout(sign, w, f, rest);
    DecimalMatched(t + rest, |sign|, |sign| + |w|, |t|);
    assert (t + rest)[0] == t[0];
    TokenizeNumber(t, rest);
  }

  lemma TokenizeNumber(t: string, rest: string)
    requires t != "" && (t[0] == '-' || IsDigit(t[0])) && NumberEnd(t + rest) == |t|
    ensures Tokenize(t + rest) == [t] + Tokenize(rest)
  {
    assert (t + rest)[..|t|] == t && (t + rest)[|t|..] == rest;
  }

  lemma ThousandthsSum(k: nat)
    ensures (k / 1000) as real + (k % 1000) as real / 1000.0 == k as real / 1000.0
  {
    assert k == 1000 * (k / 1000) + k % 1000;
  }

  lemma ThreePlaces(x: real)
    ensures Shift(x, -3) == x / 1000.0
  {
    assert Shift(x, -1) == Shift(x, 0) / 10.0;
    assert Shift(x, -2) == Shift(x, -1) / 10.0;
  }

  lemma PrintedMagnitude(k: nat)
    ensures Magnitude(Numeral(k / 1000), Padded(k % 1000, 3)) == k as real / 1000.0
  {
    assert Pow10(3) == 10 * Pow10(2) == 10 * (10 * Pow10(1)) == 1000;
    PaddedLength(k % 1000, 3);
    ValueOfNumeral(k / 1000);
    ValueOfPadded(k % 1000, 3);
    ThousandthsSum(k);
    ThreePlaces((k % 1000) as real);
  }

  lemma RoundedAsCount(n: Number)
    requires n.Finite?
    ensures RoundNumber(n) ==
      Finite(if SignOf(n) == "-" then -(Count(n) as real / 1000.0) else Count(n) as real / 1000.0)
  {
  }

  /** A printed coordinate reads back as its nearest thousandth. */
  lemma PrintedReadsBack(n: Number)
    requires n.Finite?
    ensures ToNumber(ToFixed3(n)) == RoundNumber(n)
  {
    PrintedShape(n);
    PrintedMagnitude(Count(n));
    RoundedAsCount(n);
    DecimalsRead(SignOf(n), Numeral(Count(n) / 1000), Padded(Count(n) % 1000, 3));
  }

  // Items

  predicate IsFiniteItem(item: Item)
  {
    match item
    case Move(p) => IsFinite(p)
    case Bend(c) => IsFiniteCurve(c)
    case Close => true
  }

  function PointTokens(p: Point): seq<string>
  {
    [ToFixed3(p.x), ToFixed3(p.y)]
  }

  /** The tokens one written piece consists of. */
  function ItemTokens(item: Item): seq<string>
  {
    match item
    case Move(p) => ["M"] + PointTokens(p)
    case Bend(c) => ["C"] + PointTokens(c.control1) + PointTokens(c.control2) + PointTokens(c.end)
    case Close => ["Z"]
  }

  function AllTokens(items: seq<Item>): seq<string>
  {
    if items == [] then [] else ItemTokens(items[0]) + AllTokens(items[1..])
  }

  lemma BlankSkipped(rest: string)
    ensures Tokenize(" " + rest) == Tokenize(rest)
  {
    assert (" " + rest)[1..] == rest;
    assert DigitRun(" " + rest, 0) == 0;
    assert NumberEnd(" " + rest) == 0;
  }

  lemma CommandSplits(c: char, rest: string)
    requires IsCommand(c)
    ensures Tokenize([c] + rest) == [[c]] + Tokenize(rest)
  {
    assert ([c] + rest)[1..] == rest && ([c] + rest)[..1] == [c];
  }

  lemma PointTokenized(p: Point, rest: string)
    requires IsFinite(p) && Breaks(rest)
    ensures Tokenize(PrintPoint(p) + rest) == PointTokens(p) + Tokenize(rest)
  {
    var x, y := ToFixed3(p.x), ToFixed3(p.y);
    NestPoint(x, y, rest);
    PrintedIsOneToken(p.x, " " + (y + rest));
    BlankSkipped(y + rest);
    PrintedIsOneToken(p.y, rest);
    TwoTokens(x, y, Tokenize(rest));
  }

  lemma NestPoint(x: string, y: string, rest: string)
    ensures x + " " + y + rest == x + (" " + (y + rest))
  {
  }

  lemma TwoTokens(x: string, y: string, rest: seq<string>)
    ensures [x] + ([y] + rest) == [x, y] + rest
  {
  }

  lemma Nest(p1: string, p2: string, p3: string, rest: string)
    ensures "C" + p1 + " " + p2 + " " + p3 + rest == "C" + (p1 + (" " + (p2 + (" " + (p3 + rest)))))
  {
  }

  lemma CurveTokenized(c: Curve, rest: string)
    requires IsFiniteCurve(c) && Breaks(rest)
    ensures Tokenize(PrintCurve(c) + rest) == ItemTokens(Bend(c)) + Tokenize(rest)
  {
    var p1, p2, p3 := PrintPoint(c.control1), PrintPoint(c.control2), PrintPoint(c.end);
    var r3 := " " + (p3 + rest);
    var r2 := " " + (p2 + r3);
    PointTokenized(c.end, rest);
    BlankSkipped(p3 + rest);
    PointTokenized(c.control2, r3);
    BlankSkipped(p2 + r3);
    PointTokenized(c.control1, r2);
    CommandSplits('C', p1 + r2);
    Nest(p1, p2, p3, rest);
    var t1, t2, t3 := PointTokens(c.control1), PointTokens(c.control2), PointTokens(c.end);
    Regroup(["C"], t1, t2, t3, Tokenize(rest));
  }

  lemma Regroup<T>(a: seq<T>, b: seq<T>, c: seq<T>, d: seq<T>, e: seq<T>)
    ensures a + (b + (c + (d + e))) == a + b + c + d + e
  {
  }

  lemma MoveTokenized(p: Point, rest: string)
    requires IsFinite(p) && Breaks(rest)
    ensures Tokenize("M" + PrintPoint(p) + rest) == ["M"] + PointTokens(p) + Tokenize(rest)
  {
    var text := PrintPoint(p);
    PointTokenized(p, rest);
    CommandSplits('M', text + rest);
    NestMove(text, rest);
    assert ["M"] + (PointTokens(p) + Tokenize(rest)) == ["M"] + PointTokens(p) + Tokenize(rest);
  }

  lemma NestMove(text: string, rest: string)
    ensures "M" + text + rest == "M" + (text + rest)
  {
  }

  lemma ItemTokenized(item: Item, rest: string)
    requires IsFiniteItem(item) && Breaks(rest)
    ensures Tokenize(PieceOf(item) + rest) == ItemTokens(item) + Tokenize(rest)
  {
    match item
    case Move(p) => MoveTokenized(p, rest);
    case Bend(c) => CurveTokenized(c, rest);
    case Close => CommandSplits('Z', rest);
  }

  lemma PieceBreaks(item: Item, rest: string)
    ensures Breaks(PieceOf(item) + rest)
  {
    assert (PieceOf(item) + rest)[0] in "MCZ";
  }

  /** Tokenizing a written path gives the tokens of its pieces, in order. */
  lemma {:induction false} ItemsTokenized(items: seq<Item>)
    requires forall item <- items :: IsFiniteItem(item)
    ensures Breaks(Concat(PiecesOf(items)))
    ensures Tokenize(Concat(PiecesOf(items))) == AllTokens(items)
  {
    if items != [] {
      var piece, rest := PieceOf(items[0]), Concat(PiecesOf(items[1..]));
      ItemsTokenized(items[1..]);
      assert PiecesOf(items)[1..] == PiecesOf(items[1..]);
      ItemTokenized(items[0], rest);
      PieceBreaks(items[0], rest);
    }
  }

  // Reading the tokens back

  /** The subpaths a list of items stands for, on top of those already read. */
  function Assemble(items: seq<Item>, read: seq<Subpath>, isOpen: bool): ParseResult
    requires isOpen ==> read != []
  {
    if items == [] then Parsed(read)
    else match items[0]
      case Move(p) => Assemble(items[1..], read + [Subpath(RoundPoint(p), [])], true)
      case Bend(c) => if isOpen then Assemble(items[1..], AddCurve(read, RoundCurve(c)), true) else CurveBeforeMove
      case Close => Assemble(items[1..], read, false)
  }

  lemma PointReadBack(tokens: seq<string>, i: nat, p: Point)
    requires i + 2 <= |tokens| && tokens[i] == ToFixed3(p.x) && tokens[i + 1] == ToFixed3(p.y) && IsFinite(p)
    ensures PointAt(tokens, i) == RoundPoint(p)
  {
    PrintedReadsBack(p.x);
    PrintedReadsBack(p.y);
  }

  lemma ItemReadBack(tokens: seq<string>, i: nat, item: Item)
    requires i + |ItemTokens(item)| <= |tokens| && IsFiniteItem(item)
    requires forall k :: 0 <= k < |ItemTokens(item)| ==> tokens[i + k] == ItemTokens(item)[k]
    ensures ReadsAs(tokens, i, item) && |ItemTokens(item)| == Width(item)
  {
    var t := ItemTokens(item);
    assert tokens[i + 0] == t[0];
    match item
    case Move(p) =>
      assert tokens[i + 1] == t[1] && tokens[i + 2] == t[2];
      PointReadBack(tokens, i + 1, p);
    case Bend(c) =>
      assert tokens[i + 1] == t[1] && tokens[i + 2] == t[2] && tokens[i + 3] == t[3];
      assert tokens[i + 4] == t[4] && tokens[i + 5] == t[5] && tokens[i + 6] == t[6];
      PointReadBack(tokens, i + 1, c.control1);
      PointReadBack(tokens, i + 3, c.control2);
      PointReadBack(tokens, i + 5, c.end);
    case Close =>
  }

  function After(item: Item, read: seq<Subpath>): seq<Subpath>
    requires item.Bend? ==> read != []
  {
    match item
    case Move(p) => read + [Subpath(RoundPoint(p), [])]
    case Bend(c) => AddCurve(read, RoundCurve(c))
    case Close => read
  }

  function Width(item: Item): nat
  {
    if item.Move? then 3 else if item.Bend? then 7 else 1
  }

  predicate ReadsAs(tokens: seq<string>, i: nat, item: Item)
    requires i < |tokens|
  {
    match item
    case Move(p) => tokens[i] == "M" && PointAt(tokens, i + 1) == RoundPoint(p)
    case Bend(c) => tokens[i] == "C" && CurveAt(tokens, i + 1) == RoundCurve(c)
    case Close => tokens[i] == "Z"
  }

  lemma StepReadBack(tokens: seq<string>, i: nat, item: Item, read: seq<Subpath>, isOpen: bool)
    requires i < |tokens| && ReadsAs(tokens, i, item)
    requires isOpen ==> read != []
    ensures ReadFrom(tokens, i, read, isOpen) ==
      if item.Bend? && !isOpen then CurveBeforeMove
      else ReadFrom(tokens, i + Width(item), After(item, read), !item.Close?)
  {
    match item
    case Move(p) => MoveRead(tokens, i, read, isOpen);
    case Bend(c) => BendRead(tokens, i, read, isOpen);
    case Close => CloseRead(tokens, i, read, isOpen);
  }

  lemma MoveRead(tokens: seq<string>, i: nat, read: seq<Subpath>, isOpen: bool)
    requires i < |tokens| && tokens[i] == "M" && (isOpen ==> read != [])
    ensures ReadFrom(tokens, i, read, isOpen) ==
      ReadFrom(tokens, i + 3, read + [Subpath(PointAt(tokens, i + 1), [])], true)
  {
  }

  lemma BendRead(tokens: seq<string>, i: nat, read: seq<Subpath>, isOpen: bool)
    requires i < |tokens| && tokens[i] == "C" && (isOpen ==> read != [])
    ensures ReadFrom(tokens, i, read, isOpen) ==
      if isOpen then ReadFrom(tokens, i + 7, AddCurve(read, CurveAt(tokens, i + 1)), true) else CurveBeforeMove
  {
    assert tokens[i] != "M" && tokens[i] != "m";
  }

  lemma CloseRead(tokens: seq<string>, i: nat, read: seq<Subpath>, isOpen: bool)
    requires i < |tokens| && tokens[i] == "Z" && (isOpen ==> read != [])
    ensures ReadFrom(tokens, i, read, isOpen) == ReadFrom(tokens, i + 1, read, false)
  {
    assert tokens[i] != "M" && tokens[i] != "m" && tokens[i] != "C" && tokens[i] != "c";
  }

  lemma {:induction false} ItemsReadBack(tokens: seq<string>, i: nat, items: seq<Item>, read: seq<Subpath>, isOpen: bool)
    requires forall item <- items :: IsFiniteItem(item)
    requires i <= |tokens| && tokens[i..] == AllTokens(items)
    requires isOpen ==> read != []
    ensures ReadFrom(tokens, i, read, isOpen) == Assemble(items, read, isOpen)
    decreases |items|
  {
    if items != [] {
      var first, rest := ItemTokens(items[0]), AllTokens(items[1..]);
      Prefix(tokens, i, first, rest);
      ItemReadBack(tokens, i, items[0]);
      StepReadBack(tokens, i, items[0], read, isOpen);
      if !items[0].Bend? || isOpen {
        ItemsReadBack(tokens, i + |first|, items[1..], After(items[0], read), !items[0].Close?);
      }
    }
  }

  lemma Prefix<T>(s: seq<T>, i: nat, first: seq<T>, rest: seq<T>)
    requires i <= |s| && s[i..] == first + rest
    ensures i + |first| <= |s| && s[i + |first|..] == rest
    ensures forall k :: 0 <= k < |first| ==> s[i + k] == first[k]
  {
    forall k | 0 <= k < |first| ensures s[i + k] == first[k] {
      assert s[i + k] == s[i..][k];
    }
    assert s[i + |first|..] == s[i..][|first|..];
  }

  function AddCurves(subpaths: seq<Subpath>, curves: seq<Curve>): seq<Subpath>
    requires subpaths != []
  {
    var last := |subpaths| - 1;
    subpaths[last := subpaths[last].(curves := subpaths[last].curves + curves)]
  }

  lemma AddCurvesStep(read: seq<Subpath>, c: Curve, curves: seq<Curve>)
    requires read != []
    ensures AddCurves(AddCurve(read, c), curves) == AddCurves(read, [c] + curves)
  {
    var last := read[|read| - 1];
    assert last.curves + [c] + curves == last.curves + ([c] + curves);
  }

  lemma {:induction false} BendsAssemble(curves: seq<Curve>, warp: Point -> Point, rest: seq<Item>, read: seq<Subpath>)
    requires read != []
    ensures Assemble(BendItems(curves, warp) + rest, read, true) ==
      Assemble(rest, AddCurves(read, RoundCurves(curves, warp)), true)
  {
    var items := BendItems(curves, warp) + rest;
    if curves == [] {
      assert items == rest;
      var last := read[|read| - 1];
      assert last.curves + RoundCurves(curves, warp) == last.curves;
      assert AddCurves(read, RoundCurves(curves, warp)) == read;
    } else {
      var c := RoundCurve(WarpCurve(curves[0], warp));
      assert items[1..] == BendItems(curves[1..], warp) + rest;
      BendsAssemble(curves[1..], warp, rest, AddCurve(read, c));
      assert RoundCurves(curves, warp) == [c] + RoundCurves(curves[1..], warp);
      AddCurvesStep(read, c, RoundCurves(curves[1..], warp));
    }
  }

  lemma {:induction false} ItemsAssemble(subpaths: seq<Subpath>, warp: Point -> Point, read: seq<Subpath>)
    ensures Assemble(Items(subpaths, warp), read, false) == Parsed(read + Rounded(subpaths, warp))
    decreases |subpaths|
  {
    if subpaths == [] {
      assert read + Rounded(subpaths, warp) == read;
    } else {
      var sp, rest := subpaths[0], Items(subpaths[1..], warp);
      var items := Items(subpaths, warp);
      var bends := BendItems(sp.curves, warp);
      assert items[0] == Move(warp(sp.start)) && items[1..] == bends + ([Close] + rest);
      var begun := read + [Subpath(RoundPoint(warp(sp.start)), [])];
      BendsAssemble(sp.curves, warp, [Close] + rest, begun);
      var done := read + [RoundSubpath(sp, warp)];
      assert [] + RoundCurves(sp.curves, warp) == RoundCurves(sp.curves, warp);
      assert AddCurves(begun, RoundCurves(sp.curves, warp)) == done;
      assert ([Close] + rest)[1..] == rest;
      ItemsAssemble(subpaths[1..], warp, done);
      assert done + Rounded(subpaths[1..], warp) == read + Rounded(subpaths, warp);
    }
  }

  lemma {:induction false} FiniteItems(subpaths: seq<Subpath>, warp: Point -> Point)
    requires forall sp <- subpaths :: IsFiniteSubpath(sp, warp)
    ensures forall item <- Items(subpaths, warp) :: IsFiniteItem(item)
  {
    if subpaths != [] {
      FiniteItems(subpaths[1..], warp);
      var sp := subpaths[0];
      assert IsFiniteSubpath(sp, warp);
      forall item <- SubpathItems(sp, warp) ensures IsFiniteItem(item) {
        assert item.Bend? ==> item in BendItems(sp.curves, warp);
      }
    }
  }

  /** Whatever the warp, if it keeps every point finite, reading the printed
      path gives the warped path with each coordinate at its nearest thousandth. */
  lemma ParseOfPrint(subpaths: seq<Subpath>, warp: Point -> Point)
    requires forall sp <- subpaths :: IsFiniteSubpath(sp, warp)
    ensures Parse(Print(subpaths, warp)) == Parsed(Rounded(subpaths, warp))
  {
    var items := Items(subpaths, warp);
    FiniteItems(subpaths, warp);
    ItemsTokenized(items);
    assert AllTokens(items)[0..] == AllTokens(items);
    ItemsReadBack(AllTokens(items), 0, items, [], false);
    ItemsAssemble(subpaths, warp, []);
    assert [] + Rounded(subpaths, warp) == Rounded(subpaths, warp);
  }

  // Whole thousandths

  predicate IsWholeThousandths(n: Number)
  {
    n.Finite? && (n.value * 1000.0) == (n.value * 1000.0).Floor as real
  }

  predicate IsExactPoint(p: Point) { IsWholeThousandths(p.x) && IsWholeThousandths(p.y) }

  predicate IsExactCurve(c: Curve) { IsExactPoint(c.control1) && IsExactPoint(c.control2) && IsExactPoint(c.end) }

  predicate IsExact(subpaths: seq<Subpath>)
  {
    forall sp <- subpaths :: IsExactPoint(sp.start) && forall c <- sp.curves :: IsExactCurve(c)
  }

  lemma RoundKeepsExact(n: Number)
    requires IsWholeThousandths(n)
    ensures RoundNumber(n) == n
  {
    var k := (n.value * 1000.0).Floor;
    if n.value < 0.0 {
      assert Thousandths(-n.value) == -k;
    } else {
      assert Thousandths(n.value) == k;
    }
  }

  lemma RoundKeepsExactPoint(p: Point)
    requires IsExactPoint(p)
    ensures RoundPoint(p) == p
  {
    RoundKeepsExact(p.x);
    RoundKeepsExact(p.y);
  }

  lemma RoundKeepsExactCurve(c: Curve)
    requires IsExactCurve(c)
    ensures RoundCurve(WarpCurve(c, (p: Point) => p)) == c && IsFiniteCurve(WarpCurve(c, (p: Point) => p))
  {
    RoundKeepsExactPoint(c.control1);
    RoundKeepsExactPoint(c.control2);
    RoundKeepsExactPoint(c.end);
  }

  /** At zero amplitude the writer and the reader are inverse: a path drawn in
      whole thousandths survives the round trip unchanged. */
  lemma RestRoundTrip(subpaths: seq<Subpath>)
    requires IsExact(subpaths)
    ensures Parse(Print(subpaths, (p: Point) => p)) == Parsed(subpaths)
  {
    var rest := (p: Point) => p;
    forall i | 0 <= i < |subpaths|
      ensures IsFiniteSubpath(subpaths[i], rest) && RoundSubpath(subpaths[i], rest) == subpaths[i]
    {
      var sp := subpaths[i];
      RoundKeepsExactPoint(sp.start);
      forall j | 0 <= j < |sp.curves|
        ensures RoundCurve(WarpCurve(sp.curves[j], rest)) == sp.curves[j] && IsFiniteCurve(WarpCurve(sp.curves[j], rest))
      {
        RoundKeepsExactCurve(sp.curves[j]);
      }
      assert RoundCurves(sp.curves, rest) == sp.curves;
    }
    assert Rounded(subpaths, rest) == subpaths;
    ParseOfPrint(subpaths, rest);
  }
}
