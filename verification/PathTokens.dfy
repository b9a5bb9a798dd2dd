/** What the path reader makes of its text, character by character: which
    stretches are tokens, which numbers they stand for, and which paths it
    refuses (apps/minds/electron/intro-wobble.js:66-97). */
module PathTokens {
  import opened Decimal
  import opened PathData
  import opened PathRoundTrip

  // The number pattern: -?\d*\.?\d+(?:[eE][-+]?\d+)?

  datatype Exponent = NoExponent | Exponent(mark: string, sign: string, digits: string)

  /** A number literal by its parts. */
  datatype Literal = Literal(sign: string, whole: string, point: string, fraction: string, exponent: Exponent)

  predicate IsMantissa(l: Literal)
  {
    && IsSign(l.sign) && AllDigits(l.whole) && AllDigits(l.fraction)
    && ((l.point == "." && l.fraction != "") || (l.point == "" && l.fraction == "" && l.whole != ""))
  }

  predicate IsExponent(e: Exponent)
  {
    e.Exponent? ==>
      (e.mark == "e" || e.mark == "E") && (e.sign == "" || e.sign == "-" || e.sign == "+")
      && e.digits != "" && AllDigits(e.digits)
  }

  predicate IsLiteral(l: Literal)
  {
    IsMantissa(l) && IsExponent(l.exponent)
  }

  function SpellMantissa(l: Literal): string
  {
    l.sign + l.whole + l.point + l.fraction
  }

  function SpellExponent(e: Exponent): string
  {
    match e
    case NoExponent => ""
    case Exponent(mark, sign, digits) => mark + sign + digits
  }

  function Spell(l: Literal): string
  {
    SpellMantissa(l) + SpellExponent(l.exponent)
  }

  predicate Spells(l: Literal, t: string)
  {
    IsLiteral(l) && Spell(l) == t
  }

  ghost predicate IsNumber(t: string)
  {
    exists l :: Spells(l, t)
  }

  ghost predicate IsToken(t: string)
  {
    (|t| == 1 && IsCommand(t[0])) || IsNumber(t)
  }

  // The longest match

  lemma {:induction false} RunCovers(s: string, i: nat, j: nat)
    requires i <= j <= |s| && AllDigits(s[i..j])
    ensures DigitRun(s, i) >= j - i
    decreases j - i
  {
    if i < j {
      assert s[i] == s[i..j][0] && s[i + 1..j] == s[i..j][1..];
      RunCovers(s, i + 1, j);
    }
  }

  lemma RunStops(s: string, i: nat, j: nat)
    requires i <= j < |s| && AllDigits(s[i..j]) && !IsDigit(s[j])
    ensures DigitRun(s, i) == j - i
  {
    forall k | i <= k < j ensures IsDigit(s[k]) { assert s[k] == s[i..j][k - i]; }
    DigitRunIs(s, i, j - i);
  }

  /** Where the parts of a mantissa at the start of `s` lie. */
  lemma MantissaLayout(l: Literal, s: string)
    requires IsMantissa(l) && SpellMantissa(l) <= s
    ensures var w := |l.sign| + |l.whole|;
      && |SpellMantissa(l)| == w + |l.point| + |l.fraction|
      && s[|l.sign|..w] == l.whole && s[w + |l.point|..w + |l.point| + |l.fraction|] == l.fraction
      && (l.point == "." ==> s[w] == '.') && SignLength(s) == |l.sign|
  {
    var m := SpellMantissa(l);
    var w := |l.sign| + |l.whole|;
    assert m[|l.sign|..w] == l.whole;
    assert m[w + |l.point|..] == l.fraction;
    assert s[..|m|] == m;
    assert s[|l.sign|..w] == m[|l.sign|..w] && s[w + |l.point|..|m|] == m[w + |l.point|..];
    assert l.point == "." ==> m[w] == '.';
    assert l.sign == "" ==> m[0] == (l.whole + l.point + l.fraction)[0];
  }

  /** No mantissa at the start of `s` is longer than the one found. */
  lemma MantissaLongest(l: Literal, s: string)
    requires IsMantissa(l) && SpellMantissa(l) <= s
    ensures |SpellMantissa(l)| <= MantissaEnd(s)
  {
    MantissaLayout(l, s);
    if l.point == "." {
      PointReached(s, |l.sign|, |l.sign| + |l.whole|, |SpellMantissa(l)|);
    } else {
      RunCovers(s, |l.sign|, |l.sign| + |l.whole|);
    }
  }

  lemma PointReached(s: string, sign: nat, w: nat, end: nat)
    requires SignLength(s) == sign <= w && w + 1 < end <= |s| && s[w] == '.'
    requires AllDigits(s[sign..w]) && AllDigits(s[w + 1..end])
    ensures end <= MantissaEnd(s)
  {
    RunStops(s, sign, w);
    RunCovers(s, w + 1, end);
  }

  /** And the one found is one. */
  lemma MantissaFound(s: string) returns (l: Literal)
    requires MantissaEnd(s) > 0
    ensures IsMantissa(l) && SpellMantissa(l) == s[..MantissaEnd(s)] && l.exponent.NoExponent?
  {
    var a := SignLength(s);
    var w := a + DigitRun(s, a);
    var end := MantissaEnd(s);
    assert s[..w] == s[..a] + s[a..w];
    if end == w {
      l := Literal(s[..a], s[a..w], "", "", NoExponent);
      assert s[..end] == s[..a] + s[a..w] + "" + "";
    } else {
      l := Literal(s[..a], s[a..w], ".", s[w + 1..end], NoExponent);
      assert s[..end] == s[..w] + [s[w]] + s[w + 1..end];
      assert s[..end] == s[..a] + s[a..w] + "." + s[w + 1..end];
    }
  }

  lemma ExponentLayout(e: Exponent, s: string, i: nat)
    requires e.Exponent? && IsExponent(e) && i <= |s| && SpellExponent(e) <= s[i..]
    ensures var d := i + 1 + |e.sign|;
      && |SpellExponent(e)| == 1 + |e.sign| + |e.digits| && i + |SpellExponent(e)| <= |s|
      && [s[i]] == e.mark && s[d..d + |e.digits|] == e.digits
      && (e.sign != "" ==> [s[i + 1]] == e.sign) && (e.sign == "" ==> IsDigit(s[i + 1]))
  {
    var x := SpellExponent(e);
    var d := 1 + |e.sign|;
    assert s[i..][..|x|] == x && s[i..i + |x|] == x;
    assert x[0] == e.mark[0] && x[d..] == e.digits;
    assert s[i + d..i + |x|] == x[d..];
    assert s[i] == x[0] && s[i + 1] == x[1];
    assert e.sign != "" ==> x[1] == e.sign[0];
    assert e.sign == "" ==> x[1] == e.digits[0];
  }

  lemma ExponentLongest(e: Exponent, s: string, i: nat)
    requires e.Exponent? && IsExponent(e) && i <= |s| && SpellExponent(e) <= s[i..]
    ensures i + |SpellExponent(e)| <= ExponentEnd(s, i)
  {
    ExponentLayout(e, s, i);
    var d := i + 1 + |e.sign|;
    RunCovers(s, d, d + |e.digits|);
  }

  lemma ExponentFound(s: string, i: nat) returns (e: Exponent)
    requires i <= |s|
    ensures IsExponent(e) && SpellExponent(e) == s[i..ExponentEnd(s, i)]
  {
    var end := ExponentEnd(s, i);
    if end == i {
      e := NoExponent;
    } else {
      var d := if s[i + 1] == '-' || s[i + 1] == '+' then i + 2 else i + 1;
      e := Exponent([s[i]], s[i + 1..d], s[d..end]);
      assert s[i..end] == [s[i]] + s[i + 1..d] + s[d..end];
    }
  }

  lemma MantissaCharacters(l: Literal, k: nat)
    requires IsMantissa(l) && 0 < k < |SpellMantissa(l)|
    ensures IsDigit(SpellMantissa(l)[k]) || SpellMantissa(l)[k] == '.'
  {
    var m := SpellMantissa(l);
    var w := |l.sign| + |l.whole|;
    assert k < w ==> m[k] == l.whole[k - |l.sign|];
    assert k >= w + |l.point| ==> m[k] == l.fraction[k - w - |l.point|];
    assert w <= k < w + |l.point| ==> m[k] == '.';
  }

  lemma MantissaEndCharacters(s: string, k: nat)
    ensures 0 < k < MantissaEnd(s) ==> IsDigit(s[k]) || s[k] == '.'
  {
    if 0 < k < MantissaEnd(s) {
      var l := MantissaFound(s);
      MantissaCharacters(l, k);
      assert s[k] == s[..MantissaEnd(s)][k];
    }
  }

  /** A shorter mantissa cannot go on with an exponent. */
  lemma ExponentFollowsLongest(l: Literal, s: string)
    requires IsLiteral(l) && l.exponent.Exponent? && Spell(l) <= s
    ensures |SpellMantissa(l)| == MantissaEnd(s) && SpellExponent(l.exponent) <= s[|SpellMantissa(l)|..]
  {
    var m, x := SpellMantissa(l), SpellExponent(l.exponent);
    assert s[..|m|] == m && s[|m|..][..|x|] == x;
    MantissaLongest(l, s);
    ExponentLayout(l.exponent, s, |m|);
    MantissaEndCharacters(s, |m|);
  }

  lemma NumberFound(s: string)
    ensures NumberEnd(s) > 0 ==> IsNumber(s[..NumberEnd(s)])
  {
    if NumberEnd(s) > 0 {
      var l := MantissaFound(s);
      var e := ExponentFound(s, MantissaEnd(s));
      assert s[..NumberEnd(s)] == s[..MantissaEnd(s)] + s[MantissaEnd(s)..NumberEnd(s)];
      assert Spells(l.(exponent := e), s[..NumberEnd(s)]);
    }
  }

  lemma NoLongerNumber(l: Literal, s: string)
    requires IsLiteral(l) && Spell(l) <= s
    ensures 0 < |Spell(l)| <= NumberEnd(s)
  {
    var m := SpellMantissa(l);
    assert Spell(l)[..|m|] == m && s[..|m|] == Spell(l)[..|m|];
    MantissaLongest(l, s);
    if l.exponent.Exponent? {
      ExponentFollowsLongest(l, s);
      ExponentLongest(l.exponent, s, |m|);
    } else {
      assert Spell(l) == m;
    }
  }

  /** The number matched at the start of a text is the longest prefix the
      pattern describes; none is matched only when no prefix is one. */
  lemma LongestNumber(s: string, k: nat)
    requires k <= |s|
    ensures NumberEnd(s) > 0 ==> IsNumber(s[..NumberEnd(s)])
    ensures IsNumber(s[..k]) ==> 0 < k <= NumberEnd(s)
  {
    NumberFound(s);
    if IsNumber(s[..k]) {
      var l :| Spells(l, s[..k]);
      NoLongerNumber(l, s);
    }
  }

  lemma NumbersAreNoCommands(t: string)
    requires IsNumber(t)
    ensures t != "" && !IsCommand(t[0])
  {
    var l :| Spells(l, t);
    var m := SpellMantissa(l);
    assert t[0] == m[0];
    if l.sign != "" {
      assert m[0] == l.sign[0];
    } else if l.whole != "" {
      assert m[0] == l.whole[0];
    } else {
      assert m[0] == l.point[0];
    }
  }

  lemma NumberStarts(t: string)
    ensures IsNumber(t) ==> t != "" && !IsCommand(t[0])
  {
    if IsNumber(t) { NumbersAreNoCommands(t); }
  }

  function TokenEnd(s: string): (end: nat)
    requires s != ""
    ensures end <= |s|
  {
    if IsCommand(s[0]) then 1 else NumberEnd(s)
  }

  lemma LongestToken(s: string, k: nat)
    requires s != "" && k <= |s|
    ensures TokenEnd(s) > 0 ==> IsToken(s[..TokenEnd(s)])
    ensures IsToken(s[..k]) ==> 0 < k <= TokenEnd(s)
  {
    LongestNumber(s, k);
    assert k > 0 ==> s[..k][0] == s[0];
    NumberStarts(s[..k]);
  }

  lemma TokenizeStep(s: string)
    requires s != ""
    ensures Tokenize(s) ==
      if TokenEnd(s) > 0 then [s[..TokenEnd(s)]] + Tokenize(s[TokenEnd(s)..]) else Tokenize(s[1..])
  {
  }

  ghost predicate IsLongestToken(s: string, k: nat)
    requires k <= |s|
  {
    IsToken(s[..k]) && forall j :: k < j <= |s| ==> !IsToken(s[..j])
  }

  /** Tokens are taken from the left, each the longest the pattern allows where
      it begins, and a character that begins none is passed over. */
  lemma TokensAreLongestMatches(s: string, k: nat)
    requires s != "" && k <= |s|
    ensures (forall j :: 0 < j <= |s| ==> !IsToken(s[..j])) ==> Tokenize(s) == Tokenize(s[1..])
    ensures IsLongestToken(s, k) ==> Tokenize(s) == [s[..k]] + Tokenize(s[k..])
  {
    LongestToken(s, k);
    TokenizeStep(s);
    LongestIsEnd(s, k, TokenEnd(s));
  }

  lemma LongestIsEnd(s: string, k: nat, end: nat)
    requires k <= |s| && end <= |s| && (end > 0 ==> IsToken(s[..end]))
    requires IsToken(s[..k]) ==> 0 < k <= end
    ensures (forall j :: 0 < j <= |s| ==> !IsToken(s[..j])) ==> end == 0
    ensures IsLongestToken(s, k) ==> k == end > 0
  {
  }

  // Literals

  /** What may follow a literal without becoming part of it. */
  predicate Stops(rest: string)
  {
    rest == "" || (!IsDigit(rest[0]) && rest[0] != '.' && rest[0] != 'e' && rest[0] != 'E')
  }

  lemma NothingLonger(l: Literal, rest: string)
    requires IsLiteral(l) && Stops(rest)
    ensures NumberEnd(Spell(l) + rest) == |Spell(l)|
  {
    var s, t := Spell(l) + rest, Spell(l);
    assert s[..|t|] == t && Spells(l, t);
    LongestNumber(s, |t|);
    var end := NumberEnd(s);
    if end > |t| {
      LongestNumber(s, end);
      var longer :| Spells(longer, s[..end]);
      assert s[|t|] == rest[0] && s[..end][|t|] == s[|t|];
      FollowedByStop(l, longer, s[..end]);
    }
  }

  /** In a literal that begins with another one, the character after that is a
      digit, a point or an exponent mark. */
  lemma FollowedByStop(l: Literal, longer: Literal, t: string)
    requires IsLiteral(l) && Spells(longer, t) && Spell(l) <= t && |Spell(l)| < |t|
    ensures var c := t[|Spell(l)|]; IsDigit(c) || c == '.' || c == 'e' || c == 'E'
  {
    var k, m := |Spell(l)|, SpellMantissa(longer);
    assert k > 0;
    if k < |m| {
      MantissaCharacters(longer, k);
      assert t[k] == m[k];
    } else {
      assert t[..|m|] == m && t[|m|..] == SpellExponent(longer.exponent);
      ExponentLayout(longer.exponent, t, |m|);
      if k > |m| {
        ExponentCut(l, longer, t);
      }
    }
  }

  /** A literal that ends inside the exponent of another has digits of it already. */
  lemma ExponentCut(l: Literal, longer: Literal, t: string)
    requires IsLiteral(l) && Spells(longer, t) && longer.exponent.Exponent? && Spell(l) <= t
    requires |SpellMantissa(longer)| < |Spell(l)| < |t|
    ensures IsDigit(t[|Spell(l)|])
  {
    var k, m := |Spell(l)|, |SpellMantissa(longer)|;
    assert t[..m] == SpellMantissa(longer) && t[m..] == SpellExponent(longer.exponent);
    ExponentLayout(longer.exponent, t, m);
    var d := m + 1 + |longer.exponent.sign|;
    assert t[..k] == Spell(l);
    LastIsDigit(l);
    assert t[k - 1] == Spell(l)[k - 1];
    assert [t[m]] == "e" || [t[m]] == "E";
    assert k >= d ==> t[d..d + |longer.exponent.digits|][k - d] == t[k];
  }

  lemma LastIsDigit(l: Literal)
    requires IsLiteral(l)
    ensures Spell(l) != "" && IsDigit(Spell(l)[|Spell(l)| - 1])
  {
    var t := Spell(l);
    match l.exponent
    case Exponent(mark, sign, digits) => assert t[|t| - 1] == digits[|digits| - 1];
    case NoExponent =>
      if l.fraction != "" {
        assert t[|t| - 1] == l.fraction[|l.fraction| - 1];
      } else {
        assert t[|t| - 1] == l.whole[|l.whole| - 1];
      }
  }

  /** Every literal, with a point or without, with an exponent or without, is
      one token when nothing follows that it could go on with. */
  lemma LiteralIsOneToken(l: Literal, rest: string)
    requires IsLiteral(l) && Stops(rest)
    ensures Tokenize(Spell(l) + rest) == [Spell(l)] + Tokenize(rest)
  {
    var s := Spell(l) + rest;
    NothingLonger(l, rest);
    assert Spells(l, Spell(l));
    NumbersAreNoCommands(Spell(l));
    assert s[0] == Spell(l)[0] && s[..|Spell(l)|] == Spell(l) && s[|Spell(l)|..] == rest;
  }

  // Values

  /** `x` times ten to the power of `k`. */
  function TimesTenTo(x: real, k: int): real
    decreases if k < 0 then -k else k
  {
    if k == 0 then x else if k > 0 then TimesTenTo(x * 10.0, k - 1) else TimesTenTo(x / 10.0, k + 1)
  }

  function ExponentOf(e: Exponent): int
  {
    match e
    case NoExponent => 0
    case Exponent(_, sign, digits) =>
      if !AllDigits(digits) then 0 else if sign == "-" then -(Value(digits) as int) else Value(digits)
  }

  /** What a literal denotes: all its digits as one whole number, shifted by
      its exponent and back by the digits after its point. */
  function Denoted(l: Literal): real
    requires IsLiteral(l)
  {
    var digits := TimesTenTo(Value(l.whole + l.fraction) as real, ExponentOf(l.exponent) - |l.fraction|);
    if l.sign == "-" then -digits else digits
  }

  /** Which is multiplying, or dividing, by that power. */
  lemma {:induction false} TimesTenToIsProduct(x: real, k: nat)
    ensures TimesTenTo(x, k) == x * Pow10(k) as real
    ensures TimesTenTo(x, 0 - k) * Pow10(k) as real == x
    decreases k
  {
    if k > 0 {
      TimesTenToIsProduct(x * 10.0, k - 1);
      TimesTenToIsProduct(x / 10.0, k - 1);
      Regroup(x, 10.0, Pow10(k - 1) as real);
      Regroup(10.0, TimesTenTo(x / 10.0, 1 - k), Pow10(k - 1) as real);
    }
  }

  lemma Regroup(a: real, b: real, c: real)
    ensures a * (b * c) == (a * b) * c && a * (b * c) == b * (a * c)
  {
  }

  lemma {:induction false} TimesTenToInside(x: real, k: int)
    ensures TimesTenTo(x * 10.0, k) == TimesTenTo(x, k) * 10.0 && TimesTenTo(x / 10.0, k) == TimesTenTo(x, k) / 10.0
    decreases if k < 0 then -k else k
  {
    if k > 0 {
      TimesTenToInside(x * 10.0, k - 1);
      TimesTenToInside(x, k - 1);
    } else if k < 0 {
      TimesTenToInside(x / 10.0, k + 1);
      TimesTenToInside(x, k + 1);
    }
  }

  lemma {:induction false} ShiftIsTimesTenTo(x: real, k: int)
    ensures Shift(x, k) == TimesTenTo(x, k)
    decreases if k < 0 then -k else k
  {
    if k > 0 {
      ShiftIsTimesTenTo(x, k - 1);
      TimesTenToInside(x, k - 1);
    } else if k < 0 {
      ShiftIsTimesTenTo(x, k + 1);
      TimesTenToInside(x, k + 1);
    }
  }

  lemma NextPower(x: real, k: int)
    ensures TimesTenTo(x, k + 1) == TimesTenTo(x, k) * 10.0 && TimesTenTo(x, k - 1) == TimesTenTo(x, k) / 10.0
  {
    TimesTenToInside(x, k);
    if k < 0 { TimesTenToInside(x, k + 1); }
    if k > 0 { TimesTenToInside(x, k - 1); }
  }

  lemma {:induction false} PowersAdd(x: real, a: int, b: int)
    ensures TimesTenTo(TimesTenTo(x, a), b) == TimesTenTo(x, a + b)
    decreases if b < 0 then -b else b
  {
    if b > 0 {
      PowersAdd(x, a, b - 1);
      TimesTenToInside(TimesTenTo(x, a), b - 1);
      NextPower(x, a + b - 1);
    } else if b < 0 {
      PowersAdd(x, a, b + 1);
      TimesTenToInside(TimesTenTo(x, a), b + 1);
      NextPower(x, a + b + 1);
    }
  }

  lemma LiteralParts(l: Literal)
    requires IsLiteral(l)
    ensures var t := Spell(l); var m := MantissaEnd(t);
      && NumberEnd(t) == |t| && m == |SpellMantissa(l)| && t[..m] == SpellMantissa(l)
      && t[m..] == SpellExponent(l.exponent)
  {
    var t, m := Spell(l), SpellMantissa(l);
    assert t + "" == t && t[..|m|] == m && t[|m|..] == SpellExponent(l.exponent);
    NothingLonger(l, "");
    if l.exponent.NoExponent? {
      assert t == m;
      MantissaLongest(l, t);
    } else {
      ExponentFollowsLongest(l, t);
    }
  }

  lemma MantissaDenotes(l: Literal)
    requires IsMantissa(l)
    ensures MantissaValue(SpellMantissa(l)) ==
      if l.sign == "-" then -Magnitude(l.whole, l.fraction) else Magnitude(l.whole, l.fraction)
  {
    var m := SpellMantissa(l);
    MantissaLayout(l, m);
    var a := |l.sign|;
    var w := a + |l.whole|;
    if l.point == "." {
      RunStops(m, a, w);
      assert m[w + 1..] == l.fraction;
    } else {
      RunCovers(m, a, w);
    }
    MantissaFrom(m, a, w, l.whole, l.fraction);
  }

  lemma ExponentDenotes(e: Exponent)
    requires IsExponent(e)
    ensures ExponentValue(SpellExponent(e)) == ExponentOf(e)
  {
    var x := SpellExponent(e);
    if e.Exponent? {
      assert x[0..] == x;
      ExponentLayout(e, x, 0);
      assert x[1 + |e.sign|..] == e.digits;
    }
  }

  lemma WholeReadAs(t: string)
    requires t != "" && NumberEnd(t) == |t|
    ensures ToNumber(t) == Finite(Shift(MantissaValue(t[..MantissaEnd(t)]), ExponentValue(t[MantissaEnd(t)..])))
  {
  }

  lemma {:induction false} SumsScale(x: real, y: real, k: int)
    ensures TimesTenTo(x + y, k) == TimesTenTo(x, k) + TimesTenTo(y, k) && TimesTenTo(-x, k) == -TimesTenTo(x, k)
    decreases if k < 0 then -k else k
  {
    if k > 0 {
      SumsScale(x * 10.0, y * 10.0, k - 1);
      assert (x + y) * 10.0 == x * 10.0 + y * 10.0 && (-x) * 10.0 == -(x * 10.0);
    } else if k < 0 {
      SumsScale(x / 10.0, y / 10.0, k + 1);
      assert (x + y) / 10.0 == x / 10.0 + y / 10.0 && (-x) / 10.0 == -(x / 10.0);
    }
  }

  lemma {:induction false} WholePart(n: nat, f: nat)
    ensures TimesTenTo((n * Pow10(f)) as real, 0 - f) == n as real
  {
    if f > 0 {
      WholePart(n, f - 1);
      assert n * Pow10(f) == 10 * (n * Pow10(f - 1));
      assert (n * Pow10(f)) as real / 10.0 == (n * Pow10(f - 1)) as real;
    }
  }

  /** The digits before and after the point are one whole number shifted back. */
  lemma MagnitudeIsDigits(whole: string, fraction: string)
    requires AllDigits(whole) && AllDigits(fraction)
    ensures Magnitude(whole, fraction) == TimesTenTo(Value(whole + fraction) as real, 0 - |fraction|)
  {
    ShiftIsTimesTenTo(Value(fraction) as real, 0 - |fraction|);
    DigitsShifted(whole, fraction);
  }

  lemma DigitsShifted(whole: string, fraction: string)
    requires AllDigits(whole) && AllDigits(fraction)
    ensures TimesTenTo(Value(whole + fraction) as real, 0 - |fraction|) ==
      Value(whole) as real + TimesTenTo(Value(fraction) as real, 0 - |fraction|)
  {
    ValueOfConcat(whole, fraction);
    DigitsJoined(Value(whole), Value(fraction), Value(whole + fraction), |fraction|);
  }

  lemma DigitsJoined(whole: nat, fraction: nat, all: nat, f: nat)
    requires all == whole * Pow10(f) + fraction
    ensures TimesTenTo(all as real, 0 - f) == whole as real + TimesTenTo(fraction as real, 0 - f)
  {
    WholePart(whole, f);
    AddedReals(whole * Pow10(f), fraction);
    SumsScale((whole * Pow10(f)) as real, fraction as real, 0 - f);
  }

  lemma AddedReals(a: int, b: int)
    ensures (a + b) as real == a as real + b as real
  {
  }

  /** A whole token's value, from its mantissa and its exponent. */
  lemma PartsReadAs(t: string, m: nat, mantissa: real, e: int)
    requires t != "" && NumberEnd(t) == |t| && m == MantissaEnd(t)
    requires MantissaValue(t[..m]) == mantissa && ExponentValue(t[m..]) == e
    ensures ToNumber(t) == Finite(TimesTenTo(mantissa, e))
  {
    WholeReadAs(t);
    ShiftIsTimesTenTo(mantissa, e);
  }

  lemma SignedDigits(whole: string, fraction: string, e: int)
    requires AllDigits(whole) && AllDigits(fraction)
    ensures var digits := TimesTenTo(Value(whole + fraction) as real, e - |fraction|);
      && TimesTenTo(Magnitude(whole, fraction), e) == digits
      && TimesTenTo(-Magnitude(whole, fraction), e) == -digits
  {
    SumsScale(Magnitude(whole, fraction), 0.0, e);
    MagnitudeIsDigits(whole, fraction);
    PowersAdd(Value(whole + fraction) as real, 0 - |fraction|, e);
  }

  lemma DenotedIs(l: Literal, value: real)
    requires IsLiteral(l)
    requires var m := Magnitude(l.whole, l.fraction);
      value == TimesTenTo(if l.sign == "-" then -m else m, ExponentOf(l.exponent))
    ensures value == Denoted(l)
  {
    SignedDigits(l.whole, l.fraction, ExponentOf(l.exponent));
  }

  /** Every literal is read as the number it denotes. */
  lemma LiteralReadsAs(l: Literal)
    requires IsLiteral(l)
    ensures ToNumber(Spell(l)) == Finite(Denoted(l))
  {
    LiteralParts(l);
    LastIsDigit(l);
    MantissaDenotes(l);
    ExponentDenotes(l.exponent);
    var m, e := Magnitude(l.whole, l.fraction), ExponentOf(l.exponent);
    var signed := if l.sign == "-" then -m else m;
    PartsReadAs(Spell(l), MantissaEnd(Spell(l)), signed, e);
    DenotedIs(l, TimesTenTo(signed, e));
  }

  // Whole paths

  /** A command letter in either case, and the coordinates written after it. */
  datatype Command = Command(op: char, coords: seq<Literal>)

  predicate IsComplete(c: Command)
  {
    && (forall i :: 0 <= i < |c.coords| ==> IsLiteral(c.coords[i]))
    && ((c.op in "Mm" && |c.coords| == 2) || (c.op in "Cc" && |c.coords| == 6) || (c.op in "Zz" && |c.coords| == 0))
  }

  /** Coordinates with a blank between them. */
  function SpellCoords(coords: seq<Literal>): string
  {
    if coords == [] then ""
    else if |coords| == 1 then Spell(coords[0])
    else Spell(coords[0]) + " " + SpellCoords(coords[1..])
  }

  function SpellPath(commands: seq<Command>): string
  {
    if commands == [] then "" else [commands[0].op] + (SpellCoords(commands[0].coords) + SpellPath(commands[1..]))
  }

  function CoordTokens(coords: seq<Literal>): seq<string>
  {
    seq(|coords|, i requires 0 <= i < |coords| => Spell(coords[i]))
  }

  function CommandTokens(c: Command): seq<string>
  {
    [[c.op]] + CoordTokens(c.coords)
  }

  function PathTokensOf(commands: seq<Command>): seq<string>
  {
    if commands == [] then [] else CommandTokens(commands[0]) + PathTokensOf(commands[1..])
  }

  lemma FirstOfCoords(coords: seq<Literal>)
    requires coords != []
    ensures CoordTokens(coords) == [Spell(coords[0])] + CoordTokens(coords[1..])
  {
  }

  lemma BlankBetween(first: string, more: string, rest: string)
    ensures first + " " + more + rest == first + (" " + (more + rest))
  {
  }

  lemma Nested(first: string, more: seq<string>, rest: seq<string>)
    ensures [first] + (more + rest) == [first] + more + rest
  {
  }

  lemma {:induction false} CoordsTokenized(coords: seq<Literal>, rest: string)
    requires forall i :: 0 <= i < |coords| ==> IsLiteral(coords[i])
    requires Stops(rest)
    ensures Tokenize(SpellCoords(coords) + rest) == CoordTokens(coords) + Tokenize(rest)
    decreases |coords|
  {
    if coords == [] {
      assert "" + rest == rest && CoordTokens(coords) + Tokenize(rest) == Tokenize(rest);
    } else if |coords| == 1 {
      LiteralIsOneToken(coords[0], rest);
      assert CoordTokens(coords) == [Spell(coords[0])];
    } else {
      var more := SpellCoords(coords[1..]);
      CoordsTokenized(coords[1..], rest);
      FirstOfCoords(coords);
      LiteralIsOneToken(coords[0], " " + (more + rest));
      BlankSkipped(more + rest);
      BlankBetween(Spell(coords[0]), more, rest);
      Nested(Spell(coords[0]), CoordTokens(coords[1..]), Tokenize(rest));
    }
  }

  lemma {:induction false} PathTokenized(commands: seq<Command>)
    requires forall i :: 0 <= i < |commands| ==> IsComplete(commands[i])
    ensures Stops(SpellPath(commands)) && Tokenize(SpellPath(commands)) == PathTokensOf(commands)
  {
    if commands != [] {
      var c, rest := commands[0], SpellPath(commands[1..]);
      PathTokenized(commands[1..]);
      CommandTokenized(c, rest);
    }
  }

  lemma CommandTokenized(c: Command, rest: string)
    requires IsComplete(c) && Stops(rest)
    ensures var text := [c.op] + (SpellCoords(c.coords) + rest);
      Stops(text) && Tokenize(text) == CommandTokens(c) + Tokenize(rest)
  {
    CoordsTokenized(c.coords, rest);
    CommandSplits(c.op, SpellCoords(c.coords) + rest);
    Nested([c.op], CoordTokens(c.coords), Tokenize(rest));
  }

  function CoordAt(c: Command, i: nat): Number
  {
    if i < |c.coords| && IsLiteral(c.coords[i]) then Finite(Denoted(c.coords[i])) else NaN
  }

  function PointOf(c: Command, i: nat): Point
  {
    Point(CoordAt(c, i), CoordAt(c, i + 1))
  }

  /** The subpath a move begins. */
  function Begun(c: Command): Subpath
  {
    Subpath(PointOf(c, 0), [])
  }

  /** The subpaths with a curve added to the last of them. */
  function Bent(drawn: seq<Subpath>, c: Command): seq<Subpath>
    requires drawn != []
  {
    var last := drawn[|drawn| - 1];
    drawn[..|drawn| - 1] + [Subpath(last.start, last.curves + [Curve(PointOf(c, 0), PointOf(c, 2), PointOf(c, 4))])]
  }

  /** A curve while no subpath is open. */
  predicate IsStray(c: Command, isOpen: bool)
  {
    c.op in "Cc" && !isOpen
  }

  function Continued(c: Command, drawn: seq<Subpath>): (now: seq<Subpath>)
    requires c.op in "Cc" ==> drawn != []
    ensures c.op in "MmCc" ==> now != []
  {
    if c.op in "Mm" then drawn + [Begun(c)] else if c.op in "Cc" then Bent(drawn, c) else drawn
  }

  /** What a list of commands draws: a move begins a subpath, a curve continues
      the one that is open, a close ends it; a curve while none is open is refused. */
  function Drawn(commands: seq<Command>, drawn: seq<Subpath>, isOpen: bool): ParseResult
    requires isOpen ==> drawn != []
  {
    if commands == [] then Parsed(drawn)
    else if IsStray(commands[0], isOpen) then CurveBeforeMove
    else
      Drawn(commands[1..], Continued(commands[0], drawn), commands[0].op in "MmCc")
  }

  lemma CoordReadAs(tokens: seq<string>, i: nat, c: Command, k: nat)
    requires i + 1 + k < |tokens| && k < |c.coords| && IsLiteral(c.coords[k]) && tokens[i + 1 + k] == Spell(c.coords[k])
    ensures NumberAt(tokens, i + 1 + k) == CoordAt(c, k)
  {
    LiteralReadsAs(c.coords[k]);
  }

  predicate StartsWith(tokens: seq<string>, i: nat, c: Command)
  {
    && i + |c.coords| < |tokens| && tokens[i] == [c.op]
    && forall k :: 0 <= k < |c.coords| ==> tokens[i + 1 + k] == Spell(c.coords[k])
  }

  lemma CommandReadAs(tokens: seq<string>, i: nat, c: Command)
    requires IsComplete(c) && StartsWith(tokens, i, c)
    ensures |c.coords| == 2 ==> PointAt(tokens, i + 1) == PointOf(c, 0)
    ensures |c.coords| == 6 ==>
      CurveAt(tokens, i + 1) == Curve(PointOf(c, 0), PointOf(c, 2), PointOf(c, 4))
  {
    forall k | 0 <= k < |c.coords| ensures NumberAt(tokens, i + 1 + k) == CoordAt(c, k) {
      CoordReadAs(tokens, i, c, k);
    }
    if |c.coords| == 6 {
      assert NumberAt(tokens, i + 1 + 0) == CoordAt(c, 0) && NumberAt(tokens, i + 1 + 1) == CoordAt(c, 1);
      assert NumberAt(tokens, i + 1 + 2) == CoordAt(c, 2) && NumberAt(tokens, i + 1 + 3) == CoordAt(c, 3);
      assert NumberAt(tokens, i + 1 + 4) == CoordAt(c, 4) && NumberAt(tokens, i + 1 + 5) == CoordAt(c, 5);
    } else if |c.coords| == 2 {
      assert NumberAt(tokens, i + 1 + 0) == CoordAt(c, 0) && NumberAt(tokens, i + 1 + 1) == CoordAt(c, 1);
    }
  }

  lemma BentIsAdded(drawn: seq<Subpath>, c: Command)
    requires drawn != []
    ensures Bent(drawn, c) == AddCurve(drawn, Curve(PointOf(c, 0), PointOf(c, 2), PointOf(c, 4)))
  {
  }

  lemma LetterCases(op: char)
    requires op in "MmCcZz"
    ensures op in "Mm" <==> IsMove([op])
    ensures op in "Cc" <==> IsCurve([op])
    ensures op in "Zz" <==> IsClose([op])
    ensures op in "Mm" ==> op !in "Cc" && op !in "Zz"
    ensures op in "Cc" ==> op !in "Zz"
  {
    assert [op][0] == op && "M"[0] == 'M' && "m"[0] == 'm' && "C"[0] == 'C' && "c"[0] == 'c';
    assert "Z"[0] == 'Z' && "z"[0] == 'z';
  }

  lemma OneCommandRead(tokens: seq<string>, i: nat, c: Command, drawn: seq<Subpath>, isOpen: bool)
    requires IsComplete(c) && StartsWith(tokens, i, c) && (isOpen ==> drawn != [])
    ensures IsStray(c, isOpen) ==> ReadFrom(tokens, i, drawn, isOpen) == CurveBeforeMove
    ensures IsStray(c, isOpen)
      || ReadFrom(tokens, i, drawn, isOpen) ==
           ReadFrom(tokens, i + 1 + |c.coords|, Continued(c, drawn), c.op in "MmCc")
  {
    assert c.op in "MmCcZz";
    LetterCases(c.op);
    CommandReadAs(tokens, i, c);
    if isOpen { BentIsAdded(drawn, c); }
  }

  lemma CommandComesFirst(tokens: seq<string>, i: nat, c: Command, rest: seq<string>)
    requires i <= |tokens| && tokens[i..] == CommandTokens(c) + rest
    ensures StartsWith(tokens, i, c) && tokens[i + 1 + |c.coords|..] == rest
  {
    var first := CommandTokens(c);
    Prefix(tokens, i, first, rest);
    assert tokens[i + 0] == first[0];
    forall k | 0 <= k < |c.coords| ensures tokens[i + 1 + k] == Spell(c.coords[k]) {
      assert tokens[i + (1 + k)] == first[1 + k];
    }
  }

  lemma {:induction false} CommandsRead(tokens: seq<string>, i: nat, commands: seq<Command>,
                                        drawn: seq<Subpath>, isOpen: bool)
    requires forall k :: 0 <= k < |commands| ==> IsComplete(commands[k])
    requires i <= |tokens| && tokens[i..] == PathTokensOf(commands) && (isOpen ==> drawn != [])
    ensures ReadFrom(tokens, i, drawn, isOpen) == Drawn(commands, drawn, isOpen)
    decreases |commands|
  {
    if commands != [] {
      var c := commands[0];
      CommandComesFirst(tokens, i, c, PathTokensOf(commands[1..]));
      OneCommandRead(tokens, i, c, drawn, isOpen);
      if !IsStray(c, isOpen) {
        CommandsRead(tokens, i + 1 + |c.coords|, commands[1..], Continued(c, drawn), c.op in "MmCc");
      }
    }
  }

  /** Every path written with complete commands is read as what it draws,
      whatever literals its coordinates are and whichever case its letters. */
  lemma PathReadsAsDrawn(commands: seq<Command>)
    requires forall i :: 0 <= i < |commands| ==> IsComplete(commands[i])
    ensures Parse(SpellPath(commands)) == Drawn(commands, [], false)
  {
    PathTokenized(commands);
    assert PathTokensOf(commands)[0..] == PathTokensOf(commands);
    CommandsRead(PathTokensOf(commands), 0, commands, [], false);
  }

  /** A number where a command should be is refused, and named. */
  lemma NumberFirstRefused(l: Literal, rest: string)
    requires IsLiteral(l) && Stops(rest)
    ensures Parse(Spell(l) + rest) == Unsupported(Spell(l))
  {
    LiteralIsOneToken(l, rest);
    assert Spells(l, Spell(l));
    NumbersAreNoCommands(Spell(l));
    var t := Spell(l);
    assert t != "M" && t != "m" && t != "C" && t != "c" && t != "Z" && t != "z";
  }
}
