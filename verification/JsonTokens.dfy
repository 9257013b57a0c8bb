/**
 The tokens of JSON text (sections 2.1 to 2.5 of RFC 4627, with the liberties the reader takes), part by part, and how
 the reader tells each of them from the text behind it.
 */
module JsonTokens {
  import opened JsonText
  import opened JsonWriter
  import opened JsonReader

  // ---------------------------------------------------------------- what the tokens are

  /** Blanks, horizontal and vertical tabs, line and form feeds, carriage returns. */
  predicate WhiteCharacter(c: char) {
    c == ' ' || c as int == 9 || c as int == 10 || c as int == 11 || c as int == 12 || c as int == 13
  }

  predicate White(s: string) {
    forall i :: 0 <= i < |s| ==> WhiteCharacter(s[i])
  }

  predicate Decimals(s: string) {
    forall i :: 0 <= i < |s| ==> '0' <= s[i] <= '9'
  }

  predicate Sign(s: string) {
    s == "" || s == "+" || s == "-"
  }

  function Power10(n: nat): nat {
    if n == 0 then 1 else 10 * Power10(n - 1)
  }

  /** The number that digits stand for, the first one times the highest power. */
  function DecimalValue(s: string): (n: int)
    requires Decimals(s)
    ensures n >= 0
  {
    if s == "" then 0
    else
      var first: nat := s[0] as int - '0' as int;
      NoLess(first, Power10(|s| - 1));
      first * Power10(|s| - 1) + DecimalValue(s[1..])
  }

  lemma NoLess(a: nat, b: nat)
    ensures a * b >= 0
  {
  }

  /** Text between quotes: no quote without a backslash before it, and no backslash without a character behind it. */
  predicate Closed(body: string)
    decreases |body|
  {
    body == "" ||
    (body[0] != '"' && body[0] != '\\' && Closed(body[1..])) ||
    (body[0] == '\\' && |body| >= 2 && Closed(body[2..]))
  }

  datatype Exponent = NoExponent | Exponent(letter: char, sign: string, digits: string)

  /** A token in its parts. A number with a dot or an exponent is a real one. */
  datatype Token = True | False | Nothing | Quotation(body: string) | Integer(sign: string, digits: string)
                 | Fractional(sign: string, whole: string, dot: bool, fraction: string, exponent: Exponent)

  predicate ProperExponent(x: Exponent) {
    x.Exponent? ==> (x.letter == 'e' || x.letter == 'E') && Sign(x.sign) && x.digits != "" && Decimals(x.digits)
  }

  function IntegerOf(sign: string, digits: string): (i: int)
    requires Decimals(digits)
  {
    if sign == "-" then -DecimalValue(digits) else DecimalValue(digits)
  }

  /** Integers fit 64 bits with their sign, or without a sign 64 bits for the size. A real number has a digit beside its
      dot, or digits before an exponent. */
  predicate Proper(t: Token) {
    match t
    case Quotation(body) => Closed(body)
    case Integer(sign, digits) =>
      Sign(sign) && digits != "" && Decimals(digits) &&
      (-0x8000_0000_0000_0000 <= IntegerOf(sign, digits) < 0x8000_0000_0000_0000 ||
       (sign == "" && IntegerOf(sign, digits) < 0x1_0000_0000_0000_0000))
    case Fractional(sign, whole, dot, fraction, exponent) =>
      Sign(sign) && Decimals(whole) && Decimals(fraction) && |whole| + |fraction| > 0 && ProperExponent(exponent) &&
      (!dot ==> fraction == "" && exponent.Exponent?)
    case _ => true
  }

  function ExponentText(x: Exponent): string {
    if x.NoExponent? then "" else [x.letter] + (x.sign + x.digits)
  }

  /** What follows the whole digits of a real number. */
  function FractionText(dot: bool, fraction: string, exponent: Exponent): string {
    if dot then "." + (fraction + ExponentText(exponent)) else ExponentText(exponent)
  }

  function TokenText(t: Token): string {
    match t
    case True => "true"
    case False => "false"
    case Nothing => "null"
    case Quotation(body) => "\"" + body + "\""
    case Integer(sign, digits) => sign + digits
    case Fractional(sign, whole, dot, fraction, exponent) => sign + (whole + FractionText(dot, fraction, exponent))
  }

  /** The event a token fires; an integer that fits the signed type is a signed one. */
  function TokenEvent(t: Token): Event
    requires Proper(t)
  {
    match t
    case True => NewTrue
    case False => NewFalse
    case Nothing => NewNull
    case Quotation(_) => NewStr(TokenText(t))
    case Integer(sign, digits) =>
      var i := IntegerOf(sign, digits);
      if i < 0x8000_0000_0000_0000 then NewInt(i) else NewUInt64(i)
    case Fractional(_, _, _, _, _) => NewReal(TokenText(t))
  }

  predicate Numeric(t: Token) {
    t.Integer? || t.Fractional?
  }

  predicate DigitNext(tail: string) {
    tail != "" && '0' <= tail[0] <= '9'
  }

  /** What follows is no digit, and where there is no exponent no letter of one. */
  predicate RealEnds(x: Exponent, tail: string) {
    !DigitNext(tail) && (x.NoExponent? ==> tail == "" || (tail[0] != 'e' && tail[0] != 'E'))
  }

  /** Where a number ends: an integer in front of no digit, and only if no real number begins where it does. */
  ghost predicate Complete(t: Token, tail: string) {
    match t
    case Integer(_, _) =>
      !DigitNext(tail) &&
      forall f: Token, rest :: f.Fractional? && Proper(f) && RealEnds(f.exponent, rest) ==>
                                 TokenText(t) + tail != TokenText(f) + rest
    case Fractional(_, _, _, _, exponent) => RealEnds(exponent, tail)
    case _ => true
  }

  /** In front of such a text every number is complete. */
  predicate Ends(tail: string) {
    tail == "" || !('0' <= tail[0] <= '9' || tail[0] == '.' || tail[0] == 'e' || tail[0] == 'E')
  }

  // ---------------------------------------------------------------- white space

  /** t begins with something that is not white space. */
  predicate Starts(t: string) {
    t != "" && !WhiteCharacter(t[0])
  }

  lemma {:induction false} SkipWhite(ws: string, t: string)
    requires White(ws) && Starts(t)
    ensures Skip(ws + t) == t
  {
    if ws == "" {
      assert ws + t == t;
    } else {
      assert (ws + t)[1..] == ws[1..] + t;
      SkipWhite(ws[1..], t);
    }
  }

  /** What is skipped is white. */
  lemma {:induction false} Skipped(s: string) returns (ws: string)
    ensures s == ws + Skip(s) && White(ws)
  {
    ws := "";
    if s != "" && IsSpace(s[0]) {
      ws := Skipped(s[1..]);
      ws := [s[0]] + ws;
    }
  }

  // ---------------------------------------------------------------- digits

  /** The reader computes the number from its front. */
  lemma {:induction false} OneDigitMore(s: string, c: char)
    requires Decimals(s) && '0' <= c <= '9'
    ensures DecimalValue(s + [c]) == DecimalValue(s) * 10 + (c as int - '0' as int)
  {
    var t := s + [c];
    if s == "" {
      assert t[1..] == "" && Power10(0) == 1;
    } else {
      OneDigitMore(s[1..], c);
      assert t[1..] == s[1..] + [c] && |t| - 1 == |s|;
      FirstDigit(s);
      FirstDigit(t);
      hide *;
      TenTimes(s[0] as int - '0' as int, Power10(|s| - 1), DecimalValue(s[1..]), c as int - '0' as int);
    }
  }

  lemma FirstDigit(s: string)
    requires Decimals(s) && s != ""
    ensures DecimalValue(s) == (s[0] as int - '0' as int) * Power10(|s| - 1) + DecimalValue(s[1..])
    ensures Power10(|s|) == 10 * Power10(|s| - 1)
  {
  }

  lemma TenTimes(a: int, p: int, v: int, d: int)
    ensures a * (10 * p) + (v * 10 + d) == (a * p + v) * 10 + d
  {
  }

  lemma {:induction false} NumberIs(s: string)
    requires Decimals(s)
    ensures Number(s) == DecimalValue(s)
  {
    if s != "" {
      var n := |s| - 1;
      NumberIs(s[..n]);
      OneDigitMore(s[..n], s[n]);
      assert s[..n] + [s[n]] == s;
    }
  }

  lemma {:induction false} DigitsRun(d: string, tail: string)
    requires Decimals(d) && (tail == "" || !IsDigit(tail[0]))
    ensures DigitRun(d + tail) == |d|
  {
    if d == "" {
      assert d + tail == tail;
    } else {
      assert (d + tail)[1..] == d[1..] + tail;
      DigitsRun(d[1..], tail);
    }
  }

  lemma FirstIsSign(s: string)
    requires s != ""
    ensures SignLength(s) == if s[0] == '-' || s[0] == '+' then 1 else 0
  {
  }

  lemma DigitsOf(s: string) returns (d: string)
    ensures DigitRun(s) <= |s| && d == s[..DigitRun(s)] && Decimals(d) && !DigitNext(s[|d|..])
  {
    d := s[..DigitRun(s)];
    hide DigitRun;
  }

  // ---------------------------------------------------------------- real numbers

  /** A text that the reader takes for a real number from end to end. */
  predicate IsReal(s: string) {
    s != "" && RealLength(s) == |s|
  }

  lemma RealIs(s: string)
    requires s != "" && RealLength(s) == |s|
    ensures IsReal(s)
  {
  }

  lemma WholeIsReal(s: string)
    requires IsReal(s)
    ensures s != "" && RealLength(s) == |s|
  {
  }

  lemma RealParts(s: string, sign: nat, whole: nat)
    requires sign == SignLength(s) && whole == DigitRun(s[sign..])
    ensures sign + whole <= |s|
    ensures var more := FractionLength(s[sign + whole..], whole);
            RealLength(s) == (if more == 0 then 0 else sign + whole + more) && more <= |s| - sign - whole
  {
    hide DigitRun, SignLength, FractionLength;
  }

  lemma DotFraction(t: string, whole: nat)
    requires t != "" && t[0] == '.'
    ensures var fraction := DigitRun(t[1..]);
            var exponent := ExponentLength(t[1 + fraction..]);
            FractionLength(t, whole) == if whole + fraction == 0 || exponent < 0 then 0 else 1 + fraction + exponent
  {
    hide DigitRun, ExponentLength;
  }

  lemma NoDotFraction(t: string, whole: nat)
    requires t != "" && t[0] != '.'
    ensures var exponent := ExponentLength(t);
            FractionLength(t, whole) == if whole == 0 || exponent < 0 then 0 else exponent
  {
    hide DigitRun, ExponentLength;
  }

  lemma ExponentRule(s: string)
    requires s != "" && IsExponentLetter(s[0])
    ensures var t := s[1..];
            var digits := DigitRun(t[SignLength(t)..]);
            ExponentLength(s) == if digits == 0 then -1 else 1 + SignLength(t) + digits
  {
    hide DigitRun, SignLength;
  }

  lemma LetterFirst(x: Exponent, tail: string)
    requires ProperExponent(x) && x.Exponent?
    ensures var text := ExponentText(x);
            |text| == 1 + |x.sign| + |x.digits| && text[0] == x.letter && !IsDigit(text[0]) && text[0] != '.'
    ensures (ExponentText(x) + tail)[0] == x.letter && (ExponentText(x) + tail)[1..] == x.sign + (x.digits + tail)
    ensures !DigitNext(ExponentText(x) + tail)
    ensures Sign(x.sign) && Decimals(x.digits) && x.digits != "" && IsExponentLetter(x.letter)
  {
    hide Sign, Decimals;
  }

  lemma NotContinued(x: Exponent, tail: string)
    requires RealEnds(x, tail)
    ensures tail == "" || !IsDigit(tail[0])
  {
  }

  lemma NoExponentAt(x: Exponent, tail: string)
    requires x.NoExponent? && RealEnds(x, tail)
    ensures ExponentText(x) == "" && ExponentLength(ExponentText(x) + tail) == 0 && !DigitNext(ExponentText(x) + tail)
  {
    assert "" + tail == tail;
  }

  lemma ExponentWhole(x: Exponent, tail: string)
    requires ProperExponent(x) && RealEnds(x, tail)
    ensures ExponentLength(ExponentText(x) + tail) == |ExponentText(x)|
    ensures !DigitNext(ExponentText(x) + tail)
    ensures x.Exponent? ==> !IsDigit(ExponentText(x)[0]) && ExponentText(x)[0] != '.'
  {
    hide *;
    if x.Exponent? {
      var s, t := ExponentText(x) + tail, x.sign + (x.digits + tail);
      LetterFirst(x, tail);
      NotContinued(x, tail);
      ExponentRule(s);
      SignShape(x.sign, x.digits, tail);
      DigitsNoSign(x.digits);
      Reassociate(x.sign, x.digits, tail);
      FirstIsSign(t);
      DigitsRun(x.digits, tail);
    } else {
      NoExponentAt(x, tail);
    }
  }

  lemma FractionIs(t: Token)
    requires t.Fractional? && Proper(t)
    ensures FractionText(t.dot, t.fraction, t.exponent) ==
            if t.dot then "." + (t.fraction + ExponentText(t.exponent)) else ExponentText(t.exponent)
    ensures !t.dot ==> t.fraction == "" && t.exponent.Exponent?
  {
  }

  lemma DotWhole(fraction: string, x: string, tail: string, whole: nat)
    requires Decimals(fraction) && ExponentLength(x + tail) == |x| && !DigitNext(x + tail) && whole + |fraction| > 0
    ensures var more := "." + (fraction + x);
            FractionLength(more + tail, whole) == |more| && !IsDigit(more[0])
  {
    assert x + tail == "" || !IsDigit((x + tail)[0]);
    hide Decimals, DigitRun, ExponentLength, FractionLength;
    var s := "." + (fraction + x) + tail;
    assert s[1..] == fraction + (x + tail);
    DotFraction(s, whole);
    DigitsRun(fraction, x + tail);
    assert s[1 + |fraction|..] == x + tail;
  }

  lemma FractionWhole(t: Token, tail: string)
    requires t.Fractional? && Proper(t) && RealEnds(t.exponent, tail)
    ensures var more := FractionText(t.dot, t.fraction, t.exponent);
            more != "" && FractionLength(more + tail, |t.whole|) == |more| && !IsDigit(more[0])
  {
    ExponentWhole(t.exponent, tail);
    ExponentSome(t.exponent);
    FractionIs(t);
    assert !t.dot ==> t.exponent.Exponent?;
    assert Decimals(t.fraction) && |t.whole| + |t.fraction| > 0;
    hide *;
    var x := ExponentText(t.exponent);
    if t.dot {
      DotWhole(t.fraction, x, tail, |t.whole|);
    } else {
      NoDotFraction(x + tail, |t.whole|);
      assert (x + tail)[0] == x[0];
    }
  }

  lemma ExponentSome(x: Exponent)
    ensures x.Exponent? <==> ExponentText(x) != ""
  {
  }

  lemma FractionalText(t: Token, tail: string)
    requires t.Fractional? && Proper(t)
    ensures Sign(t.sign) && Decimals(t.whole)
    ensures var s, more := TokenText(t) + tail, FractionText(t.dot, t.fraction, t.exponent) + tail;
            s == t.sign + (t.whole + more) && s[|t.sign|..] == t.whole + more && s[|t.sign| + |t.whole|..] == more
  {
    hide Sign, Decimals, ProperExponent, FractionText;
    var s, more := TokenText(t) + tail, FractionText(t.dot, t.fraction, t.exponent) + tail;
    assert s == t.sign + (t.whole + more);
    assert s[|t.sign|..] == t.whole + more;
    assert s[|t.sign| + |t.whole|..] == more;
  }

  lemma SignFirst(sign: string, after: string)
    requires Sign(sign) && after != "" && !IsSign(after[0])
    ensures SignLength(sign + after) == |sign|
  {
    FirstIsSign(sign + after);
  }

  /** Behind the sign come a digit or a dot. */
  lemma BehindSign(t: Token, tail: string)
    requires t.Fractional? && Proper(t)
    ensures var after := t.whole + (FractionText(t.dot, t.fraction, t.exponent) + tail);
            after != "" && !IsSign(after[0]) && (IsDigit(after[0]) || after[0] == '.')
  {
    hide ExponentText;
    assert t.whole == "" ==> t.dot;
  }

  /** A real number is as long as its parts, whatever follows that does not continue it. */
  lemma FractionalLength(t: Token, tail: string)
    requires t.Fractional? && Proper(t) && RealEnds(t.exponent, tail)
    ensures RealLength(TokenText(t) + tail) == |TokenText(t)| > 0
  {
    hide *;
    var more := FractionText(t.dot, t.fraction, t.exponent);
    FractionWhole(t, tail);
    BehindSign(t, tail);
    FractionalText(t, tail);
    FractionalText(t, "");
    SignFirst(t.sign, t.whole + (more + tail));
    assert !IsDigit((more + tail)[0]) by { assert (more + tail)[0] == more[0]; }
    DigitsRun(t.whole, more + tail);
    RealParts(TokenText(t) + tail, |t.sign|, |t.whole|);
  }

  lemma FractionalReadBack(t: Token, tail: string)
    requires t.Fractional? && Proper(t) && RealEnds(t.exponent, tail)
    ensures ParseNumber(TokenText(t) + tail) == Match([TokenEvent(t)], tail)
  {
    FractionalLength(t, tail);
    hide RealLength, TokenText, RealEnds, Proper;
    var s := TokenText(t) + tail;
    assert s[..|TokenText(t)|] == TokenText(t) && s[|TokenText(t)|..] == tail;
  }

  /** The parts of a real number make one. */
  lemma FractionalIsReal(t: Token)
    requires t.Fractional? && Proper(t)
    ensures IsReal(TokenText(t))
  {
    assert RealEnds(t.exponent, "");
    hide *;
    FractionalLength(t, "");
    assert TokenText(t) + "" == TokenText(t);
    RealIs(TokenText(t));
  }

  // ---------------------------------------------------------------- real numbers in a text

  lemma SignIs(s: string)
    ensures SignLength(s) <= |s| && Sign(s[..SignLength(s)])
  {
  }

  lemma ExponentSplit(s: string) returns (x: Exponent)
    requires ExponentLength(s) >= 0 && !DigitNext(s)
    ensures ProperExponent(x) && ExponentText(x) == s[..ExponentLength(s)]
    ensures x.Exponent? <==> ExponentLength(s) > 0
    ensures RealEnds(x, s[ExponentLength(s)..])
  {
    if ExponentLength(s) == 0 {
      x := NoExponent;
    } else {
      var t := s[1..];
      var sign := SignLength(t);
      SignIs(t);
      var digits := DigitsOf(t[sign..]);
      x := Exponent(s[0], t[..sign], digits);
      hide DigitRun, SignLength, Decimals, Sign;
      PartsShape(s, 1, sign, |digits|);
      assert s[..1] == [s[0]] && s[1 + sign..] == t[sign..];
    }
  }

  lemma NoDotIs(x: Exponent)
    ensures FractionText(false, "", x) == ExponentText(x) && Decimals("")
  {
  }

  lemma DotSplit(more: string, whole: nat) returns (fraction: string, x: Exponent)
    requires more != "" && more[0] == '.' && FractionLength(more, whole) > 0
    ensures Decimals(fraction) && whole + |fraction| > 0 && ProperExponent(x)
    ensures FractionText(true, fraction, x) == more[..FractionLength(more, whole)]
    ensures RealEnds(x, more[FractionLength(more, whole)..])
  {
    hide *;
    fraction := DigitsOf(more[1..]);
    DotFraction(more, whole);
    var n := |fraction|;
    assert more[1..][n..] == more[1 + n..];
    x := ExponentSplit(more[1 + n..]);
    PartsShape(more, 1, n, |ExponentText(x)|);
    DotIs(fraction, x);
    assert more[..1] == ".";
  }

  lemma DotIs(fraction: string, x: Exponent)
    ensures FractionText(true, fraction, x) == "." + (fraction + ExponentText(x))
  {
  }

  lemma FractionSplit(more: string, whole: nat) returns (dot: bool, fraction: string, x: Exponent)
    requires FractionLength(more, whole) > 0
    ensures Decimals(fraction) && whole + |fraction| > 0 && ProperExponent(x)
    ensures !dot ==> fraction == "" && x.Exponent?
    ensures FractionText(dot, fraction, x) == more[..FractionLength(more, whole)]
    ensures RealEnds(x, more[FractionLength(more, whole)..])
  {
    dot := more[0] == '.';
    if dot {
      fraction, x := DotSplit(more, whole);
    } else {
      NoDotFraction(more, whole);
      assert IsExponentLetter(more[0]);
      hide *;
      fraction := "";
      x := ExponentSplit(more);
      NoDotIs(x);
    }
  }

  lemma FractionalIs(t: Token)
    requires t.Fractional? && Sign(t.sign) && Decimals(t.whole) && Decimals(t.fraction) && |t.whole| + |t.fraction| > 0
    requires ProperExponent(t.exponent) && (!t.dot ==> t.fraction == "" && t.exponent.Exponent?)
    ensures Proper(t) && TokenText(t) == t.sign + (t.whole + FractionText(t.dot, t.fraction, t.exponent))
  {
    hide Sign, Decimals, ProperExponent, FractionText;
  }

  lemma PartsShape(s: string, a: nat, b: nat, c: nat)
    requires a + b + c <= |s|
    ensures s[..a] + (s[a..][..b] + s[a + b..][..c]) == s[..a + b + c]
    ensures s[a + b..][c..] == s[a + b + c..]
  {
  }

  /** The real number a text begins with, in its parts. */
  lemma RealSplit(s: string) returns (t: Token)
    requires RealLength(s) > 0
    ensures t.Fractional? && Proper(t) && TokenText(t) == s[..RealLength(s)] && RealEnds(t.exponent, s[RealLength(s)..])
  {
    hide *;
    var sign := SignLength(s);
    var whole := DigitRun(s[sign..]);
    RealParts(s, sign, whole);
    var more := s[sign + whole..];
    var dot, fraction, x := FractionSplit(more, whole);
    SignIs(s);
    var d := DigitsOf(s[sign..]);
    t := Fractional(s[..sign], d, dot, fraction, x);
    FractionalIs(t);
    PartsShape(s, sign, whole, RealLength(s) - sign - whole);
  }

  /** A real number is one token, whatever follows that does not continue it. */
  lemma RealReadBack(s: string, tail: string)
    requires IsReal(s) && Ends(tail)
    ensures ParseNumber(s + tail) == Match([NewReal(s)], tail)
  {
    WholeIsReal(s);
    assert RealEnds(NoExponent, tail) && !DigitNext(tail);
    hide ParseNumber, RealLength, Proper, IsReal, Ends;
    var t := RealSplit(s);
    assert s[..|s|] == s;
    assert RealEnds(t.exponent, tail);
    RealEvent(t);
    hide TokenText, TokenEvent;
    FractionalReadBack(t, tail);
  }

  lemma RealEvent(t: Token)
    requires t.Fractional? && Proper(t)
    ensures TokenEvent(t) == NewReal(TokenText(t))
  {
  }

  // ---------------------------------------------------------------- integers

  lemma SignShape(sign: string, d: string, tail: string)
    requires Sign(sign) && d != ""
    ensures var s := sign + d + tail;
            s != "" && s[|sign|..] == d + tail && s[|sign| + |d|..] == tail &&
            s[0] == (if sign == "" then d[0] else sign[0])
    ensures |sign| == (if sign == "" then 0 else 1) && (sign != "" ==> sign[0] == '+' || sign[0] == '-')
    ensures (d + tail)[..|d|] == d && (d + tail)[|d|..] == tail
  {
    var s := sign + d + tail;
    assert s[|sign|..] == d + tail;
    assert s[|sign| + |d|..] == tail;
  }

  lemma DigitsNoSign(d: string)
    requires d != "" && Decimals(d)
    ensures d[0] != '+' && d[0] != '-'
  {
  }

  /** The integer a text starts with, by its value. */
  lemma IntegerRule(s: string)
    requires DigitRun(s[SignLength(s)..]) > 0
    ensures var t := s[SignLength(s)..];
            var n := DigitRun(t);
            Decimals(t[..n]) &&
            var size := DecimalValue(t[..n]);
            var value := if SignLength(s) == 1 && s[0] == '-' then -size else size;
            ParseInteger(s) ==
            if -TWO63 <= value < TWO63 then Match([NewInt(value)], t[n..])
            else if SignLength(s) == 0 && value < TWO64 then Match([NewUInt64(value)], t[n..])
            else NoMatch
  {
    var d := DigitsOf(s[SignLength(s)..]);
    NumberIs(d);
    hide DigitRun, DecimalValue, Number, Decimals, SignLength;
  }

  lemma IntegerRead(sign: string, d: string, s: string, tail: string)
    requires Proper(Integer(sign, d)) && SignLength(s) == |sign| && DigitRun(s[|sign|..]) == |d|
    requires s[|sign|..][..|d|] == d && s[|sign|..][|d|..] == tail && d != ""
    requires s != "" && (sign != "" ==> s[0] == sign[0])
    ensures ParseInteger(s) == Match([TokenEvent(Integer(sign, d))], tail)
  {
    IntegerRule(s);
    hide DigitRun, SignLength, DecimalValue, Decimals, ParseInteger;
  }

  lemma NoReal(s: string)
    requires RealLength(s) == 0
    ensures ParseNumber(s) == ParseInteger(s)
  {
    hide RealLength, ParseInteger;
  }

  /** The digits of an integer, whatever follows that is no digit. */
  lemma IntegerParts(sign: string, d: string, tail: string)
    requires Sign(sign) && d != "" && Decimals(d) && !DigitNext(tail)
    ensures var s := sign + d + tail;
            SignLength(s) == |sign| && s[|sign|..] == d + tail && DigitRun(d + tail) == |d| && s[|sign| + |d|..] == tail
  {
    assert tail == "" || !IsDigit(tail[0]);
    hide *;
    SignShape(sign, d, tail);
    DigitsNoSign(d);
    FirstIsSign(sign + d + tail);
    DigitsRun(d, tail);
  }

  lemma IntegerReadBack(sign: string, d: string, tail: string)
    requires Proper(Integer(sign, d)) && Complete(Integer(sign, d), tail)
    ensures ParseNumber(sign + d + tail) == Match([TokenEvent(Integer(sign, d))], tail)
  {
    var s := sign + d + tail;
    assert d != "" && Sign(sign) && Decimals(d) && !DigitNext(tail);
    OnlyInteger(Integer(sign, d), tail);
    hide *;
    IntegerParts(sign, d, tail);
    SignShape(sign, d, tail);
    DigitsNoSign(d);
    IntegerRead(sign, d, s, tail);
    NoReal(s);
  }

  lemma NotBoth(t: Token, tail: string, f: Token, rest: string)
    requires t.Integer? && Complete(t, tail) && f.Fractional? && Proper(f) && RealEnds(f.exponent, rest)
    ensures TokenText(t) + tail != TokenText(f) + rest
  {
    hide TokenText, Proper, RealEnds;
  }

  lemma IntegerIs(t: Token)
    requires t.Integer?
    ensures TokenText(t) == t.sign + t.digits
  {
  }

  lemma OnlyInteger(t: Token, tail: string)
    requires t.Integer? && Complete(t, tail)
    ensures RealLength(TokenText(t) + tail) == 0
    ensures TokenText(t) + tail == t.sign + t.digits + tail
  {
    hide *;
    var s := TokenText(t) + tail;
    IntegerIs(t);
    if RealLength(s) > 0 {
      var f := RealSplit(s);
      assert s == s[..RealLength(s)] + s[RealLength(s)..];
      NotBoth(t, tail, f, s[RealLength(s)..]);
      assert false;
    }
  }

  /** No real number begins where the reader finds none. */
  lemma NoneBegins(t: Token, tail: string)
    requires t.Integer? && RealLength(TokenText(t) + tail) == 0 && !DigitNext(tail)
    ensures Complete(t, tail)
  {
    forall f: Token, rest | f.Fractional? && Proper(f) && RealEnds(f.exponent, rest)
      ensures TokenText(t) + tail != TokenText(f) + rest
    {
      FractionalLength(f, rest);
    }
    hide RealLength, TokenText, Proper, RealEnds;
  }

  lemma EndsNumber(tail: string)
    requires Ends(tail)
    ensures ExponentLength(tail) == 0 && !DigitNext(tail) && (tail != "" ==> tail[0] != '.')
    ensures forall x :: RealEnds(x, tail)
  {
  }

  lemma NoFraction(tail: string, whole: nat)
    requires Ends(tail)
    ensures FractionLength(tail, whole) == 0
  {
    EndsNumber(tail);
    hide DigitRun, ExponentLength;
  }

  /** In front of a text that continues no number every token is complete. */
  lemma EndsComplete(t: Token, tail: string)
    requires Proper(t) && Ends(tail)
    ensures Complete(t, tail)
  {
    EndsNumber(tail);
    if t.Integer? {
      assert TokenText(t) + tail == t.sign + t.digits + tail;
      hide *;
      ProperInteger(t);
      IntegerParts(t.sign, t.digits, tail);
      NoFraction(tail, |t.digits|);
      RealParts(t.sign + t.digits + tail, |t.sign|, |t.digits|);
      NoneBegins(t, tail);
    }
  }

  lemma ProperInteger(t: Token)
    requires t.Integer? && Proper(t)
    ensures Sign(t.sign) && t.digits != "" && Decimals(t.digits)
  {
  }

  // ---------------------------------------------------------------- strings

  lemma {:induction false} ClosedScan(body: string, tail: string)
    requires Closed(body)
    ensures QuotedLength(body + ("\"" + tail)) == |body|
    decreases |body|
  {
    var s := body + ("\"" + tail);
    if body == "" {
      assert s == "\"" + tail;
    } else if body[0] == '\\' {
      assert s[2..] == body[2..] + ("\"" + tail);
      ClosedScan(body[2..], tail);
    } else {
      assert s[1..] == body[1..] + ("\"" + tail);
      ClosedScan(body[1..], tail);
    }
  }

  lemma {:induction false} ScanClosed(s: string)
    requires QuotedLength(s) >= 0
    ensures QuotedLength(s) < |s| && s[QuotedLength(s)] == '"' && Closed(s[..QuotedLength(s)])
    decreases |s|
  {
    if s[0] != '"' {
      var step := if s[0] == '\\' then 2 else 1;
      ScanClosed(s[step..]);
      var body := s[..QuotedLength(s)];
      assert body[step..] == s[step..][..QuotedLength(s[step..])];
    }
  }

  /** A quoted string is one token, whatever follows. */
  lemma QuotationReadBack(body: string, isName: bool, tail: string)
    requires Closed(body)
    ensures var q := "\"" + body + "\"";
            ParseString(q + tail, isName) == Match([if isName then NewName(q) else NewStr(q)], tail)
  {
    ClosedScan(body, tail);
    QuoteShape(body, tail);
    hide QuotedLength;
  }

  lemma QuoteShape(w: string, tail: string)
    ensures var q := "\"" + w + "\"";
            (q + tail)[1..] == w + ("\"" + tail) && (q + tail)[..|w| + 2] == q && (q + tail)[|w| + 2..] == tail
  {
  }

  // ---------------------------------------------------------------- any token

  /** A token at the start of the text decides which rule applies. */
  lemma NumberRule(s: string)
    requires Skip(s) != "" && (IsDigit(Skip(s)[0]) || IsSign(Skip(s)[0]) || Skip(s)[0] == '.')
    ensures ParseValue(s) == ParseNumber(Skip(s))
  {
  }

  lemma StringRule(s: string)
    requires Skip(s) != "" && Skip(s)[0] == '"'
    ensures ParseValue(s) == ParseString(Skip(s), false)
  {
  }

  lemma TrueRule(s: string, tail: string)
    requires Skip(s) == "true" + tail
    ensures ParseValue(s) == Match([NewTrue], tail)
  {
    hide Skip, ParseNumber, ParseString, ParseCompound;
    var t := Skip(s);
    assert t[0] == 't' && "true" <= t && t[4..] == tail;
  }

  lemma FalseRule(s: string, tail: string)
    requires Skip(s) == "false" + tail
    ensures ParseValue(s) == Match([NewFalse], tail)
  {
    hide Skip, ParseNumber, ParseString, ParseCompound;
    var t := Skip(s);
    assert t[0] == 'f' && "false" <= t && t[5..] == tail;
  }

  lemma NullRule(s: string, tail: string)
    requires Skip(s) == "null" + tail
    ensures ParseValue(s) == Match([NewNull], tail)
  {
    hide Skip, ParseNumber, ParseString, ParseCompound;
    var t := Skip(s);
    assert t[0] == 'n' && "null" <= t && t[4..] == tail;
  }

  /** The reader takes exactly the token, if it is a number one that is not continued by what follows. */
  lemma ReadsToken(t: Token, s: string, tail: string)
    requires Proper(t) && Skip(s) == TokenText(t) + tail && Complete(t, tail)
    ensures ParseValue(s) == Match([TokenEvent(t)], tail)
  {
    hide ParseNumber, ParseString, Skip, ParseValue, Closed, FractionText, IntegerOf, DigitNext, RealEnds;
    match t
    case True => TrueRule(s, tail);
    case False => FalseRule(s, tail);
    case Nothing => NullRule(s, tail);
    case Quotation(body) =>
      QuotationReadBack(body, false, tail);
      StringRule(s);
    case Integer(sign, digits) =>
      IntegerReadBack(sign, digits, tail);
      TokenStarts(t);
      NumberRule(s);
    case Fractional(_, _, _, _, _) =>
      FractionalReadBack(t, tail);
      TokenStarts(t);
      NumberRule(s);
  }

  lemma SignStarts(sign: string, after: string)
    requires Sign(sign) && after != "" && (IsDigit(after[0]) || after[0] == '.')
    ensures var s := sign + after;
            s != "" && (IsDigit(s[0]) || IsSign(s[0]) || s[0] == '.') && Starts(s)
  {
  }

  lemma IntegerStarts(sign: string, digits: string)
    requires Sign(sign) && digits != "" && Decimals(digits)
    ensures Starts(sign + digits) && (IsDigit((sign + digits)[0]) || IsSign((sign + digits)[0]))
  {
    SignStarts(sign, digits);
    DigitsNoSign(digits);
  }

  lemma TokenStarts(t: Token)
    requires Proper(t)
    ensures Starts(TokenText(t))
    ensures Numeric(t) ==> IsDigit(TokenText(t)[0]) || IsSign(TokenText(t)[0]) || TokenText(t)[0] == '.'
  {
    match t
    case Integer(sign, digits) => IntegerStarts(sign, digits);
    case Fractional(_, _, _, _, _) =>
      hide *;
      BehindSign(t, "");
      FractionalText(t, "");
      assert TokenText(t) + "" == TokenText(t);
      SignStarts(t.sign, t.whole + (FractionText(t.dot, t.fraction, t.exponent) + ""));
    case _ => hide Closed;
  }

  // ---------------------------------------------------------------- what is read is a token

  lemma SplitShape(s: string, a: nat, b: nat)
    requires a <= 1 && a + b <= |s|
    ensures s == s[..a] + s[a..][..b] + s[a..][b..]
    ensures if a == 0 then s[..a] == "" else s[..a] == [s[0]]
  {
  }

  lemma SomeDigits(s: string)
    requires ParseInteger(s).Match?
    ensures DigitRun(s[SignLength(s)..]) > 0
  {
    hide DigitRun, SignLength;
  }

  lemma IntegerAs(s: string, t: Token)
    requires ParseInteger(s).Match? && t.Integer? && Sign(t.sign) && |t.sign| == SignLength(s)
    requires t.digits != "" && t.digits == s[SignLength(s)..][..DigitRun(s[SignLength(s)..])] && Decimals(t.digits)
    requires s != "" && t.sign == if SignLength(s) == 0 then "" else [s[0]]
    ensures Proper(t) && TokenText(t) == t.sign + t.digits
    ensures ParseInteger(s) == Match([TokenEvent(t)], s[SignLength(s)..][|t.digits|..])
  {
    IntegerRule(s);
    hide DigitRun, DecimalValue, Decimals, SignLength, ParseInteger;
  }

  lemma IntegerSplit(s: string) returns (t: Token)
    requires ParseInteger(s).Match?
    ensures t.Integer? && Proper(t) && s == TokenText(t) + ParseInteger(s).rest && !DigitNext(ParseInteger(s).rest)
    ensures ParseInteger(s).events == [TokenEvent(t)]
  {
    hide *;
    SomeDigits(s);
    var sign := SignLength(s);
    var d := DigitsOf(s[sign..]);
    t := Integer(s[..sign], d);
    SignIs(s);
    SplitShape(s, sign, |d|);
    IntegerAs(s, t);
  }

  /** Whatever is read where no bracket opens is a token. */
  lemma TokenSplit(s: string) returns (t: Token)
    requires ParseValue(s).Match? && Skip(s) != "" && Skip(s)[0] != '{' && Skip(s)[0] != '['
    ensures Proper(t) && Skip(s) == TokenText(t) + ParseValue(s).rest && Complete(t, ParseValue(s).rest)
    ensures ParseValue(s).events == [TokenEvent(t)]
  {
    hide ParseNumber, ParseString, Skip;
    var w := Skip(s);
    if w[0] == '"' {
      t := QuotationSplit(w);
    } else if IsDigit(w[0]) || IsSign(w[0]) || w[0] == '.' {
      t := NumberSplit(w);
    } else {
      t := if w[0] == 't' then True else if w[0] == 'f' then False else Nothing;
    }
  }

  lemma NumberSplit(s: string) returns (t: Token)
    requires ParseNumber(s).Match?
    ensures Numeric(t) && Proper(t) && s == TokenText(t) + ParseNumber(s).rest && Complete(t, ParseNumber(s).rest)
    ensures ParseNumber(s).events == [TokenEvent(t)]
  {
    hide RealLength, ParseInteger, TokenText, Proper, TokenEvent, RealEnds;
    if RealLength(s) > 0 {
      t := RealSplit(s);
      RealEvent(t);
    } else {
      t := IntegerSplit(s);
      NoneBegins(t, ParseNumber(s).rest);
    }
  }

  lemma QuotationSplit(s: string) returns (t: Token)
    requires ParseString(s, false).Match?
    ensures t.Quotation? && Proper(t) && s == TokenText(t) + ParseString(s, false).rest
    ensures ParseString(s, false).events == [TokenEvent(t)]
  {
    var n := QuotedLength(s[1..]);
    ScanClosed(s[1..]);
    hide QuotedLength, Closed;
    t := Quotation(s[1..][..n]);
    assert s[..n + 2] == "\"" + s[1..][..n] + "\"";
  }
}
