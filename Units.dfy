/**
 * The value parser of basicScroll: `parseUnit` (index.js:768-776), which splits a value such
 * as "120px" into the number `parseFloat` reads from its start and the unit that follows it,
 * and its two wrappers `isAbsoluteValue` and `parseAbsoluteValue` (index.js:878-897).
 *
 * Values reach `parseUnit` through `String(value)`; the model takes that string as input.
 */
module Units {
  import opened Wrappers

  /** The `{ value, unit }` record of `parseAbsoluteValue`; `value` is None where it is NaN. */
  datatype Parsed = Parsed(value: Option<real>, unit: string)

  predicate IsDigit(c: char) { '0' <= c <= '9' }

  function DigitValue(c: char): (d: real)
    requires IsDigit(c)
    ensures 0.0 <= d < 10.0
  {
    (c as int - '0' as int) as real
  }

  /** The line terminators of ECMAScript: `.` in a regular expression matches none of them. */
  predicate IsLineTerminator(c: char) {
    c == '\n' || c == '\r' || c == '\U{2028}' || c == '\U{2029}'
  }

  /** White space and line terminators: what `\s` matches and what `parseFloat` skips. */
  predicate IsSpace(c: char) {
    || c == '\t' || c == '\U{000B}' || c == '\U{000C}' || c == ' ' || c == '\U{00A0}'
    || c == '\U{FEFF}' || c == '\U{1680}' || ('\U{2000}' <= c <= '\U{200A}')
    || c == '\U{202F}' || c == '\U{205F}' || c == '\U{3000}'
    || IsLineTerminator(c)
  }

  /** The character class `[\d.\-\+]` of the unit pattern. */
  predicate IsNumberChar(c: char) { IsDigit(c) || c == '.' || c == '-' || c == '+' }

  predicate AllDigits(s: string) { forall i :: 0 <= i < |s| ==> IsDigit(s[i]) }

  predicate NoLineTerminator(s: string) { forall i :: 0 <= i < |s| ==> !IsLineTerminator(s[i]) }

  /** The length of the longest prefix of `s` whose characters all satisfy `p`. */
  function Span(s: string, p: char -> bool): (n: nat)
    ensures n <= |s|
    ensures forall i :: 0 <= i < n ==> p(s[i])
    ensures n < |s| ==> !p(s[n])
  {
    if s == [] || !p(s[0]) then 0 else 1 + Span(s[1..], p)
  }

  /** The natural number a run of decimal digits denotes. */
  function Whole(ds: string): (r: real)
    requires AllDigits(ds)
    ensures r >= 0.0
  {
    if ds == [] then 0.0 else 10.0 * Whole(ds[..|ds| - 1]) + DigitValue(ds[|ds| - 1])
  }

  /** The value of the digits written after a decimal point. */
  function Fraction(ds: string): real
    requires AllDigits(ds)
  {
    if ds == [] then 0.0 else (DigitValue(ds[0]) + Fraction(ds[1..])) / 10.0
  }

  /** `m` times ten to the power `e`. */
  function Scaled(m: real, e: int): real
    decreases if e < 0 then -e else e
  {
    if e == 0 then m else if e > 0 then 10.0 * Scaled(m, e - 1) else Scaled(m, e + 1) / 10.0
  }

  /** The length (0 or 1) of an optional leading sign. */
  function SignLength(t: string): nat {
    if |t| > 0 && (t[0] == '+' || t[0] == '-') then 1 else 0
  }

  /** The number a leading run of digits denotes (0 when there is none). */
  function LeadingWhole(s: string): real {
    var n := Span(s, IsDigit);
    assert AllDigits(s[..n]);
    Whole(s[..n])
  }

  /** The value of a leading run of digits read as the digits after a decimal point. */
  function LeadingFraction(s: string): real {
    var n := Span(s, IsDigit);
    assert AllDigits(s[..n]);
    Fraction(s[..n])
  }

  /** The exponent written at the start of `e` ("e3", "E-2"), or 0 when no exponent starts there. */
  function Exponent(e: string): int {
    if |e| == 0 || (e[0] != 'e' && e[0] != 'E') then 0
    else
      var m := 1 + SignLength(e[1..]);
      if Span(e[m..], IsDigit) == 0 then 0
      else if m == 2 && e[1] == '-' then -LeadingWhole(e[m..]).Floor
      else LeadingWhole(e[m..]).Floor
  }

  /** `parseFloat` skips leading white space. */
  function Trimmed(s: string): string {
    s[Span(s, IsSpace)..]
  }

  /**
   * The mantissa of an unsigned decimal literal at the start of `t` (digits, an optional
   * point and digits, with at least one digit) and the length of its text; None when `t`
   * does not start with one.
   */
  function Mantissa(t: string): (r: Option<(real, nat)>)
    ensures r.Some? ==> r.value.1 <= |t|
  {
    var a := Span(t, IsDigit);
    var dot := a < |t| && t[a] == '.';
    var b := if dot then Span(t[a + 1..], IsDigit) else 0;
    if a == 0 && b == 0 then None
    else if dot then Some((LeadingWhole(t) + LeadingFraction(t[a + 1..]), a + 1 + b))
    else Some((LeadingWhole(t), a))
  }

  /** The longest prefix of `t` that is an unsigned decimal literal, with its optional exponent. */
  function ParseUnsigned(t: string): Option<real> {
    match Mantissa(t)
    case None => None
    case Some((m, k)) => Some(Scaled(m, Exponent(t[k..])))
  }

  /** A sign, then an unsigned literal. */
  function ParseSigned(t: string): Option<real> {
    var i := SignLength(t);
    match ParseUnsigned(t[i..])
    case None => None
    case Some(m) => Some(if i == 1 && t[0] == '-' then -m else m)
  }

  /** `parseFloat` (without `Infinity`); None stands for NaN. */
  function ParseFloat(s: string): Option<real> {
    ParseSigned(Trimmed(s))
  }

  predicate InLine(c: char) { !IsLineTerminator(c) }

  /** Where the unit starts: after the leading number characters and the white space after them. */
  function UnitStart(s: string): (b: nat)
    ensures b <= |s|
  {
    var a := Span(s, IsNumberChar);
    a + Span(s[a..], IsSpace)
  }

  /**
   * The unit: what `[\d.\-\+]*\s*(.*)` captures, i.e. the text after the leading run of
   * number characters and the white space after it, up to the first line terminator.
   */
  function Unit(s: string): (u: string)
    ensures |u| <= |s| && NoLineTerminator(u)
  {
    var b := UnitStart(s);
    s[b..][..Span(s[b..], InLine)]
  }

  /** On a single line the unit is everything from where it starts. */
  lemma {:induction false} UnitOfLine(s: string)
    requires NoLineTerminator(s)
    ensures Unit(s) == s[UnitStart(s)..]
  {
    SpanAll(s[UnitStart(s)..], InLine);
  }

  /** `parseUnit` / `parseAbsoluteValue`. */
  function ParseUnit(s: string): (r: Parsed)
    ensures r.value.Some? <==> StartsNumber(Trimmed(s))
    ensures |r.unit| <= |s| && NoLineTerminator(r.unit)
  {
    Parsed(ParseFloat(s), Unit(s))
  }

  /** `isAbsoluteValue`: the number `parseUnit` reads is not NaN. */
  predicate IsAbsolute(s: string) {
    ParseFloat(s).Some?
  }

  /** The texts `parseFloat` reads a number from: a digit, after an optional sign and point. */
  predicate StartsNumber(t: string) {
    var i := SignLength(t);
    || (i < |t| && IsDigit(t[i]))
    || (i + 1 < |t| && t[i] == '.' && IsDigit(t[i + 1]))
  }

  /** A value is absolute exactly when its trimmed text starts like a number. */
  lemma {:induction false} AbsoluteIff(s: string)
    ensures IsAbsolute(s) <==> StartsNumber(Trimmed(s))
  {
  }

  // ---------------------------------------------------------------------------------------
  // Round trip: a decimal literal followed by a unit parses back to its value and that unit.

  /** A decimal literal: a sign, integer digits and optional fraction digits. */
  datatype Decimal = Decimal(negative: bool, whole: string, fraction: string)

  predicate WellFormed(d: Decimal) {
    |d.whole| > 0 && AllDigits(d.whole) && AllDigits(d.fraction)
  }

  function Render(d: Decimal): string {
    (if d.negative then "-" else "") + d.whole + (if d.fraction == [] then "" else "." + d.fraction)
  }

  function ValueOf(d: Decimal): real
    requires WellFormed(d)
  {
    var m := Whole(d.whole) + Fraction(d.fraction);
    if d.negative then -m else m
  }

  /** An exponent that `parseFloat` would read at the start of `u`. */
  predicate StartsExponent(u: string) {
    && |u| >= 2 && (u[0] == 'e' || u[0] == 'E')
    && (IsDigit(u[1]) || (|u| >= 3 && (u[1] == '+' || u[1] == '-') && IsDigit(u[2])))
  }

  /** A unit text: empty, or starting with neither a number character, white space nor an exponent. */
  predicate IsUnitText(u: string) {
    && NoLineTerminator(u)
    && (u == [] || (!IsNumberChar(u[0]) && !IsSpace(u[0]) && !StartsExponent(u)))
  }

  lemma {:induction false} SpanConcat(x: string, y: string, p: char -> bool)
    requires forall i :: 0 <= i < |x| ==> p(x[i])
    ensures Span(x + y, p) == |x| + Span(y, p)
  {
    if x != [] {
      assert (x + y)[1..] == x[1..] + y;
      SpanConcat(x[1..], y, p);
    } else {
      assert x + y == y;
    }
  }

  lemma {:induction false} ExponentAbsent(u: string)
    requires !StartsExponent(u)
    ensures Exponent(u) == 0
  {
    if |u| > 0 && (u[0] == 'e' || u[0] == 'E') {
      var m := 1 + SignLength(u[1..]);
      if m < |u| {
        assert !IsDigit(u[m]);
      }
    }
  }

  /** A run of digits ended by a non-digit is read as exactly that run. */
  lemma {:induction false} LeadingDigits(x: string, y: string)
    requires |x| > 0 && AllDigits(x) && (y == [] || !IsDigit(y[0]))
    ensures Span(x + y, IsDigit) == |x|
    ensures (x + y)[..|x|] == x && (x + y)[|x|..] == y
    ensures LeadingWhole(x + y) == Whole(x) && LeadingFraction(x + y) == Fraction(x)
  {
    SpanConcat(x, y, IsDigit);
  }

  lemma {:induction false} DropDrop(s: string, i: nat, j: nat)
    requires i + j <= |s|
    ensures s[i..][j..] == s[i + j..]
  {
  }

  /** Whole digits followed by neither a digit nor a point: the mantissa is those digits. */
  lemma {:induction false} MantissaWhole(x: string, y: string)
    requires |x| > 0 && AllDigits(x) && (y == [] || (!IsDigit(y[0]) && y[0] != '.'))
    ensures Mantissa(x + y) == Some((Whole(x), |x|))
  {
    LeadingDigits(x, y);
  }

  /** The mantissa when the leading digits are followed by a point. */
  lemma {:induction false} MantissaDot(t: string, a: nat, b: nat)
    requires a == Span(t, IsDigit) && a < |t| && t[a] == '.' && b == Span(t[a + 1..], IsDigit)
    requires a + b > 0
    ensures Mantissa(t) == Some((LeadingWhole(t) + LeadingFraction(t[a + 1..]), a + 1 + b))
  {
  }

  /** Whole digits, a point and fraction digits, then a non-digit: the mantissa is their value. */
  lemma {:induction false} MantissaFraction(x: string, f: string, y: string)
    requires |x| > 0 && AllDigits(x) && AllDigits(f) && |f| > 0 && (y == [] || !IsDigit(y[0]))
    ensures Mantissa(x + ("." + (f + y))) == Some((Whole(x) + Fraction(f), |x| + 1 + |f|))
    ensures (x + ("." + (f + y)))[|x| + 1 + |f|..] == y
  {
    var rest := "." + (f + y);
    var t := x + rest;
    assert Span(t, IsDigit) == |x| && LeadingWhole(t) == Whole(x) by {
      LeadingDigits(x, rest);
    }
    assert t[|x|] == '.' && t[|x| + 1..] == f + y && t[|x| + 1 + |f|..] == y by {
      DropDrop(t, |x|, 1);
      DropDrop(t, |x| + 1, |f|);
    }
    assert Span(f + y, IsDigit) == |f| && LeadingFraction(f + y) == Fraction(f) by {
      LeadingDigits(f, y);
    }
    MantissaDot(t, |x|, |f|);
  }

  /** A mantissa followed by text that starts no exponent is the whole number read. */
  lemma {:induction false} UnsignedNoExponent(t: string, m: real, k: nat)
    requires Mantissa(t) == Some((m, k)) && !StartsExponent(t[k..])
    ensures ParseUnsigned(t) == Some(m)
  {
    ExponentAbsent(t[k..]);
  }

  /** Digits, optional fraction digits, then a unit: the unsigned literal is read back exactly. */
  lemma {:induction false} UnsignedRender(whole: string, fraction: string, u: string)
    requires |whole| > 0 && AllDigits(whole) && AllDigits(fraction)
    requires u == [] || (!IsNumberChar(u[0]) && !StartsExponent(u))
    ensures var tail := if fraction == [] then "" else "." + fraction;
      ParseUnsigned(whole + (tail + u)) == Some(Whole(whole) + Fraction(fraction))
  {
    if fraction == [] {
      assert "" + u == u;
      MantissaWhole(whole, u);
      LeadingDigits(whole, u);
      UnsignedNoExponent(whole + u, Whole(whole), |whole|);
    } else {
      assert "." + fraction + u == "." + (fraction + u);
      MantissaFraction(whole, fraction, u);
      UnsignedNoExponent(whole + ("." + (fraction + u)), Whole(whole) + Fraction(fraction), |whole| + 1 + |fraction|);
    }
  }

  /** The rendered literal is one run of number characters, so what follows it is the unit. */
  lemma {:induction false} UnitRender(d: Decimal, u: string)
    requires WellFormed(d) && IsUnitText(u)
    ensures Unit(Render(d) + u) == u
  {
    var r := Render(d);
    var s := r + u;
    assert forall n :: 0 <= n < |r| ==> IsNumberChar(r[n]);
    SpanConcat(r, u, IsNumberChar);
    assert Span(u, IsNumberChar) == 0;
    assert s[|r|..] == u;
    assert Span(u, IsSpace) == 0;
    assert UnitStart(s) == |r|;
    assert NoLineTerminator(s);
    UnitOfLine(s);
  }

  /** A sign applied to the unsigned literal after it. */
  lemma {:induction false} SignedOf(t: string, m: real)
    requires ParseUnsigned(t[SignLength(t)..]) == Some(m)
    ensures ParseSigned(t) == Some(if SignLength(t) == 1 && t[0] == '-' then -m else m)
  {
  }

  /** A text that does not start with white space is already trimmed. */
  lemma {:induction false} NoLeadingSpace(s: string)
    requires s != [] && !IsSpace(s[0])
    ensures Trimmed(s) == s
  {
  }

  /** An optional minus sign followed by a digit. */
  lemma {:induction false} SignedText(sign: string, body: string)
    requires (sign == "" || sign == "-") && body != [] && IsDigit(body[0])
    ensures var s := sign + body;
      && SignLength(s) == |sign| && s[|sign|..] == body
      && !IsSpace(s[0]) && (sign == "-" ==> s[0] == '-')
  {
    var s := sign + body;
    assert s[0] == '-' || IsDigit(s[0]);
  }

  /** A trimmed text whose unsigned part after the sign reads as `m` is read as `m` with that sign. */
  lemma {:induction false} FloatOfSigned(s: string, negative: bool, m: real)
    requires Trimmed(s) == s
    requires (SignLength(s) == 1 <==> negative) && (negative ==> s[0] == '-')
    requires ParseUnsigned(s[SignLength(s)..]) == Some(m)
    ensures ParseFloat(s) == Some(if negative then -m else m)
  {
    SignedOf(s, m);
  }

  lemma {:induction false} ValueOfSign(d: Decimal, m: real)
    requires WellFormed(d) && m == Whole(d.whole) + Fraction(d.fraction)
    ensures ValueOf(d) == if d.negative then -m else m
  {
  }

  /** The number of a rendered literal followed by a unit is the literal's value. */
  lemma {:induction false} FloatRender(d: Decimal, u: string)
    requires WellFormed(d) && IsUnitText(u)
    ensures ParseFloat(Render(d) + u) == Some(ValueOf(d))
  {
    var rest := d.whole + ((if d.fraction == [] then "" else "." + d.fraction) + u);
    var m := Whole(d.whole) + Fraction(d.fraction);
    assert ParseUnsigned(rest) == Some(m) by {
      UnsignedRender(d.whole, d.fraction, u);
    }
    FloatStep(d, u, rest, m);
    ValueOfSign(d, m);
  }

  lemma {:induction false} Regroup(a: string, b: string, c: string, d: string)
    ensures (a + b + c) + d == a + (b + (c + d))
  {
  }

  lemma {:induction false} FloatStep(d: Decimal, u: string, rest: string, m: real)
    requires WellFormed(d) && m == Whole(d.whole) + Fraction(d.fraction)
    requires rest == d.whole + ((if d.fraction == [] then "" else "." + d.fraction) + u)
    requires ParseUnsigned(rest) == Some(m)
    ensures ParseFloat(Render(d) + u) == Some(if d.negative then -m else m)
  {
    var sign := if d.negative then "-" else "";
    var tail := if d.fraction == [] then "" else "." + d.fraction;
    assert Render(d) == sign + d.whole + tail;
    Regroup(sign, d.whole, tail, u);
    assert rest[0] == d.whole[0];
    FloatOfSignBody(sign, rest, d.negative, m);
  }

  /** An optional minus sign, then an unsigned literal reading as `m`. */
  lemma {:induction false} FloatOfSignBody(sign: string, body: string, negative: bool, m: real)
    requires (sign == "" || sign == "-") && (sign == "-" <==> negative)
    requires body != [] && IsDigit(body[0]) && ParseUnsigned(body) == Some(m)
    ensures ParseFloat(sign + body) == Some(if negative then -m else m)
  {
    SignedText(sign, body);
    NoLeadingSpace(sign + body);
    FloatOfSigned(sign + body, negative, m);
  }

  /** Round trip: a decimal literal followed by a unit parses back to its value and that unit. */
  lemma {:induction false} ParseRender(d: Decimal, u: string)
    requires WellFormed(d) && IsUnitText(u)
    ensures ParseUnit(Render(d) + u) == Parsed(Some(ValueOf(d)), u)
  {
    FloatRender(d, u);
    UnitRender(d, u);
  }

  lemma {:induction false} SpanAll(s: string, p: char -> bool)
    requires forall i :: 0 <= i < |s| ==> p(s[i])
    ensures Span(s, p) == |s|
  {
    SpanConcat(s, [], p);
    assert s + [] == s;
  }

  lemma {:induction false} Value120()
    ensures ValueOf(Decimal(false, "120", "")) == 120.0
  {
    assert "120"[..2] == "12" && "12"[..1] == "1" && "1"[..0] == "";
    assert Whole("1") == 1.0;
    assert Whole("12") == 12.0;
  }

  lemma {:induction false} Value0()
    ensures ValueOf(Decimal(false, "0", "")) == 0.0
  {
    assert "0"[..0] == "";
  }

  /** "120px" is 120 pixels. */
  lemma {:induction false} Parse120px()
    ensures ParseUnit("120px") == Parsed(Some(120.0), "px")
  {
    var d := Decimal(false, "120", "");
    assert Render(d) + "px" == "120px";
    assert IsUnitText("px");
    ParseRender(d, "px");
    Value120();
  }

  /** "0" is 0 without a unit. */
  lemma {:induction false} Parse0()
    ensures ParseUnit("0") == Parsed(Some(0.0), "")
  {
    var d := Decimal(false, "0", "");
    assert Render(d) + "" == "0";
    ParseRender(d, "");
    Value0();
  }

  lemma {:induction false} LetterNoNumber(s: string)
    requires s != [] && 'a' <= s[0] <= 'z'
    ensures ParseFloat(s) == None
  {
    assert !IsSpace(s[0]) && !IsDigit(s[0]) && s[0] != '.';
    assert Trimmed(s) == s;
    assert SignLength(s) == 0 && s[0..] == s;
    assert Mantissa(s) == None;
  }

  lemma {:induction false} LetterUnit(s: string)
    requires s != [] && 'a' <= s[0] <= 'z' && NoLineTerminator(s)
    ensures Unit(s) == s
  {
    assert !IsSpace(s[0]) && !IsNumberChar(s[0]);
    assert UnitStart(s) == 0;
    UnitOfLine(s);
  }

  /** Text starting with a letter holds no number: all of it, up to a line break, is the unit. */
  lemma {:induction false} LetterStart(s: string)
    requires s != [] && 'a' <= s[0] <= 'z' && NoLineTerminator(s)
    ensures ParseUnit(s) == Parsed(None, s)
  {
    LetterNoNumber(s);
    LetterUnit(s);
  }
}
