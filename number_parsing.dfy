/** JavaScript's global `parseFloat`, which the normalization stage applies to the
    cost fields: the argument is converted to a string, leading white space is
    skipped, and the longest prefix that is a StrDecimalLiteral (an optional sign,
    then `Infinity` or decimal digits with an optional fraction and exponent) gives
    the number; when no prefix qualifies the result is NaN. */
module NumberParsing {
  import opened JsValues

  /** Length of the run of decimal digits at the front of `s`. */
  function DigitRun(s: string): (n: nat)
    ensures n <= |s| && AllDigits(s[..n])
    ensures n < |s| ==> !IsDigit(s[n])
  {
    if |s| > 0 && IsDigit(s[0]) then 1 + DigitRun(s[1..]) else 0
  }

  function Pow10(k: nat): (p: nat)
    ensures p >= 1
  {
    if k == 0 then 1 else 10 * Pow10(k - 1)
  }

  /** `m * 10^e` as an exact real. */
  function Scale(m: nat, e: int): real {
    if e >= 0 then (m * Pow10(e)) as real else m as real / Pow10(-e) as real
  }

  /** The value of an ExponentPart (`e` or `E`, an optional sign, at least one digit)
      at the front of `s`, or 0 when `s` does not start with one: the longest
      decimal prefix then ends before the `e`. */
  function ExponentValue(s: string): int {
    if |s| >= 2 && (s[0] == 'e' || s[0] == 'E') then
      var digits := if s[1] == '+' || s[1] == '-' then s[2..] else s[1..];
      var n := DigitRun(digits);
      if n == 0 then 0
      else if s[1] == '-' then -(DigitsValue(digits[..n]) as int)
      else DigitsValue(digits[..n])
    else 0
  }

  /** A decimal literal split at its dot: the digits before it, the digits after
      it, and the text that follows them. */
  datatype Split = Split(whole: string, frac: string, after: string)

  /** Splits the digits, the optional dot and fraction digits off the front of `u`. */
  function SplitDecimal(u: string): (r: Split)
    ensures AllDigits(r.whole) && AllDigits(r.frac)
  {
    var i := DigitRun(u);
    var rest := u[i..];
    if |rest| > 0 && rest[0] == '.' then
      var f := DigitRun(rest[1..]);
      Split(u[..i], rest[1..][..f], rest[1..][f..])
    else
      Split(u[..i], "", rest)
  }

  lemma AllDigitsConcat(a: string, b: string)
    requires AllDigits(a) && AllDigits(b)
    ensures AllDigits(a + b)
  {
    forall k | 0 <= k < |a + b| ensures IsDigit((a + b)[k]) {
      if k >= |a| { assert (a + b)[k] == b[k - |a|]; }
    }
  }

  /** The value of a split literal: NaN when it has no digit at all. */
  function SplitValue(l: Split): Num
    requires AllDigits(l.whole) && AllDigits(l.frac)
  {
    if |l.whole| + |l.frac| == 0 then NaN
    else
      AllDigitsConcat(l.whole, l.frac);
      Finite(Scale(DigitsValue(l.whole + l.frac), ExponentValue(l.after) - |l.frac|))
  }

  /** `u` starts with the word `Infinity`. */
  predicate InfinityAhead(u: string) {
    |u| >= 8 && u[0] == 'I' && u[1] == 'n' && u[2] == 'f' && u[3] == 'i'
    && u[4] == 'n' && u[5] == 'i' && u[6] == 't' && u[7] == 'y'
  }

  /** The value of the longest StrUnsignedDecimalLiteral at the front of `u`. */
  function UnsignedPrefix(u: string): (r: Num)
  {
    if InfinityAhead(u) then Infinity(false) else SplitValue(SplitDecimal(u))
  }

  function Negate(n: Num): (r: Num)
    ensures NumTruthy(r) <==> NumTruthy(n)
  {
    match n
    case NaN => NaN
    case Finite(x) => Finite(-x)
    case Infinity(neg) => Infinity(!neg)
  }

  /** `parseFloat(s)` for a string `s`. */
  function ParseFloatString(s: string): Num {
    SignedPrefix(TrimStart(s))
  }

  /** The value of the longest StrDecimalLiteral, with its optional sign, at the
      front of `t`. */
  function SignedPrefix(t: string): Num {
    if |t| > 0 && t[0] == '-' then Negate(UnsignedPrefix(t[1..]))
    else if |t| > 0 && t[0] == '+' then UnsignedPrefix(t[1..])
    else UnsignedPrefix(t)
  }

  /** `parseFloat(v)` for any value. A number converts to a string that reads back as
      the same number. An array converts by joining its elements with commas, and a
      comma ends every decimal literal, so only the first element matters (lemma
      ParseFloatStopsAtComma); null and undefined elements join as the empty string,
      which is NaN, as they are here. Booleans, null, undefined and plain objects
      (`"[object Object]"`) convert to text with no decimal prefix. */
  function ParseFloat(v: JsValue): Num {
    match v
    case Number(n) => n
    case Str(s) => ParseFloatString(s)
    case Array(elems) => if elems == [] then NaN else ParseFloat(elems[0])
    case _ => NaN
  }

  /** A number's decimal rendering reads back as that number. */
  lemma ParseFloatOfDecimal(n: nat)
    ensures ParseFloatString(DecimalString(n)) == Finite(n as real)
  {
    DecimalStringValue(n);
    ParseFloatOfDigits(DecimalString(n));
  }

  /** A non-empty string of digits reads as its value. */
  lemma ParseFloatOfDigits(d: string)
    requires |d| >= 1 && AllDigits(d)
    ensures ParseFloatString(d) == Finite(DigitsValue(d) as real)
  {
    assert IsDigit(d[0]);
    ParseFloatOfUnsigned(d);
    assert SplitDecimal(d) == Split(d, "", "") by {
      DigitRunAllDigits(d);
      assert d[|d|..] == [] && d[..|d|] == d;
    }
    SplitValueOfPlain(d, "");
    assert d + "" == d;
  }

  lemma {:induction false} DigitRunAllDigits(d: string)
    requires AllDigits(d)
    ensures DigitRun(d) == |d|
  {
    if |d| > 0 {
      DigitRunAllDigits(d[1..]);
    }
  }

  /** Leading white space does not change what `parseFloat` reads. */
  lemma {:induction false} ParseFloatSkipsWhiteSpace(w: string, s: string)
    requires AllWhiteSpace(w)
    ensures ParseFloatString(w + s) == ParseFloatString(s)
  {
    TrimStartSkips(w, s);
  }

  lemma {:induction false} TrimStartSkips(w: string, s: string)
    requires AllWhiteSpace(w)
    ensures TrimStart(w + s) == TrimStart(s)
  {
    if |w| > 0 {
      assert (w + s)[1..] == w[1..] + s;
      TrimStartSkips(w[1..], s);
    } else {
      assert w + s == s;
    }
  }

  /** `b` begins with a comma, which no decimal literal and no white space contains. */
  predicate CommaFirst(b: string) {
    |b| > 0 && b[0] == ','
  }

  /** What `parseFloat` reads from `s` is unchanged by anything after a comma: the
      reason an array reads as its first element. */
  lemma ParseFloatStopsAtComma(s: string, b: string)
    requires CommaFirst(b)
    ensures ParseFloatString(s + b) == ParseFloatString(s)
  {
    TrimStartBeforeComma(s, b);
    SignedPrefixBeforeComma(TrimStart(s), b);
  }

  lemma SignedPrefixBeforeComma(t: string, b: string)
    requires CommaFirst(b)
    ensures SignedPrefix(t + b) == SignedPrefix(t)
  {
    if |t| > 0 && (t[0] == '-' || t[0] == '+') {
      assert (t + b)[1..] == t[1..] + b;
      UnsignedPrefixBeforeComma(t[1..], b);
    } else if |t| == 0 {
      assert t + b == b;
      assert DigitRun(b) == 0;
    } else {
      UnsignedPrefixBeforeComma(t, b);
    }
  }

  lemma {:induction false} TrimStartBeforeComma(s: string, b: string)
    requires CommaFirst(b)
    ensures TrimStart(s + b) == TrimStart(s) + b
  {
    if |s| > 0 {
      assert (s + b)[1..] == s[1..] + b;
      TrimStartBeforeComma(s[1..], b);
    } else {
      assert s + b == b;
      assert !IsJsWhiteSpace(b[0]);
      TrimStartOfNonBlank(b);
    }
  }

  lemma {:induction false} DigitRunBeforeComma(s: string, b: string)
    requires CommaFirst(b)
    ensures DigitRun(s + b) == DigitRun(s)
  {
    if |s| > 0 {
      assert (s + b)[1..] == s[1..] + b;
      DigitRunBeforeComma(s[1..], b);
    } else {
      assert s + b == b;
    }
  }

  lemma ExponentBeforeComma(s: string, b: string)
    requires CommaFirst(b)
    ensures ExponentValue(s + b) == ExponentValue(s)
  {
    var x := s + b;
    if |s| >= 2 && (s[0] == 'e' || s[0] == 'E') {
      var signed := s[1] == '+' || s[1] == '-';
      var ds := if signed then s[2..] else s[1..];
      assert (if signed then x[2..] else x[1..]) == ds + b;
      DigitRunBeforeComma(ds, b);
      var n := DigitRun(ds);
      assert (ds + b)[..n] == ds[..n];
    } else if |s| == 1 && (s[0] == 'e' || s[0] == 'E') {
      assert x[1] == ',';
      assert x[1..] == b;
      assert DigitRun(b) == 0;
    }
  }

  lemma SplitBeforeComma(u: string, b: string)
    requires CommaFirst(b)
    ensures var l := SplitDecimal(u); SplitDecimal(u + b) == Split(l.whole, l.frac, l.after + b)
  {
    var x := u + b;
    DigitRunBeforeComma(u, b);
    var i := DigitRun(u);
    var rest := u[i..];
    assert x[i..] == rest + b;
    assert x[..i] == u[..i];
    if |rest| > 0 && rest[0] == '.' {
      assert (rest + b)[1..] == rest[1..] + b;
      DigitRunBeforeComma(rest[1..], b);
      var f := DigitRun(rest[1..]);
      assert (rest[1..] + b)[..f] == rest[1..][..f];
      assert (rest[1..] + b)[f..] == rest[1..][f..] + b;
    } else if |rest| == 0 {
      assert rest + b == b;
    }
  }

  lemma UnsignedPrefixBeforeComma(u: string, b: string)
    requires CommaFirst(b)
    ensures UnsignedPrefix(u + b) == UnsignedPrefix(u)
  {
    InfinityBeforeComma(u, b);
    if !InfinityAhead(u) {
      SplitValueBeforeComma(u, b);
    }
  }

  lemma InfinityBeforeComma(u: string, b: string)
    requires CommaFirst(b)
    ensures InfinityAhead(u + b) == InfinityAhead(u)
  {
    var x := u + b;
    if |u| < 8 {
      assert x[|u|] == ',';
    } else {
      assert x[..8] == u[..8];
    }
  }

  lemma SplitValueBeforeComma(u: string, b: string)
    requires CommaFirst(b)
    ensures SplitValue(SplitDecimal(u + b)) == SplitValue(SplitDecimal(u))
  {
    var l := SplitDecimal(u);
    SplitBeforeComma(u, b);
    ExponentBeforeComma(l.after, b);
    SplitValueOfSameExponent(l, l.after + b);
  }

  /** The text after the digits matters to a literal's value only through its exponent. */
  lemma SplitValueOfSameExponent(l: Split, after: string)
    requires AllDigits(l.whole) && AllDigits(l.frac)
    requires ExponentValue(after) == ExponentValue(l.after)
    ensures SplitValue(Split(l.whole, l.frac, after)) == SplitValue(l)
  {
  }

  /** `parseFloat` of an array is `parseFloat` of its first element's text followed by
      a comma and the rest of the join, whenever there is more than one element. */
  lemma ParseFloatArrayOfStrings(s: string, rest: string)
    ensures ParseFloatString(s + "," + rest) == ParseFloat(Array([Str(s), Str(rest)]))
  {
    assert s + "," + rest == s + ("," + rest);
    ParseFloatStopsAtComma(s, "," + rest);
  }

  /** Digits, a dot and digits read as the decimal fraction they denote; either run of
      digits may be empty, but not both (".99" reads as 0.99, "5." as 5). */
  lemma ParseFloatOfFraction(w: string, f: string)
    requires |w| + |f| >= 1 && AllDigits(w) && AllDigits(f)
    ensures AllDigits(w + f)
    ensures ParseFloatString(w + "." + f) == Finite(Scale(DigitsValue(w + f), -|f|))
  {
    AllDigitsConcat(w, f);
    var u := w + "." + f;
    assert u[0] == (if |w| > 0 then w[0] else '.');
    ParseFloatOfUnsigned(u);
    assert SplitDecimal(u) == Split(w, f, "") by {
      SplitOfFraction(w, f);
    }
    SplitValueOfPlain(w, f);
  }

  /** Text that starts with a digit or a dot reads as an unsigned literal. */
  lemma ParseFloatOfUnsigned(u: string)
    requires |u| > 0 && (IsDigit(u[0]) || u[0] == '.')
    ensures ParseFloatString(u) == SplitValue(SplitDecimal(u))
  {
    assert TrimStart(u) == u by {
      if IsDigit(u[0]) {
        DigitIsNotWhiteSpace(u[0]);
      }
      TrimStartOfNonBlank(u);
    }
    assert !InfinityAhead(u);
  }

  lemma SplitOfFraction(w: string, f: string)
    requires AllDigits(w) && AllDigits(f)
    ensures SplitDecimal(w + "." + f) == Split(w, f, "")
  {
    var u := w + "." + f;
    assert u == w + ("." + f);
    DigitRunBeforeAnyNonDigit(w, "." + f);
    DigitRunAllDigits(f);
    SplitAtDot(u, |w|, |f|);
    assert u[..|w|] == w;
    assert u[|w|..][1..] == f;
    assert f[..|f|] == f && f[|f|..] == "";
  }

  /** Where the two digit runs and the dot are gives the split. */
  lemma SplitAtDot(u: string, i: nat, n: nat)
    requires DigitRun(u) == i < |u| && u[i] == '.'
    requires DigitRun(u[i..][1..]) == n
    ensures SplitDecimal(u) == Split(u[..i], u[i..][1..][..n], u[i..][1..][n..])
  {
  }

  lemma SplitValueOfPlain(w: string, f: string)
    requires |w| + |f| >= 1 && AllDigits(w) && AllDigits(f)
    ensures AllDigits(w + f)
    ensures SplitValue(Split(w, f, "")) == Finite(Scale(DigitsValue(w + f), -|f|))
  {
    AllDigitsConcat(w, f);
    assert ExponentValue("") == 0;
  }

  lemma {:induction false} DigitRunBeforeAnyNonDigit(s: string, b: string)
    requires AllDigits(s) && |b| > 0 && !IsDigit(b[0])
    ensures DigitRun(s + b) == |s|
  {
    if |s| > 0 {
      assert (s + b)[1..] == s[1..] + b;
      DigitRunBeforeAnyNonDigit(s[1..], b);
    } else {
      assert s + b == b;
    }
  }

  /** A leading minus sign negates what follows it. */
  lemma ParseFloatOfNegative(u: string)
    ensures ParseFloatString("-" + u) == Negate(UnsignedPrefix(u))
  {
    var t := "-" + u;
    assert TrimStart(t) == t;
    assert t[1..] == u;
  }

  /** The word "Infinity", with or without a minus sign and whatever follows it,
      reads as an infinite value: parseFloat never yields a finite number for it. */
  lemma ParseFloatOfInfinity(rest: string)
    ensures ParseFloatString("Infinity" + rest) == Infinity(false)
    ensures ParseFloatString("-Infinity" + rest) == Infinity(true)
  {
    var u := "Infinity" + rest;
    assert InfinityAhead(u);
    assert TrimStart(u) == u by { TrimStartOfNonBlank(u); }
    ParseFloatOfNegative(u);
    assert "-Infinity" + rest == "-" + u;
  }

  /** A price written as two digits, a dot and two digits reads as that many
      hundredths. */
  lemma ParseFloatOfPrice(s: string)
    requires |s| == 5 && s[2] == '.'
    requires IsDigit(s[0]) && IsDigit(s[1]) && IsDigit(s[3]) && IsDigit(s[4])
    ensures ParseFloatString(s) == Finite(PriceCents(s) as real / 100.0)
  {
    var w, f := [s[0], s[1]], [s[3], s[4]];
    assert s == w + "." + f;
    var m := PriceCents(s);
    assert AllDigits(w + f) && DigitsValue(w + f) == m by {
      assert w + f == [s[0], s[1], s[3], s[4]];
      DigitsValueOfFour(s[0], s[1], s[3], s[4]);
    }
    assert ParseFloatString(w + "." + f) == Finite(Scale(m, -2)) by {
      ParseFloatOfFraction(w, f);
    }
    ScaleHundredths(m);
  }

  lemma ScaleHundredths(m: nat)
    ensures Scale(m, -2) == m as real / 100.0
  {
    assert Pow10(2) == 100;
  }

  lemma DigitsValueOfFour(a: char, b: char, c: char, d: char)
    requires IsDigit(a) && IsDigit(b) && IsDigit(c) && IsDigit(d)
    ensures AllDigits([a, b, c, d])
    ensures DigitsValue([a, b, c, d])
            == 1000 * DigitValue(a) + 100 * DigitValue(b) + 10 * DigitValue(c) + DigitValue(d)
  {
    assert [a, b, c, d][..3] == [a, b, c];
    assert [a, b, c][..2] == [a, b];
    assert [a, b][..1] == [a];
    assert [a][..0] == [];
    assert DigitsValue([a]) == DigitValue(a);
    assert DigitsValue([a, b]) == 10 * DigitValue(a) + DigitValue(b);
    assert DigitsValue([a, b, c]) == 100 * DigitValue(a) + 10 * DigitValue(b) + DigitValue(c);
  }

  /** The value in hundredths of a price written `dd.dd`. */
  function PriceCents(s: string): nat
    requires |s| == 5
    requires IsDigit(s[0]) && IsDigit(s[1]) && IsDigit(s[3]) && IsDigit(s[4])
  {
    1000 * DigitValue(s[0]) + 100 * DigitValue(s[1]) + 10 * DigitValue(s[3]) + DigitValue(s[4])
  }

  /** The literal the fallback item carries for its costs reads as 25.99. */
  lemma ParseFloatDefaultCost()
    ensures ParseFloatString("25.99") == Finite(25.99)
  {
    assert PriceCents("25.99") == 2599 by {
      assert DigitValue('2') == 2 && DigitValue('5') == 5 && DigitValue('9') == 9;
    }
    ParseFloatOfPrice("25.99");
  }

  /** "12.50" reads as 12.5: the trailing zero of the fraction adds nothing. */
  lemma ParseFloatOfTwelveFifty()
    ensures ParseFloatString("12.50") == Finite(12.5)
  {
    assert PriceCents("12.50") == 1250 by {
      assert DigitValue('1') == 1 && DigitValue('2') == 2 && DigitValue('5') == 5 && DigitValue('0') == 0;
    }
    ParseFloatOfPrice("12.50");
  }
}
