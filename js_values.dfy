/** The JavaScript values the handler sees: request-body fields, values produced by
    JSON.parse, and the few built-in operations on them that the handler uses
    (truthiness and `||`, property reads, `String.prototype.includes`, `slice`,
    `trim`, and the decimal rendering of an index in a template literal). */
module JsValues {

  datatype Option<+T> = None | Some(value: T)

  /** A JavaScript number. Finite values are exact reals: IEEE rounding, overflow to
      an infinity and underflow to zero are not modelled. */
  datatype Num = NaN | Finite(r: real) | Infinity(negative: bool)

  datatype JsValue =
    | Undefined
    | Null
    | Bool(b: bool)
    | Number(n: Num)
    | Str(s: string)
    | Array(elems: seq<JsValue>)
    | Object(fields: map<string, JsValue>)

  /** What a `throw` carries as far as the handler's `catch` looks at it. */
  datatype JsError = JsError(code: Option<string>, message: Option<string>)

  /** A computation that either returns a value or throws. */
  datatype Result<+T> = Ok(value: T) | Throw(error: JsError)

  predicate NumTruthy(n: Num) {
    match n
    case NaN => false
    case Finite(r) => r != 0.0
    case Infinity(_) => true
  }

  /** ECMAScript ToBoolean: `undefined`, `null`, `false`, `0`, `NaN` and `""` are falsy. */
  predicate Truthy(v: JsValue) {
    match v
    case Undefined => false
    case Null => false
    case Bool(b) => b
    case Number(n) => NumTruthy(n)
    case Str(s) => s != ""
    case Array(_) => true
    case Object(_) => true
  }

  /** `a || b`: the left operand when it is truthy, otherwise the right one. */
  function Or(a: JsValue, b: JsValue): (r: JsValue)
    ensures Truthy(r) <==> Truthy(a) || Truthy(b)
    ensures r == a || r == b
  {
    if Truthy(a) then a else b
  }

  /** `a || b` where both operands are numbers. */
  function NumOr(a: Num, b: Num): (r: Num)
    ensures NumTruthy(r) <==> NumTruthy(a) || NumTruthy(b)
    ensures r == a || r == b
  {
    if NumTruthy(a) then a else b
  }

  predicate Nullish(v: JsValue) {
    v.Undefined? || v.Null?
  }

  /** `v.key` for a value that is not null or undefined. Only the own properties of a
      plain object are seen: the names the handler reads are not defined on the
      prototypes of strings, numbers, booleans, arrays or plain objects. */
  function Prop(v: JsValue, key: string): JsValue
    requires !Nullish(v)
  {
    if v.Object? && key in v.fields then v.fields[key] else Undefined
  }

  /** The TypeError that reading a property of null or undefined throws (V8 wording). */
  function ReadPropertyError(v: JsValue, key: string): JsError
    requires Nullish(v)
  {
    JsError(None, Some("Cannot read properties of " + (if v.Null? then "null" else "undefined")
                       + " (reading '" + key + "')"))
  }

  predicate StartsWith(s: string, p: string) {
    |p| <= |s| && s[..|p|] == p
  }

  /** `p` appears in `s` at position `i`. */
  predicate OccursAt(s: string, p: string, i: int) {
    0 <= i && i + |p| <= |s| && s[i..i + |p|] == p
  }

  /** `s.includes(p)`: a left-to-right search for `p` in `s`. */
  function Includes(s: string, p: string): bool
    decreases |s|
  {
    StartsWith(s, p) || (|s| > 0 && Includes(s[1..], p))
  }

  /** The search finds `p` exactly when `p` occurs somewhere in `s`. */
  lemma {:induction false} IncludesIff(s: string, p: string)
    ensures Includes(s, p) <==> exists i :: OccursAt(s, p, i)
    decreases |s|
  {
    if StartsWith(s, p) {
      assert OccursAt(s, p, 0);
    } else if |s| > 0 {
      IncludesIff(s[1..], p);
      if Includes(s[1..], p) {
        var i :| OccursAt(s[1..], p, i);
        assert s[1..][i..i + |p|] == s[i + 1..i + 1 + |p|];
        assert OccursAt(s, p, i + 1);
      }
    }
    forall i | OccursAt(s, p, i) ensures Includes(s, p) {
      FoundAt(s, p, i);
    }
  }

  /** An occurrence at position `i` is found by the search. */
  lemma {:induction false} FoundAt(s: string, p: string, i: int)
    requires OccursAt(s, p, i)
    ensures Includes(s, p)
    decreases i
  {
    if i > 0 {
      assert s[1..][i - 1..i - 1 + |p|] == s[i..i + |p|];
      FoundAt(s[1..], p, i - 1);
    }
  }

  /** `s.slice(0, n)` for a non-negative `n`. */
  function SliceTo(s: string, n: nat): (r: string)
    ensures |r| == (if n < |s| then n else |s|)
    ensures StartsWith(s, r)
  {
    if n < |s| then s[..n] else s
  }

  /** The characters JavaScript's `trim` and `parseFloat` skip: WhiteSpace (tab,
      vertical tab, form feed, space, no-break space, byte-order mark and the other
      Unicode space separators) and LineTerminator (LF, CR, LS, PS). */
  predicate IsJsWhiteSpace(c: char) {
    var k := c as int;
    k == 0x09 || k == 0x0A || k == 0x0B || k == 0x0C || k == 0x0D || k == 0x20 || k == 0xA0
    || k == 0x1680 || (0x2000 <= k <= 0x200A) || k == 0x2028 || k == 0x2029 || k == 0x202F
    || k == 0x205F || k == 0x3000 || k == 0xFEFF
  }

  predicate AllWhiteSpace(s: string) {
    forall k :: 0 <= k < |s| ==> IsJsWhiteSpace(s[k])
  }

  /** `s` with its leading white space removed. */
  function TrimStart(s: string): string {
    if |s| > 0 && IsJsWhiteSpace(s[0]) then TrimStart(s[1..]) else s
  }

  /** TrimStart keeps a suffix of `s`, everything it removes is white space, and what
      it keeps does not start with white space. */
  lemma {:induction false} TrimStartShape(s: string)
    ensures var r := TrimStart(s);
      && |r| <= |s| && r == s[|s| - |r|..]
      && AllWhiteSpace(s[..|s| - |r|])
      && (r == [] || !IsJsWhiteSpace(r[0]))
  {
    if |s| > 0 && IsJsWhiteSpace(s[0]) {
      TrimStartShape(s[1..]);
      var r := TrimStart(s[1..]);
      WhiteSpaceCons(s[0], s[1..][..|s| - 1 - |r|]);
      assert s[..|s| - |r|] == [s[0]] + s[1..][..|s| - 1 - |r|];
    } else {
      assert s[..0] == [];
    }
  }

  /** Text that does not start with white space is its own TrimStart. */
  lemma TrimStartOfNonBlank(s: string)
    requires |s| > 0 && !IsJsWhiteSpace(s[0])
    ensures TrimStart(s) == s
  {
  }

  /** `s` with its trailing white space removed. */
  function TrimEnd(s: string): string {
    if |s| > 0 && IsJsWhiteSpace(s[|s| - 1]) then TrimEnd(s[..|s| - 1]) else s
  }

  /** TrimEnd keeps a prefix of `s`, everything it removes is white space, and what
      it keeps does not end with white space. */
  lemma {:induction false} TrimEndShape(s: string)
    ensures var r := TrimEnd(s);
      && |r| <= |s| && r == s[..|r|]
      && AllWhiteSpace(s[|r|..])
      && (r == [] || !IsJsWhiteSpace(r[|r| - 1]))
  {
    if |s| > 0 && IsJsWhiteSpace(s[|s| - 1]) {
      TrimEndShape(s[..|s| - 1]);
      var r := TrimEnd(s[..|s| - 1]);
      WhiteSpaceSnoc(s[..|s| - 1][|r|..], s[|s| - 1]);
      assert s[|r|..] == s[..|s| - 1][|r|..] + [s[|s| - 1]];
    } else {
      assert s[|s|..] == [];
    }
  }

  /** White space in front of white space is white space. */
  lemma WhiteSpaceCons(c: char, w: string)
    requires IsJsWhiteSpace(c) && AllWhiteSpace(w)
    ensures AllWhiteSpace([c] + w)
  {
  }

  /** White space after white space is white space. */
  lemma WhiteSpaceSnoc(w: string, c: char)
    requires AllWhiteSpace(w) && IsJsWhiteSpace(c)
    ensures AllWhiteSpace(w + [c])
  {
  }

  /** `s.trim()`. */
  function Trim(s: string): string {
    TrimEnd(TrimStart(s))
  }

  /** Trimming keeps exactly the middle of `s` between a white-space prefix and a
      white-space suffix, and leaves no white space at either end. */
  lemma TrimIsMiddle(s: string)
    ensures exists i, j :: 0 <= i <= j <= |s| && Trim(s) == s[i..j]
                        && AllWhiteSpace(s[..i]) && AllWhiteSpace(s[j..])
    ensures Trim(s) == [] || (!IsJsWhiteSpace(Trim(s)[0]) && !IsJsWhiteSpace(Trim(s)[|Trim(s)| - 1]))
  {
    var t := TrimStart(s);
    var e := TrimEnd(t);
    TrimStartShape(s);
    TrimEndShape(t);
    MiddleOf(s, t, e);
  }

  /** A white-space-free-ended prefix `e` of a suffix `t` of `s`, cut off by white
      space on both sides, is a middle slice of `s`. */
  lemma MiddleOf(s: string, t: string, e: string)
    requires |t| <= |s| && t == s[|s| - |t|..] && AllWhiteSpace(s[..|s| - |t|])
    requires t == [] || !IsJsWhiteSpace(t[0])
    requires |e| <= |t| && e == t[..|e|] && AllWhiteSpace(t[|e|..])
    requires e == [] || !IsJsWhiteSpace(e[|e| - 1])
    ensures exists i, j :: 0 <= i <= j <= |s| && e == s[i..j] && AllWhiteSpace(s[..i]) && AllWhiteSpace(s[j..])
    ensures e == [] || (!IsJsWhiteSpace(e[0]) && !IsJsWhiteSpace(e[|e| - 1]))
  {
    var i := |s| - |t|;
    var j := i + |e|;
    assert e == s[i..j];
    assert s[j..] == t[|e|..];
    assert e != [] ==> e[0] == t[0];
  }

  predicate IsDigit(c: char) {
    '0' <= c <= '9'
  }

  predicate AllDigits(d: string) {
    forall k :: 0 <= k < |d| ==> IsDigit(d[k])
  }

  lemma DigitIsNotWhiteSpace(c: char)
    requires IsDigit(c)
    ensures !IsJsWhiteSpace(c)
  {
  }

  function DigitValue(c: char): (n: nat)
    requires IsDigit(c)
    ensures n < 10
  {
    c as int - '0' as int
  }

  function DigitChar(n: nat): (c: char)
    requires n < 10
    ensures IsDigit(c) && DigitValue(c) == n
  {
    (n + '0' as int) as char
  }

  /** The value of a string of decimal digits, most significant first. */
  function DigitsValue(d: string): nat
    requires AllDigits(d)
  {
    if d == [] then 0 else 10 * DigitsValue(d[..|d| - 1]) + DigitValue(d[|d| - 1])
  }

  /** The decimal rendering of a natural number, as a template literal prints it. */
  function DecimalString(n: nat): (s: string)
    ensures |s| >= 1
  {
    if n < 10 then [DigitChar(n)] else DecimalString(n / 10) + [DigitChar(n % 10)]
  }

  /** The rendering is all digits, with no leading zero. */
  lemma {:induction false} DecimalStringDigits(n: nat)
    ensures AllDigits(DecimalString(n))
    ensures DecimalString(n)[0] == '0' ==> n == 0
  {
    if n >= 10 {
      DecimalStringDigits(n / 10);
      var s := DecimalString(n);
      assert s == DecimalString(n / 10) + [DigitChar(n % 10)];
      assert s[0] == DecimalString(n / 10)[0];
    }
  }

  /** Reading the rendering back gives the number. */
  lemma {:induction false} DecimalStringValue(n: nat)
    ensures AllDigits(DecimalString(n)) && DigitsValue(DecimalString(n)) == n
  {
    DecimalStringDigits(n);
    if n >= 10 {
      var s := DecimalString(n);
      DecimalStringValue(n / 10);
      assert s[..|s| - 1] == DecimalString(n / 10);
    }
  }

  /** How a template literal prints an optional string: an absent value prints as
      `undefined`. */
  function TemplateString(v: Option<string>): string
  {
    match v
    case Some(s) => s
    case None => "undefined"
  }
}
