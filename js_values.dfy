/**
 * The JavaScript values that reach the request handlers, and the three
 * JavaScript conversions the handlers rely on: truthiness (`if (x)`, `!x`),
 * `Number(x)` with its `isNaN` test, and the decimal rendering of a count in a
 * template literal (`$${values.length}`).
 *
 * Numbers are exact rationals (`real`): a JSON number is finite, and no
 * handler does arithmetic on the values it converts. `NaN` is `None`.
 */
module JsValues {
  import opened Wrappers

  /** A request field after JSON or query-string decoding (arrays and objects are not modelled). */
  datatype JsVal = Undefined | Null | Bool(b: bool) | Num(n: real) | Str(s: string)

  /** ECMAScript ToBoolean, which `if (x)` and `!x` apply. */
  function Truthy(v: JsVal): (b: bool)
    ensures !b <==> v in {Undefined, Null, Bool(false), Num(0.0), Str("")}
  {
    match v
    case Undefined => false
    case Null => false
    case Bool(b) => b
    case Num(n) => n != 0.0
    case Str(s) => s != ""
  }

  /**
   * The characters of the regular-expression class `\s`; the same set is what
   * `Number()` strips from both ends of a string (WhiteSpace and LineTerminator).
   */
  predicate IsWhitespace(c: char) {
    c == '\t' || c == '\n' || c == '\U{000B}' || c == '\U{000C}' || c == '\r' || c == ' '
    || c == '\U{00A0}' || c == '\U{1680}' || ('\U{2000}' <= c <= '\U{200A}')
    || c == '\U{2028}' || c == '\U{2029}' || c == '\U{202F}' || c == '\U{205F}'
    || c == '\U{3000}' || c == '\U{FEFF}'
  }

  predicate IsDigit(c: char) {
    '0' <= c <= '9'
  }

  predicate AllDigits(s: string) {
    forall k :: 0 <= k < |s| ==> IsDigit(s[k])
  }

  function DigitValue(c: char): (d: nat)
    requires IsDigit(c)
    ensures d < 10
  {
    (c as int) - ('0' as int)
  }

  function DigitChar(d: nat): (c: char)
    requires d < 10
    ensures IsDigit(c) && DigitValue(c) == d
  {
    (('0' as int) + d) as char
  }

  /** The value of a string of decimal digits, most significant first. */
  function DigitsValue(s: string): nat
    requires AllDigits(s)
  {
    if s == [] then 0 else DigitsValue(s[..|s| - 1]) * 10 + DigitValue(s[|s| - 1])
  }

  function Pow10(k: nat): (p: nat)
    ensures p >= 1
  {
    if k == 0 then 1 else 10 * Pow10(k - 1)
  }

  /** `String(n)` for a natural number `n`, as a template literal renders it. */
  function NatToString(n: nat): string {
    if n < 10 then [DigitChar(n)] else NatToString(n / 10) + [DigitChar(n % 10)]
  }

  lemma {:induction false} NatToStringDigits(n: nat)
    ensures NatToString(n) != [] && AllDigits(NatToString(n))
    ensures DigitsValue(NatToString(n)) == n
  {
    if n >= 10 {
      NatToStringDigits(n / 10);
      var s := NatToString(n / 10) + [DigitChar(n % 10)];
      assert s[..|s| - 1] == NatToString(n / 10);
    }
  }

  /** The position of the first `c` in `s`, or `|s|` when there is none (`indexOf` without the -1). */
  function FirstIndexOf(s: string, c: char): (i: nat)
    ensures i <= |s| && (i < |s| ==> s[i] == c)
    ensures forall k :: 0 <= k < i ==> s[k] != c
  {
    if s == [] then 0 else if s[0] == c then 0 else 1 + FirstIndexOf(s[1..], c)
  }

  // ---------------------------------------------------------------------------
  // Number(): StringToNumber of ECMAScript, for decimal numerals
  // ---------------------------------------------------------------------------

  predicate AllWhitespace(s: string) {
    forall k :: 0 <= k < |s| ==> IsWhitespace(s[k])
  }

  function TrimStart(s: string): (t: string)
    ensures |t| <= |s|
    ensures AllWhitespace(s[..|s| - |t|])
    ensures t != [] ==> !IsWhitespace(t[0])
  {
    if s != [] && IsWhitespace(s[0]) then TrimStart(s[1..]) else s
  }

  function TrimEnd(s: string): (t: string)
    ensures |t| <= |s|
    ensures AllWhitespace(s[|t|..])
    ensures t != [] ==> !IsWhitespace(t[|t| - 1])
  {
    if s != [] && IsWhitespace(s[|s| - 1]) then TrimEnd(s[..|s| - 1]) else s
  }

  /** What trimming the start leaves is a suffix of the string. */
  lemma {:induction false} TrimStartIsSuffix(s: string)
    ensures TrimStart(s) == s[|s| - |TrimStart(s)|..]
  {
    if s != [] && IsWhitespace(s[0]) {
      TrimStartIsSuffix(s[1..]);
    }
  }

  /** What trimming the end leaves is a prefix of the string. */
  lemma {:induction false} TrimEndIsPrefix(s: string)
    ensures TrimEnd(s) == s[..|TrimEnd(s)|]
  {
    if s != [] && IsWhitespace(s[|s| - 1]) {
      TrimEndIsPrefix(s[..|s| - 1]);
    }
  }

  /** `s.trim()`: the string without the whitespace at either end. */
  function Trim(s: string): string {
    TrimEnd(TrimStart(s))
  }

  /** The number of decimal digits at the start of `s`. */
  function LeadingDigits(s: string): (i: nat)
    ensures i <= |s| && AllDigits(s[..i])
    ensures i < |s| ==> !IsDigit(s[i])
  {
    if s == [] || !IsDigit(s[0]) then 0
    else
      var i := 1 + LeadingDigits(s[1..]);
      assert s[..i] == [s[0]] + s[1..][..i - 1];
      i
  }

  /** A numeral without sign: `digits`, `digits.`, `.digits` or `digits.digits`. */
  function UnsignedDecimal(t: string): (r: Option<real>)
    ensures r.Some? ==> t != [] && r.value >= 0.0
    ensures r.Some? ==> forall k :: 0 <= k < |t| ==> IsDigit(t[k]) || t[k] == '.'
  {
    var i := LeadingDigits(t);
    if i == |t| then
      if i == 0 then None else Some(DigitsValue(t) as real)
    else if t[i] != '.' then None
    else
      var frac := t[i + 1..];
      if !AllDigits(frac) || (i == 0 && frac == []) then None
      else
        assert forall k :: i < k < |t| ==> t[k] == frac[k - i - 1];
        assert forall k :: 0 <= k < i ==> t[k] == t[..i][k];
        Some(DigitsValue(t[..i]) as real + (DigitsValue(frac) as real) / (Pow10(|frac|) as real))
  }

  function Negate(r: Option<real>): Option<real> {
    match r
    case None => None
    case Some(x) => Some(-x)
  }

  /**
   * `Number(s)` for a string; `None` is `NaN`. Only digits, a sign, a point
   * and whitespace can occur in a string that converts; a blank string is 0.
   */
  function StringToNumber(s: string): (r: Option<real>)
    ensures r.Some? ==> forall k :: 0 <= k < |s| ==> NumeralChar(s[k])
  {
    var t := Trim(s);
    TrimmedNumeral(s);
    if t == [] then Some(0.0)
    else if t[0] == '-' then
      assert forall k :: 0 < k < |t| ==> t[k] == t[1..][k - 1];
      Negate(UnsignedDecimal(t[1..]))
    else if t[0] == '+' then
      assert forall k :: 0 < k < |t| ==> t[k] == t[1..][k - 1];
      UnsignedDecimal(t[1..])
    else UnsignedDecimal(t)
  }

  /** The characters that may appear in a string `Number()` accepts. */
  predicate NumeralChar(c: char) {
    IsDigit(c) || c == '.' || c == '+' || c == '-' || IsWhitespace(c)
  }

  /** Trimming removes only whitespace, so numeral characters in the middle mean numeral characters throughout. */
  lemma TrimmedNumeral(s: string)
    ensures (forall k :: 0 <= k < |Trim(s)| ==> NumeralChar(Trim(s)[k])) ==>
            forall k :: 0 <= k < |s| ==> NumeralChar(s[k])
  {
    var a := TrimStart(s);
    var t := TrimEnd(a);
    var off := |s| - |a|;
    TrimStartIsSuffix(s);
    TrimEndIsPrefix(a);
    assert t == Trim(s);
    if forall k :: 0 <= k < |Trim(s)| ==> NumeralChar(Trim(s)[k]) {
      forall k | 0 <= k < |s|
        ensures NumeralChar(s[k])
      {
        if k < off {
          assert s[..off][k] == s[k];
        } else {
          assert a[k - off] == s[k];
          if k - off >= |t| {
            assert a[|t|..][k - off - |t|] == a[k - off];
          } else {
            assert t[k - off] == s[k];
          }
        }
      }
    }
  }

  /**
   * `Number(v)`; `isNaN(Number(v))` is `ToNumber(v).None?`. Only `undefined`
   * and unreadable strings are NaN, every other falsy value is 0, and a
   * number is itself.
   */
  function ToNumber(v: JsVal): (r: Option<real>)
    ensures r.None? <==> v.Undefined? || (v.Str? && StringToNumber(v.s).None?)
    ensures !Truthy(v) && !v.Undefined? ==> r == Some(0.0)
    ensures v.Num? ==> r == Some(v.n)
  {
    match v
    case Undefined => None
    case Null => Some(0.0)
    case Bool(b) => Some(if b then 1.0 else 0.0)
    case Num(n) => Some(n)
    case Str(s) => StringToNumber(s)
  }

  /** The integer a number denotes, or `None` when it has a fractional part. */
  function AsInteger(x: real): (r: Option<int>)
    ensures r.Some? <==> x == x.Floor as real
    ensures r.Some? ==> r.value as real == x
  {
    if x == x.Floor as real then Some(x.Floor) else None
  }

  /** The integer an `:id` path parameter denotes, when `Number()` gives a whole number. */
  function IdOf(idParam: string): (id: Option<int>)
    ensures id.Some? ==> StringToNumber(idParam) == Some(id.value as real)
  {
    match StringToNumber(idParam)
    case None => None
    case Some(x) => AsInteger(x)
  }

  // ---------------------------------------------------------------------------
  // What Number() does with the strings the handlers see
  // ---------------------------------------------------------------------------

  /** A decimal placeholder number reads back as itself: `Number(String(n)) == n`. */
  lemma NumberOfNatToString(n: nat)
    ensures StringToNumber(NatToString(n)) == Some(n as real)
  {
    var s := NatToString(n);
    NatToStringDigits(n);
    assert Trim(s) == s by {
      DigitIsNotWhitespace(s[0]);
      DigitIsNotWhitespace(s[|s| - 1]);
      assert TrimStart(s) == s;
    }
    assert !(s[0] == '-' || s[0] == '+');
    LeadingDigitsOfDigits(s);
  }

  lemma DigitIsNotWhitespace(c: char)
    requires IsDigit(c)
    ensures !IsWhitespace(c)
  {
  }

  lemma {:induction false} LeadingDigitsOfDigits(s: string)
    requires AllDigits(s)
    ensures LeadingDigits(s) == |s|
  {
    if s != [] {
      LeadingDigitsOfDigits(s[1..]);
    }
  }

  /** An empty or all-whitespace string converts to 0, so it passes every `isNaN` test. */
  lemma {:induction false} BlankIsZero(s: string)
    requires AllWhitespace(s)
    ensures StringToNumber(s) == Some(0.0)
  {
    TrimStartOfBlank(s);
  }

  lemma {:induction false} TrimStartOfBlank(s: string)
    requires AllWhitespace(s)
    ensures TrimStart(s) == []
  {
    if s != [] {
      assert forall k :: 0 <= k < |s| - 1 ==> s[1..][k] == s[k + 1];
      TrimStartOfBlank(s[1..]);
    }
  }
}
