/** Results of an HTTP handler: a value, or the status code and message it answers with. */
module Outcome {
  type Id = nat

  datatype Option<+T> = None | Some(value: T)

  datatype HttpError = HttpError(code: int, message: string)

  datatype Result<+T> = Ok(value: T) | Err(error: HttpError)
}

/** Integer arithmetic the source does with floating-point division and Math.ceil. */
module Arith {
  /** Math.ceil(a / b) for integers, b != 0: the least integer not below a / b. */
  function CeilDiv(a: int, b: int): (r: int)
    requires b != 0
    ensures b > 0 ==> (r - 1) * b < a <= r * b
    ensures b < 0 ==> r * b <= a < (r - 1) * b
  {
    if b > 0 then
      var q := (a + b - 1) / b;
      assert (a + b - 1) == b * q + (a + b - 1) % b;
      q
    else
      var q := a / b;
      assert a == b * q + a % b;
      q
  }

  lemma {:induction false} CeilDivNonNegative(a: int, b: int)
    requires a >= 0 && b > 0
    ensures CeilDiv(a, b) >= 0
    ensures a == 0 <==> CeilDiv(a, b) == 0
  {
    var r := CeilDiv(a, b);
    if r < 0 {
      assert r * b <= -b by { MulMonotone(r, -1, b); }
    }
  }

  lemma MulMonotone(x: int, y: int, b: int)
    requires x <= y && b > 0
    ensures x * b <= y * b
  {
  }
}

/** Character and string helpers. Case mapping covers ASCII letters only. */
module Text {
  predicate IsUpper(c: char) { 'A' <= c <= 'Z' }
  predicate IsLower(c: char) { 'a' <= c <= 'z' }
  predicate IsDigit(c: char) { '0' <= c <= '9' }

  /** String.prototype.toUpperCase on one character. */
  function Upper(c: char): (u: char)
    ensures !IsLower(u)
    ensures IsLower(c) ==> IsUpper(u)
    ensures !IsLower(c) ==> u == c
  {
    if IsLower(c) then (c as int - 32) as char else c
  }

  /** String.prototype.toLowerCase on one character. */
  function Lower(c: char): (l: char)
    ensures !IsUpper(l)
    ensures IsUpper(c) ==> IsLower(l)
    ensures !IsUpper(c) ==> l == c
  {
    if IsUpper(c) then (c as int + 32) as char else c
  }

  function LowerAll(s: string): (r: string)
    ensures |r| == |s|
    ensures forall i :: 0 <= i < |s| ==> r[i] == Lower(s[i])
  {
    if s == [] then [] else [Lower(s[0])] + LowerAll(s[1..])
  }

  function UpperAll(s: string): (r: string)
    ensures |r| == |s|
    ensures forall i :: 0 <= i < |s| ==> r[i] == Upper(s[i])
  {
    if s == [] then [] else [Upper(s[0])] + UpperAll(s[1..])
  }

  /** Lower-casing forgets any earlier change of case. */
  lemma LowerAllForgetsCase(s: string)
    ensures LowerAll(UpperAll(s)) == LowerAll(s)
    ensures LowerAll(LowerAll(s)) == LowerAll(s)
  {
    assert forall i :: 0 <= i < |s| ==> LowerAll(UpperAll(s))[i] == LowerAll(s)[i];
    assert forall i :: 0 <= i < |s| ==> LowerAll(LowerAll(s))[i] == LowerAll(s)[i];
  }

  /** `needle` occurs in `hay` starting at its first position. */
  predicate IsPrefix(needle: string, hay: string) {
    |needle| <= |hay| && hay[..|needle|] == needle
  }

  /** String.prototype.includes. */
  predicate Contains(hay: string, needle: string)
    decreases |hay|
  {
    IsPrefix(needle, hay) || (|hay| > 0 && Contains(hay[1..], needle))
  }

  lemma {:induction false} ContainsAt(hay: string, needle: string, i: nat)
    requires i + |needle| <= |hay| && hay[i..i + |needle|] == needle
    ensures Contains(hay, needle)
    decreases i
  {
    if i > 0 {
      assert hay[1..][i - 1..i - 1 + |needle|] == needle;
      ContainsAt(hay[1..], needle, i - 1);
    }
  }

  function Digit(d: nat): (c: char)
    requires d < 10
    ensures IsDigit(c)
  {
    ('0' as int + d) as char
  }

  function DigitValue(c: char): (d: nat)
    requires IsDigit(c)
    ensures d < 10 && Digit(d) == c
  {
    c as int - '0' as int
  }

  /** Number.prototype.toString for a non-negative integer. */
  function NatToString(n: nat): (s: string)
    ensures |s| >= 1
    ensures forall i :: 0 <= i < |s| ==> IsDigit(s[i])
    ensures n < 10 <==> |s| == 1
  {
    if n < 10 then [Digit(n)] else NatToString(n / 10) + [Digit(n % 10)]
  }

  /** String.prototype.padStart(width, fill). */
  function PadStart(s: string, width: nat, fill: char): (r: string)
    ensures |r| == if |s| >= width then |s| else width
    ensures r[|r| - |s|..] == s
    ensures forall i :: 0 <= i < |r| - |s| ==> r[i] == fill
  {
    if |s| >= width then s else seq(width - |s|, _ => fill) + s
  }

  /** String.prototype.split with a one-character separator. */
  function Split(s: string, sep: char): (ws: seq<string>)
    ensures |ws| >= 1
  {
    if s == [] then [""]
    else
      var rest := Split(s[1..], sep);
      if s[0] == sep then [""] + rest else [[s[0]] + rest[0]] + rest[1..]
  }

  /** Array.prototype.join with a one-character separator. */
  function Join(ws: seq<string>, sep: char): string
  {
    if ws == [] then "" else if |ws| == 1 then ws[0] else ws[0] + [sep] + Join(ws[1..], sep)
  }

  lemma {:induction false} SplitWordsHaveNoSeparator(s: string, sep: char)
    ensures forall i :: 0 <= i < |Split(s, sep)| ==> sep !in Split(s, sep)[i]
  {
    if s != [] {
      SplitWordsHaveNoSeparator(s[1..], sep);
    }
  }

  lemma {:induction false} JoinSplit(s: string, sep: char)
    ensures Join(Split(s, sep), sep) == s
  {
    if s != [] {
      var rest := Split(s[1..], sep);
      JoinSplit(s[1..], sep);
      if s[0] == sep {
        assert Split(s, sep)[1..] == rest;
      } else {
        var ws := Split(s, sep);
        assert ws[1..] == rest[1..];
        if |rest| > 1 {
          assert rest == [rest[0]] + rest[1..];
          assert Join(rest, sep) == rest[0] + [sep] + Join(rest[1..], sep);
        }
      }
    }
  }
}

/**
 * JavaScript values as the untyped request bodies and Redux payloads carry
 * them, with the coercions the source relies on: truthiness, Number(),
 * property access and relational comparison.
 */
module Js {
  import opened Outcome
  import opened Text

  datatype Value =
    | Undefined
    | Null
    | Bool(b: bool)
    | Num(n: real)
    | Str(s: string)
    | Arr(items: seq<Value>)
    | Obj(fields: map<string, Value>)

  /** A plain object: its own enumerable properties. */
  type Object = map<string, Value>

  /** obj[key]; a missing property reads as undefined. */
  function Get(o: Object, key: string): (v: Value)
    ensures key !in o ==> v == Undefined
  {
    if key in o then o[key] else Undefined
  }

  /** JavaScript truthiness (NaN does not arise: numbers here are never NaN). */
  predicate Truthy(v: Value) {
    match v
    case Undefined => false
    case Null => false
    case Bool(b) => b
    case Num(n) => n != 0.0
    case Str(s) => s != ""
    case Arr(_) => true
    case Obj(_) => true
  }

  predicate AllDigits(s: string) {
    forall i :: 0 <= i < |s| ==> IsDigit(s[i])
  }

  function DigitsValue(s: string): (n: nat)
    requires AllDigits(s)
  {
    if s == [] then 0 else 10 * DigitsValue(s[..|s| - 1]) + DigitValue(s[|s| - 1])
  }

  /**
   * Number(v); None stands for NaN. An array converts through its `join`:
   * the empty array is 0, a one-element array converts as its element's
   * string form (`null` and `undefined` give "" and so 0), and a longer
   * array has a comma and is NaN.
   */
  function ToNumber(v: Value): (r: Option<real>)
    ensures v.Num? ==> r == Some(v.n)
    ensures v.Undefined? || v.Obj? ==> r == None
    ensures v.Arr? && v.items == [] ==> r == Some(0.0)
    ensures v.Arr? && |v.items| >= 2 ==> r == None
    ensures v.Arr? && |v.items| == 1 && (v.items[0].Num? || v.items[0].Str?) ==> r == ToNumber(v.items[0])
    decreases v
  {
    match v
    case Undefined => None
    case Null => Some(0.0)
    case Bool(b) => Some(if b then 1.0 else 0.0)
    case Num(n) => Some(n)
    case Str(s) =>
      if s == "" then Some(0.0)
      else if AllDigits(s) then Some(DigitsValue(s) as real)
      else if s[0] == '-' && |s| > 1 && AllDigits(s[1..]) then Some(-(DigitsValue(s[1..]) as real))
      else None
    case Arr(items) =>
      if items == [] then Some(0.0)
      else if |items| >= 2 then None
      else (match items[0]
        case Undefined => Some(0.0)
        case Null => Some(0.0)
        case Bool(_) => None
        case Num(n) => Some(n)
        case Str(_) => ToNumber(items[0])
        case Arr(_) => ToNumber(items[0])
        case Obj(_) => None)
    case Obj(_) => None
  }

  /** The longest prefix of s made of digits. */
  function DigitPrefix(s: string): (p: string)
    ensures AllDigits(p) && IsPrefix(p, s)
    ensures |p| < |s| ==> !IsDigit(s[|p|])
  {
    if s != [] && IsDigit(s[0]) then [s[0]] + DigitPrefix(s[1..]) else []
  }

  /**
   * parseInt(s) in base 10 for a string without leading white space: an
   * optional sign, then the digits up to the first non-digit. None is NaN.
   */
  function ParseInt(s: string): (r: Option<int>)
    ensures r.None? <==> DigitPrefix(if |s| > 0 && (s[0] == '-' || s[0] == '+') then s[1..] else s) == []
  {
    var body := if |s| > 0 && (s[0] == '-' || s[0] == '+') then s[1..] else s;
    var digits := DigitPrefix(body);
    var magnitude: int := if digits == [] then 0 else DigitsValue(digits);
    if digits == [] then None
    else if s[0] == '-' then Some(-magnitude)
    else Some(magnitude)
  }

  lemma {:induction false} DigitsValueOfNatToString(n: nat)
    ensures AllDigits(NatToString(n)) && DigitsValue(NatToString(n)) == n
  {
    if n >= 10 {
      var s := NatToString(n);
      DigitsValueOfNatToString(n / 10);
      assert s[..|s| - 1] == NatToString(n / 10);
    }
  }

  lemma {:induction false} DigitPrefixStopsAtNonDigit(p: string, rest: string)
    requires AllDigits(p)
    requires rest == [] || !IsDigit(rest[0])
    ensures DigitPrefix(p + rest) == p
  {
    if p != [] {
      assert (p + rest)[1..] == p[1..] + rest;
      DigitPrefixStopsAtNonDigit(p[1..], rest);
    }
  }

  /** parseInt reads back what Number.prototype.toString wrote, whatever non-digit text follows. */
  lemma ParseIntOfNatToString(n: nat, rest: string)
    requires rest == [] || !IsDigit(rest[0])
    ensures ParseInt(NatToString(n) + rest) == Some(n)
  {
    DigitsValueOfNatToString(n);
    DigitPrefixStopsAtNonDigit(NatToString(n), rest);
    assert (NatToString(n) + rest)[0] == NatToString(n)[0];
  }

  /** isNaN(v). */
  predicate IsNaN(v: Value) {
    ToNumber(v).None?
  }

  /** v < k for a number literal k (a NaN operand makes it false). */
  predicate LessThan(v: Value, k: real) {
    ToNumber(v).Some? && ToNumber(v).value < k
  }

  /** v > k for a number literal k. */
  predicate GreaterThan(v: Value, k: real) {
    ToNumber(v).Some? && ToNumber(v).value > k
  }

  /** v <= k for a number literal k. */
  predicate AtMost(v: Value, k: real) {
    ToNumber(v).Some? && ToNumber(v).value <= k
  }

  /** `a < b` on two strings: code-point order, a proper prefix first. */
  predicate StrLess(a: string, b: string)
    decreases |a|
  {
    if a == [] then b != []
    else if b == [] then false
    else a[0] < b[0] || (a[0] == b[0] && StrLess(a[1..], b[1..]))
  }

  lemma {:induction false} StrLessIrreflexive(a: string)
    ensures !StrLess(a, a)
    decreases |a|
  {
    if a != [] {
      StrLessIrreflexive(a[1..]);
    }
  }

  lemma {:induction false} StrLessTransitive(a: string, b: string, c: string)
    requires StrLess(a, b) && StrLess(b, c)
    ensures StrLess(a, c)
    decreases |a|
  {
    if a != [] && a[0] == b[0] && b[0] == c[0] {
      StrLessTransitive(a[1..], b[1..], c[1..]);
    }
  }

  lemma {:induction false} StrLessTotal(a: string, b: string)
    requires a != b
    ensures StrLess(a, b) || StrLess(b, a)
    decreases |a|
  {
    if a != [] && b != [] && a[0] == b[0] {
      assert a == [a[0]] + a[1..] && b == [b[0]] + b[1..];
      StrLessTotal(a[1..], b[1..]);
    }
  }

  /** `a < b`: string order on two strings, numeric order otherwise (a NaN operand makes it false). */
  predicate ValueLess(a: Value, b: Value) {
    if a.Str? && b.Str? then StrLess(a.s, b.s)
    else ToNumber(a).Some? && ToNumber(b).Some? && ToNumber(a).value < ToNumber(b).value
  }
}
