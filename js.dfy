/** JavaScript values as the core sees them: the result of `JSON.parse` on an
    upstream payload, plus `undefined` for a property that is not there.
    Numbers are integers here; floating point is not modelled. */
module Js {

  datatype Option<+T> = None | Some(value: T)

  datatype Json =
    | Undefined
    | Null
    | Bool(b: bool)
    | Num(n: int)
    | Str(s: string)
    | Arr(items: seq<Json>)
    | Obj(fields: map<string, Json>)

  /** The object literal `{}`. */
  const EmptyObj: Json := Obj(map[])

  /** The values `??` and `?.` skip: null and undefined. */
  predicate Nullish(v: Json) {
    v.Undefined? || v.Null?
  }

  /** The values `!v` is true of (NaN aside, which integers cannot be). */
  predicate Falsy(v: Json) {
    v.Undefined? || v.Null? || v == Bool(false) || v == Num(0) || v == Str("")
  }

  /** Property access `v?.key` for the named (non-index) keys the core reads:
      an own field of an object, `length` of an array or string, and
      `undefined` for everything else, including a nullish `v`. */
  function Get(v: Json, key: string): Json {
    match v
    case Obj(fields) => if key in fields then fields[key] else Undefined
    case Arr(items) => if key == "length" then Num(|items|) else Undefined
    case Str(s) => if key == "length" then Num(|s|) else Undefined
    case _ => Undefined
  }

  /** `a ?? b`. */
  function Coalesce(a: Json, b: Json): Json {
    if Nullish(a) then b else a
  }

  /** Candidate `i` is the first one that is neither null nor undefined. */
  predicate IsFirstPresent(cands: seq<Json>, i: int) {
    0 <= i < |cands| && !Nullish(cands[i]) && forall j | 0 <= j < i :: Nullish(cands[j])
  }

  /** What `c0 ?? c1 ?? … ?? fallback` evaluates to, stated over an ordered
      list of candidates: the first present candidate, else the fallback. */
  function FirstPresent(cands: seq<Json>, fallback: Json): (r: Json)
    ensures (forall i | 0 <= i < |cands| :: Nullish(cands[i])) ==> r == fallback
    ensures forall i | IsFirstPresent(cands, i) :: r == cands[i]
    ensures !Nullish(fallback) ==> !Nullish(r)
  {
    if cands == [] then fallback
    else if !Nullish(cands[0]) then cands[0]
    else
      var r := FirstPresent(cands[1..], fallback);
      assert forall i | IsFirstPresent(cands, i) :: IsFirstPresent(cands[1..], i - 1);
      r
  }

  /** Chains of one to three `??` agree with `FirstPresent`. */
  lemma FirstPresentOne(a: Json, fallback: Json)
    ensures FirstPresent([a], fallback) == Coalesce(a, fallback)
  {
    if !Nullish(a) { assert IsFirstPresent([a], 0); }
  }

  lemma FirstPresentTwo(a: Json, b: Json, fallback: Json)
    ensures FirstPresent([a, b], fallback) == Coalesce(a, Coalesce(b, fallback))
  {
    if !Nullish(a) { assert IsFirstPresent([a, b], 0); }
    else if !Nullish(b) { assert IsFirstPresent([a, b], 1); }
  }

  lemma FirstPresentThree(a: Json, b: Json, c: Json, fallback: Json)
    ensures FirstPresent([a, b, c], fallback) == Coalesce(a, Coalesce(b, Coalesce(c, fallback)))
  {
    if !Nullish(a) { assert IsFirstPresent([a, b, c], 0); }
    else if !Nullish(b) { assert IsFirstPresent([a, b, c], 1); }
    else if !Nullish(c) { assert IsFirstPresent([a, b, c], 2); }
  }

  // ---------------------------------------------------------------------
  // Strings

  /** `s.indexOf(c)` for a present character; `|s|` when `c` is absent. */
  function IndexOf(s: string, c: char): (k: nat)
    ensures k <= |s|
  {
    if s == [] || s[0] == c then 0 else 1 + IndexOf(s[1..], c)
  }

  /** The first `c` after a prefix free of `c` is the one right after it. */
  lemma {:induction false} IndexOfAfterPrefix(prefix: string, c: char, rest: string)
    requires c !in prefix
    ensures IndexOf(prefix + [c] + rest, c) == |prefix|
  {
    if prefix != [] {
      assert (prefix + [c] + rest)[1..] == prefix[1..] + [c] + rest;
      assert prefix[0] != c;
      IndexOfAfterPrefix(prefix[1..], c, rest);
    }
  }

  /** A separator that occurs in neither prefix splits two joined strings
      back into their parts. */
  lemma JoinedWithSeparator(a: string, b: string, c: char, x: string, y: string)
    requires c !in a && c !in x
    requires a + [c] + b == x + [c] + y
    ensures a == x && b == y
  {
    IndexOfAfterPrefix(a, c, b);
    IndexOfAfterPrefix(x, c, y);
    var t := a + [c] + b;
    assert a == t[..|a|] == x;
    assert b == t[|a| + 1..] == y;
  }

  // ---------------------------------------------------------------------
  // String(v)

  function DigitChar(d: nat): char
    requires d < 10
  {
    ('0' as int + d) as char
  }

  predicate IsDigit(c: char) {
    '0' <= c <= '9'
  }

  /** Decimal rendering of a natural number, most significant digit first. */
  function NatToDecimal(n: nat): (s: string)
    ensures 1 <= |s|
    ensures forall i | 0 <= i < |s| :: IsDigit(s[i])
    ensures |s| == 1 <==> n < 10
  {
    if n < 10 then [DigitChar(n)] else NatToDecimal(n / 10) + [DigitChar(n % 10)]
  }

  /** Distinct numbers render to distinct digit strings. */
  lemma {:induction false} NatToDecimalInjective(a: nat, b: nat)
    requires NatToDecimal(a) == NatToDecimal(b)
    ensures a == b
  {
    if a >= 10 && b >= 10 {
      var sa, sb := NatToDecimal(a), NatToDecimal(b);
      assert sa[|sa| - 1] == sb[|sb| - 1];
      assert DigitChar(a % 10) == DigitChar(b % 10);
      assert sa[..|sa| - 1] == sb[..|sb| - 1];
      assert NatToDecimal(a / 10) == sa[..|sa| - 1];
      assert NatToDecimal(b / 10) == sb[..|sb| - 1];
      NatToDecimalInjective(a / 10, b / 10);
    }
  }

  /** `String(n)` for an integer: a minus sign, then the digits. */
  function IntToString(n: int): (s: string)
    ensures 1 <= |s| && (n < 0 <==> s[0] == '-')
    ensures forall i | 1 <= i < |s| :: IsDigit(s[i])
  {
    if n < 0 then "-" + NatToDecimal(-n) else NatToDecimal(n)
  }

  /** Distinct integers render to distinct strings. */
  lemma IntToStringInjective(a: int, b: int)
    requires IntToString(a) == IntToString(b)
    ensures a == b
  {
    var sa, sb := IntToString(a), IntToString(b);
    if a < 0 {
      assert b < 0;
      assert NatToDecimal(-a) == sa[1..] == sb[1..] == NatToDecimal(-b);
      NatToDecimalInjective(-a, -b);
    } else {
      assert b >= 0;
      NatToDecimalInjective(a, b);
    }
  }

  /** `String(v)` (equivalently, a template-literal hole `${v}`). */
  function JsString(v: Json): (r: string)
    ensures v.Str? ==> r == v.s
    ensures v.Num? ==> r == IntToString(v.n)
    ensures v.Obj? ==> r == "[object Object]"
    decreases v, 1
  {
    match v
    case Undefined => "undefined"
    case Null => "null"
    case Bool(b) => if b then "true" else "false"
    case Num(n) => IntToString(n)
    case Str(s) => s
    case Arr(items) => JoinElements(v, |items|)
    case Obj(_) => "[object Object]"
  }

  /** `Array.prototype.join(",")` over the first `n` elements: null and
      undefined elements become empty strings. */
  function JoinElements(arr: Json, n: nat): string
    requires arr.Arr? && n <= |arr.items|
    decreases arr, 0, n
  {
    if n == 0 then ""
    else
      var e := arr.items[n - 1];
      var last := if Nullish(e) then "" else JsString(e);
      if n == 1 then last else JoinElements(arr, n - 1) + "," + last
  }
}
