/**
 * Values shared by the whole model: optional values, JavaScript numbers and
 * parsed JSON, the truthiness rules the application relies on, and the
 * integer renderings of the few roundings it performs.
 */
module Common {

  /** `T | undefined` (and, where the application reads it with `??`, `T | null`). */
  datatype Option<+T> = None | Some(value: T) {
    /** `x ?? default` */
    function GetOr(default: T): T {
      if Some? then value else default
    }
  }

  /** A JavaScript number: finite, or one of the three non-finite values. */
  datatype JsNumber = Finite(r: real) | NaN | PosInfinity | NegInfinity

  /** JavaScript truthiness of a number: `0` and `NaN` are the falsy numbers. */
  predicate NumberTruthy(n: JsNumber) {
    n != NaN && n != Finite(0.0)
  }

  /** A value as `JSON.parse` produces it. */
  datatype Json =
    | JNull
    | JBool(b: bool)
    | JNum(n: JsNumber)
    | JStr(s: string)
    | JArray(items: seq<Json>)
    | JObject(fields: map<string, Json>)

  /** `typeof v === "object" && v !== null`: objects and arrays. */
  predicate IsObjectLike(v: Json) {
    v.JObject? || v.JArray?
  }

  /** Property read `v.key`: `None` stands for `undefined`. An array has no named properties. */
  function Field(v: Json, key: string): (r: Option<Json>)
    ensures r.Some? <==> v.JObject? && key in v.fields
    ensures r.Some? ==> r.value == v.fields[key]
  {
    if v.JObject? && key in v.fields then Some(v.fields[key]) else None
  }

  /**
   * Truthiness of a `number | null` timestamp such as `startedAt` or
   * `pausedAt`: it must be present and non-zero.
   */
  predicate IsSet(t: Option<int>) {
    t.Some? && t.value != 0
  }

  function Max(a: int, b: int): (m: int)
    ensures m >= a && m >= b && (m == a || m == b)
  {
    if a >= b then a else b
  }

  function Min(a: int, b: int): (m: int)
    ensures m <= a && m <= b && (m == a || m == b)
  {
    if a <= b then a else b
  }

  /**
   * `Math.round(num / den * 100)` over exact rationals: the nearest integer to
   * `100 * num / den`, halves rounding up as `Math.round` does.
   */
  function RoundPercent(num: int, den: int): (p: int)
    requires den > 0
    ensures 2 * den * p <= 200 * num + den < 2 * den * (p + 1)
    ensures 0 <= num <= den ==> 0 <= p <= 100
    ensures num == den ==> p == 100
    ensures num == 0 ==> p == 0
  {
    RoundPercentFacts(num, den);
    (200 * num + den) / (2 * den)
  }

  lemma RoundPercentFacts(num: int, den: int)
    requires den > 0
    ensures var q := (200 * num + den) / (2 * den);
      && 2 * den * q <= 200 * num + den < 2 * den * (q + 1)
      && (0 <= num <= den ==> 0 <= q <= 100)
      && (num == den ==> q == 100)
      && (num == 0 ==> q == 0)
  {
    var a, b := 200 * num + den, 2 * den;
    var q := a / b;
    DivBounds(a, b);
    if 0 <= num <= den {
      DivNonNegative(a, b);
      assert a < b * 101;
      if q > 100 { MulMonotone(b, 101, q); }
    }
    if num == den {
      assert a == b * 100 + den;
      DivExact(100, den, b);
    }
    if num == 0 {
      DivExact(0, den, b);
    }
  }

  lemma DivBounds(a: int, b: int)
    requires b > 0
    ensures b * (a / b) <= a < b * (a / b + 1)
  {
  }

  lemma DivNonNegative(a: int, b: int)
    requires a >= 0 && b > 0
    ensures a / b >= 0
  {
  }

  lemma MulMonotone(b: int, x: int, y: int)
    requires b >= 0 && x <= y
    ensures b * x <= b * y
  {
  }

  lemma DivExact(q: int, r: int, b: int)
    requires b > 0 && 0 <= r < b
    ensures (b * q + r) / b == q
  {
    var d := (b * q + r) / b;
    DivBounds(b * q + r, b);
    if d < q {
      MulMonotone(b, d + 1, q);
    } else if d > q {
      MulMonotone(b, q + 1, d);
    }
  }

  /**
   * `s.findIndex(p)`: the first index whose element satisfies `p`, or -1
   * when none does.
   */
  function IndexWhere<T>(s: seq<T>, p: T -> bool): (i: int)
    ensures -1 <= i < |s|
    ensures i == -1 <==> forall k :: 0 <= k < |s| ==> !p(s[k])
    ensures 0 <= i ==> p(s[i]) && forall k :: 0 <= k < i ==> !p(s[k])
    decreases |s|
  {
    if s == [] then -1
    else if p(s[0]) then 0
    else
      var j := IndexWhere(s[1..], p);
      if j < 0 then -1 else j + 1
  }

  predicate IsDigits(s: string) {
    forall i :: 0 <= i < |s| ==> '0' <= s[i] <= '9'
  }

  /** The number a string of decimal digits denotes, most significant first. */
  function DigitsValue(s: string): nat
    requires IsDigits(s)
    decreases |s|
  {
    if s == [] then 0 else DigitsValue(s[..|s| - 1]) * 10 + (s[|s| - 1] as int - '0' as int)
  }

  /**
   * The decimal digits of a natural number, most significant first, as
   * `String(n)` writes them: digits that denote `n`, with no leading zero.
   */
  function NatToString(n: nat): (s: string)
    ensures |s| >= 1 && IsDigits(s)
    ensures DigitsValue(s) == n
    ensures |s| == 1 <==> n < 10
    ensures |s| > 1 ==> s[0] != '0'
    decreases n
  {
    var d := [(('0' as int) + n % 10) as char];
    if n < 10 then
      assert d[..0] == [];
      d
    else
      var t := NatToString(n / 10);
      var s := t + d;
      assert s[..|s| - 1] == t;
      assert s[0] == t[0];
      s
  }

  /** Different numbers are written differently. */
  lemma NatToStringInjective(a: nat, b: nat)
    requires NatToString(a) == NatToString(b)
    ensures a == b
  {
  }

  /** `String(i)` for an integer: a `-` exactly for a negative one, then the digits of its magnitude. */
  function IntToString(i: int): (s: string)
    ensures |s| >= 1
    ensures (i < 0) <==> s[0] == '-'
    ensures i >= 0 ==> IsDigits(s) && DigitsValue(s) == i
    ensures i < 0 ==> IsDigits(s[1..]) && DigitsValue(s[1..]) == -i
  {
    if i < 0 then
      var s := "-" + NatToString(-i);
      assert s[1..] == NatToString(-i);
      s
    else NatToString(i)
  }

  /** Different integers are written differently. */
  lemma IntToStringInjective(a: int, b: int)
    requires IntToString(a) == IntToString(b)
    ensures a == b
  {
  }
}
