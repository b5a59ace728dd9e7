/**
 * Values shared by every part of the model: optional numbers (JavaScript's
 * `undefined`/`null`), the two-decimal rounding that `parseFloat(x.toFixed(2))`
 * performs, `parseInt` truncation, sums, and ASCII upper-casing.
 */
module Common {

  datatype Option<T> = None | Some(value: T)

  /** JavaScript truthiness of an optional number: present and non-zero. */
  predicate Truthy(x: Option<real>) {
    x.Some? && x.value != 0.0
  }

  /** `x || 0`: a missing (or zero) value reads as 0. */
  function OrZero(x: Option<real>): (r: real)
    ensures x.None? ==> r == 0.0
    ensures x.Some? ==> r == x.value
  {
    if x.Some? then x.value else 0.0
  }

  /** A number with at most two decimals, i.e. a whole number of hundredths. */
  ghost predicate IsCents(x: real) {
    (x * 100.0).Floor as real == x * 100.0
  }

  function RoundHalfUp(y: real): (n: int)
    requires y >= 0.0
    ensures n >= 0
    ensures n as real - 0.5 <= y < n as real + 0.5
  {
    (y + 0.5).Floor
  }

  /**
   * `parseFloat(x.toFixed(2))` on exact reals: round to the nearest hundredth,
   * halves away from zero (toFixed rounds the magnitude and keeps the sign).
   */
  function Round2(x: real): (r: real)
    ensures IsCents(r)
    ensures x - 0.005 <= r <= x + 0.005
    ensures IsCents(x) ==> r == x
    ensures x >= 0.0 ==> r >= 0.0
    ensures x <= 0.0 ==> r <= 0.0
  {
    if x >= 0.0 then
      RoundMagnitude(x);
      RoundHalfUp(x * 100.0) as real / 100.0
    else
      RoundMagnitude(-x);
      CentsNeg(x);
      CentsNeg(RoundHalfUp(-x * 100.0) as real / 100.0);
      -(RoundHalfUp(-x * 100.0) as real / 100.0)
  }

  lemma RoundMagnitude(y: real)
    requires y >= 0.0
    ensures IsCents(RoundHalfUp(y * 100.0) as real / 100.0)
    ensures y - 0.005 <= RoundHalfUp(y * 100.0) as real / 100.0 <= y + 0.005
    ensures IsCents(y) ==> RoundHalfUp(y * 100.0) as real / 100.0 == y
  {
    var n := RoundHalfUp(y * 100.0);
    CentsOfInt(n);
    if IsCents(y) {
      var k := (y * 100.0).Floor;
      assert k as real == y * 100.0;
      assert (k as real + 0.5).Floor == k;
    }
  }

  lemma CentsNeg(x: real)
    ensures IsCents(x) <==> IsCents(-x)
  {
    assert -x * 100.0 == -(x * 100.0);
    if IsCents(x) {
      var k := (x * 100.0).Floor;
      assert -x * 100.0 == (-k) as real;
      assert ((-k) as real).Floor == -k;
    }
    if IsCents(-x) {
      var k := (-x * 100.0).Floor;
      assert x * 100.0 == (-k) as real;
      assert ((-k) as real).Floor == -k;
    }
  }

  lemma CentsOfInt(n: int)
    ensures IsCents(n as real / 100.0)
  {
    assert (n as real / 100.0) * 100.0 == n as real;
  }

  /** Sums and differences of two-decimal numbers have two decimals. */
  lemma CentsAdd(a: real, b: real)
    requires IsCents(a) && IsCents(b)
    ensures IsCents(a + b) && IsCents(a - b)
  {
    var m, n := (a * 100.0).Floor, (b * 100.0).Floor;
    assert a * 100.0 == m as real && b * 100.0 == n as real;
    assert (a + b) * 100.0 == a * 100.0 + b * 100.0;
    assert (a - b) * 100.0 == a * 100.0 - b * 100.0;
    assert ((m + n) as real).Floor == m + n;
    assert ((m - n) as real).Floor == m - n;
  }

  /** `x` agrees with `y` up to the half-cent lost by Round2. */
  predicate WithinHalfCent(x: real, y: real) {
    y - 0.005 <= x <= y + 0.005
  }

  /** The momentum score: 40% of the 3-month, 40% of the 6-month and 20% of the 1-year performance. */
  function MomentumBlend(perf3M: real, perf6M: real, perf1Y: real): (m: real)
    ensures perf3M == perf6M == perf1Y ==> m == perf1Y
    ensures perf3M >= 0.0 && perf6M >= 0.0 && perf1Y >= 0.0 ==> m >= 0.0
  {
    perf3M * 0.4 + perf6M * 0.4 + perf1Y * 0.2
  }

  /** `parseInt` of a number: truncation toward zero. */
  function Trunc(x: real): (n: int)
    ensures x >= 0.0 ==> n as real <= x < n as real + 1.0
    ensures x < 0.0 ==> n as real - 1.0 < x <= n as real
  {
    if x >= 0.0 then x.Floor else -((-x).Floor)
  }

  function Sum(s: seq<real>): (r: real)
  {
    if s == [] then 0.0 else Sum(s[..|s| - 1]) + s[|s| - 1]
  }

  lemma {:induction false} SumConst(s: seq<real>, c: real)
    requires forall i :: 0 <= i < |s| ==> s[i] == c
    ensures Sum(s) == |s| as real * c
  {
    if s != [] {
      SumConst(s[..|s| - 1], c);
    }
  }

  lemma {:induction false} SumNonNegative(s: seq<real>)
    ensures (forall i :: 0 <= i < |s| ==> s[i] >= 0.0) ==> Sum(s) >= 0.0
  {
    if s != [] {
      SumNonNegative(s[..|s| - 1]);
    }
  }

  lemma {:induction false} SumAppend(s: seq<real>, t: seq<real>)
    ensures Sum(s + t) == Sum(s) + Sum(t)
  {
    if t != [] {
      var u := s + t;
      assert u[..|u| - 1] == s + t[..|t| - 1];
      assert u[|u| - 1] == t[|t| - 1];
      SumAppend(s, t[..|t| - 1]);
      assert Sum(u) == Sum(u[..|u| - 1]) + u[|u| - 1];
    } else {
      assert s + t == s;
    }
  }

  predicate IsLower(c: char) { 'a' <= c <= 'z' }

  function UpperChar(c: char): (u: char)
    ensures !IsLower(u)
    ensures !IsLower(c) ==> u == c
  {
    if IsLower(c) then (c as int - 32) as char else c
  }

  /** `toUpperCase` on the ASCII letters. */
  function ToUpper(s: string): (r: string)
    ensures |r| == |s|
    ensures forall i :: 0 <= i < |s| ==> r[i] == UpperChar(s[i])
  {
    seq(|s|, i requires 0 <= i < |s| => UpperChar(s[i]))
  }

  lemma ToUpperIdempotent(s: string)
    ensures ToUpper(ToUpper(s)) == ToUpper(s)
  {
  }
}
