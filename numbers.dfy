/** The JavaScript number operations the dashboard relies on, on exact reals:
    `Math.round`, `Number.prototype.toFixed(1)` read back by `parseFloat`,
    the `Math.max(lo, Math.min(hi, v))` clamp, and `String(n)` for the
    integers and one-decimal values that end up in the exported table. */
module Numbers {

  /** `Math.round(x)`: the nearest integer, halves rounded towards +infinity. */
  function Round(x: real): (r: int)
    ensures x - 0.5 < r as real <= x + 0.5
  {
    (x + 0.5).Floor
  }

  lemma RoundMonotone(x: real, y: real)
    requires x <= y
    ensures Round(x) <= Round(y)
  {
  }

  /** An integer is its own rounding. */
  lemma RoundOfInt(n: int)
    ensures Round(n as real) == n
  {
  }

  /** `parseFloat(x.toFixed(1))`, returned as a count of tenths: `toFixed`
      rounds the magnitude to the nearer tenth, a tie going away from zero. */
  function RoundTenths(x: real): (k: int)
    ensures x >= 0.0 ==> 10.0 * x - 0.5 < k as real <= 10.0 * x + 0.5
    ensures x < 0.0 ==> 10.0 * x - 0.5 <= k as real < 10.0 * x + 0.5
  {
    if x < 0.0 then -Round(-10.0 * x) else Round(10.0 * x)
  }

  /** A value that already has one decimal is left unchanged by `toFixed(1)`. */
  lemma RoundTenthsOfTenths(k: int)
    ensures RoundTenths(k as real / 10.0) == k
  {
    var x := k as real / 10.0;
    assert 10.0 * x == k as real;
  }

  /** `Math.max(lo, Math.min(hi, v))`. */
  function Clamp(lo: real, hi: real, v: real): (r: real)
    ensures lo <= hi ==> lo <= r <= hi
    ensures lo <= v <= hi ==> r == v
    ensures lo <= hi && v < lo ==> r == lo
    ensures lo <= hi && hi < v ==> r == hi
  {
    if v < hi then (if lo < v then v else lo) else (if lo < hi then hi else lo)
  }

  /** Clamping never moves a value that starts inside the range further from
      where it was than the step that took it outside. */
  lemma ClampStep(lo: real, hi: real, prev: real, delta: real, bound: real)
    requires lo <= prev <= hi
    requires -bound <= delta <= bound
    ensures -bound <= Clamp(lo, hi, prev + delta) - prev <= bound
  {
  }

  function Digit(d: int): (c: char)
    requires 0 <= d < 10
    ensures '0' <= c <= '9'
    ensures c as int - '0' as int == d
  {
    "0123456789"[d]
  }

  ghost predicate IsDigits(s: string)
  {
    forall i :: 0 <= i < |s| ==> '0' <= s[i] <= '9'
  }

  /** The decimal digits of a natural number, most significant first. */
  function NatToString(n: nat): (s: string)
    ensures |s| > 0 && IsDigits(s)
    decreases n
  {
    if n < 10 then [Digit(n)] else NatToString(n / 10) + [Digit(n % 10)]
  }

  /** The value of a string of decimal digits. */
  function DigitsValue(s: string): (n: nat)
    requires IsDigits(s)
  {
    if s == [] then 0
    else DigitsValue(s[..|s| - 1]) * 10 + (s[|s| - 1] as int - '0' as int)
  }

  lemma {:induction false} NatToStringRoundTrip(n: nat)
    ensures DigitsValue(NatToString(n)) == n
    decreases n
  {
    if n < 10 {
      assert "0123456789"[n] as int - '0' as int == n;
    } else {
      var s := NatToString(n);
      assert s[..|s| - 1] == NatToString(n / 10);
      NatToStringRoundTrip(n / 10);
      assert "0123456789"[n % 10] as int - '0' as int == n % 10;
    }
  }

  /** `String(n)` for an integer: the decimal digits of `n`, after a minus
      sign when `n` is negative. */
  function IntToString(n: int): (s: string)
    ensures |s| > 0
    ensures n >= 0 ==> IsDigits(s) && DigitsValue(s) == n
    ensures n < 0 ==> |s| > 1 && s[0] == '-' && IsDigits(s[1..]) && DigitsValue(s[1..]) == -n
  {
    if n < 0 then
      NatToStringRoundTrip(-n);
      var digits := NatToString(-n);
      assert ("-" + digits)[1..] == digits;
      "-" + digits
    else
      NatToStringRoundTrip(n);
      NatToString(n)
  }

  /** `String(k / 10)` for a value with at most one decimal: the integer when
      the tenths digit is zero, otherwise the integer part, a point and the
      tenths digit (with the sign in front, as in "-0.5"). */
  function TenthsToString(k: int): (s: string)
  {
    if k % 10 == 0 then IntToString(k / 10)
    else if k < 0 then "-" + NatToString(-k / 10) + "." + [Digit(-k % 10)]
    else NatToString(k / 10) + "." + [Digit(k % 10)]
  }

  /** The characters a number is written with: digits, a sign and a point. */
  ghost predicate IsNumeral(s: string)
  {
    forall i :: 0 <= i < |s| ==> s[i] == '-' || s[i] == '.' || '0' <= s[i] <= '9'
  }

  lemma IntToStringNumeral(n: int)
    ensures IsNumeral(IntToString(n))
  {
    var s := IntToString(n);
    if n < 0 {
      forall i | 0 <= i < |s| ensures s[i] == '-' || s[i] == '.' || '0' <= s[i] <= '9' {
        if i > 0 { assert s[i] == s[1..][i - 1]; }
      }
    }
  }

  /** Read back, the text of `TenthsToString(k)` denotes `k / 10`: its
      integer part is `|k| / 10` and, unless that is all, a point and the
      single digit `|k| % 10` follow; a negative value has a minus sign in
      front. */
  lemma TenthsToStringValue(k: int)
    ensures var s := TenthsToString(k);
      var a := if k < 0 then -k else k;
      var sign := if k < 0 then 1 else 0;
      && |s| > sign
      && (k < 0 ==> s[0] == '-')
      && (a % 10 == 0 ==> IsDigits(s[sign..]) && DigitsValue(s[sign..]) == a / 10)
      && (a % 10 != 0 ==>
            && |s| >= sign + 3 && s[|s| - 2] == '.'
            && IsDigits(s[sign..|s| - 2]) && DigitsValue(s[sign..|s| - 2]) == a / 10
            && s[|s| - 1] as int - '0' as int == a % 10)
  {
    var s := TenthsToString(k);
    if k >= 0 {
      if k % 10 != 0 {
        var ip := NatToString(k / 10);
        NatToStringRoundTrip(k / 10);
        assert s == ip + "." + [Digit(k % 10)];
        assert s[0..|s| - 2] == ip;
      } else {
        assert s[0..] == s;
      }
    } else {
      var a := -k;
      if a % 10 != 0 {
        var ip := NatToString(a / 10);
        NatToStringRoundTrip(a / 10);
        assert k % 10 != 0;
        assert s == "-" + ip + "." + [Digit(a % 10)];
        assert s[1..|s| - 2] == ip;
      } else {
        assert k % 10 == 0 && k / 10 < 0 && -(k / 10) == a / 10;
      }
    }
  }

  lemma TenthsToStringNumeral(k: int)
    ensures IsNumeral(TenthsToString(k)) && |TenthsToString(k)| > 0
  {
    if k % 10 == 0 {
      IntToStringNumeral(k / 10);
    }
  }
}
