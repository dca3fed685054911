/** String helpers with the meaning Python gives them: slicing, prefix tests,
    character stripping, and the `str(int)` / `int(str)` conversions. */
module Text {
  import opened Wrappers

  /** `s[:n]` in Python. */
  function Take(s: string, n: nat): (r: string)
    ensures |r| == if |s| < n then |s| else n
    ensures r == s[..|r|]
    ensures |s| <= n ==> r == s
  {
    if |s| <= n then s else s[..n]
  }

  predicate StartsWith(s: string, prefix: string) {
    |prefix| <= |s| && s[..|prefix|] == prefix
  }

  /** `s.lstrip(c)` for one character `c`. */
  function LStrip(s: string, c: char): (r: string)
    ensures |r| <= |s| && r == s[|s| - |r|..]
    ensures r == [] || r[0] != c
    ensures forall i :: 0 <= i < |s| - |r| ==> s[i] == c
  {
    if s != [] && s[0] == c then LStrip(s[1..], c) else s
  }

  /** `s.rstrip(c)` for one character `c`. */
  function RStrip(s: string, c: char): (r: string)
    ensures |r| <= |s| && r == s[..|r|]
    ensures r == [] || r[|r| - 1] != c
    ensures forall i :: |r| <= i < |s| ==> s[i] == c
  {
    if s != [] && s[|s| - 1] == c then RStrip(s[..|s| - 1], c) else s
  }

  predicate IsDigit(c: char) {
    '0' <= c <= '9'
  }

  predicate AllDigits(s: string) {
    forall i :: 0 <= i < |s| ==> IsDigit(s[i])
  }

  function DigitChar(d: nat): (c: char)
    requires d < 10
    ensures IsDigit(c) && c as int - '0' as int == d
  {
    "0123456789"[d]
  }

  /** Decimal digits of `n` without leading zeros, as `str(n)` for n >= 0. */
  function NatToString(n: nat): (s: string)
    ensures |s| >= 1 && AllDigits(s)
    ensures |s| > 1 ==> s[0] != '0'
  {
    if n < 10 then [DigitChar(n)] else NatToString(n / 10) + [DigitChar(n % 10)]
  }

  /** `str(n)` for any Python int. */
  function IntToString(n: int): string {
    if n < 0 then "-" + NatToString(-n) else NatToString(n)
  }

  /** The number a string of decimal digits denotes. */
  function DigitsValue(s: string): nat
    requires AllDigits(s)
  {
    if s == [] then 0 else DigitsValue(s[..|s| - 1]) * 10 + (s[|s| - 1] as int - '0' as int)
  }

  /** `int(s)` for an optional minus sign followed by decimal digits; `None` where Python raises ValueError. */
  function ParseInt(s: string): Option<int> {
    if |s| >= 2 && s[0] == '-' && AllDigits(s[1..]) then Some(-(DigitsValue(s[1..]) as int))
    else if |s| >= 1 && AllDigits(s) then Some(DigitsValue(s))
    else None
  }

  lemma {:induction false} NatToStringValue(n: nat)
    ensures DigitsValue(NatToString(n)) == n
  {
    if n >= 10 {
      NatToStringValue(n / 10);
      var s := NatToString(n);
      assert s[..|s| - 1] == NatToString(n / 10);
    }
  }

  /** `int(str(n)) == n`: an id written into a payload as text is read back unchanged. */
  lemma {:induction false} ParseIntOfIntToString(n: int)
    ensures ParseInt(IntToString(n)) == Some(n)
  {
    var s := IntToString(n);
    if n < 0 {
      var d := NatToString(-n);
      assert s == "-" + d;
      assert s[1..] == d;
      NatToStringValue(-n);
    } else {
      assert s == NatToString(n);
      assert IsDigit(s[0]);
      NatToStringValue(n);
    }
  }

  function Pow10(k: nat): nat {
    if k == 0 then 1 else 10 * Pow10(k - 1)
  }

  lemma {:induction false} NatToStringLength(n: nat, k: nat)
    requires n < Pow10(k)
    ensures |NatToString(n)| <= k || (n == 0 && k == 0)
  {
    if n >= 10 {
      NatToStringLength(n / 10, k - 1);
    }
  }

  /** The digits of `a` followed by those of `b` denote `a`'s number shifted by `|b|` places. */
  lemma {:induction false} DigitsValueAppend(a: string, b: string)
    requires AllDigits(a) && AllDigits(b)
    ensures AllDigits(a + b)
    ensures DigitsValue(a + b) == DigitsValue(a) * Pow10(|b|) + DigitsValue(b)
    decreases |b|
  {
    assert AllDigits(a + b) by {
      forall i | 0 <= i < |a + b| ensures IsDigit((a + b)[i]) {
        if i < |a| { assert (a + b)[i] == a[i]; } else { assert (a + b)[i] == b[i - |a|]; }
      }
    }
    if b == [] {
      assert a + b == a;
    } else {
      var n := |b| - 1;
      assert (a + b)[..|a + b| - 1] == a + b[..n];
      assert (a + b)[|a + b| - 1] == b[n];
      assert AllDigits(b[..n]) by {
        forall i | 0 <= i < n ensures IsDigit(b[..n][i]) { assert b[..n][i] == b[i]; }
      }
      DigitsValueAppend(a, b[..n]);
      var x, y, z, d := DigitsValue(a), Pow10(n), DigitsValue(b[..n]), b[n] as int - '0' as int;
      assert DigitsValue(b) == z * 10 + d by { assert b[..|b| - 1] == b[..n]; }
      calc {
        DigitsValue(a + b);
        DigitsValue(a + b[..n]) * 10 + d;
        (x * y + z) * 10 + d;
        { ShiftDigit(x, y, z, d); }
        x * (10 * y) + (z * 10 + d);
      }
    }
  }

  lemma ShiftDigit(x: int, y: int, z: int, d: int)
    ensures (x * y + z) * 10 + d == x * (10 * y) + (z * 10 + d)
  {
  }

  /** Leading zeros denote nothing. */
  lemma {:induction false} ZerosValue(k: nat)
    ensures AllDigits(seq(k, _ => '0')) && DigitsValue(seq(k, _ => '0')) == 0
  {
    if k > 0 {
      assert seq(k, _ => '0')[..k - 1] == seq(k - 1, _ => '0');
      ZerosValue(k - 1);
    }
  }

  /** `n` written with at least `width` digits, zero filled on the left (`'%0*d'`): the digits
      denote `n`, and for `n` below 10^width there are exactly `width` of them. */
  function ZeroPad(n: nat, width: nat): (s: string)
    ensures AllDigits(s) && DigitsValue(s) == n
    ensures |s| >= width
    ensures n < Pow10(width) && width > 0 ==> |s| == width
  {
    var digits := NatToString(n);
    var s := if |digits| >= width then digits else seq(width - |digits|, _ => '0') + digits;
    assert n < Pow10(width) && width > 0 ==> |s| == width by {
      if n < Pow10(width) && width > 0 { NatToStringLength(n, width); }
    }
    assert DigitsValue(s) == n by {
      NatToStringValue(n);
      if |digits| < width {
        ZerosValue(width - |digits|);
        DigitsValueAppend(seq(width - |digits|, _ => '0'), digits);
      }
    }
    s
  }
}
