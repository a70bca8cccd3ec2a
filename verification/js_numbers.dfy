/** The JavaScript number/string conversions the seed-phrase tool relies on:
    `parseInt(string, radix)`, `Number.prototype.toString(radix)` for integers,
    `padStart` and `padEnd`, following ECMAScript 2023, sections 19.2.5
    (parseInt) and 21.1.3.6 (Number.prototype.toString). */
module JsNumbers {

  import opened Wrappers

  /** The value of one digit character in radix 36 (`0-9`, then `a-z` or `A-Z`). */
  function DigitValue(c: char): (d: Option<nat>)
    ensures d.Some? ==> d.value < 36
  {
    if '0' <= c <= '9' then Some(c as int - '0' as int)
    else if 'a' <= c <= 'z' then Some(c as int - 'a' as int + 10)
    else if 'A' <= c <= 'Z' then Some(c as int - 'A' as int + 10)
    else None
  }

  predicate IsDigit(c: char, radix: nat) {
    DigitValue(c).Some? && DigitValue(c).value < radix
  }

  predicate AllDigits(s: string, radix: nat) {
    forall i :: 0 <= i < |s| ==> IsDigit(s[i], radix)
  }

  /** The lower-case character `toString` prints for a digit. */
  function DigitChar(d: nat): (c: char)
    requires d < 36
    ensures DigitValue(c) == Some(d)
  {
    if d < 10 then ('0' as int + d) as char else ('a' as int + d - 10) as char
  }

  /** The value of a string of digits, most significant first. */
  function DigitsValue(s: string, radix: nat): nat
    requires AllDigits(s, radix)
    decreases |s|
  {
    if |s| == 0 then 0
    else DigitsValue(s[..|s| - 1], radix) * radix + DigitValue(s[|s| - 1]).value
  }

  function Pow(b: nat, k: nat): (p: nat)
    ensures b >= 1 ==> p >= 1
  {
    if k == 0 then 1 else b * Pow(b, k - 1)
  }

  /** Joining digit strings: the value of the front scales by the length of the back. */
  lemma {:induction false} DigitsValueAppend(a: string, b: string, radix: nat)
    requires AllDigits(a, radix) && AllDigits(b, radix)
    ensures AllDigits(a + b, radix)
    ensures DigitsValue(a + b, radix) == DigitsValue(a, radix) * Pow(radix, |b|) + DigitsValue(b, radix)
    decreases |b|
  {
    assert AllDigits(a + b, radix) by {
      forall i | 0 <= i < |a + b| ensures IsDigit((a + b)[i], radix) {
        if i >= |a| { assert (a + b)[i] == b[i - |a|]; }
      }
    }
    if |b| > 0 {
      var b' := b[..|b| - 1];
      assert (a + b)[..|a + b| - 1] == a + b';
      assert (a + b)[|a + b| - 1] == b[|b| - 1];
      DigitsValueAppend(a, b', radix);
      var x, p, y, d := DigitsValue(a, radix), Pow(radix, |b'|), DigitsValue(b', radix), DigitValue(b[|b| - 1]).value;
      assert DigitsValue(a + b, radix) == (x * p + y) * radix + d;
      assert DigitsValue(b, radix) == y * radix + d;
      assert Pow(radix, |b|) == radix * p;
      Regroup(x, p, y, radix, d);
    } else {
      assert a + b == a;
    }
  }

  lemma Regroup(x: int, p: int, y: int, r: int, d: int)
    ensures (x * p + y) * r + d == x * (r * p) + (y * r + d)
  {
  }

  /** `c` repeated `n` times. */
  function Repeat(c: char, n: nat): (s: string)
    ensures |s| == n && forall i :: 0 <= i < n ==> s[i] == c
  {
    if n == 0 then "" else Repeat(c, n - 1) + [c]
  }

  /** A run of zeros is worth zero. */
  lemma {:induction false} ZerosValue(n: nat, radix: nat)
    requires 2 <= radix
    ensures AllDigits(Repeat('0', n), radix) && DigitsValue(Repeat('0', n), radix) == 0
  {
    if n > 0 {
      ZerosValue(n - 1, radix);
      assert Repeat('0', n)[..n - 1] == Repeat('0', n - 1);
    }
  }

  /** Leading zeros do not change the value. */
  lemma LeadingZeros(n: nat, s: string, radix: nat)
    requires 2 <= radix && AllDigits(s, radix)
    ensures AllDigits(Repeat('0', n) + s, radix)
    ensures DigitsValue(Repeat('0', n) + s, radix) == DigitsValue(s, radix)
  {
    ZerosValue(n, radix);
    DigitsValueAppend(Repeat('0', n), s, radix);
  }

  /** `Number.prototype.toString(radix)` of a non-negative integer: the shortest
      digit string, `"0"` for zero. */
  function NatToString(n: nat, radix: nat): (s: string)
    requires 2 <= radix <= 36
    ensures Spells(s, radix, n)
    decreases n
  {
    if n < radix then
      OneDigitString(n, radix);
      [DigitChar(n)]
    else
      DivSmaller(n, radix);
      var front := NatToString(n / radix, radix);
      AppendLastDigit(front, n, radix);
      front + [DigitChar(n % radix)]
  }

  /** `s` is a digit string for `n` without a leading zero (a lone `"0"` aside). */
  predicate Spells(s: string, radix: nat, n: nat) {
    1 <= |s| && AllDigits(s, radix) && DigitsValue(s, radix) == n && (s[0] == '0' ==> n == 0)
  }

  lemma OneDigitString(n: nat, radix: nat)
    requires 2 <= radix <= 36 && n < radix
    ensures Spells([DigitChar(n)], radix, n)
  {
    var s := [DigitChar(n)];
    assert s[..0] == "";
  }

  lemma DivSmaller(n: nat, radix: nat)
    requires 2 <= radix <= n
    ensures 1 <= n / radix < n
  {
  }

  /** The digits of `n / radix` followed by the digit of `n % radix` spell `n`. */
  lemma AppendLastDigit(front: string, n: nat, radix: nat)
    requires 2 <= radix <= 36 && radix <= n
    requires Spells(front, radix, n / radix)
    ensures Spells(front + [DigitChar(n % radix)], radix, n)
  {
    AppendDigit(front, n % radix, radix);
    DivMod(n, radix);
    assert n / radix >= 1;
  }

  lemma AppendDigit(front: string, d: nat, radix: nat)
    requires d < radix <= 36 && AllDigits(front, radix) && 1 <= |front|
    ensures AllDigits(front + [DigitChar(d)], radix)
    ensures DigitsValue(front + [DigitChar(d)], radix) == DigitsValue(front, radix) * radix + d
    ensures (front + [DigitChar(d)])[0] == front[0]
  {
    var s := front + [DigitChar(d)];
    assert s[..|s| - 1] == front;
    assert forall i :: 0 <= i < |front| ==> s[i] == front[i];
  }

  lemma DivMod(n: nat, d: nat)
    requires 1 <= d
    ensures (n / d) * d + n % d == n
  {
  }

  /** `toString(radix)` of any integer: a minus sign before the magnitude. */
  function IntToString(i: int, radix: nat): string
    requires 2 <= radix <= 36
  {
    if i < 0 then "-" + NatToString(-i, radix) else NatToString(i, radix)
  }

  /** A number prints in at most `k` digits exactly when it is below `radix^k`. */
  lemma {:induction false} NatToStringLength(n: nat, radix: nat, k: nat)
    requires 2 <= radix <= 36 && 1 <= k
    ensures |NatToString(n, radix)| <= k <==> n < Pow(radix, k)
    decreases n
  {
    if n < radix {
      OneDigit(n, radix, k);
    } else if k == 1 {
      LongerThanOneDigit(n, radix, k);
    } else {
      DivSmaller(n, radix);
      NatToStringLength(n / radix, radix, k - 1);
      OneDigitMore(n, radix, k);
    }
  }

  lemma OneDigit(n: nat, radix: nat, k: nat)
    requires 2 <= radix <= 36 && n < radix && 1 <= k
    ensures |NatToString(n, radix)| <= k <==> n < Pow(radix, k)
  {
    PowAtLeastBase(radix, k);
  }

  lemma LongerThanOneDigit(n: nat, radix: nat, k: nat)
    requires 2 <= radix <= 36 && radix <= n && k == 1
    ensures |NatToString(n, radix)| <= k <==> n < Pow(radix, k)
  {
    assert |NatToString(n / radix, radix)| >= 1;
  }

  lemma OneDigitMore(n: nat, radix: nat, k: nat)
    requires 2 <= radix <= 36 && radix <= n && 2 <= k
    requires |NatToString(n / radix, radix)| <= k - 1 <==> n / radix < Pow(radix, k - 1)
    ensures |NatToString(n, radix)| <= k <==> n < Pow(radix, k)
  {
    assert |NatToString(n, radix)| == |NatToString(n / radix, radix)| + 1;
    DivBound(n, radix, Pow(radix, k - 1));
  }

  lemma PowAtLeastBase(b: nat, k: nat)
    requires 2 <= b && 1 <= k
    ensures Pow(b, k) >= b
  {
    if k > 1 {
      PowAtLeastBase(b, k - 1);
    }
  }

  lemma DivBound(n: nat, d: nat, m: nat)
    requires 1 <= d
    ensures n < d * m <==> n / d < m
  {
    var q, r := n / d, n % d;
    assert n == d * q + r && 0 <= r < d;
    if q < m {
      MulMono(d, q + 1, m);
      assert d * (q + 1) == d * q + d;
    } else {
      MulMono(d, m, q);
    }
  }

  lemma MulMono(d: nat, x: nat, y: nat)
    requires x <= y
    ensures d * x <= d * y
  {
    assert d * y == d * x + d * (y - x);
  }

  /** `s.padStart(width, c)`. */
  function PadStart(s: string, width: nat, c: char): (r: string)
    ensures |s| >= width ==> r == s
    ensures |s| < width ==> |r| == width && r[width - |s|..] == s && forall i :: 0 <= i < width - |s| ==> r[i] == c
  {
    if |s| >= width then s else Repeat(c, width - |s|) + s
  }

  /** `s.padEnd(width, c)`. */
  function PadEnd(s: string, width: nat, c: char): (r: string)
    ensures |s| >= width ==> r == s
    ensures |s| < width ==> |r| == width && r[..|s|] == s && forall i :: |s| <= i < width ==> r[i] == c
  {
    if |s| >= width then s else s + Repeat(c, width - |s|)
  }

  /** The white space `parseInt` skips before the number (the Unicode space
      separators beyond no-break space are not part of this model). */
  predicate IsJsSpace(c: char) {
    c == ' ' || c == '\t' || c == '\n' || c == '\r' || c as int == 0x0B || c as int == 0x0C
    || c as int == 0xA0 || c as int == 0xFEFF || c as int == 0x2028 || c as int == 0x2029
  }

  function TrimStart(s: string): (r: string)
    ensures |r| <= |s| && r == s[|s| - |r|..]
    ensures |r| > 0 ==> !IsJsSpace(r[0])
    ensures |s| > 0 && !IsJsSpace(s[0]) ==> r == s
  {
    if |s| > 0 && IsJsSpace(s[0]) then TrimStart(s[1..]) else s
  }

  /** How many leading characters are digits of the radix. */
  function DigitPrefix(s: string, radix: nat): (n: nat)
    ensures n <= |s| && AllDigits(s[..n], radix)
    ensures n < |s| ==> !IsDigit(s[n], radix)
  {
    if |s| > 0 && IsDigit(s[0], radix) then
      var n := 1 + DigitPrefix(s[1..], radix);
      assert forall i :: 1 <= i < n ==> s[..n][i] == s[1..][..n - 1][i - 1];
      n
    else 0
  }

  /** `parseInt(s, radix)`, with `radix` 0 standing for an absent radix and
      `None` for `NaN`: skip white space, take a sign, then read the magnitude. */
  function ParseInt(s: string, radix: nat): (r: Option<int>)
  {
    var t := TrimStart(s);
    var negative := |t| > 0 && t[0] == '-';
    var u := if |t| > 0 && (t[0] == '-' || t[0] == '+') then t[1..] else t;
    if radix != 0 && (radix < 2 || radix > 36) then None
    else
      match ParseMagnitude(u, radix)
      case None => None
      case Some(v) =>
        var signed: int := if negative then -(v as int) else v;
        Some(signed)
  }

  /** The unsigned part of `parseInt`: drop a `0x`/`0X` prefix when the radix is
      16 or absent (which then means 16), otherwise an absent radix means ten;
      read the longest run of digits; no digits gives `NaN`. */
  function ParseMagnitude(u: string, radix: nat): (r: Option<nat>)
    requires radix == 0 || 2 <= radix <= 36
  {
    var hex := (radix == 0 || radix == 16) && |u| >= 2 && u[0] == '0' && (u[1] == 'x' || u[1] == 'X');
    var r := if hex then 16 else if radix == 0 then 10 else radix;
    var body := if hex then u[2..] else u;
    var n := DigitPrefix(body, r);
    if n == 0 then None else Some(DigitsValue(body[..n], r))
  }

  /** A string made only of digits of an explicit radix parses to its value
      (for radix 16 the second character is a digit, so never the `x` of a prefix). */
  lemma ParseDigits(s: string, radix: nat)
    requires 2 <= radix <= 36 && 1 <= |s| && AllDigits(s, radix)
    ensures ParseInt(s, radix) == Some(DigitsValue(s, radix))
  {
    assert !(radix == 16 && |s| >= 2 && s[0] == '0' && (s[1] == 'x' || s[1] == 'X')) by {
      if radix == 16 && |s| >= 2 { assert IsDigit(s[1], 16); }
    }
    ParseUnsigned(s, radix, radix);
  }

  /** Digits with no sign, no leading space and no `0x` prefix parse to their
      value in the radix that applies (`radix`, or ten when it is absent). */
  lemma ParseUnsigned(s: string, radix: nat, applies: nat)
    requires applies == (if radix == 0 then 10 else radix) && 2 <= applies <= 36
    requires 1 <= |s| && AllDigits(s, applies)
    requires !((radix == 0 || radix == 16) && |s| >= 2 && s[0] == '0' && (s[1] == 'x' || s[1] == 'X'))
    ensures ParseInt(s, radix) == Some(DigitsValue(s, applies))
  {
    assert IsDigit(s[0], applies);
    assert !IsJsSpace(s[0]) && !(s[0] == '-' || s[0] == '+');
    assert TrimStart(s) == s;
    UnsignedMagnitude(s, radix, applies);
  }

  lemma UnsignedMagnitude(s: string, radix: nat, applies: nat)
    requires applies == (if radix == 0 then 10 else radix) && 2 <= applies <= 36
    requires 1 <= |s| && AllDigits(s, applies)
    requires !((radix == 0 || radix == 16) && |s| >= 2 && s[0] == '0' && (s[1] == 'x' || s[1] == 'X'))
    ensures ParseMagnitude(s, radix) == Some(DigitsValue(s, applies))
  {
    WholeDigitPrefix(s, applies);
    assert s[..|s|] == s;
  }

  lemma {:induction false} WholeDigitPrefix(s: string, radix: nat)
    requires AllDigits(s, radix)
    ensures DigitPrefix(s, radix) == |s|
    decreases |s|
  {
    if |s| > 0 {
      assert IsDigit(s[0], radix);
      assert AllDigits(s[1..], radix) by {
        forall i | 0 <= i < |s| - 1 ensures IsDigit(s[1..][i], radix) { assert s[1..][i] == s[i + 1]; }
      }
      WholeDigitPrefix(s[1..], radix);
    }
  }

  /** A string of `k` digits is worth less than `radix^k`. */
  lemma {:induction false} DigitsValueBound(s: string, radix: nat)
    requires 1 <= radix && AllDigits(s, radix)
    ensures DigitsValue(s, radix) < Pow(radix, |s|)
    decreases |s|
  {
    if |s| > 0 {
      var front := s[..|s| - 1];
      DigitsValueBound(front, radix);
      var x, d := DigitsValue(front, radix), DigitValue(s[|s| - 1]).value;
      MulMono(radix, x + 1, Pow(radix, |front|));
      assert radix * (x + 1) == x * radix + radix;
    }
  }

  /** Two digit strings of the same length and value are the same string (for
      radixes up to ten, whose digits have no upper- and lower-case forms). */
  lemma {:induction false} DigitsUnique(a: string, b: string, radix: nat)
    requires 2 <= radix <= 10 && |a| == |b| && AllDigits(a, radix) && AllDigits(b, radix)
    requires DigitsValue(a, radix) == DigitsValue(b, radix)
    ensures a == b
    decreases |a|
  {
    if |a| > 0 {
      var a', b' := a[..|a| - 1], b[..|b| - 1];
      var da, db := DigitValue(a[|a| - 1]).value, DigitValue(b[|b| - 1]).value;
      LastDigit(DigitsValue(a', radix), da, radix);
      LastDigit(DigitsValue(b', radix), db, radix);
      DigitsUnique(a', b', radix);
      assert IsDigit(a[|a| - 1], radix) && IsDigit(b[|b| - 1], radix);
      assert a == a' + [a[|a| - 1]] && b == b' + [b[|b| - 1]];
    }
  }

  lemma LastDigit(x: nat, d: nat, radix: nat)
    requires d < radix
    ensures (x * radix + d) % radix == d && (x * radix + d) / radix == x
  {
    var n := x * radix + d;
    var q, m := n / radix, n % radix;
    DivMod(n, radix);
    assert q * radix + m == x * radix + d;
    if q < x {
      MulMono(radix, q + 1, x);
    } else if q > x {
      MulMono(radix, x + 1, q);
    }
  }

  /** Without a radix, a string of decimal digits parses to its decimal value
      (a decimal digit is never `x`, so no hexadecimal prefix is seen). */
  lemma ParseDecimalDigits(s: string)
    requires 1 <= |s| && AllDigits(s, 10)
    ensures ParseInt(s, 0) == Some(DigitsValue(s, 10))
  {
    assert !(|s| >= 2 && s[0] == '0' && (s[1] == 'x' || s[1] == 'X')) by {
      if |s| >= 2 { assert IsDigit(s[1], 10); }
    }
    ParseUnsigned(s, 0, 10);
  }

  /** `parseInt(n.toString())` gives `n` back. */
  lemma ParsePrintedDecimal(n: nat)
    ensures ParseInt(NatToString(n, 10), 0) == Some(n)
  {
    ParseDecimalDigits(NatToString(n, 10));
  }
}
