/** 64-bit conversions and decimal text, as `strconv.Itoa` and `strconv.Atoi` have them. */
module Decimal {
  import opened Text

  const TWO_63: int := 0x8000_0000_0000_0000
  const TWO_64: int := 0x1_0000_0000_0000_0000

  predicate IsInt64(x: int) { -TWO_63 <= x < TWO_63 }
  predicate IsUint64(x: int) { 0 <= x < TWO_64 }

  /** The Go conversions int(x) and uint(x), which keep the 64 bits. */
  function ToInt64(x: int): int { if x >= TWO_63 then x - TWO_64 else x }
  function ToUint64(x: int): int { if x < 0 then x + TWO_64 else x }

  /** What 64-bit signed arithmetic makes of an exact result. */
  function Wrap64(x: int): int { (x + TWO_63) % TWO_64 - TWO_63 }

  /** Each of the three keeps the 64 bits: the result is in its range and differs by a multiple of 2^64. */
  lemma SameBits(x: int) returns (k: int)
    ensures IsInt64(Wrap64(x)) && x == Wrap64(x) + k * TWO_64
    ensures IsUint64(x) ==> IsInt64(ToInt64(x)) && (x == ToInt64(x) || x == ToInt64(x) + TWO_64)
    ensures IsInt64(x) ==> IsUint64(ToUint64(x)) && (x == ToUint64(x) || x == ToUint64(x) - TWO_64)
  {
    k := (x + TWO_63) / TWO_64;
  }

  function Digit(d: nat): char
    requires d < 10
  {
    '0' + d as char
  }

  function Digits(n: nat): string {
    if n < 10 then [Digit(n)] else Digits(n / 10) + [Digit(n % 10)]
  }

  function Itoa(x: int): string {
    if x < 0 then "-" + Digits(-x) else Digits(x)
  }

  /** The digits of `s` read after `n`: None for a syntax error; the largest value once the result
      no longer fits. */
  function Scan(n: nat, s: string): Option<nat>
    decreases |s|
  {
    if s == "" then Some(n)
    else if !('0' <= s[0] <= '9') then None
    else
      var m := n * 10 + (s[0] - '0') as int;
      if m >= TWO_64 then Some(TWO_64 - 1) else Scan(m, s[1..])
  }

  /** The value Atoi returns, its error ignored: 0 for a syntax error, and the nearest value for
      a number out of range. */
  function Atoi(s: string): (r: int)
    ensures IsInt64(r)
  {
    var negative := s != "" && s[0] == '-';
    var digits := if s != "" && (s[0] == '-' || s[0] == '+') then s[1..] else s;
    if digits == "" then 0
    else match Scan(0, digits)
      case None => 0
      case Some(v) =>
        var value: int := v;
        if negative then (if value > TWO_63 then -TWO_63 else -value) else if value >= TWO_63 then TWO_63 - 1 else value
  }

  lemma {:induction false} ScanConcat(n: nat, a: string, d: nat)
    requires d < 10 && Scan(n, a).Some? && Scan(n, a).value * 10 + d < TWO_64
    ensures Scan(n, a + [Digit(d)]) == Some(Scan(n, a).value * 10 + d)
    decreases |a|
  {
    if a == "" {
      assert a + [Digit(d)] == [Digit(d)];
    } else {
      assert (a + [Digit(d)])[1..] == a[1..] + [Digit(d)];
      var m := n * 10 + (a[0] - '0') as int;
      if m < TWO_64 {
        ScanConcat(m, a[1..], d);
      }
    }
  }

  lemma {:induction false} ScanDigits(n: nat)
    requires n < TWO_64
    ensures Digits(n) != "" && '0' <= Digits(n)[0] <= '9' && Scan(0, Digits(n)) == Some(n)
  {
    if n >= 10 {
      ScanDigits(n / 10);
      ScanConcat(0, Digits(n / 10), n % 10);
    }
  }

  /** Parsing undoes printing, for every 64-bit integer. */
  lemma AtoiItoa(x: int)
    requires IsInt64(x)
    ensures Atoi(Itoa(x)) == x
  {
    if x < 0 {
      ScanDigits(-x);
      assert ("-" + Digits(-x))[1..] == Digits(-x);
    } else {
      ScanDigits(x);
    }
  }

  predicate AllDigits(s: string) {
    forall i :: 0 <= i < |s| ==> '0' <= s[i] <= '9'
  }

  /** The number that digits stand for, from the last one. */
  function Number(s: string): nat
    requires AllDigits(s)
  {
    if s == "" then 0 else Number(s[..|s| - 1]) * 10 + (s[|s| - 1] - '0') as int
  }

  lemma NumberSnoc(a: string, c: char)
    requires AllDigits(a) && '0' <= c <= '9'
    ensures Number(a + [c]) == Number(a) * 10 + (c - '0') as int
  {
    assert (a + [c])[..|a|] == a;
  }

  lemma {:induction false} NumberDigits(n: nat)
    ensures AllDigits(Digits(n)) && Number(Digits(n)) == n && (n > 0 ==> Digits(n)[0] != '0')
  {
    if n >= 10 {
      NumberDigits(n / 10);
      NumberSnoc(Digits(n / 10), Digit(n % 10));
    }
  }

  lemma {:induction false} NumberGrows(a: string, b: string)
    requires AllDigits(a) && AllDigits(b)
    ensures Number(a + b) >= Number(a)
    decreases |b|
  {
    if b == "" {
      assert a + b == a;
    } else {
      var front := b[..|b| - 1];
      NumberGrows(a, front);
      assert a + b == a + front + [b[|b| - 1]];
      NumberSnoc(a + front, b[|b| - 1]);
    }
  }

  lemma {:induction false} ScanMeans(a: string, b: string)
    requires AllDigits(a) && Number(a) < TWO_64
    ensures AllDigits(b) ==> Scan(Number(a), b) == Some(Capped(Number(a + b)))
    ensures !AllDigits(b) ==> Scan(Number(a), b) == if Overflows(a, b) then Some(TWO_64 - 1) else None
    decreases |b|
  {
    if b == "" {
      assert a + b == a;
    } else if '0' <= b[0] <= '9' {
      NumberSnoc(a, b[0]);
      assert AllDigits(b) <==> AllDigits(b[1..]);
      if Number(a + [b[0]]) < TWO_64 {
        ScanMeans(a + [b[0]], b[1..]);
        assert a + [b[0]] + b[1..] == a + b;
        OverflowsLater(a, b);
      } else {
        OverflowsNow(a, b);
      }
    } else {
      NoOverflow(a, b);
    }
  }

  lemma FirstDigit(a: string, b: string, k: nat)
    requires b != "" && '0' <= b[0] <= '9' && 1 <= k <= |b|
    ensures a + b[..k] == a + [b[0]] + b[1..][..k - 1]
    ensures AllDigits(b[..k]) <==> AllDigits(b[1..][..k - 1])
  {
    assert b[..k] == [b[0]] + b[1..][..k - 1];
  }

  lemma OverflowsFurther(a: string, b: string, k: nat)
    requires AllDigits(a) && b != "" && '0' <= b[0] <= '9' && 1 <= k <= |b|
    ensures OverflowsAt(a, b, k) <==> OverflowsAt(a + [b[0]], b[1..], k - 1)
  {
    FirstDigit(a, b, k);
  }

  lemma OverflowsLater(a: string, b: string)
    requires AllDigits(a) && Number(a) < TWO_64 && b != "" && '0' <= b[0] <= '9'
    ensures Overflows(a, b) <==> Overflows(a + [b[0]], b[1..])
  {
    if k :| OverflowsAt(a, b, k) {
      assert k > 0 by {
        assert a + b[..0] == a;
      }
      OverflowsFurther(a, b, k);
    }
    if k :| OverflowsAt(a + [b[0]], b[1..], k) {
      OverflowsFurther(a, b, k + 1);
    }
  }

  lemma OverflowsNow(a: string, b: string)
    requires AllDigits(a) && b != "" && '0' <= b[0] <= '9' && Number(a + [b[0]]) >= TWO_64
    ensures Overflows(a, b) && (AllDigits(b) ==> Number(a + b) >= TWO_64)
  {
    assert b[..1] == [b[0]];
    assert OverflowsAt(a, b, 1);
    if AllDigits(b) {
      FirstDigit(a, b, |b|);
      assert b[..|b|] == b && b[1..][..|b| - 1] == b[1..];
      NumberGrows(a + [b[0]], b[1..]);
    }
  }

  lemma NoOverflow(a: string, b: string)
    requires AllDigits(a) && Number(a) < TWO_64 && b != "" && !('0' <= b[0] <= '9')
    ensures !Overflows(a, b) && !AllDigits(b)
  {
    forall k ensures !OverflowsAt(a, b, k) {
      assert a + b[..0] == a;
      if 0 < k <= |b| {
        assert b[..k][0] == b[0];
      }
    }
  }

  /** What follows an optional sign. */
  function Unsigned(s: string): string {
    if s != "" && (s[0] == '-' || s[0] == '+') then s[1..] else s
  }

  function Clamp(x: int): int {
    if x >= TWO_63 then TWO_63 - 1 else if x < -TWO_63 then -TWO_63 else x
  }

  /** Atoi of any text: the number, or the nearest there is to one out of range, even if something
      else follows once the digits have become too many; and else 0. */
  lemma AtoiMeans(s: string)
    ensures var sign, digits := if s != "" && s[0] == '-' then -1 else 1, Unsigned(s);
      Atoi(s) == if digits == "" then 0
                 else if AllDigits(digits) then Clamp(sign * Number(digits))
                 else if Overflows("", digits) then (if sign < 0 then -TWO_63 else TWO_63 - 1)
                 else 0
  {
    ScanMeans("", Unsigned(s));
    assert "" + Unsigned(s) == Unsigned(s);
  }

  /** Printing gives the digits of the number, the first of them not zero but for 0 itself. */
  lemma ItoaMeans(x: int)
    ensures var digits := if x < 0 then Itoa(x)[1..] else Itoa(x);
      && digits != "" && AllDigits(digits) && Number(digits) == (if x < 0 then -x else x)
      && (x < 0 ==> Itoa(x)[0] == '-') && (x != 0 ==> digits[0] != '0')
  {
    NumberDigits(if x < 0 then -x else x);
    if x < 0 {
      assert ("-" + Digits(-x))[1..] == Digits(-x);
    }
  }

  function Capped(n: nat): nat {
    if n < TWO_64 then n else TWO_64 - 1
  }

  /** The digits at the start of `b` alone are too large after those of `a`. */
  ghost predicate Overflows(a: string, b: string)
    requires AllDigits(a)
  {
    exists k :: OverflowsAt(a, b, k)
  }

  predicate OverflowsAt(a: string, b: string, k: int)
    requires AllDigits(a)
  {
    0 <= k <= |b| && AllDigits(b[..k]) && Number(a + b[..k]) >= TWO_64
  }

  /** A user id as text in a token, and back. */
  function IdText(id: int): string { Itoa(ToInt64(id)) }
  function IdOf(text: string): int { ToUint64(Atoi(text)) }

  /** No id is changed by the trip, not even one above 2^63 that prints as a negative number. */
  lemma IdRoundTrip(id: int)
    requires IsUint64(id)
    ensures IdOf(IdText(id)) == id
  {
    AtoiItoa(ToInt64(id));
  }
}
