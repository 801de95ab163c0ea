/** Sizes in ASCII decimal: how lines declare them and how frames print them. */
module Decimal {
  import opened ByteStrings

  const U64: nat := 0x1_0000_0000_0000_0000

  predicate IsDigit(b: byte) { 48 <= b <= 57 }

  predicate AllDigits(d: Bytes) { forall i :: 0 <= i < |d| ==> IsDigit(d[i]) }

  function Pow10(n: nat): nat {
    if n == 0 then 1 else 10 * Pow10(n - 1)
  }

  /** The number a digit string denotes. */
  function Value(d: Bytes): nat
    requires AllDigits(d)
  {
    if d == [] then 0 else 10 * Value(d[..|d| - 1]) + (d[|d| - 1] as int - 48)
  }

  /** A size argument: one to nine digits, anything else is -1. */
  function ParseSize(d: Bytes): int {
    if 1 <= |d| <= 9 && AllDigits(d) then Value(d) else -1
  }

  /** The decimal digits of `n`, without leading zeros. */
  function Digits(n: nat): (d: Bytes)
    ensures |d| >= 1 && AllDigits(d)
  {
    if n < 10 then [(48 + n) as byte] else Digits(n / 10) + [(48 + n % 10) as byte]
  }

  /** `ParseSize` as the server computes it, digit by digit. */
  method ReadSize(d: Bytes) returns (n: int)
    ensures n == ParseSize(d)
  {
    if |d| == 0 || |d| > 9 {
      return -1;
    }
    n := 0;
    for i := 0 to |d|
      invariant AllDigits(d[..i]) && n == Value(d[..i])
    {
      if !IsDigit(d[i]) {
        return -1;
      }
      assert d[..i + 1][..i] == d[..i];
      n := n * 10 + (d[i] as int - 48);
    }
    assert d[..|d|] == d;
  }

  lemma {:induction false} DigitsValue(n: nat)
    ensures Value(Digits(n)) == n
  {
    if n >= 10 {
      DigitsValue(n / 10);
      var d := Digits(n);
      assert d[..|d| - 1] == Digits(n / 10);
    } else {
      var d := Digits(n);
      assert d[..0] == [];
    }
  }

  /** A number below 10^k prints in at most k digits. */
  lemma {:induction false} DigitsLen(n: nat, k: nat)
    requires k >= 1 && n < Pow10(k)
    ensures |Digits(n)| <= k
  {
    assert k == 1 ==> Pow10(k) == 10 * Pow10(0);
    if n >= 10 {
      DigitsLen(n / 10, k - 1);
    }
  }

  /** The size a frame declares is the size a line reads back: every nine-digit size. */
  lemma SizeRoundTrip(n: nat)
    requires n < 1_000_000_000
    ensures ParseSize(Digits(n)) == n
  {
    assert Pow10(9) == 1_000_000_000 by {
      assert Pow10(3) == 1000;
      assert Pow10(6) == 1000 * Pow10(3);
      assert Pow10(9) == 1000 * Pow10(6);
    }
    DigitsLen(n, 9);
    DigitsValue(n);
  }

  /** Read from the front: a digit counts for the power of ten its place has. */
  lemma {:induction false} ValueFront(x: byte, d: Bytes)
    requires IsDigit(x) && AllDigits(d)
    ensures AllDigits([x] + d) && Value([x] + d) == (x as int - 48) * Pow10(|d|) + Value(d)
  {
    var all := [x] + d;
    if d == [] {
      assert all[..0] == [] && all == [x];
    } else {
      var n := |d| - 1;
      ValueFront(x, d[..n]);
      ValueSnoc([x] + d[..n], d[n]);
      ValueSnoc(d[..n], d[n]);
      assert all == ([x] + d[..n]) + [d[n]] && d == d[..n] + [d[n]];
      Tenfold(x as int - 48, Pow10(n));
    }
  }

  lemma ValueSnoc(d: Bytes, x: byte)
    requires AllDigits(d) && IsDigit(x)
    ensures AllDigits(d + [x]) && Value(d + [x]) == 10 * Value(d) + (x as int - 48)
  {
    assert (d + [x])[..|d|] == d;
  }

  lemma Tenfold(k: int, p: int)
    ensures 10 * (k * p) == k * (10 * p)
  {
  }

  function Zeros(z: nat): (d: Bytes)
    ensures |d| == z && forall i :: 0 <= i < z ==> d[i] == 48
  {
    if z == 0 then [] else [48] + Zeros(z - 1)
  }

  lemma {:induction false} ZerosCountNothing(z: nat, d: Bytes)
    requires AllDigits(d)
    ensures AllDigits(Zeros(z) + d) && Value(Zeros(z) + d) == Value(d)
  {
    if z == 0 {
      assert Zeros(0) + d == d;
    } else {
      ZerosCountNothing(z - 1, d);
      ValueFront(48, Zeros(z - 1) + d);
      assert Zeros(z) + d == [48] + (Zeros(z - 1) + d);
    }
  }

  /** Any digits are what their value prints as, after zeros. */
  lemma {:induction false} PrintsAs(d: Bytes) returns (z: nat)
    requires d != [] && AllDigits(d)
    ensures d == Zeros(z) + Digits(Value(d))
  {
    var n := |d| - 1;
    assert d == d[..n] + [d[n]];
    if n == 0 {
      z := 0;
      assert d[..0] == [] && Zeros(0) + Digits(Value(d)) == d;
    } else {
      z := PrintsAs(d[..n]);
      if Value(d[..n]) == 0 {
        z := z + 1;
        ZerosSnoc(z - 1);
        assert d == (Zeros(z - 1) + [48]) + [d[n]];
      } else {
        assert d == Zeros(z) + (Digits(Value(d[..n])) + [d[n]]);
      }
    }
  }

  lemma {:induction false} ZerosSnoc(z: nat)
    ensures Zeros(z) + [48] == Zeros(z + 1)
  {
  }

  /** A size is read as `n` exactly from the digits of `n`, after any zeros, nine in all at
      most; and what is no size is read as -1. */
  lemma SizeReadIff(d: Bytes, n: nat)
    ensures ParseSize(d) == n <==> |d| <= 9 && exists z :: d == Zeros(z) + Digits(n)
    ensures ParseSize(d) >= -1
  {
    if ParseSize(d) == n {
      var z := PrintsAs(d);
    }
    if |d| <= 9 && exists z :: d == Zeros(z) + Digits(n) {
      var z :| d == Zeros(z) + Digits(n);
      ZerosCountNothing(z, Digits(n));
      DigitsValue(n);
    }
  }

  /** The printer fills a 20-byte buffer from its end; it never runs off the front. */
  method PushU64(dst: Bytes, m: nat) returns (out: Bytes)
    requires m < U64
    ensures out == dst + Digits(m)
  {
    var buf := new byte[20](_ => 0);
    var i := 20;
    var n := m;
    assert Pow10(20) > U64 by {
      assert Pow10(5) == 100000;
      assert Pow10(10) == 100000 * Pow10(5);
      assert Pow10(15) == 100000 * Pow10(10);
      assert Pow10(20) == 100000 * Pow10(15);
    }
    while true
      invariant 0 < i <= 20 && 0 <= n < Pow10(i)
      invariant Digits(n) + buf[i..] == Digits(m)
      decreases i
    {
      i := i - 1;
      buf[i] := (48 + n % 10) as byte;
      assert buf[i..] == [buf[i]] + buf[i + 1..];
      n := n / 10;
      if n == 0 {
        break;
      }
    }
    out := dst + buf[i..];
  }
}
