/** Positional notation, big end first, and the bit operations math/big offers on it. */
module Numerals {

  function Pow(base: nat, k: nat): (p: nat)
    ensures base > 0 ==> p > 0
  {
    if k == 0 then 1 else base * Pow(base, k - 1)
  }

  lemma {:induction false} PowAdd(base: nat, i: nat, j: nat)
    ensures Pow(base, i + j) == Pow(base, i) * Pow(base, j)
  {
    if i > 0 {
      PowAdd(base, i - 1, j);
      assert Pow(base, i + j) == base * Pow(base, i - 1 + j);
      assert base * (Pow(base, i - 1) * Pow(base, j)) == (base * Pow(base, i - 1)) * Pow(base, j);
    }
  }

  lemma {:induction false} PowPow(base: nat, i: nat, k: nat)
    ensures Pow(Pow(base, i), k) == Pow(base, i * k)
    decreases k
  {
    if k == 0 {
      assert i * k == 0;
    } else {
      PowPow(base, i, k - 1);
      assert i * k == i + i * (k - 1);
      PowAdd(base, i, i * (k - 1));
    }
  }

  lemma SmallPowersOfTwo()
    ensures Pow(2, 8) == 256 && Pow(2, 11) == 2048
  {
    assert Pow(2, 2) == 4;
    assert Pow(2, 4) == 16;
    assert Pow(2, 6) == 64;
    assert Pow(2, 8) == 256;
    assert Pow(2, 10) == 1024;
  }

  predicate Below(ds: seq<nat>, base: nat) {
    forall i :: 0 <= i < |ds| ==> ds[i] < base
  }

  /** The number written ds in the given base. */
  function Value(ds: seq<nat>, base: nat): nat {
    if ds == [] then 0 else Value(ds[..|ds| - 1], base) * base + ds[|ds| - 1]
  }

  /** The last k digits of n. */
  function Digits(n: nat, base: nat, k: nat): (ds: seq<nat>)
    requires base > 0
    ensures |ds| == k
    decreases k, n
  {
    if k == 0 then [] else Digits(n / base, base, k - 1) + [n % base]
  }

  // ---------------------------------------------------------------- division

  lemma MulMonotone(a: int, b: int, c: int)
    requires a <= b && 0 <= c
    ensures a * c <= b * c
  {
    assert (b - a) * c >= 0;
  }

  /** q * base + r < q' * base + r' whenever q < q' and r is a remainder. */
  lemma QuotientOrders(q: int, r: int, q': int, r': int, base: int)
    requires q < q' && r < base && 0 <= r' && 0 < base
    ensures q * base + r < q' * base + r'
  {
    MulMonotone(q + 1, q', base);
    assert (q + 1) * base == q * base + base;
  }

  lemma DivMod(q: nat, r: nat, base: nat)
    requires r < base
    ensures (q * base + r) / base == q && (q * base + r) % base == r
  {
    var n := q * base + r;
    if n / base < q {
      QuotientOrders(n / base, n % base, q, r, base);
    } else if q < n / base {
      QuotientOrders(q, r, n / base, n % base, base);
    }
  }

  lemma DivBound(n: nat, base: nat, p: nat)
    requires base > 0 && n < p * base
    ensures n / base < p
  {
    if p <= n / base {
      MulMonotone(p, n / base, base);
    }
  }

  lemma DivAtLeast(n: nat, base: nat, p: nat)
    requires base > 0 && p * base <= n
    ensures p <= n / base
  {
    if n / base < p {
      QuotientOrders(n / base, n % base, p, 0, base);
    }
  }

  // ---------------------------------------------------------------- digits and values

  lemma {:induction false} DigitsBelow(n: nat, base: nat, k: nat)
    requires base > 0
    ensures Below(Digits(n, base, k), base)
    decreases k
  {
    if k > 0 {
      var q, r := n / base, n % base;
      assert r < base;
      DigitsBelow(q, base, k - 1);
      assert Digits(n, base, k) == Digits(q, base, k - 1) + [r];
    }
  }

  lemma {:induction false} ValueOfDigits(n: nat, base: nat, k: nat)
    requires base > 0 && n < Pow(base, k)
    ensures Value(Digits(n, base, k), base) == n
    decreases k
  {
    if k > 0 {
      var q, r := n / base, n % base;
      assert n == q * base + r;
      assert Pow(base, k - 1) * base == Pow(base, k);
      DivBound(n, base, Pow(base, k - 1));
      ValueOfDigits(q, base, k - 1);
      ValueAppend(Digits(q, base, k - 1), r, base);
    }
  }

  lemma {:induction false} DigitsOfValue(ds: seq<nat>, base: nat)
    requires base > 0 && Below(ds, base)
    ensures Digits(Value(ds, base), base, |ds|) == ds
  {
    if ds != [] {
      var init := ds[..|ds| - 1];
      DivMod(Value(init, base), ds[|ds| - 1], base);
      DigitsOfValue(init, base);
      assert init + [ds[|ds| - 1]] == ds;
    }
  }

  lemma {:induction false} ValueBound(ds: seq<nat>, base: nat)
    requires base > 0 && Below(ds, base)
    ensures Value(ds, base) < Pow(base, |ds|)
  {
    if ds != [] {
      var init := ds[..|ds| - 1];
      ValueBound(init, base);
      MulMonotone(Value(init, base) + 1, Pow(base, |init|), base);
      assert (Value(init, base) + 1) * base == Value(init, base) * base + base;
      assert Pow(base, |init|) * base == Pow(base, |ds|);
    }
  }

  lemma ValueAppend(ds: seq<nat>, d: nat, base: nat)
    ensures Value(ds + [d], base) == Value(ds, base) * base + d
  {
    assert (ds + [d])[..|ds|] == ds;
  }

  /** A number written in i-bit digits is read back from its j-bit digits when both hold as many bits. */
  lemma Regroup(ds: seq<nat>, base: nat, i: nat, other: nat, j: nat, k: nat)
    requires base == Pow(2, i) && other == Pow(2, j) && i * |ds| == j * k && Below(ds, base)
    ensures Digits(Value(Digits(Value(ds, base), other, k), other), base, |ds|) == ds
  {
    PowPow(2, i, |ds|);
    PowPow(2, j, k);
    ValueBound(ds, base);
    ValueOfDigits(Value(ds, base), other, k);
    DigitsOfValue(ds, base);
  }

  /** The leading digit of a k-digit number. */
  lemma {:induction false} LeadingDigit(n: nat, base: nat, k: nat, d: nat)
    requires base > 0 && k > 0 && d < base
    requires d * Pow(base, k - 1) <= n < (d + 1) * Pow(base, k - 1)
    ensures Digits(n, base, k)[0] == d
    decreases k
  {
    if k == 1 {
      DivMod(0, n, base);
    } else {
      var p := Pow(base, k - 2);
      assert Pow(base, k - 1) == base * p;
      assert d * (base * p) == (d * p) * base;
      assert (d + 1) * (base * p) == ((d + 1) * p) * base;
      DivBound(n, base, (d + 1) * p);
      DivAtLeast(n, base, d * p);
      LeadingDigit(n / base, base, k - 1, d);
    }
  }

  // ---------------------------------------------------------------- big.Int

  /** n.Bytes(): the digits base 256 with no leading zero. */
  function MinimalBytes(n: nat): seq<nat> {
    if n == 0 then [] else MinimalBytes(n / 256) + [n % 256]
  }

  function Zeros(k: nat): seq<nat> {
    seq(k, _ => 0)
  }

  lemma {:induction false} DigitsOfZero(k: nat)
    ensures Digits(0, 256, k) == Zeros(k)
  {
    if k > 0 {
      DigitsOfZero(k - 1);
    }
  }

  /** A number below 256^k has at most k bytes, and padding them on the left restores its k digits. */
  lemma {:induction false} PaddedBytes(n: nat, k: nat)
    requires n < Pow(256, k)
    ensures |MinimalBytes(n)| <= k
    ensures Zeros(k - |MinimalBytes(n)|) + MinimalBytes(n) == Digits(n, 256, k)
  {
    if n == 0 {
      DigitsOfZero(k);
    } else {
      assert k > 0;
      assert Pow(256, k - 1) * 256 == Pow(256, k);
      DivBound(n, 256, Pow(256, k - 1));
      PaddedBytes(n / 256, k - 1);
    }
  }

  function And(a: nat, b: nat): nat {
    if a == 0 || b == 0 then 0 else 2 * And(a / 2, b / 2) + (if a % 2 == 1 && b % 2 == 1 then 1 else 0)
  }

  function Or(a: nat, b: nat): nat
    decreases a + b
  {
    if a == 0 then b else if b == 0 then a
    else 2 * Or(a / 2, b / 2) + (if a % 2 == 1 || b % 2 == 1 then 1 else 0)
  }

  function Lsh(n: nat, k: nat): nat {
    n * Pow(2, k)
  }

  function Rsh(n: nat, k: nat): nat {
    n / Pow(2, k)
  }

  lemma HalfMod(n: nat, p: nat)
    requires p > 0
    ensures n % (2 * p) == 2 * ((n / 2) % p) + n % 2
  {
    var q := (n / 2) / p;
    assert n / 2 == q * p + (n / 2) % p;
    assert n == q * (2 * p) + (2 * ((n / 2) % p) + n % 2);
    DivMod(q, 2 * ((n / 2) % p) + n % 2, 2 * p);
  }

  lemma AndOnes(n: nat, p: nat)
    requires n > 0 && p > 0
    ensures And(n, 2 * p - 1) == 2 * And(n / 2, p - 1) + n % 2
  {
    assert (2 * p - 1) / 2 == p - 1 && (2 * p - 1) % 2 == 1;
  }

  lemma ZeroMod(p: nat)
    requires p > 0
    ensures 0 % p == 0
  {
  }

  /** Masking with k one bits keeps the remainder modulo 2^k. */
  lemma {:induction false} AndMask(n: nat, k: nat)
    ensures And(n, Pow(2, k) - 1) == n % Pow(2, k)
  {
    if n == 0 {
      ZeroMod(Pow(2, k));
    } else if k > 0 {
      var p := Pow(2, k - 1);
      AndMask(n / 2, k - 1);
      HalfMod(n, p);
      AndOnes(n, p);
    }
  }

  /** Oring k bits under a number shifted by k adds them. */
  lemma {:induction false} OrShifted(n: nat, d: nat, k: nat)
    requires d < Pow(2, k)
    ensures Or(Lsh(n, k), d) == n * Pow(2, k) + d
  {
    if k > 0 && n > 0 && d > 0 {
      var p := Pow(2, k - 1);
      assert n * (2 * p) == 2 * (n * p);
      OrShifted(n, d / 2, k - 1);
    }
  }
}
