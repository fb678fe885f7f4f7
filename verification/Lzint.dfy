/** Integers that also track leading zeros (internal/lzint/value.go). */
module Lzint {
  import opened Base

  datatype Value = Value(num: int, lznib: nat, wasHex: bool, oddHex: bool, wasBytes: bool)

  datatype NumberError = EmptyNumber | InvalidHex | LeadingZero | InvalidNumber

  datatype BytesError = NegativeBytes | OddHexBytes

  // ----- positional notation -----

  type Digits = seq<nat>

  predicate InBase(base: nat, d: Digits) {
    forall i :: 0 <= i < |d| ==> d[i] < base
  }

  /** The number written by a digit sequence, most significant digit first. */
  function FromBase(base: nat, d: Digits): nat {
    if d == [] then 0 else FromBase(base, d[..|d| - 1]) * base + d[|d| - 1]
  }

  /** The lowest len digits of n, most significant digit first. */
  function ToBase(base: nat, n: nat, len: nat): (d: Digits)
    requires base >= 2
    ensures |d| == len && InBase(base, d)
  {
    if len == 0 then [] else ToBase(base, n / base, len - 1) + [n % base]
  }

  /** The number of digits of n without leading zeros. */
  function DigitCount(base: nat, n: nat): nat
    requires base >= 2
  {
    if n == 0 then 0
    else
      DivSmaller(n, base);
      1 + DigitCount(base, n / base)
  }

  lemma DivSmaller(n: nat, base: nat)
    requires n > 0 && base >= 2
    ensures n / base < n
  {
  }

  function Zeros(n: nat): (d: Digits)
    ensures |d| == n
    ensures forall i :: 0 <= i < n ==> d[i] == 0
  {
    seq(n, _ => 0)
  }

  function LeadingZeros(d: Digits): (z: nat)
    ensures z <= |d|
    ensures forall i :: 0 <= i < z ==> d[i] == 0
    ensures z < |d| ==> d[z] != 0
  {
    if d != [] && d[0] == 0 then 1 + LeadingZeros(d[1..]) else 0
  }

  lemma {:induction false} ToFromBase(base: nat, d: Digits)
    requires base >= 2 && InBase(base, d)
    ensures ToBase(base, FromBase(base, d), |d|) == d
  {
    if d != [] {
      var init, last := d[..|d| - 1], d[|d| - 1];
      var n := FromBase(base, init);
      DivModOf(n, last, base);
      ToFromBase(base, init);
      assert init + [last] == d;
    }
  }

  lemma DivModOf(n: nat, r: nat, base: nat)
    requires r < base
    ensures (n * base + r) / base == n && (n * base + r) % base == r
  {
    var m := n * base + r;
    var q, r' := m / base, m % base;
    assert q * base + r' == n * base + r;
    MulDiff(q, n, base);
    if q != n {
      if q > n {
        MulAtLeast(q - n, base);
      } else {
        MulAtLeast(n - q, base);
      }
    }
  }

  lemma MulDiff(a: int, b: int, c: int)
    ensures (a - b) * c == a * c - b * c
    ensures (b - a) * c == b * c - a * c
  {
  }

  lemma MulAtLeast(k: nat, base: nat)
    requires k >= 1
    ensures k * base >= base
  {
  }

  /** Leading zeros do not change the number, and the rest is as long as the number needs. */
  lemma {:induction false} DigitCountOf(base: nat, d: Digits)
    requires base >= 2 && InBase(base, d)
    ensures DigitCount(base, FromBase(base, d)) == |d| - LeadingZeros(d)
  {
    if d != [] {
      var init, last := d[..|d| - 1], d[|d| - 1];
      DigitCountOf(base, init);
      LeadingZerosInit(d);
      DigitCountSnoc(base, FromBase(base, init), last);
      CountZero(base, FromBase(base, init));
      hide LeadingZeros, DigitCount;
    }
  }

  lemma DigitCountSnoc(base: nat, n: nat, last: nat)
    requires base >= 2 && last < base
    ensures n * base + last >= 0
    ensures DigitCount(base, n * base + last) == if n == 0 && last == 0 then 0 else 1 + DigitCount(base, n)
  {
    DivModOf(n, last, base);
    if n > 0 {
      MulAtLeast(n, base);
    }
  }

  lemma CountZero(base: nat, n: nat)
    requires base >= 2
    ensures DigitCount(base, n) == 0 <==> n == 0
  {
  }

  lemma CountPositive(base: nat, n: nat)
    requires base >= 2 && n > 0
    ensures DigitCount(base, n) > 0
  {
  }

  lemma LeadingZerosInit(d: Digits)
    requires d != []
    ensures var init := d[..|d| - 1];
            LeadingZeros(d) == if LeadingZeros(init) == |init| && d[|d| - 1] == 0 then |d| else LeadingZeros(init)
  {
    var init := d[..|d| - 1];
    LeadingZerosIs(d, if LeadingZeros(init) == |init| && d[|d| - 1] == 0 then |d| else LeadingZeros(init));
  }

  lemma LeadingZerosIs(d: Digits, z: nat)
    requires z <= |d|
    requires forall i :: 0 <= i < z ==> d[i] == 0
    requires z < |d| ==> d[z] != 0
    ensures LeadingZeros(d) == z
  {
    if z > 0 {
      LeadingZerosIs(d[1..], z - 1);
    }
  }

  // ----- bit, nibble and byte lengths -----

  function BitLen(n: nat): nat {
    DigitCount(2, n)
  }

  lemma {:induction false} BitLenHalves(n: nat, k: nat)
    requires k <= BitLen(n)
    ensures BitLen(n / Pow2(k)) == BitLen(n) - k
    decreases k
  {
    if k > 0 {
      CountZero(2, n);
      BitLenHalves(n / 2, k - 1);
      DivDiv(n, 2, Pow2(k - 1));
    }
  }

  function Pow2(k: nat): (p: nat)
    ensures p >= 1
  {
    if k == 0 then 1 else 2 * Pow2(k - 1)
  }

  lemma DivDivParts(n: nat, q: nat, r: nat, s: nat, t: nat, a: nat, b: nat)
    requires n == q * a + r && r < a && q == s * b + t && t < b
    ensures n == s * (a * b) + (t * a + r) && t * a + r < a * b
  {
    MulAssoc(s, b, a, t);
    MulMono(t + 1, b, a);
    MulComm(a, b);
    assert (t + 1) * a == t * a + a;
  }

  lemma DivDiv(n: nat, a: nat, b: nat)
    requires a >= 1 && b >= 1
    ensures a * b >= 1
    ensures n / a / b == n / (a * b)
  {
    MulAtLeast(a, b);
    var q, r := n / a, n % a;
    var s, t := q / b, q % b;
    DivDivParts(n, q, r, s, t, a, b);
    DivModOf(s, t * a + r, a * b);
  }

  lemma MulAssoc(s: nat, b: nat, a: nat, t: nat)
    ensures (s * b + t) * a == s * (a * b) + t * a
  {
    assert (s * b + t) * a == (s * b) * a + t * a;
    assert (s * b) * a == s * (b * a);
    MulComm(a, b);
  }

  lemma MulComm(a: nat, b: nat)
    ensures a * b == b * a
  {
  }

  lemma MulMono(x: nat, y: nat, a: nat)
    requires x <= y
    ensures x * a <= y * a
  {
  }

  /** Grouping k bits to a digit: the digit count is the bit length divided by k, rounded up. */
  lemma {:induction false} GroupedLen(n: nat, k: nat)
    requires k >= 1
    ensures Pow2(k) >= 2
    ensures DigitCount(Pow2(k), n) == (BitLen(n) + k - 1) / k
    decreases n
  {
    var base := Pow2(k);
    if n == 0 {
      assert (k - 1) / k == 0;
    } else if BitLen(n) <= k {
      GroupedOne(n, k);
    } else {
      BitLenHalves(n, k);
      DivSmaller(n, base);
      GroupedLen(n / base, k);
      DivStep(BitLen(n) - 1, k);
    }
  }

  lemma DivStep(m: nat, k: nat)
    requires k >= 1
    ensures (m + k) / k == m / k + 1
  {
    var q, r := m / k, m % k;
    assert m + k == (q + 1) * k + r;
    DivModOf(q + 1, r, k);
  }

  lemma DivSmall(n: nat, m: nat)
    requires n < m
    ensures n / m == 0
  {
  }

  lemma GroupedOne(n: nat, k: nat)
    requires k >= 1 && n > 0 && BitLen(n) <= k
    ensures Pow2(k) >= 2 && DigitCount(Pow2(k), n) == 1 == (BitLen(n) + k - 1) / k
  {
    CountPositive(2, n);
    BitLenSmall(n, k);
    DivSmall(n, Pow2(k));
    CountZero(Pow2(k), 0);
    DivModOf(1, BitLen(n) - 1, k);
  }

  lemma {:induction false} BitLenSmall(n: nat, k: nat)
    requires BitLen(n) <= k
    ensures n < Pow2(k)
    decreases k
  {
    if k > 0 && n > 0 {
      BitLenSmall(n / 2, k - 1);
    } else {
      CountZero(2, n);
    }
  }

  /** The number of bytes of n without leading zeros, computed from the bit length. */
  function IntByteLen(n: nat): nat {
    (BitLen(n) + 7) / 8
  }

  lemma ByteCount(n: nat)
    ensures IntByteLen(n) == DigitCount(256, n)
  {
    GroupedLen(n, 8);
    assert Pow2(8) == 256;
  }

  lemma NibbleCount(n: nat)
    ensures IntByteLen(n) == (DigitCount(16, n) + 1) / 2
  {
    GroupedLen(n, 4);
    assert Pow2(4) == 16;
    var b := BitLen(n);
    assert ((b + 3) / 4 + 1) / 2 == (b + 7) / 8;
  }

  // ----- bytes -----

  function BytesToInt(b: seq<Byte>): nat {
    FromBase(256, b)
  }

  function IntToBytes(n: nat, len: nat): (b: seq<Byte>)
    ensures |b| == len
  {
    ToBase(256, n, len)
  }

  /** The shortest big-endian representation. */
  function MinimalBytes(n: nat): (b: seq<Byte>)
    ensures |b| == IntByteLen(n)
  {
    IntToBytes(n, IntByteLen(n))
  }

  lemma FromBaseSnoc(base: nat, d: Digits, x: nat)
    ensures FromBase(base, d + [x]) == FromBase(base, d) * base + x
  {
    assert (d + [x])[..|d|] == d;
  }

  lemma DivModSum(n: nat, base: nat)
    requires base >= 2
    ensures n / base * base + n % base == n
    ensures n == 0 ==> n / base == 0
  {
  }

  lemma {:induction false} FromToBase(base: nat, n: nat, len: nat)
    requires base >= 2 && DigitCount(base, n) <= len
    ensures FromBase(base, ToBase(base, n, len)) == n
    decreases len
  {
    if len == 0 {
      CountZero(base, n);
    } else {
      DivModSum(n, base);
      FromToBase(base, n / base, len - 1);
      FromBaseSnoc(base, ToBase(base, n / base, len - 1), n % base);
    }
  }

  // ----- values -----

  function FromInt(i: int): Value {
    Value(i, 0, false, false, false)
  }

  /** What FromBytes computes. */
  function OfBytes(slice: seq<Byte>): Value {
    Value(BytesToInt(slice), 2 * LeadingZeros(slice), false, false, true)
  }

  /** Leading zeros are counted, in addition to the length of the integer. */
  function ByteLen(v: Value): nat {
    v.lznib / 2 + IntByteLen(if v.num < 0 then -v.num else v.num)
  }

  /** The value as a byte slice, unless the conversion is lossy. */
  function Bytes(v: Value): Result<seq<Byte>, BytesError> {
    if v.num < 0 then Err(NegativeBytes)
    else if v.oddHex then Err(OddHexBytes)
    else Ok(IntToBytes(v.num, ByteLen(v)))
  }

  lemma OfBytesLen(slice: seq<Byte>)
    ensures ByteLen(OfBytes(slice)) == |slice|
  {
    DigitCountOf(256, slice);
    ByteCount(BytesToInt(slice));
  }

  /** Every byte string survives the conversion to a value and back, leading zeros included. */
  lemma BytesOfBytes(slice: seq<Byte>)
    ensures Bytes(OfBytes(slice)) == Ok(slice)
  {
    OfBytesLen(slice);
    ToFromBase(256, slice);
  }

  /** Makes a value from bytes. */
  method FromBytes(slice: seq<Byte>) returns (v: Value)
    ensures v == OfBytes(slice)
  {
    var lznib := 0;
    var i := 0;
    while i < |slice| && slice[i] == 0
      invariant 0 <= i <= |slice|
      invariant lznib == 2 * i
      invariant forall k :: 0 <= k < i ==> slice[k] == 0
    {
      lznib := lznib + 2;
      i := i + 1;
    }
    LeadingZerosIs(slice, i);
    var n: nat := 0;
    for k := 0 to |slice|
      invariant n == FromBase(256, slice[..k])
    {
      assert slice[..k + 1][..k] == slice[..k];
      n := n * 256 + slice[k];
    }
    assert slice[..|slice|] == slice;
    v := Value(n, lznib, false, false, true);
  }
}
