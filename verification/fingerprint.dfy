/** Fingerprint distance and the match rule of the coordinator.

    `phash_hamming` reads both fingerprints as base-16 naturals
    (`int(s, 16)`), XORs them and counts the one bits of the result.
    Fingerprints are modelled as strings of plain hex digits; any other
    string makes `int` raise, which the model returns as `None`. */
module Fingerprint {
  import opened Common

  /** The value of one hex digit, either case; `None` for anything else. */
  function DigitValue(c: char): Option<nat>
  {
    if '0' <= c <= '9' then Some(c as nat - '0' as nat)
    else if 'a' <= c <= 'f' then Some(c as nat - 'a' as nat + 10)
    else if 'A' <= c <= 'F' then Some(c as nat - 'A' as nat + 10)
    else None
  }

  predicate IsHexDigit(c: char) { DigitValue(c).Some? }

  /** What `int(s, 16)` accepts in this model: one or more hex digits. */
  predicate IsHexString(s: string)
  {
    |s| > 0 && forall i :: 0 <= i < |s| ==> IsHexDigit(s[i])
  }

  function Digit(c: char): (d: nat)
    requires IsHexDigit(c)
    ensures d < 16
  {
    DigitValue(c).value
  }

  function Pow2(k: nat): (p: nat)
    ensures p >= 1
  {
    if k == 0 then 1 else 2 * Pow2(k - 1)
  }

  /** The natural a digit string denotes, most significant digit first. */
  function HexValue(s: string): nat
    requires forall i :: 0 <= i < |s| ==> IsHexDigit(s[i])
  {
    if |s| == 0 then 0 else 16 * HexValue(s[..|s| - 1]) + Digit(s[|s| - 1])
  }

  /** `int(s, 16)`. */
  function ParseHex(s: string): (r: Option<nat>)
    ensures r.Some? <==> IsHexString(s)
    ensures r.Some? ==> r.value < Pow2(4 * |s|)
  {
    if IsHexString(s) then HexValueBound(s); Some(HexValue(s)) else None
  }

  /** Bitwise exclusive or of two naturals (Python's `^`). */
  function Xor(a: nat, b: nat): nat
  {
    if a == 0 && b == 0 then 0
    else (if a % 2 == b % 2 then 0 else 1) + 2 * Xor(a / 2, b / 2)
  }

  /** `bin(n).count('1')`. */
  function PopCount(n: nat): nat
  {
    if n == 0 then 0 else n % 2 + PopCount(n / 2)
  }

  /** `phash_hamming(a, b)`: `None` where `int(..., 16)` raises. The
      distance never exceeds the bit width of the longer fingerprint, so
      it is at most 64 for the 16-digit fingerprints the hasher emits. */
  function Hamming(a: string, b: string): (r: Option<nat>)
    ensures r.Some? <==> IsHexString(a) && IsHexString(b)
    ensures r.Some? ==> r.value <= 4 * Max(|a|, |b|)
  {
    match (ParseHex(a), ParseHex(b))
    case (Some(x), Some(y)) =>
      var k := 4 * Max(|a|, |b|);
      Pow2Monotone(4 * |a|, k);
      Pow2Monotone(4 * |b|, k);
      XorBound(x, y, k);
      PopCountBound(Xor(x, y), k);
      Some(PopCount(Xor(x, y)))
    case _ => None
  }

  /** Bits a fingerprint distance must stay under for a match. */
  const DistanceThreshold: nat := 20

  /** `phash_diff < 20 or sim > 0.6`: either signal alone suffices. */
  predicate IsMatch(distance: nat, sim: real)
  {
    distance < DistanceThreshold || sim > 0.6
  }

  // ---------------------------------------------------------------------
  // Bit-level facts

  lemma {:induction false} Pow2Monotone(j: nat, k: nat)
    requires j <= k
    ensures Pow2(j) <= Pow2(k)
    decreases k
  {
    if j < k {
      Pow2Monotone(j, k - 1);
    }
  }

  /** Four more bits multiply the range by sixteen. */
  lemma Pow2Plus4(j: nat)
    ensures Pow2(j + 4) == 16 * Pow2(j)
  {
    assert Pow2(j + 4) == 2 * Pow2(j + 3);
    assert Pow2(j + 3) == 2 * Pow2(j + 2);
    assert Pow2(j + 2) == 2 * Pow2(j + 1);
  }

  lemma {:induction false} HexValueBound(s: string)
    requires forall i :: 0 <= i < |s| ==> IsHexDigit(s[i])
    ensures HexValue(s) < Pow2(4 * |s|)
    decreases |s|
  {
    if |s| > 0 {
      var init := s[..|s| - 1];
      HexValueBound(init);
      Pow2Plus4(4 * |init|);
      assert 4 * |s| == 4 * |init| + 4;
    }
  }

  /** XOR commutes. */
  lemma {:induction false} XorSymmetric(a: nat, b: nat)
    ensures Xor(a, b) == Xor(b, a)
    decreases a + b
  {
    if !(a == 0 && b == 0) {
      XorSymmetric(a / 2, b / 2);
    }
  }

  /** A natural XORed with itself is zero. */
  lemma {:induction false} XorSelf(a: nat)
    ensures Xor(a, a) == 0
    decreases a
  {
    if a != 0 {
      XorSelf(a / 2);
    }
  }

  /** XOR never produces a bit above the operands' width. */
  lemma {:induction false} XorBound(a: nat, b: nat, k: nat)
    requires a < Pow2(k) && b < Pow2(k)
    ensures Xor(a, b) < Pow2(k)
    decreases k
  {
    if !(a == 0 && b == 0) {
      XorBound(a / 2, b / 2, k - 1);
    }
  }

  /** A natural below 2^k has at most k one bits. */
  lemma {:induction false} PopCountBound(n: nat, k: nat)
    requires n < Pow2(k)
    ensures PopCount(n) <= k
    decreases k
  {
    if n != 0 {
      PopCountBound(n / 2, k - 1);
    }
  }

  lemma XorUnfold(a: nat, b: nat)
    ensures Xor(a, b) == (if a % 2 == b % 2 then 0 else 1) + 2 * Xor(a / 2, b / 2)
  {
  }

  lemma PopCountUnfold(n: nat)
    ensures PopCount(n) == n % 2 + PopCount(n / 2)
  {
  }

  lemma HalveSum(m: nat, p: nat)
    ensures (2 * m + p) / 2 == m + p / 2 && (2 * m + p) % 2 == p % 2
  {
  }

  lemma ShiftHalf(k: nat, x: nat)
    requires k > 0
    ensures Pow2(k) * x == 2 * (Pow2(k - 1) * x)
  {
  }

  /** XOR of two numbers split at bit k is the XOR of the high parts
      shifted back, plus the XOR of the low parts. */
  lemma {:induction false} XorSplit(x: nat, y: nat, p: nat, q: nat, k: nat)
    requires p < Pow2(k) && q < Pow2(k)
    ensures Xor(Pow2(k) * x + p, Pow2(k) * y + q) == Pow2(k) * Xor(x, y) + Xor(p, q)
    decreases k
  {
    if k > 0 {
      var hx, hy := Pow2(k - 1) * x, Pow2(k - 1) * y;
      ShiftHalf(k, x);
      ShiftHalf(k, y);
      HalveSum(hx, p);
      HalveSum(hy, q);
      XorSplit(x, y, p / 2, q / 2, k - 1);
      XorUnfold(2 * hx + p, 2 * hy + q);
      XorUnfold(p, q);
      ShiftHalf(k, Xor(x, y));
    }
  }

  /** One bits of a number split at bit k add up over the two parts. */
  lemma {:induction false} PopCountSplit(z: nat, w: nat, k: nat)
    requires w < Pow2(k)
    ensures PopCount(Pow2(k) * z + w) == PopCount(z) + PopCount(w)
    decreases k
  {
    if k > 0 {
      var hz := Pow2(k - 1) * z;
      ShiftHalf(k, z);
      HalveSum(hz, w);
      PopCountSplit(z, w / 2, k - 1);
      PopCountUnfold(2 * hz + w);
      PopCountUnfold(w);
    }
  }

  // ---------------------------------------------------------------------
  // Fingerprint-level properties

  /** Bits in which two hex digits differ. */
  function DigitDistance(c: char, d: char): nat
    requires IsHexDigit(c) && IsHexDigit(d)
  {
    PopCount(Xor(Digit(c), Digit(d)))
  }

  /** Reference definition of the distance of two equal-length digit
      strings: the differing bits, counted digit by digit. */
  function DigitwiseDistance(a: string, b: string): nat
    requires |a| == |b|
    requires forall i :: 0 <= i < |a| ==> IsHexDigit(a[i]) && IsHexDigit(b[i])
  {
    if |a| == 0 then 0
    else DigitwiseDistance(a[..|a| - 1], b[..|b| - 1]) + DigitDistance(a[|a| - 1], b[|b| - 1])
  }

  lemma Pow2Four()
    ensures Pow2(4) == 16
  {
    assert Pow2(2) == 4;
  }

  lemma XorDigit(x: nat, y: nat, p: nat, q: nat)
    requires p < 16 && q < 16
    ensures Xor(16 * x + p, 16 * y + q) == 16 * Xor(x, y) + Xor(p, q)
  {
    Pow2Four();
    XorSplit(x, y, p, q, 4);
  }

  lemma PopCountDigit(z: nat, w: nat)
    requires w < 16
    ensures PopCount(16 * z + w) == PopCount(z) + PopCount(w)
  {
    Pow2Four();
    PopCountSplit(z, w, 4);
  }

  /** Appending one hex digit to both operands adds that digit's
      differing bits. */
  lemma DigitStep(x: nat, y: nat, p: nat, q: nat)
    requires p < 16 && q < 16
    ensures PopCount(Xor(16 * x + p, 16 * y + q)) == PopCount(Xor(x, y)) + PopCount(Xor(p, q))
  {
    XorDigit(x, y, p, q);
    Pow2Four();
    XorBound(p, q, 4);
    PopCountDigit(Xor(x, y), Xor(p, q));
  }

  lemma {:induction false} PopXorDigitwise(a: string, b: string)
    requires |a| == |b|
    requires forall i :: 0 <= i < |a| ==> IsHexDigit(a[i]) && IsHexDigit(b[i])
    ensures PopCount(Xor(HexValue(a), HexValue(b))) == DigitwiseDistance(a, b)
    decreases |a|
  {
    if |a| > 0 {
      var a', b' := a[..|a| - 1], b[..|b| - 1];
      PopXorDigitwise(a', b');
      var x, y, p, q := HexValue(a'), HexValue(b'), Digit(a[|a| - 1]), Digit(b[|b| - 1]);
      assert HexValue(a) == 16 * x + p && HexValue(b) == 16 * y + q;
      assert DigitwiseDistance(a, b) == DigitwiseDistance(a', b') + PopCount(Xor(p, q));
      DigitStep(x, y, p, q);
    }
  }

  /** For equal-length fingerprints the distance is the number of bit
      positions in which they differ. */
  lemma HammingIsDigitwise(a: string, b: string)
    requires IsHexString(a) && IsHexString(b) && |a| == |b|
    ensures Hamming(a, b) == Some(DigitwiseDistance(a, b))
  {
    PopXorDigitwise(a, b);
  }

  /** The distance does not depend on the order of its arguments. */
  lemma HammingSymmetric(a: string, b: string)
    ensures Hamming(a, b) == Hamming(b, a)
  {
    if IsHexString(a) && IsHexString(b) {
      XorSymmetric(HexValue(a), HexValue(b));
    }
  }

  /** A well-formed fingerprint is at distance zero from itself. */
  lemma HammingSelf(a: string)
    requires IsHexString(a)
    ensures Hamming(a, a) == Some(0)
  {
    XorSelf(HexValue(a));
  }

  /** Digit case does not matter: `int` reads 'A' and 'a' alike. */
  lemma HexValueIgnoresCase(a: string, b: string)
    requires |a| == |b|
    requires forall i :: 0 <= i < |a| ==> IsHexDigit(a[i]) && IsHexDigit(b[i]) && Digit(a[i]) == Digit(b[i])
    ensures HexValue(a) == HexValue(b)
  {
  }

  lemma {:induction false} LeadingZero(s: string)
    requires forall i :: 0 <= i < |s| ==> IsHexDigit(s[i])
    ensures HexValue("0" + s) == HexValue(s)
    decreases |s|
  {
    if |s| > 0 {
      assert ("0" + s)[..|s|] == "0" + s[..|s| - 1];
      LeadingZero(s[..|s| - 1]);
    }
  }

  /** Fingerprints of different lengths are compared as numbers, so the
      shorter one is padded with zero digits rather than rejected. */
  lemma PaddingPreservesDistance(a: string, b: string)
    requires IsHexString(a) && IsHexString(b)
    ensures Hamming("0" + a, b) == Hamming(a, b)
  {
    LeadingZero(a);
  }

  /** Lowering the distance or raising the similarity never turns a match
      into a non-match. */
  lemma MatchMonotone(d: nat, sim: real, d': nat, sim': real)
    requires d' <= d && sim' >= sim
    ensures IsMatch(d, sim) ==> IsMatch(d', sim')
  {
  }

  /** A record whose fingerprint equals the new one always matches,
      whatever the embedding similarity. */
  lemma SameImageMatches(a: string, sim: real)
    requires IsHexString(a)
    ensures Hamming(a, a).Some? && IsMatch(Hamming(a, a).value, sim)
  {
    HammingSelf(a);
  }
}
