/**
 Compact difficulty targets. `bits` is `0xEEMMMMMM`: a byte exponent and a 24-bit mantissa standing for
 the 256-bit integer `mantissa * 256^(exponent - 3)`. Where the program uses `f64`, the model uses
 exact reals, but clamps where the program does: at 2^256.
 */
module Difficulty {
  import opened Prelude
  import opened BigEndian

  type Compact = x: nat | x < 0x1_0000_0000

  const INITIAL_DIFFICULTY_BITS: Compact := 0x1eff_ffff
  const TARGET_BLOCK_TIME_SECS: nat := 300
  const RETARGET_INTERVAL_BLOCKS: nat := 288
  const TARGET_LEN: nat := 32

  function Exponent(bits: Compact): (e: nat)
    ensures e < 0x100
  {
    bits / 0x100_0000
  }

  function Mantissa(bits: Compact): (m: nat)
    ensures m < 0x100_0000
  {
    bits % 0x100_0000
  }

  function Times(a: nat, b: nat): nat { a * b }

  function Over(a: nat, b: nat): nat
    requires b > 0
  {
    a / b
  }

  /** The integer a compact target stands for; exponents above 32 denote the unsatisfiable target 0. */
  function TargetValue(bits: Compact): nat {
    if Exponent(bits) > 32 then 0
    else if Exponent(bits) >= 3 then Times(Mantissa(bits), Pow256(Exponent(bits) - 3))
    else Over(Mantissa(bits), Pow256(3 - Exponent(bits)))
  }

  /** Copies `bytes` into a zeroed target from index `start`. */
  method PlaceBytes(out: array<byte>, start: nat, bytes: Bytes)
    requires out.Length == TARGET_LEN && start + |bytes| <= TARGET_LEN
    requires forall k :: 0 <= k < out.Length ==> out[k] == 0
    modifies out
    ensures Value(out[..]) == Value(bytes) * Pow256(TARGET_LEN - start - |bytes|)
  {
    for i := 0 to |bytes|
      invariant forall k :: 0 <= k < out.Length ==> out[k] == if start <= k < start + i then bytes[k - start] else 0
    {
      var idx := start + i;
      if idx < out.Length {
        out[idx] := bytes[i];
      }
    }
    var rest := TARGET_LEN - start - |bytes|;
    assert out[..] == seq(start, _ => 0) + bytes + seq(rest, _ => 0);
    PlacedBytes(start, bytes, rest);
  }

  /** Writes the 32 bytes of the target, as the program does, and denotes exactly `TargetValue`. */
  method ExpandTarget(bits: Compact) returns (out: array<byte>)
    ensures fresh(out) && out.Length == TARGET_LEN
    ensures Value(out[..]) == TargetValue(bits)
  {
    hide Exponent, Mantissa, Value, Pow256, ToBytes;
    PowZero();
    var exponent := Exponent(bits);
    var mantissa := Mantissa(bits);
    out := new byte[TARGET_LEN](_ => 0);
    assert out[..] == seq(TARGET_LEN, _ => 0);
    ZerosHaveNoValue(TARGET_LEN);
    if mantissa == 0 {
      ZeroMantissa(bits);
      return;
    }
    if exponent >= 3 {
      if exponent > TARGET_LEN {
        return;
      }
      ThreeBytes(mantissa);
      PlaceBytes(out, TARGET_LEN - exponent, [mantissa / 0x1_0000, mantissa / 0x100 % 0x100, mantissa % 0x100]);
    } else {
      var shifted := mantissa / Pow256(3 - exponent);
      ShiftedFits(mantissa, 3 - exponent);
      ValueOfToBytes(shifted, 8);
      PlaceBytes(out, TARGET_LEN - 8, ToBytes(shifted, 8));
    }
  }

  lemma ZeroMantissa(bits: Compact)
    requires Mantissa(bits) == 0
    ensures TargetValue(bits) == 0
  {
    if Exponent(bits) < 3 {
      assert 0 / Pow256(3 - Exponent(bits)) == 0;
    }
  }

  lemma {:induction false} PlacedBytes(before: nat, s: Bytes, after: nat)
    ensures Value(seq(before, _ => 0) + s + seq(after, _ => 0)) == Value(s) * Pow256(after)
  {
    ZerosHaveNoValue(before);
    ZerosHaveNoValue(after);
    ValueConcat(seq(before, _ => 0), s);
    ValueConcat(seq(before, _ => 0) + s, seq(after, _ => 0));
  }

  lemma {:induction false} ValueOfThree(a: byte, b: byte, c: byte)
    ensures Value([a, b, c]) == MantissaOf(a, b, c)
  {
    ValueOfByte(a);
    ValueOfByte(b);
    ValueOfByte(c);
    ValueConcat([a], [b]);
    ValueConcat([a, b], [c]);
    assert [a] + [b] == [a, b] && [a, b] + [c] == [a, b, c];
    assert Pow256(1) == 256 * Pow256(0);
  }

  lemma {:induction false} ThreeBytes(m: nat)
    requires m < 0x100_0000
    ensures Value([m / 0x1_0000, m / 0x100 % 0x100, m % 0x100]) == m
  {
    ValueOfThree(m / 0x1_0000, m / 0x100 % 0x100, m % 0x100);
  }

  lemma {:induction false} ShiftedFits(m: nat, shift: nat)
    requires m < 0x100_0000
    ensures m / Pow256(shift) < Pow256(8)
  {
    assert m / Pow256(shift) <= m;
    assert Pow256(8) >= 0x100_0000 by {
      PowAdds(3, 5);
      assert Pow256(3) == 256 * (256 * (256 * Pow256(0)));
    }
  }

  // ---- Compacting a target ----------------------------------------------------------------------

  function FirstNonzero(s: Bytes): (i: nat)
    ensures i <= |s| && (forall k :: 0 <= k < i ==> s[k] == 0) && (i < |s| ==> s[i] != 0)
  {
    if |s| == 0 || s[0] != 0 then 0 else 1 + FirstNonzero(s[1..])
  }

  function ByteOr0(s: Bytes, i: nat): byte { if i < |s| then s[i] else 0 }

  function MantissaOf(b0: int, b1: int, b2: int): int { b0 * 0x1_0000 + b1 * 0x100 + b2 }

  /** The three most significant bytes, from the first nonzero one, become the mantissa. */
  function CompactFromTarget(target: Bytes): Compact
    requires |target| == TARGET_LEN
  {
    var first := FirstNonzero(target);
    if first == TARGET_LEN then 0
    else (TARGET_LEN - first) * 0x100_0000
         + MantissaOf(target[first], ByteOr0(target, first + 1), ByteOr0(target, first + 2))
  }

  function SignificantBytes(v: nat): nat { if v == 0 then 0 else 1 + SignificantBytes(v / 256) }

  /** An integer with every byte after its three most significant ones cleared. */
  function RoundDown(v: nat): nat {
    if SignificantBytes(v) <= 3 then v else MultipleBelow(v, Pow256(SignificantBytes(v) - 3))
  }

  /** The largest multiple of `p` that does not exceed `v`. */
  function MultipleBelow(v: nat, p: nat): nat
    requires p > 0
  {
    v - v % p
  }

  lemma {:induction false} SignificantBytesBound(v: nat)
    requires v > 0
    ensures SignificantBytes(v) >= 1 && Pow256(SignificantBytes(v) - 1) <= v < Pow256(SignificantBytes(v))
  {
    if v < 256 {
      assert SignificantBytes(v / 256) == 0;
    } else {
      SignificantBytesBound(v / 256);
    }
  }

  lemma {:induction false} PowMonotone(m: nat, n: nat)
    requires m <= n
    ensures Pow256(m) <= Pow256(n)
  {
    PowAdds(m, n - m);
    assert Pow256(m) * Pow256(n - m) >= Pow256(m) * 1;
  }

  /** The bounds of `SignificantBytesBound` determine the count. */
  lemma {:induction false} SignificantBytesUnique(v: nat, k: nat)
    requires k >= 1 && Pow256(k - 1) <= v < Pow256(k)
    ensures SignificantBytes(v) == k
  {
    SignificantBytesBound(v);
    var j := SignificantBytes(v);
    if j < k {
      PowMonotone(j, k - 1);
    } else if j > k {
      PowMonotone(k, j - 1);
    }
  }

  lemma {:induction false} LeadingByteCounts(s: Bytes)
    requires |s| > 0 && s[0] != 0
    ensures SignificantBytes(Value(s)) == |s|
  {
    hide Value, Pow256, SignificantBytes;
    var p, rest := Pow256(|s| - 1), Value(s[1..]);
    ValueHead(s);
    ValueBound(s);
    AtLeastOnce(s[0], p);
    SignificantBytesUnique(Value(s), |s|);
  }

  lemma {:induction false} FirstNonzeroCounts(t: Bytes)
    ensures |t| - FirstNonzero(t) == SignificantBytes(Value(t))
  {
    hide FirstNonzero;
    var f := FirstNonzero(t);
    LeadingZeros(t, f);
    if f == |t| {
      assert t[f..] == [];
    } else {
      LeadingByteCounts(t[f..]);
    }
  }

  lemma DivideSum(a: nat, p: nat, r: nat)
    requires p > 0 && r < p
    ensures (a * p + r) / p == a
  {
    var x := a * p + r;
    var q, s := x / p, x % p;
    assert x == q * p + s;
    DigitsDecide(q, a, p, s, r);
    DigitsDecide(a, q, p, r, s);
  }

  lemma QuotientMultiple(v: nat, p: nat)
    requires p > 0
    ensures v / p * p == MultipleBelow(v, p)
  {
  }

  /** The leading three bytes of a longer string, as its value's quotient. */
  lemma {:induction false} LongTarget(s: Bytes)
    requires |s| >= 3
    ensures Times(MantissaOf(s[0], s[1], s[2]), Pow256(|s| - 3)) == MultipleBelow(Value(s), Pow256(|s| - 3))
  {
    hide Value, Pow256;
    var m, p := MantissaOf(s[0], s[1], s[2]), Pow256(|s| - 3);
    assert s == [s[0], s[1], s[2]] + s[3..];
    ValueConcat([s[0], s[1], s[2]], s[3..]);
    ValueOfThree(s[0], s[1], s[2]);
    ValueBound(s[3..]);
    DivideSum(m, p, Value(s[3..]));
    QuotientMultiple(Value(s), p);
  }

  lemma CompactFields(k: nat, m: nat)
    requires k <= TARGET_LEN && m < 0x100_0000
    ensures k * 0x100_0000 + m < 0x1_0000_0000
    ensures Exponent(k * 0x100_0000 + m) == k && Mantissa(k * 0x100_0000 + m) == m
  {
  }

  lemma NothingBelowOne(v: nat)
    ensures MultipleBelow(v, 1) == v
  {
  }

  /** What compacting keeps: exactly the three most significant bytes. */
  lemma {:induction false} CompactMeaning(t: Bytes)
    requires |t| == TARGET_LEN
    ensures TargetValue(CompactFromTarget(t)) == RoundDown(Value(t))
  {
    hide Value, SignificantBytes, Exponent, Mantissa, FirstNonzero, MultipleBelow, Times, Over, Pow256;
    var f := FirstNonzero(t);
    FirstNonzeroCounts(t);
    LeadingZeros(t, f);
    if f == TARGET_LEN {
      assert t[f..] == [];
      ZeroTarget(t);
    } else {
      var s := t[f..];
      var b0, b1, b2 := t[f], ByteOr0(t, f + 1), ByteOr0(t, f + 2);
      CompactFields(|s|, MantissaOf(b0, b1, b2));
      if |s| >= 3 {
        LongTarget(s);
        if |s| == 3 {
          NothingBelowOne(Value(s));
          assert Pow256(0) == 1 by { PowZero(); }
        }
      } else {
        ShortTarget(s, b0, b1, b2);
      }
    }
  }

  lemma {:induction false} PowZero()
    ensures Pow256(0) == 1
  {
  }

  lemma {:induction false} ZeroTarget(t: Bytes)
    requires Value(t[|t|..]) == Value(t)
    ensures Value(t) == 0 && SignificantBytes(0) == 0 && TargetValue(0) == 0
  {
    assert t[|t|..] == [];
    ZeroMantissa(0);
  }

  lemma {:induction false} ShortTarget(s: Bytes, b0: byte, b1: byte, b2: byte)
    requires 1 <= |s| <= 2 && b0 == s[0] && b1 == ByteOr0(s, 1) && b2 == 0
    ensures Over(MantissaOf(b0, b1, b2), Pow256(3 - |s|)) == Value(s)
  {
    assert Pow256(1) == 256 * Pow256(0) && Pow256(2) == 256 * Pow256(1);
    ValueOfByte(b0);
    if |s| == 1 {
      assert s == [b0];
    } else {
      assert s == [b0] + [b1];
      ValueOfByte(b1);
      ValueConcat([b0], [b1]);
    }
  }

  /** Rounding down loses less than one part in 65536, and nothing when at most three bytes are significant. */
  lemma {:induction false} RoundDownError(v: nat)
    ensures RoundDown(v) <= v
    ensures v > 0 ==> (v - RoundDown(v)) * 0x1_0000 < v
  {
    if SignificantBytes(v) > 3 {
      var k := SignificantBytes(v);
      var p := Pow256(k - 3);
      SignificantBytesBound(v);
      assert Pow256(k - 1) == 0x1_0000 * p by {
        assert Pow256(k - 1) == 256 * Pow256(k - 2) && Pow256(k - 2) == 256 * p;
      }
      assert v % p < p;
    }
  }

  lemma {:induction false} RoundDownMonotone(u: nat, v: nat)
    requires u <= v
    ensures RoundDown(u) <= RoundDown(v)
  {
    hide MultipleBelow, SignificantBytes, Pow256;
    var j, k := SignificantBytes(u), SignificantBytes(v);
    RoundDownError(u);
    if k > 3 && u > 0 {
      SignificantBytesBound(u);
      SignificantBytesBound(v);
      if j == k {
        MultiplesOrdered(u, v, Pow256(k - 3));
      } else {
        if j > k {
          PowMonotone(k, j - 1);
          assert false;
        }
        PowMonotone(j, k - 1);
        LeadingBytesKept(v, k);
      }
    }
  }

  /** Rounding down does not go below the smallest value with as many bytes. */
  lemma {:induction false} LeadingBytesKept(v: nat, k: nat)
    requires k > 3 && Pow256(k - 1) <= v
    ensures Pow256(k - 1) <= MultipleBelow(v, Pow256(k - 3))
  {
    hide MultipleBelow;
    PowAdds(2, k - 3);
    MultipleFloor(Pow256(2), v, Pow256(k - 3));
  }

  lemma MultiplesOrdered(u: nat, v: nat, p: nat)
    requires u <= v && p > 0
    ensures MultipleBelow(u, p) <= MultipleBelow(v, p)
  {
    QuotientMultiple(u, p);
    QuotientMultiple(v, p);
    QuotientsOrdered(u, v, p);
    var a, b := u / p, v / p;
    assert a * p <= b * p;
  }

  lemma QuotientsOrdered(u: nat, v: nat, p: nat)
    requires u <= v && p > 0
    ensures u / p <= v / p
  {
    assert u == u / p * p + u % p && v == v / p * p + v % p;
    DigitsDecide(v / p, u / p, p, v % p, u % p);
  }

  lemma MultipleFloor(a: nat, v: nat, p: nat)
    requires p > 0 && a * p <= v
    ensures a * p <= MultipleBelow(v, p)
  {
    DivideSum(a, p, 0);
    QuotientsOrdered(a * p, v, p);
    QuotientMultiple(v, p);
    var b := v / p;
    assert a * p <= b * p;
  }

  lemma MulLess(a: nat, b: nat, p: nat)
    requires p > 0
    ensures a < b ==> a * p < b * p
    ensures a <= b ==> a * p <= b * p
  {
  }

  lemma MulAssoc(a: nat, b: nat, c: nat)
    ensures a * (b * c) == (a * b) * c
  {
  }

  lemma {:induction false} PowThree()
    ensures Pow256(3) == 0x100_0000
  {
    assert Pow256(1) == 256 * Pow256(0) && Pow256(2) == 256 * Pow256(1) && Pow256(3) == 256 * Pow256(2);
  }

  lemma {:induction false} ShortBound(m: nat, e: nat)
    requires m < 0x100_0000 && e >= 3
    ensures m * Pow256(e - 3) < Pow256(e)
  {
    PowThree();
    PowAdds(3, e - 3);
    MulLess(m, Pow256(3), Pow256(e - 3));
  }

  lemma {:induction false} ShortIsMultiple(m: nat, e: nat, k: nat)
    requires 3 <= k <= e
    ensures MultipleBelow(m * Pow256(e - 3), Pow256(k - 3)) == m * Pow256(e - 3)
  {
    PowAdds(e - k, k - 3);
    MulAssoc(m, Pow256(e - k), Pow256(k - 3));
    var q := m * Pow256(e - k);
    DivideSum(q, Pow256(k - 3), 0);
    QuotientMultiple(q * Pow256(k - 3), Pow256(k - 3));
  }

  /** A 24-bit mantissa shifted by whole bytes loses nothing when rounded to its top three bytes. */
  lemma {:induction false} RoundDownOfShort(m: nat, e: nat)
    requires m < 0x100_0000 && e >= 3
    ensures RoundDown(m * Pow256(e - 3)) == m * Pow256(e - 3)
  {
    var v := m * Pow256(e - 3);
    var k := SignificantBytes(v);
    if k > 3 {
      SignificantBytesBound(v);
      ShortBound(m, e);
      if k > e {
        PowMonotone(e, k - 1);
      }
      ShortIsMultiple(m, e, k);
    }
  }

  lemma {:induction false} TargetFitsIn(bits: Compact, len: nat)
    requires len == TARGET_LEN
    ensures TargetValue(bits) < Pow256(len)
  {
    hide Exponent, Mantissa, Pow256;
    var e, m := Exponent(bits), Mantissa(bits);
    if 3 <= e <= len {
      ShortBound(m, e);
      PowMonotone(e, len);
    } else if e < 3 {
      ShiftedFits(m, 3 - e);
      PowMonotone(8, len);
    } else {
      PowMonotone(0, len);
    }
  }

  lemma {:induction false} TargetFits(bits: Compact)
    ensures TargetValue(bits) < Pow256(TARGET_LEN)
  {
    TargetFitsIn(bits, TARGET_LEN);
  }

  lemma {:induction false} ShiftedIsShort(m: nat, shift: nat)
    ensures m / Pow256(shift) <= m
  {
  }

  /** Compacting an expanded target and expanding it again gives the same target. */
  lemma {:induction false} ExpandCompactExpand(bits: Compact)
    ensures TargetValue(CompactFromTarget(ToBytes(TargetValue(bits), TARGET_LEN))) == TargetValue(bits)
  {
    var v := TargetValue(bits);
    assert TargetValue(CompactFromTarget(ToBytes(v, TARGET_LEN))) == RoundDown(v) by {
      TargetFits(bits);
      ValueOfToBytes(v, TARGET_LEN);
      CompactMeaning(ToBytes(v, TARGET_LEN));
    }
    TargetsAreShort(bits);
  }

  /** Expanding a compact target with a full mantissa and compacting it again gives the same bits. */
  lemma {:induction false} CompactExpandCompact(bits: Compact)
    requires 3 <= Exponent(bits) <= TARGET_LEN && Mantissa(bits) >= 0x1_0000
    ensures CompactFromTarget(ToBytes(TargetValue(bits), TARGET_LEN)) == bits
  {
    hide Exponent, Mantissa, Pow256, Value, ToBytes, SignificantBytes, FirstNonzero, MultipleBelow;
    var e, m, v := Exponent(bits), Mantissa(bits), TargetValue(bits);
    var t := ToBytes(v, TARGET_LEN);
    TargetFits(bits);
    ValueOfToBytes(v, TARGET_LEN);
    FullMantissaCounts(m, e);
    FirstNonzeroCounts(t);
    var s := t[TARGET_LEN - e..];
    LeadingZeros(t, TARGET_LEN - e);
    LongTarget(s);
    ShortIsMultiple(m, e, e);
    SameMantissa(MantissaOf(s[0], s[1], s[2]), m, Pow256(e - 3));
    assert s[1] == ByteOr0(t, TARGET_LEN - e + 1) && s[2] == ByteOr0(t, TARGET_LEN - e + 2);
    BitsOfFields(bits);
  }

  lemma SameMantissa(a: nat, b: nat, p: nat)
    requires p > 0 && a * p == b * p
    ensures a == b
  {
    DigitsDecide(a, b, p, 0, 0);
    DigitsDecide(b, a, p, 0, 0);
  }

  lemma BitsOfFields(bits: Compact)
    ensures bits == Exponent(bits) * 0x100_0000 + Mantissa(bits)
  {
  }

  lemma {:induction false} FullMantissaCounts(m: nat, e: nat)
    requires 0x1_0000 <= m < 0x100_0000 && e >= 3
    ensures SignificantBytes(m * Pow256(e - 3)) == e
  {
    hide Pow256, SignificantBytes;
    PowAdds(2, e - 3);
    TwoBytes();
    ShortBound(m, e);
    assert m * Pow256(e - 3) >= 0x1_0000 * Pow256(e - 3);
    SignificantBytesUnique(m * Pow256(e - 3), e);
  }

  lemma {:induction false} TargetsAreShort(bits: Compact)
    ensures RoundDown(TargetValue(bits)) == TargetValue(bits)
  {
    var e, m := Exponent(bits), Mantissa(bits);
    if 3 <= e <= TARGET_LEN {
      RoundDownOfShort(m, e);
    } else if e < 3 {
      ShiftedIsShort(m, 3 - e);
      RoundDownOfShort(m / Pow256(3 - e), 3);
      assert TargetValue(bits) * Pow256(0) == TargetValue(bits);
    } else {
      assert SignificantBytes(0) == 0;
    }
  }

  /** The integer a compact target stands for, from its exponent byte and its 24-bit mantissa. */
  lemma {:induction false} TargetOfFields(bits: Compact, e: nat, m: nat)
    requires bits == e * 0x100_0000 + m && m < 0x100_0000
    ensures e > 32 ==> TargetValue(bits) == 0
    ensures 3 <= e <= 32 ==> TargetValue(bits) == m * Pow256(e - 3)
    ensures e == 2 ==> TargetValue(bits) == m / 0x100
    ensures e == 1 ==> TargetValue(bits) == m / 0x1_0000
    ensures e == 0 ==> TargetValue(bits) == 0
  {
    assert Exponent(bits) == e && Mantissa(bits) == m by { FieldsOf(bits, e, m); }
    hide Exponent, Mantissa, Pow256;
    TwoBytes();
    PowThree();
    PowOne();
  }

  lemma FieldsOf(bits: Compact, e: nat, m: nat)
    requires bits == e * 0x100_0000 + m && m < 0x100_0000
    ensures Exponent(bits) == e && Mantissa(bits) == m
  {
  }

  lemma PowOne()
    ensures Pow256(1) == 0x100
  {
    assert Pow256(1) == 256 * Pow256(0);
  }

  /** A value that three bytes and a shift by whole bytes can carry. */
  ghost predicate Short(v: nat) { exists m: nat, k: nat :: m < 0x100_0000 && v == Times(m, Pow256(k)) }

  lemma {:induction false} ShortOf(m: nat, k: nat)
    requires m < 0x100_0000
    ensures Short(m * Pow256(k))
  {
    assert Times(m, Pow256(k)) == m * Pow256(k);
  }

  /** Rounding down gives the largest value not above that three bytes and a shift by whole bytes can carry. */
  lemma {:induction false} RoundDownExactly(v: nat, s: nat)
    ensures RoundDown(v) <= v && Short(RoundDown(v))
    ensures Short(s) && s <= v ==> s <= RoundDown(v)
  {
    hide MultipleBelow, SignificantBytes, Pow256, Short;
    RoundDownError(v);
    RoundDownIsShort(v);
    if Short(s) && s <= v {
      ShortIsKept(s);
      RoundDownMonotone(s, v);
    }
  }

  lemma {:induction false} ShortIsKept(s: nat)
    requires Short(s)
    ensures RoundDown(s) == s
  {
    hide RoundDown, Pow256;
    var m: nat, k: nat :| m < 0x100_0000 && s == Times(m, Pow256(k));
    RoundDownOfShort(m, k + 3);
  }

  lemma {:induction false} RoundDownIsShort(v: nat)
    ensures Short(RoundDown(v))
  {
    hide MultipleBelow, SignificantBytes, Pow256, Short;
    var k := SignificantBytes(v);
    PowZero();
    PowThree();
    if v == 0 {
      RoundDownZero(0);
      ShortOf(0, 0);
      return;
    }
    SignificantBytesBound(v);
    if k > 3 {
      var p := Pow256(k - 3);
      PowAdds(3, k - 3);
      assert Pow256(k) == 0x100_0000 * p by {
        assert 3 + (k - 3) == k;
      }
      QuotientMultiple(v, p);
      QuotientLess(v, 0x100_0000, p);
      ShortOf(v / p, k - 3);
    } else {
      PowMonotone(k, 3);
      ShortOf(v, 0);
      assert v * 1 == v;
    }
  }

  lemma QuotientLess(v: nat, a: nat, p: nat)
    requires p > 0 && v < a * p
    ensures v / p < a
  {
    assert v == v / p * p + v % p;
    DigitsDecide(v / p, a, p, v % p, 0);
  }

  // ---- Retargeting ------------------------------------------------------------------------------

  /** What `[0xff; 32]` reads as in a double, which rounds 2^256 - 1 up: one more than 32 bytes can hold. */
  function TargetCeiling(): nat { Pow256(TARGET_LEN) }

  function Ratio(actualSpan: int, expectedSpan: nat): (ratio: real)
    requires expectedSpan > 0
    ensures 0.25 <= ratio <= 4.0
  {
    var r := actualSpan as real / expectedSpan as real;
    if r < 0.25 then 0.25 else if r > 4.0 then 4.0 else r
  }

  function Product(target: nat, ratio: real): (x: real)
    ensures ratio >= 0.0 ==> x >= 0.0
  {
    target as real * ratio
  }

  /** The integer part, clamped to the ceiling. */
  function Clamped(x: real): nat
    requires x >= 0.0
  {
    if x > TargetCeiling() as real then TargetCeiling() else x.Floor
  }

  /** Reads a target's magnitude, most significant byte first. */
  method TargetAsReal(target: Bytes) returns (value: real)
    ensures value == Value(target) as real
  {
    value := 0.0;
    assert target[..0] == [];
    for i := 0 to |target|
      invariant value == Value(target[..i]) as real
    {
      assert target[..i + 1][..i] == target[..i];
      value := value * 256.0 + target[i] as real;
    }
    assert target[..|target|] == target;
  }

  /** Writes the clamped value's 32 low bytes, least significant first. */
  method RealAsTarget(x: real) returns (out: array<byte>)
    requires x >= 0.0
    ensures fresh(out) && out[..] == ToBytes(Clamped(x), TARGET_LEN)
  {
    hide Clamped;
    var value := Clamped(x);
    out := new byte[TARGET_LEN](_ => 0);
    var i := TARGET_LEN;
    while i > 0
      invariant 0 <= i <= TARGET_LEN
      invariant ToBytes(Clamped(x), TARGET_LEN) == ToBytes(value, i) + out[i..]
    {
      i := i - 1;
      assert ToBytes(value, i + 1) == ToBytes(value / 256, i) + [value % 256];
      ghost var before := out[i + 1..];
      out[i] := value % 256;
      assert out[i..] == [value % 256] + before;
      value := value / 256;
    }
  }

  /** Scales the target by the clamped ratio of the actual to the expected span and re-encodes it. */
  function Retarget(bits: Compact, actualSpan: int, expectedSpan: nat): Compact
    requires expectedSpan > 0
  {
    CompactFromTarget(ToBytes(Clamped(Product(TargetValue(bits), Ratio(actualSpan, expectedSpan))), TARGET_LEN))
  }

  /** The scaled target reaches the ceiling. */
  predicate Overflows(bits: Compact, actualSpan: int, expectedSpan: nat)
    requires expectedSpan > 0
  {
    Product(TargetValue(bits), Ratio(actualSpan, expectedSpan)) >= TargetCeiling() as real
  }

  lemma {:induction false} CeilingWritesZeros(n: nat)
    ensures Value(ToBytes(Pow256(n), n)) == 0
  {
    if n > 0 {
      CeilingWritesZeros(n - 1);
      assert Pow256(n) / 256 == Pow256(n - 1) && Pow256(n) % 256 == 0;
      assert ToBytes(Pow256(n), n)[..n - 1] == ToBytes(Pow256(n - 1), n - 1);
    }
  }

  lemma ClampedExactly(x: real)
    requires x >= 0.0
    ensures x >= TargetCeiling() as real ==> Clamped(x) == TargetCeiling()
    ensures x < TargetCeiling() as real ==> Clamped(x) == x.Floor < TargetCeiling()
  {
  }

  /** The new target is the scaled one rounded down, or nothing at all if that no longer fits. */
  lemma {:induction false} RetargetMeaning(bits: Compact, actualSpan: int, expectedSpan: nat)
    requires expectedSpan > 0
    ensures TargetValue(Retarget(bits, actualSpan, expectedSpan))
              == if Overflows(bits, actualSpan, expectedSpan) then 0
                 else RoundDown(Product(TargetValue(bits), Ratio(actualSpan, expectedSpan)).Floor)
  {
    hide CompactFromTarget, TargetValue, RoundDown, Clamped, Product, Pow256, ToBytes, Value;
    var x := Product(TargetValue(bits), Ratio(actualSpan, expectedSpan));
    var v := Clamped(x);
    ClampedExactly(x);
    CompactMeaning(ToBytes(v, TARGET_LEN));
    if v < TargetCeiling() {
      ValueOfToBytes(v, TARGET_LEN);
    } else {
      CeilingWritesZeros(TARGET_LEN);
      RoundDownZero(0);
    }
  }

  lemma {:induction false} RoundDownZero(v: nat)
    ensures RoundDown(v) == 0 <==> v == 0
  {
    RoundDownError(v);
  }

  /** The whole-number target a measured span leads to: scaled by the spans, at most fourfold either way, or zero. */
  function NextTarget(target: nat, actual: int, expected: nat): nat
    requires expected > 0
  {
    if 4 * actual <= expected then RoundDown(Over(target, 4))
    else
      var span: nat := if actual >= 4 * expected then 4 * expected else actual;
      if Times(target, span) >= Times(Pow256(32), expected) then 0 else RoundDown(Over(Times(target, span), expected))
  }

  lemma FloorOfQuotient(n: nat, d: nat)
    requires d > 0
    ensures (n as real / d as real).Floor == n / d
  {
    var q, r := n / d, n % d;
    assert n as real == q as real * d as real + r as real;
    assert n as real / d as real == q as real + r as real / d as real by {
      DivideReals(n as real, q as real, r as real, d as real);
    }
    FractionBelowOne(r as real, d as real);
  }

  lemma DivideReals(n: real, q: real, r: real, d: real)
    requires d > 0.0 && n == q * d + r
    ensures n / d == q + r / d
  {
  }

  lemma FractionBelowOne(r: real, d: real)
    requires 0.0 <= r < d
    ensures 0.0 <= r / d < 1.0
  {
    QuotientBelowOne(r, d);
  }

  /** Scaling by the quotient of two whole spans is one division, rounded down. */
  lemma {:induction false} ScaledWhole(target: nat, span: nat, expected: nat)
    requires expected > 0
    ensures var x := Product(target, span as real / expected as real);
            && x.Floor == target * span / expected
            && (forall bound: nat :: x >= bound as real <==> target * span >= bound * expected)
  {
    var t, s, e := target as real, span as real, expected as real;
    assert (target * span) as real == t * s;
    assert t * (s / e) == (t * s) / e by { MoveQuotient(t, s, e); }
    FloorOfQuotient(target * span, expected);
    forall bound: nat ensures Product(target, s / e) >= bound as real <==> target * span >= bound * expected {
      QuotientAtLeast(target * span, expected, bound);
    }
  }

  lemma MoveQuotient(t: real, s: real, e: real)
    requires e > 0.0
    ensures t * (s / e) == (t * s) / e
  {
  }

  lemma QuotientAtLeast(n: nat, d: nat, bound: nat)
    requires d > 0
    ensures n as real / d as real >= bound as real <==> n >= bound * d
  {
    var x, e, b := n as real / d as real, d as real, bound as real;
    assert x * e == n as real;
    assert (bound * d) as real == b * e;
    KeepsOrder(b, x, e);
    KeepsStrict(x, b, e);
  }

  lemma KeepsStrict(x: real, y: real, b: real)
    requires b > 0.0
    ensures x < y ==> x * b < y * b
  {
    assert x < y ==> (y - x) * b > 0.0;
  }

  /** The clamped ratio is that of a whole span to four times the expected one. */
  lemma {:induction false} RatioOfSpans(actual: int, expected: nat)
    requires expected > 0
    ensures 4 * actual <= expected ==> Ratio(actual, expected) == 1 as real / 4 as real
    ensures expected <= 4 * actual && actual <= 4 * expected ==> Ratio(actual, expected) == actual as real / expected as real
    ensures actual >= 4 * expected ==> Ratio(actual, expected) == (4 * expected) as real / expected as real
  {
    var e := expected as real;
    QuotientCompare(actual as real, e, 0.25);
    QuotientCompare(actual as real, e, 4.0);
    QuotientCompare((4 * expected) as real, e, 4.0);
    assert (4 * expected) as real == 4.0 * e;
  }

  lemma QuotientCompare(x: real, y: real, k: real)
    requires y > 0.0
    ensures (x / y < k <==> x < k * y) && (x / y > k <==> x > k * y) && (x / y == k <==> x == k * y)
  {
    var q := x / y;
    assert q * y == x;
    KeepsStrict(q, k, y);
    KeepsStrict(k, q, y);
  }

  /**
   The recomputed target in whole numbers: the old one times the measured span, divided by the expected span and
   rounded down to what compact bits can carry, with the span held between a quarter of and four times the
   expected one; and zero once that no longer fits in 32 bytes.
   */
  lemma {:induction false} RetargetExactly(bits: Compact, actual: int, expected: nat)
    requires expected > 0
    ensures TargetValue(Retarget(bits, actual, expected)) == NextTarget(TargetValue(bits), actual, expected)
  {
    hide TargetValue, Retarget, RoundDown, Pow256, Product, Ratio;
    var t := TargetValue(bits);
    RetargetMeaning(bits, actual, expected);
    RatioOfSpans(actual, expected);
    if 4 * actual <= expected {
      ScaledWhole(t, 1, 4);
      TargetFits(bits);
      assert t * 1 / 4 == t / 4;
    } else {
      var span: nat := if actual >= 4 * expected then 4 * expected else actual;
      ScaledWhole(t, span, expected);
      ProductsAtCeiling(t, span, expected);
    }
  }

  lemma ProductsAtCeiling(t: nat, span: nat, expected: nat)
    requires expected > 0
    requires forall bound: nat :: Product(t, span as real / expected as real) >= bound as real <==> t * span >= bound * expected
    ensures Product(t, span as real / expected as real) >= TargetCeiling() as real <==> t * span >= TargetCeiling() * expected
  {
    hide TargetCeiling, Product;
  }

  /** A retarget ends in the unsatisfiable target exactly if the scaled target is below one or does not fit in 32 bytes. */
  lemma {:induction false} RetargetVanishesExactly(bits: Compact, actual: int, expected: nat)
    requires expected > 0
    ensures TargetValue(Retarget(bits, actual, expected)) == 0 <==>
              || Product(TargetValue(bits), Ratio(actual, expected)) < 1.0
              || Product(TargetValue(bits), Ratio(actual, expected)) >= Pow256(TARGET_LEN) as real
  {
    hide RoundDown, TargetValue, Retarget, Pow256, Product, Ratio;
    RetargetMeaning(bits, actual, expected);
    RoundDownZero(Product(TargetValue(bits), Ratio(actual, expected)).Floor);
  }

  lemma RatioMonotone(a1: int, a2: int, expected: nat)
    requires expected > 0 && a1 <= a2
    ensures Ratio(a1, expected) <= Ratio(a2, expected)
  {
    assert a1 as real / expected as real <= a2 as real / expected as real;
  }

  lemma ProductMonotone(target: nat, r1: real, r2: real)
    requires r1 <= r2
    ensures Product(target, r1) <= Product(target, r2)
  {
    var t := target as real;
    assert t * (r2 - r1) >= 0.0;
    assert t * r2 == t * r1 + t * (r2 - r1);
  }

  /** Clamping to [1/4, 4] keeps the scaled target within a factor of four. */
  lemma ProductBounded(target: nat, ratio: real)
    requires 0.25 <= ratio <= 4.0
    ensures target / 4 <= Product(target, ratio).Floor <= 4 * target
  {
    ProductMonotone(target, 0.25, ratio);
    ProductMonotone(target, ratio, 4.0);
    assert Product(target, 4.0) == (4 * target) as real;
    assert (target / 4) as real <= Product(target, 0.25);
  }

  /**
   Slower blocks never make the next target smaller, unless they are so slow that the target no longer
   fits in 32 bytes: then it is zero, and the comparison fails unless both are.
   */
  lemma {:induction false} RetargetMonotone(bits: Compact, a1: int, a2: int, expected: nat)
    requires expected > 0 && a1 <= a2
    ensures TargetValue(Retarget(bits, a1, expected)) <= TargetValue(Retarget(bits, a2, expected)) <==>
              !Overflows(bits, a2, expected) || TargetValue(Retarget(bits, a1, expected)) == 0
  {
    hide TargetValue, Retarget, RoundDown, Pow256, Product, Ratio;
    RetargetMeaning(bits, a1, expected);
    RetargetMeaning(bits, a2, expected);
    RatioMonotone(a1, a2, expected);
    ProductMonotone(TargetValue(bits), Ratio(a1, expected), Ratio(a2, expected));
    RoundDownMonotone(Product(TargetValue(bits), Ratio(a1, expected)).Floor, Product(TargetValue(bits), Ratio(a2, expected)).Floor);
  }

  /**
   One retarget raises the target at most fourfold, and lowers it at most fourfold, up to the compact
   rounding, exactly if the scaled target fits in 32 bytes.
   */
  lemma {:induction false} RetargetBounded(bits: Compact, actual: int, expected: nat)
    requires expected > 0
    ensures TargetValue(Retarget(bits, actual, expected)) <= 4 * TargetValue(bits)
    ensures TargetValue(Retarget(bits, actual, expected)) * 0x1_0000 >= TargetValue(bits) / 4 * 0xffff <==>
              !Overflows(bits, actual, expected)
  {
    hide TargetValue, Retarget, RoundDown, Pow256, Product;
    var x := Product(TargetValue(bits), Ratio(actual, expected));
    RetargetMeaning(bits, actual, expected);
    ProductBounded(TargetValue(bits), Ratio(actual, expected));
    RoundDownError(x.Floor);
    if Overflows(bits, actual, expected) {
      CeilingIsLarge();
      assert 4 * TargetValue(bits) >= TargetCeiling();
    }
  }

  lemma CeilingIsLarge()
    ensures TargetCeiling() >= 0x1_0000
  {
    hide Pow256;
    PowAdds(2, 30);
    assert Pow256(2) == 0x1_0000 by { TwoBytes(); }
    AtLeastOnce(Pow256(30), Pow256(2));
  }

  lemma OnPaceRatio(expected: nat)
    requires expected > 0
    ensures Ratio(expected, expected) == 1.0
  {
    var x := expected as real;
    assert x / x == 1.0;
  }

  lemma ProductByOne(target: nat)
    ensures Product(target, 1.0) == target as real
  {
  }

  /** On time, nothing changes. */
  lemma {:induction false} RetargetOnPace(bits: Compact, expected: nat)
    requires expected > 0
    ensures TargetValue(Retarget(bits, expected, expected)) == TargetValue(bits) && !Overflows(bits, expected, expected)
  {
    hide TargetValue, RoundDown, Retarget, Pow256, Product, Ratio;
    RetargetMeaning(bits, expected, expected);
    OnPaceRatio(expected);
    TargetFits(bits);
    ProductByOne(TargetValue(bits));
    TargetsAreShort(bits);
  }

  lemma {:induction false} FasterFits(bits: Compact, actual: int, expected: nat)
    requires expected > 0 && actual <= expected
    ensures !Overflows(bits, actual, expected)
  {
    hide TargetValue, Pow256, Product, Ratio;
    RetargetOnPace(bits, expected);
    RatioMonotone(actual, expected, expected);
    ProductMonotone(TargetValue(bits), Ratio(actual, expected), Ratio(expected, expected));
  }

  /**
   Blocks faster than expected never make the target larger. Slower ones never make it smaller, exactly
   unless the scaled target no longer fits in 32 bytes. On-time ones keep it.
   */
  lemma {:induction false} RetargetFollowsPace(bits: Compact, actual: int, expected: nat)
    requires expected > 0
    ensures actual >= expected ==>
              (TargetValue(Retarget(bits, actual, expected)) >= TargetValue(bits) <==> !Overflows(bits, actual, expected))
    ensures actual <= expected ==> TargetValue(Retarget(bits, actual, expected)) <= TargetValue(bits)
  {
    hide TargetValue, RoundDown, Retarget, Pow256, Product, Ratio, Overflows;
    RetargetOnPace(bits, expected);
    if actual >= expected {
      RetargetMonotone(bits, expected, actual, expected);
      OverflowNeedsTarget(bits, actual, expected);
    }
    if actual <= expected {
      RetargetMonotone(bits, actual, expected, expected);
    }
  }

  lemma {:induction false} OverflowNeedsTarget(bits: Compact, actual: int, expected: nat)
    requires expected > 0
    ensures Overflows(bits, actual, expected) ==> 4 * TargetValue(bits) >= TargetCeiling() && TargetValue(bits) > 0
  {
    hide TargetValue, Pow256, Product;
    ProductBounded(TargetValue(bits), Ratio(actual, expected));
    CeilingIsLarge();
  }

  /** A retarget makes mining strictly harder exactly after a faster interval, or when the scaled target no longer fits. */
  lemma {:induction false} RetargetHarderExactly(bits: Compact, actual: int, expected: nat)
    requires expected > 0 && TargetValue(bits) > 0
    ensures TargetValue(Retarget(bits, actual, expected)) < TargetValue(bits) <==>
              actual < expected || Overflows(bits, actual, expected)
  {
    hide TargetValue, RoundDown, Retarget, Pow256, Product, Ratio, Overflows;
    RetargetFollowsPace(bits, actual, expected);
    RetargetMeaning(bits, actual, expected);
    if actual < expected {
      FasterFits(bits, actual, expected);
      FasterShrinks(TargetValue(bits), actual, expected);
      RoundDownError(Product(TargetValue(bits), Ratio(actual, expected)).Floor);
    }
  }

  lemma FasterShrinks(target: nat, actual: int, expected: nat)
    requires expected > 0 && actual < expected && target > 0
    ensures Product(target, Ratio(actual, expected)) < target as real
  {
    hide Ratio;
    FasterRatio(actual, expected);
    LessOfPositive(target as real, Ratio(actual, expected));
  }

  lemma LessOfPositive(x: real, r: real)
    requires x > 0.0 && r < 1.0
    ensures x * r < x
  {
    assert x * (1.0 - r) > 0.0;
  }

  lemma FasterRatio(actual: int, expected: nat)
    requires expected > 0 && actual < expected
    ensures Ratio(actual, expected) < 1.0
  {
    QuotientBelowOne(actual as real, expected as real);
  }

  lemma QuotientBelowOne(x: real, y: real)
    requires y > 0.0 && x < y
    ensures x / y < 1.0
  {
    assert x / y * y == x;
    KeepsOrder(1.0, x / y, y);
  }

  // ---- Where a slow interval ends the chain -------------------------------------------------------

  /** At the easiest target, an interval one second too slow writes the target zero. */
  lemma {:induction false} EasiestTargetOverflows()
    ensures Overflows(0x20ff_ffff, 86_401, 86_400) && Retarget(0x20ff_ffff, 86_401, 86_400) == 0
    ensures TargetValue(0x20ff_ffff) > 0 && TargetValue(Retarget(0x20ff_ffff, 86_401, 86_400)) == 0
  {
    hide Pow256, ToBytes, Value, CompactFromTarget;
    var p := Pow256(29);
    PowAdds(3, 29);
    assert Pow256(3) == 0x100_0000 by { PowThree(); }
    assert TargetValue(0x20ff_ffff) == 0xff_ffff * p by { EasiestTarget(); }
    assert Ratio(86_401, 86_400) == 86_401.0 / 86_400.0;
    SlightlySlow(p);
    CeilingWritesZeros(TARGET_LEN);
    ZeroIsZero(ToBytes(TargetCeiling(), TARGET_LEN));
    RetargetMeaning(0x20ff_ffff, 86_401, 86_400);
  }

  /** The value of a compact target, from its two fields. */
  lemma ValueOfFields(bits: Compact, e: nat, m: nat)
    requires bits == e * 0x100_0000 + m && m < 0x100_0000 && 3 <= e <= TARGET_LEN
    ensures TargetValue(bits) == m * Pow256(e - 3)
  {
    hide Pow256;
  }

  lemma EasiestTarget()
    ensures TargetValue(0x20ff_ffff) == 0xff_ffff * Pow256(29)
  {
    hide TargetValue, Pow256;
    ValueOfFields(0x20ff_ffff, 0x20, 0xff_ffff);
  }

  lemma SlightlySlow(p: nat)
    requires p > 0
    ensures Product(0xff_ffff * p, 86_401.0 / 86_400.0) >= (0x100_0000 * p) as real
  {
    var x := p as real;
    assert 16777215.0 * (86_401.0 / 86_400.0) >= 16777216.0;
    assert (0xff_ffff * p) as real == 16777215.0 * x;
    assert Product(0xff_ffff * p, 86_401.0 / 86_400.0) == x * (16777215.0 * (86_401.0 / 86_400.0));
  }

  lemma {:induction false} ZeroIsZero(t: Bytes)
    requires |t| == TARGET_LEN && Value(t) == 0
    ensures CompactFromTarget(t) == 0
  {
    FirstNonzeroCounts(t);
    assert SignificantBytes(0) == 0;
  }

  /** The compact target after retarget intervals of these spans. */
  function AfterIntervals(bits: Compact, spans: seq<int>): Compact {
    if |spans| == 0 then bits else Retarget(AfterIntervals(bits, spans[..|spans| - 1]), spans[|spans| - 1], 86_400)
  }

  /** In units of 256^27, what the initial target has grown to at least after `n` intervals that were four times too slow. */
  function GrownTo(n: nat): nat { if n == 0 then 0xff_ffff else GrownTo(n - 1) * 39 / 10 }

  lemma {:induction false} SlowIntervalGrows(bits: Compact, span: int)
    requires span >= 4 * 86_400
    ensures Overflows(bits, span, 86_400) <==> 4 * TargetValue(bits) >= TargetCeiling()
    ensures Overflows(bits, span, 86_400) ==> TargetValue(Retarget(bits, span, 86_400)) == 0
    ensures !Overflows(bits, span, 86_400) ==> 10 * TargetValue(Retarget(bits, span, 86_400)) >= 39 * TargetValue(bits)
  {
    hide TargetValue, Retarget, RoundDown, Pow256;
    var v := 4 * TargetValue(bits);
    assert span as real / 86_400.0 >= 4.0;
    assert Product(TargetValue(bits), 4.0) == v as real;
    RetargetMeaning(bits, span, 86_400);
    RoundDownError(v);
  }

  lemma {:induction false} GrowsUntilZero(spans: seq<int>) returns (n: nat)
    requires forall i :: 0 <= i < |spans| ==> spans[i] >= 4 * 86_400
    ensures n <= |spans|
    ensures || TargetValue(AfterIntervals(INITIAL_DIFFICULTY_BITS, spans[..n])) == 0
            || (n == |spans| && TargetValue(AfterIntervals(INITIAL_DIFFICULTY_BITS, spans)) >= GrownTo(n) * Pow256(27))
    decreases |spans|
  {
    hide TargetValue, Retarget, Pow256, Overflows;
    n := |spans|;
    assert spans[..n] == spans;
    if n == 0 {
      InitialValue();
    } else {
      var before := spans[..n - 1];
      var m := GrowsUntilZero(before);
      if TargetValue(AfterIntervals(INITIAL_DIFFICULTY_BITS, before[..m])) == 0 {
        assert before[..m] == spans[..m];
        n := m;
      } else {
        var t := AfterIntervals(INITIAL_DIFFICULTY_BITS, before);
        SlowIntervalGrows(t, spans[n - 1]);
        ScaleBound(TargetValue(t), TargetValue(Retarget(t, spans[n - 1], 86_400)), GrownTo(n - 1), Pow256(27));
      }
    }
  }

  lemma ScaleBound(t: nat, t2: nat, k: nat, p: nat)
    requires t >= k * p
    ensures 10 * t2 >= 39 * t ==> t2 >= k * 39 / 10 * p
  {
    var q := k * 39 / 10;
    assert 10 * q <= 39 * k;
    assert (10 * q) * p <= (39 * k) * p;
    assert 10 * (q * p) == (10 * q) * p && 39 * (k * p) == (39 * k) * p;
  }

  lemma InitialValue()
    ensures TargetValue(INITIAL_DIFFICULTY_BITS) == 0xff_ffff * Pow256(27)
  {
    hide TargetValue, Pow256;
    ValueOfFields(INITIAL_DIFFICULTY_BITS, 0x1e, 0xff_ffff);
  }

  lemma {:induction false} FiveBytes()
    ensures TargetCeiling() == 0x100_0000_0000 * Pow256(27)
  {
    hide Pow256;
    PowAdds(5, 27);
    PowAdds(2, 3);
    TwoBytes();
    PowThree();
  }

  lemma GrownEight()
    ensures 4 * GrownTo(8) >= 0x100_0000_0000
  {
    assert GrownTo(1) == 65431138;
    assert GrownTo(2) == GrownTo(1) * 39 / 10;
    assert GrownTo(4) == GrownTo(3) * 39 / 10;
    assert GrownTo(6) == GrownTo(5) * 39 / 10;
  }

  /**
   From the initial target, nine intervals each at least four times too slow bring the network to the target
   zero, which no hash meets.
   */
  lemma {:induction false} NineSlowIntervals(spans: seq<int>) returns (n: nat)
    requires |spans| == 9 && forall i :: 0 <= i < 9 ==> spans[i] >= 4 * 86_400
    ensures n <= 9 && TargetValue(AfterIntervals(INITIAL_DIFFICULTY_BITS, spans[..n])) == 0
  {
    hide TargetValue, Retarget, Pow256, Overflows, TargetCeiling, GrownTo;
    var eight := spans[..8];
    n := GrowsUntilZero(eight);
    if TargetValue(AfterIntervals(INITIAL_DIFFICULTY_BITS, eight[..n])) == 0 {
      assert eight[..n] == spans[..n];
    } else {
      n := 9;
      assert spans[..9] == spans;
      GrownEight();
      FiveBytes();
      var t := TargetValue(AfterIntervals(INITIAL_DIFFICULTY_BITS, eight));
      EnoughForCeiling(t, GrownTo(8), Pow256(27));
      SlowIntervalGrows(AfterIntervals(INITIAL_DIFFICULTY_BITS, eight), spans[8]);
    }
  }

  lemma EnoughForCeiling(t: nat, k: nat, p: nat)
    requires t >= k * p && 4 * k >= 0x100_0000_0000
    ensures 4 * t >= 0x100_0000_0000 * p
  {
    assert (4 * k) * p >= 0x100_0000_0000 * p;
    assert 4 * (k * p) == (4 * k) * p;
  }

  // ---- Work ---------------------------------------------------------------------------------------

  function Pow2(n: nat): (p: nat)
    ensures p >= 1
  {
    if n == 0 then 1 else 2 * Pow2(n - 1)
  }

  /** The largest finite double. */
  const F64_MAX: real := (9007199254740991 * Pow2(971)) as real

  function Quotient(a: nat, b: nat): (q: real)
    requires b > 0
    ensures a > 0 ==> q > 0.0
  {
    a as real / b as real
  }

  /** What one block adds to its chain's cumulative work. */
  function WorkOf(bits: Compact): (w: real)
    ensures w > 0.0
  {
    TargetFits(bits);
    if TargetValue(bits) == 0 then F64_MAX else Quotient(TargetCeiling(), TargetValue(bits) + 1)
  }

  /** Work is inversely proportional to one more than the target; an unsatisfiable target counts as the largest double. */
  lemma {:induction false} WorkExactly(bits: Compact)
    ensures TargetValue(bits) > 0 ==> WorkOf(bits) * (TargetValue(bits) + 1) as real == Pow256(32) as real
    ensures TargetValue(bits) == 0 ==> WorkOf(bits) == ((Pow2(53) - 1) * Pow2(971)) as real
  {
    hide TargetValue, Pow256;
    FiftyThreeBits();
  }

  lemma {:induction false} FiftyThreeBits()
    ensures Pow2(53) == 9007199254740992
  {
    Pow2Sums(26, 27);
    Pow2Sums(13, 13);
    Pow2Sums(13, 14);
    assert Pow2(3) == 8 && Pow2(7) == 8 * Pow2(4) && Pow2(4) == 2 * Pow2(3);
    assert Pow2(13) == 64 * Pow2(7) && Pow2(14) == 2 * Pow2(13);
  }

  lemma {:induction false} Pow2Sums(m: nat, n: nat)
    ensures Pow2(m + n) == Pow2(m) * Pow2(n)
  {
    if m > 0 {
      Pow2Sums(m - 1, n);
      assert Pow2(m) * Pow2(n) == 2 * (Pow2(m - 1) * Pow2(n));
    }
  }

  lemma QuotientAntitone(a: nat, b: nat, c: nat)
    requires a > 0 && 0 < b < c
    ensures Quotient(a, c) < Quotient(a, b)
  {
    var x, y := Quotient(a, b), Quotient(a, c);
    assert x * b as real == a as real && y * c as real == a as real;
    assert y * (c - b) as real > 0.0;
    assert y * b as real < a as real;
    KeepsOrder(x, y, b as real);
  }

  lemma KeepsOrder(x: real, y: real, b: real)
    requires b > 0.0
    ensures x <= y ==> x * b <= y * b
  {
    assert x <= y ==> (y - x) * b >= 0.0;
  }

  /** A harder (smaller, still satisfiable) target is more work. */
  lemma HarderIsMoreWork(easy: Compact, hard: Compact)
    requires 0 < TargetValue(hard) < TargetValue(easy)
    ensures WorkOf(easy) < WorkOf(hard)
  {
    hide TargetValue, Pow256, Quotient, Pow2;
    TargetFits(easy);
    QuotientAntitone(TargetCeiling(), TargetValue(hard) + 1, TargetValue(easy) + 1);
  }

  /** The program's proof-of-work check, a byte comparison, is the integer comparison. */
  lemma {:induction false} MeetsTargetIsIntegerOrder(hash: Bytes, target: Bytes)
    requires |hash| == TARGET_LEN && |target| == TARGET_LEN
    ensures !LexLess(target, hash) <==> Value(hash) <= Value(target)
  {
    LexIsIntegerOrder(target, hash);
  }
}
