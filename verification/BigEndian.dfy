/** Byte strings read as big-endian integers. */
module BigEndian {
  import opened Prelude

  function Pow256(n: nat): (p: nat)
    ensures p >= 1
  {
    if n == 0 then 1 else 256 * Pow256(n - 1)
  }

  /** The integer a byte string denotes, most significant byte first. */
  function Value(s: Bytes): nat {
    if |s| == 0 then 0 else Value(s[..|s| - 1]) * 256 + s[|s| - 1]
  }

  /** The low `n` bytes of an integer, most significant first. */
  function ToBytes(v: nat, n: nat): (s: Bytes)
    ensures |s| == n
  {
    if n == 0 then [] else ToBytes(v / 256, n - 1) + [v % 256]
  }

  /** Rust's comparison of equally long byte arrays: the first differing byte decides. */
  predicate LexLess(a: Bytes, b: Bytes)
    requires |a| == |b|
  {
    |a| > 0 && (a[0] < b[0] || (a[0] == b[0] && LexLess(a[1..], b[1..])))
  }

  lemma {:induction false} PowAdds(m: nat, n: nat)
    ensures Pow256(m + n) == Pow256(m) * Pow256(n)
  {
    if m > 0 {
      PowAdds(m - 1, n);
      assert Pow256(m) * Pow256(n) == 256 * (Pow256(m - 1) * Pow256(n));
    }
  }

  lemma {:induction false} TwoBytes()
    ensures Pow256(2) == 0x1_0000
  {
    assert Pow256(2) == 256 * Pow256(1) && Pow256(1) == 256 * Pow256(0);
  }

  lemma {:induction false} ValueBound(s: Bytes)
    ensures Value(s) < Pow256(|s|)
  {
    if |s| > 0 {
      ValueBound(s[..|s| - 1]);
    }
  }

  lemma {:induction false} ValueConcat(a: Bytes, b: Bytes)
    ensures Value(a + b) == Value(a) * Pow256(|b|) + Value(b)
  {
    if |b| == 0 {
      assert a + b == a;
    } else {
      var c := b[..|b| - 1];
      assert (a + b)[..|a + b| - 1] == a + c;
      ValueConcat(a, c);
      var p := Pow256(|c|);
      assert Pow256(|b|) == 256 * p;
      assert Value(a) * p * 256 == Value(a) * (256 * p);
    }
  }

  lemma {:induction false} ValueOfToBytes(v: nat, n: nat)
    ensures v < Pow256(n) ==> Value(ToBytes(v, n)) == v
  {
    if n > 0 {
      ValueOfToBytes(v / 256, n - 1);
      assert ToBytes(v, n)[..n - 1] == ToBytes(v / 256, n - 1);
    }
  }

  lemma LastByte(v: nat, b: byte)
    ensures (v * 256 + b) / 256 == v && (v * 256 + b) % 256 == b
  {
  }

  lemma {:induction false} ToBytesOfValue(s: Bytes)
    ensures ToBytes(Value(s), |s|) == s
  {
    if |s| > 0 {
      var head, last := s[..|s| - 1], s[|s| - 1];
      ToBytesOfValue(head);
      LastByte(Value(head), last);
      assert s == head + [last];
    }
  }

  lemma ValueInjective(a: Bytes, b: Bytes)
    requires |a| == |b| && Value(a) == Value(b)
    ensures a == b
  {
    ToBytesOfValue(a);
    ToBytesOfValue(b);
  }

  lemma {:induction false} ValueOfByte(b: byte)
    ensures Value([b]) == b
  {
    var s: Bytes := [b];
    assert s[..0] == [];
    assert Value(s) == Value(s[..0]) * 256 + b;
  }

  lemma {:induction false} ValueHead(s: Bytes)
    requires |s| > 0
    ensures Value(s) == s[0] * Pow256(|s| - 1) + Value(s[1..])
  {
    var head, tail := [s[0]], s[1..];
    ValueOfByte(s[0]);
    ValueConcat(head, tail);
    assert head + tail == s;
  }

  lemma AtLeastOnce(x: nat, p: nat)
    requires x >= 1
    ensures x * p >= p
  {
    assert x * p == (x - 1) * p + p;
  }

  lemma DigitsDecide(x: nat, y: nat, p: nat, u: nat, v: nat)
    requires u < p && v < p
    ensures x * p + u < y * p + v <==> x < y || (x == y && u < v)
  {
    if x < y {
      assert (x + 1) * p <= y * p;
    } else if x > y {
      assert (y + 1) * p <= x * p;
    }
  }

  /** Byte order is integer order. */
  lemma {:induction false} LexIsIntegerOrder(a: Bytes, b: Bytes)
    requires |a| == |b|
    ensures LexLess(a, b) <==> Value(a) < Value(b)
  {
    if |a| > 0 {
      var p := Pow256(|a| - 1);
      var u, v := Value(a[1..]), Value(b[1..]);
      assert Value(a) == a[0] * p + u by { ValueHead(a); }
      assert Value(b) == b[0] * p + v by { ValueHead(b); }
      assert u < p by { ValueBound(a[1..]); }
      assert v < p by { ValueBound(b[1..]); }
      LexIsIntegerOrder(a[1..], b[1..]);
      DigitsDecide(a[0], b[0], p, u, v);
    } else {
      assert a == b;
    }
  }

  /** Appending fixed-length tails: the heads decide unless they are equal. */
  lemma {:induction false} LexOfPairs(a: Bytes, x: Bytes, b: Bytes, y: Bytes)
    requires |a| == |b| && |x| == |y|
    ensures LexLess(a + x, b + y) <==> Value(a) < Value(b) || (a == b && LexLess(x, y))
  {
    var p := Pow256(|x|);
    assert LexLess(a + x, b + y) <==> Value(a) * p + Value(x) < Value(b) * p + Value(y) by {
      LexIsIntegerOrder(a + x, b + y);
      ValueConcat(a, x);
      ValueConcat(b, y);
    }
    assert Value(x) < p && Value(y) < p by {
      ValueBound(x);
      ValueBound(y);
    }
    DigitsDecide(Value(a), Value(b), p, Value(x), Value(y));
    LexIsIntegerOrder(x, y);
    if Value(a) == Value(b) {
      ValueInjective(a, b);
    }
  }

  lemma {:induction false} ZerosHaveNoValue(n: nat)
    ensures Value(seq(n, _ => 0)) == 0
  {
    if n > 0 {
      ZerosHaveNoValue(n - 1);
      assert seq(n, _ => 0)[..n - 1] == seq(n - 1, _ => 0);
    }
  }

  lemma {:induction false} LeadingZeros(s: Bytes, k: nat)
    requires k <= |s| && forall i :: 0 <= i < k ==> s[i] == 0
    ensures Value(s) == Value(s[k..])
    decreases k
  {
    if k == 0 {
      assert s[0..] == s;
    } else {
      ValueHead(s);
      LeadingZeros(s[1..], k - 1);
      assert s[1..][k - 1..] == s[k..];
    }
  }
}
