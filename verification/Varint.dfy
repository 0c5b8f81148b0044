/** LEB128 unsigned varints (section 7.6 of DWARF version 4) over 64-bit values, as the wire formats use them. */
module Varint {
  import opened Prelude

  const U32: nat := 0x1_0000_0000
  const MAX_VARINT_BYTES: nat := 10

  datatype DecodeError = TooLong | TruncatedVarint | Truncated | BadFlag | BadKey

  /** The shortest encoding: seven bits at a time, low bits first, a high bit on all but the last. */
  function Encode(v: nat): (s: Bytes)
    ensures |s| > 0
  {
    if v < 128 then [v] else [v % 128 + 128] + Encode(v / 128)
  }

  function Pow128(n: nat): (p: nat)
    ensures p >= 1
  {
    if n == 0 then 1 else 128 * Pow128(n - 1)
  }

  /** The decoder from byte `i` on, with `value` accumulated; ORing shifted groups adds them, modulo 2^64. */
  function DecodeFrom(input: Bytes, i: nat, value: nat): Result<(nat, nat), DecodeError>
    requires i <= |input|
    decreases |input| - i
  {
    if i == |input| then Err(TruncatedVarint)
    else if i >= MAX_VARINT_BYTES then Err(TooLong)
    else
      var next := (value + input[i] % 128 * Pow128(i)) % U64;
      if input[i] < 128 then Ok((next, i + 1)) else DecodeFrom(input, i + 1, next)
  }

  /** The value at the front of `input`, and how many bytes it took. */
  function Decode(input: Bytes): Result<(nat, nat), DecodeError> { DecodeFrom(input, 0, 0) }

  // ---- What the decoder computes -----------------------------------------------------------------

  /** The integer the first `n` groups denote. */
  function Groups(input: Bytes, n: nat): nat
    requires n <= |input|
  {
    if n == 0 then 0 else Groups(input, n - 1) + input[n - 1] % 128 * Pow128(n - 1)
  }

  /** Byte `n` is the first without its high bit. */
  ghost predicate EndsAt(input: Bytes, n: nat) {
    n < |input| && input[n] < 128 && forall i :: 0 <= i < n ==> input[i] >= 128
  }

  lemma ModAdd(x: nat, y: nat)
    ensures (x % U64 + y) % U64 == (x + y) % U64
  {
  }

  lemma {:induction false} DecodesFrom(input: Bytes, i: nat, n: nat)
    requires EndsAt(input, n) && i <= n
    ensures DecodeFrom(input, i, Groups(input, i) % U64) ==
              if n < MAX_VARINT_BYTES then Ok((Groups(input, n + 1) % U64, n + 1)) else Err(TooLong)
    decreases n - i
  {
    hide Pow128;
    if i < MAX_VARINT_BYTES {
      ModAdd(Groups(input, i), input[i] % 128 * Pow128(i));
      if i < n {
        assert input[i] >= 128;
        DecodesFrom(input, i + 1, n);
      }
    }
  }

  /** Decoding succeeds exactly if one of the first ten bytes ends the varint; then its groups are the value. */
  lemma {:induction false} DecodeExactly(input: Bytes, n: nat)
    requires EndsAt(input, n)
    ensures Decode(input) ==
              if n < 10 then Ok((Groups(input, n + 1) % U64, n + 1)) else Err(TooLong)
  {
    DecodesFrom(input, 0, n);
  }

  lemma {:induction false} UnfinishedFrom(input: Bytes, i: nat, value: nat)
    requires i <= |input| && forall k :: 0 <= k < |input| ==> input[k] >= 128
    ensures DecodeFrom(input, i, value) == Err(if |input| <= MAX_VARINT_BYTES || i == |input| then TruncatedVarint else TooLong)
    decreases |input| - i
  {
    if i < |input| && i < MAX_VARINT_BYTES {
      UnfinishedFrom(input, i + 1, (value + input[i] % 128 * Pow128(i)) % U64);
    }
  }

  // ---- The encoder's output ----------------------------------------------------------------------

  lemma {:induction false} GroupsShift(b: byte, s: Bytes, n: nat)
    requires n <= |s|
    ensures Groups([b] + s, n + 1) == b % 128 + 128 * Groups(s, n)
  {
    if n > 0 {
      GroupsShift(b, s, n - 1);
      assert ([b] + s)[n] == s[n - 1];
      Regroup(s[n - 1] % 128, Pow128(n - 1));
    } else {
      assert Groups([b] + s, 1) == Groups([b] + s, 0) + b % 128 * Pow128(0);
    }
  }

  lemma Regroup(x: nat, p: nat)
    ensures x * (128 * p) == 128 * (x * p)
  {
  }

  lemma {:induction false} GroupsOfPrefix(s: Bytes, rest: Bytes, n: nat)
    requires n <= |s|
    ensures Groups(s + rest, n) == Groups(s, n)
  {
    if n > 0 {
      GroupsOfPrefix(s, rest, n - 1);
    }
  }

  /** The encoding ends at its last byte and denotes the value. */
  lemma {:induction false} EncodingMeaning(v: nat)
    ensures var s := Encode(v); EndsAt(s, |s| - 1) && Groups(s, |s|) == v
  {
    if v >= 128 {
      EncodingMeaning(v / 128);
      var t := Encode(v / 128);
      GroupsShift(v % 128 + 128, t, |t|);
      var s := Encode(v);
      assert s == [v % 128 + 128] + t;
      assert forall i :: 0 < i < |s| ==> s[i] == t[i - 1];
    } else {
      assert Groups([v], 1) == Groups([v], 0) + v % 128 * Pow128(0);
    }
  }

  lemma {:induction false} EncodingLength(v: nat, n: nat)
    requires n > 0 && v < Pow128(n)
    ensures |Encode(v)| <= n
  {
    if v >= 128 {
      assert n > 1;
      QuotientBound(v, Pow128(n - 1));
      EncodingLength(v / 128, n - 1);
    }
  }

  lemma QuotientBound(v: nat, p: nat)
    requires v < 128 * p
    ensures v / 128 < p
  {
  }

  lemma {:induction false} TenGroups()
    ensures Pow128(MAX_VARINT_BYTES) > U64
  {
    assert Pow128(1) == 128 * Pow128(0);
    assert Pow128(2) == 128 * Pow128(1);
    assert Pow128(3) == 128 * Pow128(2);
    assert Pow128(4) == 128 * Pow128(3);
    assert Pow128(5) == 128 * Pow128(4);
    assert Pow128(6) == 128 * Pow128(5);
    assert Pow128(7) == 128 * Pow128(6);
    assert Pow128(8) == 128 * Pow128(7);
    assert Pow128(9) == 128 * Pow128(8);
    assert Pow128(10) == 128 * Pow128(9);
  }

  /** Decoding undoes encoding for every 64-bit value, whatever follows it. */
  lemma {:induction false} RoundTrip(v: nat, rest: Bytes)
    requires v < U64
    ensures Decode(Encode(v) + rest) == Ok((v, |Encode(v)|)) && |Encode(v)| <= MAX_VARINT_BYTES
  {
    hide Encode, Pow128, Groups, Decode;
    var s := Encode(v);
    EncodingMeaning(v);
    TenGroups();
    EncodingLength(v, MAX_VARINT_BYTES);
    assert EndsAt(s + rest, |s| - 1);
    DecodeExactly(s + rest, |s| - 1);
    GroupsOfPrefix(s, rest, |s|);
  }

  /** No strict prefix of an encoding decodes. */
  lemma {:induction false} PrefixRejected(v: nat, k: nat)
    requires v < U64 && k < |Encode(v)|
    ensures Decode(Encode(v)[..k]) == Err(TruncatedVarint)
  {
    RoundTrip(v, []);
    EncodingMeaning(v);
    UnfinishedFrom(Encode(v)[..k], 0, 0);
  }

  /** What decodes took at least one byte and no more than there are; the value is a 64-bit one. */
  lemma {:induction false} DecodeBounds(input: Bytes, i: nat, value: nat)
    requires i <= |input| && DecodeFrom(input, i, value).Ok?
    ensures i < DecodeFrom(input, i, value).value.1 <= |input| && DecodeFrom(input, i, value).value.0 < U64
    decreases |input| - i
  {
    if i < |input| && i < MAX_VARINT_BYTES && input[i] >= 128 {
      DecodeBounds(input, i + 1, (value + input[i] % 128 * Pow128(i)) % U64);
    }
  }

  // ---- The loops ---------------------------------------------------------------------------------

  /** Appends an encoding to a buffer. */
  method EncodeTo(value: nat, buffer: Bytes) returns (out: Bytes)
    requires value < U64
    ensures out == buffer + Encode(value)
  {
    out := buffer;
    var left := value;
    while true
      invariant out + Encode(left) == buffer + Encode(value)
      decreases left
    {
      var group: byte := left % 128;
      var more := left / 128 != 0;
      if left < 128 {
        assert Encode(left) == [group];
      } else {
        assert out + Encode(left) == (out + [group + 128]) + Encode(left / 128);
      }
      left := left / 128;
      out := out + [if more then group + 128 else group];
      if left == 0 {
        return;
      }
    }
  }

  /** Reads one varint, shifting each group into place. */
  method DecodeLoop(input: Bytes) returns (r: Result<(nat, nat), DecodeError>)
    ensures r == Decode(input)
  {
    var value: nat := 0;
    var shift := 0;
    var unit: nat := 1;
    for i := 0 to |input|
      invariant shift == 7 * i && unit == Pow128(i)
      invariant DecodeFrom(input, i, value) == Decode(input)
    {
      if shift >= 64 {
        return Err(TooLong);
      }
      value := (value + input[i] % 128 * unit) % U64;
      if input[i] < 128 {
        return Ok((value, i + 1));
      }
      shift := shift + 7;
      unit := 128 * unit;
    }
    r := Err(TruncatedVarint);
  }

  /** The standard's own examples: 2 is one byte, 128 is 0x80 0x01, 12857 is 0xb9 0x64. */
  lemma {:induction false} StandardExamples()
    ensures Encode(2) == [2] && Encode(127) == [127] && Encode(128) == [0x80, 1] && Encode(129) == [0x81, 1] && Encode(12857) == [0xb9, 0x64]
  {
  }
}
