/** The bytes of a message header and of a whole message: a 32-byte key, two varints, then the ciphertext. */
module MessageCodec {
  import opened Prelude
  import opened Varint

  const KEY_LEN: nat := 32

  type u32 = n: nat | n < U32

  type KeyBytes = k: Bytes | |k| == KEY_LEN witness seq(KEY_LEN, _ => 0)

  datatype MessageHeader = MessageHeader(dhPublic: KeyBytes, previousChainLength: u32, messageNumber: u32)

  function EncodeHeader(h: MessageHeader): Bytes {
    h.dhPublic + Encode(h.previousChainLength) + Encode(h.messageNumber)
  }

  /** The header at the front of `input` and its length; the counters are truncated to 32 bits. */
  function DecodeHeaderWithLen(input: Bytes): (r: Result<(MessageHeader, nat), DecodeError>)
    ensures r.Ok? ==> KEY_LEN < r.value.1 <= |input|
  {
    if |input| < KEY_LEN then Err(Truncated)
    else
      match Decode(input[KEY_LEN..])
      case Err(e) => Err(e)
      case Ok((previous, n1)) =>
        DecodeBounds(input[KEY_LEN..], 0, 0);
        var tail := input[KEY_LEN + n1..];
        match Decode(tail)
        case Err(e) => Err(e)
        case Ok((number, n2)) =>
          DecodeBounds(tail, 0, 0);
          Ok((MessageHeader(input[..KEY_LEN], previous % U32, number % U32), KEY_LEN + n1 + n2))
  }

  function EncodeEnvelope(h: MessageHeader, ciphertext: Bytes): Bytes { EncodeHeader(h) + ciphertext }

  function DecodeEnvelope(input: Bytes): Result<(MessageHeader, Bytes), DecodeError> {
    match DecodeHeaderWithLen(input)
    case Err(e) => Err(e)
    case Ok((h, n)) => Ok((h, input[n..]))
  }

  /** Decoding undoes encoding for every header and whatever follows it, and reports exactly the header's length. */
  lemma {:induction false} HeaderRoundTrip(h: MessageHeader, rest: Bytes)
    ensures DecodeHeaderWithLen(EncodeHeader(h) + rest) == Ok((h, |EncodeHeader(h)|))
  {
    var input := EncodeHeader(h) + rest;
    var a, b := Encode(h.previousChainLength), Encode(h.messageNumber);
    assert input[..KEY_LEN] == h.dhPublic;
    assert input[KEY_LEN..] == a + (b + rest);
    RoundTrip(h.previousChainLength, b + rest);
    assert input[KEY_LEN + |a|..] == b + rest;
    RoundTrip(h.messageNumber, rest);
  }

  /** A message splits back into its header and ciphertext. */
  lemma {:induction false} EnvelopeRoundTrip(h: MessageHeader, ciphertext: Bytes)
    ensures DecodeEnvelope(EncodeEnvelope(h, ciphertext)) == Ok((h, ciphertext))
  {
    HeaderRoundTrip(h, ciphertext);
    assert (EncodeHeader(h) + ciphertext)[|EncodeHeader(h)|..] == ciphertext;
  }

  /** No strict prefix of an encoded header decodes. */
  lemma {:induction false} HeaderPrefixRejected(h: MessageHeader, k: nat)
    requires k < |EncodeHeader(h)|
    ensures DecodeHeaderWithLen(EncodeHeader(h)[..k]).Err?
  {
    var a, b := Encode(h.previousChainLength), Encode(h.messageNumber);
    var input := EncodeHeader(h)[..k];
    if k < KEY_LEN {
    } else if k < KEY_LEN + |a| {
      assert input[KEY_LEN..] == a[..k - KEY_LEN];
      PrefixRejected(h.previousChainLength, k - KEY_LEN);
    } else {
      var m := k - KEY_LEN - |a|;
      assert input[KEY_LEN..] == a + b[..m];
      RoundTrip(h.previousChainLength, b[..m]);
      assert input[KEY_LEN + |a|..] == b[..m];
      PrefixRejected(h.messageNumber, m);
    }
  }

  /** Different headers have different bytes, so a ciphertext bound to the bytes is bound to the header. */
  lemma {:induction false} HeaderBytesDetermineHeader(h: MessageHeader, k: MessageHeader, x: Bytes, y: Bytes)
    requires EncodeHeader(h) + x == EncodeHeader(k) + y
    ensures h == k && x == y
  {
    HeaderRoundTrip(h, x);
    HeaderRoundTrip(k, y);
    assert (EncodeHeader(h) + x)[|EncodeHeader(h)|..] == x;
    assert (EncodeHeader(k) + y)[|EncodeHeader(k)|..] == y;
  }

  /** What the AEAD authenticates: the caller's bytes followed by the header's. */
  function FullAssociatedData(caller: Bytes, h: MessageHeader): Bytes { caller + EncodeHeader(h) }

  /** Under caller data of one length, the authenticated bytes determine both the caller data and the header. */
  lemma {:induction false} AssociatedDataDeterminesBoth(caller1: Bytes, h1: MessageHeader, caller2: Bytes, h2: MessageHeader)
    requires |caller1| == |caller2|
    ensures FullAssociatedData(caller1, h1) == FullAssociatedData(caller2, h2) <==> caller1 == caller2 && h1 == h2
  {
    var f1, f2 := FullAssociatedData(caller1, h1), FullAssociatedData(caller2, h2);
    assert f1[..|caller1|] == caller1 && f2[..|caller2|] == caller2;
    assert f1[|caller1|..] == EncodeHeader(h1) && f2[|caller2|..] == EncodeHeader(h2);
    if f1 == f2 {
      HeaderBytesDetermineHeader(h1, h2, [], []);
    }
  }

  /** The key, then the length of the previous chain, then the message's number. */
  lemma {:induction false} HeaderLayout(h: MessageHeader, rest: Bytes) returns (n: nat, m: nat)
    ensures var s := EncodeHeader(h) + rest;
            && 32 + n + m <= |s| && s[..32] == h.dhPublic
            && Decode(s[32..]) == Ok((h.previousChainLength, n)) && Decode(s[32 + n..]) == Ok((h.messageNumber, m))
            && s[32 + n + m..] == rest
  {
    hide Encode, Decode;
    var a, b := Encode(h.previousChainLength), Encode(h.messageNumber);
    var s := EncodeHeader(h) + rest;
    n, m := |a|, |b|;
    assert s[32..] == a + (b + rest) && s[32 + n..] == b + rest && s[32 + n + m..] == rest;
    RoundTrip(h.previousChainLength, b + rest);
    RoundTrip(h.messageNumber, rest);
  }

  /** Any input: it decodes exactly if a key and two varints are there, whose values are cut to 32 bits. */
  lemma {:induction false} HeaderDecodesExactly(input: Bytes)
    ensures var r := DecodeHeaderWithLen(input);
            && (r.Ok? <==> |input| >= 32 && Decode(input[32..]).Ok? && Decode(input[32..]).value.1 <= |input| - 32
                           && Decode(input[32 + Decode(input[32..]).value.1..]).Ok?)
            && (r.Ok? ==>
                  var (v, n) := Decode(input[32..]).value;
                  n <= |input| - 32 &&
                  var (u, m) := Decode(input[32 + n..]).value;
                  && r.value.0.dhPublic == input[..32] && r.value.1 == 32 + n + m
                  && r.value.0.previousChainLength == v % 0x1_0000_0000 && r.value.0.messageNumber == u % 0x1_0000_0000)
  {
    hide Decode;
    if |input| >= 32 && Decode(input[32..]).Ok? {
      StartsAtZero(input[32..]);
      DecodeBounds(input[32..], 0, 0);
    }
  }

  lemma StartsAtZero(input: Bytes)
    ensures Decode(input) == DecodeFrom(input, 0, 0)
  {
  }

  /** A message and the authenticated data: the header after the caller's bytes, before the ciphertext. */
  lemma {:induction false} HeaderPlace(caller: Bytes, h: MessageHeader, ciphertext: Bytes)
    ensures var n := |EncodeHeader(h)|;
            && EncodeEnvelope(h, ciphertext)[..n] == EncodeHeader(h) && EncodeEnvelope(h, ciphertext)[n..] == ciphertext
            && FullAssociatedData(caller, h)[..|caller|] == caller && FullAssociatedData(caller, h)[|caller|..] == EncodeHeader(h)
  {
    hide EncodeHeader;
  }

  method WriteHeader(h: MessageHeader) returns (out: Bytes)
    ensures out == EncodeHeader(h)
  {
    out := h.dhPublic;
    out := EncodeTo(h.previousChainLength, out);
    out := EncodeTo(h.messageNumber, out);
  }

  method WriteEnvelope(h: MessageHeader, ciphertext: Bytes) returns (out: Bytes)
    ensures out == EncodeEnvelope(h, ciphertext)
  {
    out := WriteHeader(h);
    out := out + ciphertext;
  }
}
