/** The saved form of a prekey store and the wire form of a handshake's first message. */
module HandshakeCodec {
  import opened Prelude
  import opened Varint
  import opened MessageCodec

  const SIGNATURE_LEN: nat := 64

  type SignatureBytes = s: Bytes | |s| == SIGNATURE_LEN witness seq(SIGNATURE_LEN, _ => 0)

  // ---- The prekey store --------------------------------------------------------------------------

  datatype SavedPrekeys = SavedPrekeys(
    signedSecret: KeyBytes, signature: SignatureBytes, available: seq<KeyBytes>, pending: seq<KeyBytes>)

  function Concat(keys: seq<KeyBytes>): Bytes {
    if |keys| == 0 then [] else keys[0] + Concat(keys[1..])
  }

  /** A count, then the keys. */
  function EncodeList(keys: seq<KeyBytes>): Bytes { Encode(|keys|) + Concat(keys) }

  function EncodePrekeys(p: SavedPrekeys): Bytes {
    p.signedSecret + p.signature + EncodeList(p.available) + EncodeList(p.pending)
  }

  function ReadKeys(input: Bytes, count: nat): (r: Result<(seq<KeyBytes>, Bytes), DecodeError>)
    ensures r.Ok? ==> |r.value.1| <= |input|
    decreases count
  {
    if count == 0 then Ok(([], input))
    else if |input| < KEY_LEN then Err(Truncated)
    else
      var key: KeyBytes := input[..KEY_LEN];
      match ReadKeys(input[KEY_LEN..], count - 1)
      case Err(e) => Err(e)
      case Ok((keys, rest)) => Ok(([key] + keys, rest))
  }

  function ReadList(input: Bytes): Result<(seq<KeyBytes>, Bytes), DecodeError> {
    match Decode(input)
    case Err(e) => Err(e)
    case Ok((count, n)) =>
      DecodeBounds(input, 0, 0);
      ReadKeys(input[n..], count)
  }

  /** Bytes after the second list are ignored. */
  function DecodePrekeys(input: Bytes): Result<SavedPrekeys, DecodeError> {
    if |input| < KEY_LEN + SIGNATURE_LEN then Err(Truncated)
    else
      match ReadList(input[KEY_LEN + SIGNATURE_LEN..])
      case Err(e) => Err(e)
      case Ok((available, rest)) =>
        match ReadList(rest)
        case Err(e) => Err(e)
        case Ok((pending, _)) =>
          Ok(SavedPrekeys(input[..KEY_LEN], input[KEY_LEN..KEY_LEN + SIGNATURE_LEN], available, pending))
  }

  lemma {:induction false} KeysRoundTrip(keys: seq<KeyBytes>, rest: Bytes)
    ensures ReadKeys(Concat(keys) + rest, |keys|) == Ok((keys, rest))
  {
    if |keys| > 0 {
      var tail := Concat(keys[1..]) + rest;
      var input := Concat(keys) + rest;
      assert input == keys[0] + tail;
      assert input[..KEY_LEN] == keys[0] && input[KEY_LEN..] == tail;
      KeysRoundTrip(keys[1..], rest);
      assert keys == [keys[0]] + keys[1..];
    } else {
      assert Concat(keys) + rest == rest;
    }
  }

  lemma {:induction false} ListRoundTrip(keys: seq<KeyBytes>, rest: Bytes)
    requires |keys| < U64
    ensures ReadList(EncodeList(keys) + rest) == Ok((keys, rest))
  {
    var input := EncodeList(keys) + rest;
    assert input == Encode(|keys|) + (Concat(keys) + rest);
    RoundTrip(|keys|, Concat(keys) + rest);
    assert input[|Encode(|keys|)|..] == Concat(keys) + rest;
    KeysRoundTrip(keys, rest);
  }

  /** Loading undoes saving: both pools come back whole and in order, whatever follows. */
  lemma {:induction false} PrekeysRoundTrip(p: SavedPrekeys, rest: Bytes)
    requires |p.available| < U64 && |p.pending| < U64
    ensures DecodePrekeys(EncodePrekeys(p) + rest) == Ok(p)
  {
    hide EncodeList, ReadList;
    var input := EncodePrekeys(p) + rest;
    var tail := EncodeList(p.pending) + rest;
    assert input[..KEY_LEN] == p.signedSecret;
    assert input[KEY_LEN..KEY_LEN + SIGNATURE_LEN] == p.signature;
    assert input[KEY_LEN + SIGNATURE_LEN..] == EncodeList(p.available) + tail;
    ListRoundTrip(p.available, tail);
    ListRoundTrip(p.pending, rest);
  }

  lemma {:induction false} KeyPlace(keys: seq<KeyBytes>, rest: Bytes, i: nat)
    requires i < |keys|
    ensures |Concat(keys)| == 32 * |keys| && (Concat(keys) + rest)[32 * i..32 * i + 32] == keys[i]
  {
    ConcatLength(keys);
    var s := Concat(keys) + rest;
    if i == 0 {
      assert s[0..32] == keys[0];
    } else {
      ConcatLength(keys[1..]);
      KeyPlace(keys[1..], rest, i - 1);
      var t := Concat(keys[1..]) + rest;
      assert s == keys[0] + t;
      assert s[32 * i..32 * i + 32] == t[32 * (i - 1)..32 * (i - 1) + 32];
    }
  }

  lemma {:induction false} ConcatLength(keys: seq<KeyBytes>)
    ensures |Concat(keys)| == 32 * |keys|
  {
    if |keys| > 0 {
      ConcatLength(keys[1..]);
    }
  }

  /** A count at `i`, `n` bytes long, and after it the keys, 32 bytes each. */
  ghost predicate ListAt(s: Bytes, i: nat, keys: seq<KeyBytes>, n: nat) {
    && i + n + 32 * |keys| <= |s| && Decode(s[i..]) == Ok((|keys|, n))
    && (forall k :: 0 <= k < |keys| ==> s[i + n + 32 * k..i + n + 32 * k + 32] == keys[k])
  }

  lemma {:induction false} ListHere(s: Bytes, i: nat, keys: seq<KeyBytes>, rest: Bytes)
    requires i <= |s| && s[i..] == EncodeList(keys) + rest && |keys| < U64
    ensures i + |Encode(|keys|)| + 32 * |keys| <= |s|
    ensures ListAt(s, i, keys, |Encode(|keys|)|) && s[i + |Encode(|keys|)| + 32 * |keys|..] == rest
  {
    hide Encode, Decode;
    var n := |Encode(|keys|)|;
    var t := Concat(keys) + rest;
    assert s[i..] == Encode(|keys|) + t;
    RoundTrip(|keys|, t);
    ConcatLength(keys);
    assert s[i + n..] == s[i..][n..] == t;
    forall k | 0 <= k < |keys| ensures s[i + n + 32 * k..i + n + 32 * k + 32] == keys[k] {
      KeyPlace(keys, rest, k);
      assert s[i + n + 32 * k..i + n + 32 * k + 32] == s[i + n..][32 * k..32 * k + 32];
    }
    assert s[i + n + 32 * |keys|..] == s[i + n..][32 * |keys|..] == rest;
  }

  /** A saved store: the signed secret, its signature, the available keys, the pending keys. */
  lemma {:induction false} PrekeysLayout(p: SavedPrekeys) returns (n: nat, m: nat)
    requires |p.available| < U64 && |p.pending| < U64
    ensures var s := EncodePrekeys(p);
            && |s| >= 96 && s[..32] == p.signedSecret && s[32..96] == p.signature
            && ListAt(s, 96, p.available, n) && ListAt(s, 96 + n + 32 * |p.available|, p.pending, m)
  {
    hide EncodeList, ListAt;
    var s := EncodePrekeys(p);
    n, m := |Encode(|p.available|)|, |Encode(|p.pending|)|;
    assert s[96..] == EncodeList(p.available) + EncodeList(p.pending);
    ListHere(s, 96, p.available, EncodeList(p.pending));
    assert s[96 + n + 32 * |p.available|..] == EncodeList(p.pending) + [];
    ListHere(s, 96 + n + 32 * |p.available|, p.pending, []);
  }

  /** What the loop still has to produce once it has read `done`. */
  function KeysAfter(done: seq<KeyBytes>, rest: Bytes, left: nat): Result<(seq<KeyBytes>, Bytes), DecodeError> {
    match ReadKeys(rest, left)
    case Err(e) => Err(e)
    case Ok((keys, tail)) => Ok((done + keys, tail))
  }

  lemma {:induction false} OneMoreKey(done: seq<KeyBytes>, rest: Bytes, left: nat)
    requires left > 0 && |rest| >= KEY_LEN
    ensures KeysAfter(done, rest, left) == KeysAfter(done + [rest[..KEY_LEN]], rest[KEY_LEN..], left - 1)
  {
    var key: KeyBytes := rest[..KEY_LEN];
    if ReadKeys(rest[KEY_LEN..], left - 1).Ok? {
      var keys := ReadKeys(rest[KEY_LEN..], left - 1).value.0;
      assert done + ([key] + keys) == (done + [key]) + keys;
    }
  }

  /** Reads a counted key list at a moving offset. */
  method LoadList(input: Bytes) returns (r: Result<(seq<KeyBytes>, nat), DecodeError>)
    ensures match ReadList(input)
            case Err(e) => r == Err(e)
            case Ok((keys, rest)) => r.Ok? && r.value.0 == keys && r.value.1 <= |input| && input[r.value.1..] == rest
  {
    var decoded := DecodeLoop(input);
    if decoded.Err? {
      return Err(decoded.error);
    }
    DecodeBounds(input, 0, 0);
    var (count, offset) := decoded.value;
    var keys: seq<KeyBytes> := [];
    NoKeysYet(input[offset..], count);
    for i := 0 to count
      invariant offset <= |input| && ReadList(input) == KeysAfter(keys, input[offset..], count - i)
    {
      var end := offset + KEY_LEN;
      if end > |input| {
        return Err(Truncated);
      }
      OneMoreKey(keys, input[offset..], count - i);
      assert input[offset..][..KEY_LEN] == input[offset..end] && input[offset..][KEY_LEN..] == input[end..];
      keys := keys + [input[offset..end]];
      offset := end;
    }
    assert keys + [] == keys;
    r := Ok((keys, offset));
  }

  lemma {:induction false} NoKeysYet(rest: Bytes, count: nat)
    ensures ReadKeys(rest, count) == KeysAfter([], rest, count)
  {
    if ReadKeys(rest, count).Ok? {
      assert [] + ReadKeys(rest, count).value.0 == ReadKeys(rest, count).value.0;
    }
  }

  // ---- The handshake's first message -------------------------------------------------------------

  datatype WireMessage = WireMessage(
    identity: KeyBytes, agreement: KeyBytes, signature: SignatureBytes, ephemeral: KeyBytes, oneTime: Option<KeyBytes>)

  const FLAG_AT: nat := KEY_LEN + KEY_LEN + SIGNATURE_LEN + KEY_LEN

  function EncodeInitial(m: WireMessage): Bytes {
    m.identity + m.agreement + m.signature + m.ephemeral + (if m.oneTime.Some? then [1] + m.oneTime.value else [0])
  }

  /** Identities must be valid points; the flag byte must be zero or one; later bytes are ignored. */
  function DecodeInitial(isPoint: Bytes -> bool, input: Bytes): Result<WireMessage, DecodeError> {
    if |input| < FLAG_AT + 1 then Err(Truncated)
    else if !isPoint(input[..32]) then Err(BadKey)
    else if input[FLAG_AT] == 0 then
      Ok(WireMessage(input[..32], input[32..64], input[64..128], input[128..160], None))
    else if input[FLAG_AT] == 1 then
      if |input| < FLAG_AT + 1 + KEY_LEN then Err(Truncated)
      else Ok(WireMessage(input[..32], input[32..64], input[64..128], input[128..160], Some(input[161..193])))
    else Err(BadFlag)
  }

  /** The message survives the wire, with or without a one-time key, whatever follows. */
  lemma {:induction false} InitialRoundTrip(isPoint: Bytes -> bool, m: WireMessage, rest: Bytes)
    requires isPoint(m.identity)
    ensures DecodeInitial(isPoint, EncodeInitial(m) + rest) == Ok(m)
  {
    var input := EncodeInitial(m) + rest;
    assert input[..32] == m.identity && input[32..64] == m.agreement;
    assert input[64..128] == m.signature && input[128..160] == m.ephemeral;
    if m.oneTime.Some? {
      assert input[161..193] == m.oneTime.value;
    }
  }

  /** A first message, field by field: identity, agreement key, its signature, ephemeral key, flag, one-time key. */
  lemma {:induction false} WireLayout(m: WireMessage)
    ensures var s := EncodeInitial(m);
            && |s| == (if m.oneTime.Some? then 193 else 161) && s[..32] == m.identity && s[32..64] == m.agreement
            && s[64..128] == m.signature && s[128..160] == m.ephemeral
            && (m.oneTime.None? ==> s[160] == 0) && (m.oneTime.Some? ==> s[160] == 1 && s[161..193] == m.oneTime.value)
  {
  }

  /** Any input: it decodes exactly if it is long enough for its flag byte, which is zero or one, and names a valid identity. */
  lemma {:induction false} WireDecodesExactly(isPoint: Bytes -> bool, input: Bytes)
    ensures var r := DecodeInitial(isPoint, input);
            && (r.Ok? <==> |input| >= 161 && isPoint(input[..32]) && (input[160] == 0 || (input[160] == 1 && |input| >= 193)))
            && (r == Err(BadKey) <==> |input| >= 161 && !isPoint(input[..32]))
            && (r == Err(BadFlag) <==> |input| >= 161 && isPoint(input[..32]) && input[160] > 1)
            && (r.Ok? ==>
                  && r.value.identity == input[..32] && r.value.agreement == input[32..64] && r.value.signature == input[64..128]
                  && r.value.ephemeral == input[128..160]
                  && r.value.oneTime == if input[160] == 1 then Some(input[161..193]) else None)
  {
  }

  /** No strict prefix of a first message decodes. */
  lemma {:induction false} InitialPrefixRejected(isPoint: Bytes -> bool, m: WireMessage, k: nat)
    requires k < |EncodeInitial(m)|
    ensures DecodeInitial(isPoint, EncodeInitial(m)[..k]).Err?
  {
    var input := EncodeInitial(m)[..k];
    if k > FLAG_AT {
      assert input[FLAG_AT] == EncodeInitial(m)[FLAG_AT];
    }
  }
}
