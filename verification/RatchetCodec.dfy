/** The saved form of a ratchet: fixed fields, flagged optional keys, counters, then the skipped keys in any order. */
module RatchetCodec {
  import opened Prelude
  import opened Varint
  import opened MessageCodec

  type Slot = (KeyBytes, u32)

  datatype SavedRatchet = SavedRatchet(
    dhSelf: KeyBytes, dhRemote: Option<KeyBytes>, rootKey: KeyBytes,
    sendingChain: Option<KeyBytes>, receivingChain: Option<KeyBytes>,
    sendCount: u32, recvCount: u32, previousLength: u32, skipped: map<Slot, KeyBytes>)

  datatype SkippedEntry = SkippedEntry(dhPublic: KeyBytes, messageNumber: u32, key: KeyBytes)

  // ---- Writing -----------------------------------------------------------------------------------

  function EncodeOptional(key: Option<KeyBytes>): Bytes { if key.Some? then [1] + key.value else [0] }

  function EncodeEntry(e: SkippedEntry): Bytes { e.dhPublic + Encode(e.messageNumber) + e.key }

  function EncodeEntries(entries: seq<SkippedEntry>): Bytes {
    if |entries| == 0 then [] else EncodeEntry(entries[0]) + EncodeEntries(entries[1..])
  }

  /** The saved bytes when the skipped keys are visited in the order of `entries`. */
  function EncodeRatchet(r: SavedRatchet, entries: seq<SkippedEntry>): Bytes {
    r.dhSelf + (EncodeOptional(r.dhRemote) + (r.rootKey + (EncodeOptional(r.sendingChain) + (EncodeOptional(r.receivingChain)
    + (Encode(r.sendCount) + (Encode(r.recvCount) + (Encode(r.previousLength)
    + (Encode(|entries|) + EncodeEntries(entries)))))))))
  }

  /** `entries` visits every skipped key once, as a map's iterator does. */
  ghost predicate Visits(skipped: map<Slot, KeyBytes>, entries: seq<SkippedEntry>) {
    && (forall i :: 0 <= i < |entries| ==> EntryOf(skipped, entries[i]))
    && (forall i, j :: 0 <= i < j < |entries| ==> SlotOf(entries[i]) != SlotOf(entries[j]))
    && (forall slot :: slot in skipped ==> exists i :: 0 <= i < |entries| && SlotOf(entries[i]) == slot)
  }

  function SlotOf(e: SkippedEntry): Slot { (e.dhPublic, e.messageNumber) }

  predicate EntryOf(skipped: map<Slot, KeyBytes>, e: SkippedEntry) {
    SlotOf(e) in skipped && skipped[SlotOf(e)] == e.key
  }

  /** The map an entry list rebuilds; a repeated slot keeps its last key. */
  function FromEntries(entries: seq<SkippedEntry>): map<Slot, KeyBytes> {
    if |entries| == 0 then map[]
    else FromEntries(entries[..|entries| - 1])[SlotOf(entries[|entries| - 1]) := entries[|entries| - 1].key]
  }

  // ---- Reading -----------------------------------------------------------------------------------

  /** A value read from the front of a buffer, and what is left. */
  datatype Read<+T> = Read(value: T, rest: Bytes)

  function ReadFixed(input: Bytes): (r: Result<Read<KeyBytes>, DecodeError>)
    ensures r.Ok? ==> |r.value.rest| == |input| - KEY_LEN
  {
    if |input| < KEY_LEN then Err(Truncated) else Ok(Read(input[..KEY_LEN], input[KEY_LEN..]))
  }

  function ReadOptional(input: Bytes): (r: Result<Read<Option<KeyBytes>>, DecodeError>)
  {
    if |input| == 0 then Err(Truncated)
    else if input[0] == 0 then Ok(Read(None, input[1..]))
    else if input[0] == 1 then
      (match ReadFixed(input[1..])
       case Err(e) => Err(e)
       case Ok(k) => Ok(Read(Some(k.value), k.rest)))
    else Err(BadFlag)
  }

  function ReadU32(input: Bytes): (r: Result<Read<u32>, DecodeError>)
    ensures r.Ok? ==> |r.value.rest| < |input|
  {
    match Decode(input)
    case Err(e) => Err(e)
    case Ok((v, n)) =>
      DecodeBounds(input, 0, 0);
      Ok(Read(v % U32, input[n..]))
  }

  function ReadEntry(input: Bytes): (r: Result<Read<SkippedEntry>, DecodeError>)
    ensures r.Ok? ==> |r.value.rest| < |input|
  {
    match ReadFixed(input)
    case Err(e) => Err(e)
    case Ok(dh) =>
      match ReadU32(dh.rest)
      case Err(e) => Err(e)
      case Ok(number) =>
        match ReadFixed(number.rest)
        case Err(e) => Err(e)
        case Ok(key) => Ok(Read(SkippedEntry(dh.value, number.value, key.value), key.rest))
  }

  function ReadEntries(input: Bytes, count: nat): Result<Read<seq<SkippedEntry>>, DecodeError>
    decreases count
  {
    if count == 0 then Ok(Read([], input))
    else
      match ReadEntry(input)
      case Err(e) => Err(e)
      case Ok(first) =>
        match ReadEntries(first.rest, count - 1)
        case Err(e) => Err(e)
        case Ok(others) => Ok(Read([first.value] + others.value, others.rest))
  }

  /** Reads the fields in order; bytes after the last entry are ignored. */
  function DecodeRatchet(input: Bytes): Result<SavedRatchet, DecodeError> {
    match ReadFixed(input)
    case Err(e) => Err(e)
    case Ok(self) =>
      match ReadOptional(self.rest)
      case Err(e) => Err(e)
      case Ok(remote) =>
        match ReadFixed(remote.rest)
        case Err(e) => Err(e)
        case Ok(root) =>
          match ReadChains(root.rest)
          case Err(e) => Err(e)
          case Ok(chains) =>
            match ReadCounters(chains.rest)
            case Err(e) => Err(e)
            case Ok(counters) =>
              match ReadU32(counters.rest)
              case Err(e) => Err(e)
              case Ok(count) =>
                match ReadEntries(count.rest, count.value)
                case Err(e) => Err(e)
                case Ok(entries) =>
                  Ok(SavedRatchet(self.value, remote.value, root.value, chains.value.0, chains.value.1,
                                  counters.value.0, counters.value.1, counters.value.2, FromEntries(entries.value)))
  }

  function ReadChains(input: Bytes): Result<Read<(Option<KeyBytes>, Option<KeyBytes>)>, DecodeError> {
    match ReadOptional(input)
    case Err(e) => Err(e)
    case Ok(sending) =>
      match ReadOptional(sending.rest)
      case Err(e) => Err(e)
      case Ok(receiving) => Ok(Read((sending.value, receiving.value), receiving.rest))
  }

  function ReadCounters(input: Bytes): Result<Read<(u32, u32, u32)>, DecodeError> {
    match ReadU32(input)
    case Err(e) => Err(e)
    case Ok(sent) =>
      match ReadU32(sent.rest)
      case Err(e) => Err(e)
      case Ok(received) =>
        match ReadU32(received.rest)
        case Err(e) => Err(e)
        case Ok(previous) => Ok(Read((sent.value, received.value, previous.value), previous.rest))
  }

  // ---- Reading what was written ------------------------------------------------------------------

  lemma {:induction false} FixedRoundTrip(key: KeyBytes, rest: Bytes)
    ensures ReadFixed(key + rest) == Ok(Read(key, rest))
  {
    assert (key + rest)[..KEY_LEN] == key && (key + rest)[KEY_LEN..] == rest;
  }

  lemma {:induction false} OptionalRoundTrip(key: Option<KeyBytes>, rest: Bytes)
    ensures ReadOptional(EncodeOptional(key) + rest) == Ok(Read(key, rest))
  {
    var input := EncodeOptional(key) + rest;
    if key.Some? {
      assert input[1..] == key.value + rest;
      FixedRoundTrip(key.value, rest);
    } else {
      assert input[1..] == rest;
    }
  }

  lemma {:induction false} U32RoundTrip(v: u32, rest: Bytes)
    ensures ReadU32(Encode(v) + rest) == Ok(Read(v, rest))
  {
    RoundTrip(v, rest);
    assert (Encode(v) + rest)[|Encode(v)|..] == rest;
  }

  lemma {:induction false} EntryRoundTrip(e: SkippedEntry, rest: Bytes)
    ensures ReadEntry(EncodeEntry(e) + rest) == Ok(Read(e, rest))
  {
    hide Encode, Decode;
    assert EncodeEntry(e) + rest == e.dhPublic + (Encode(e.messageNumber) + (e.key + rest));
    FixedRoundTrip(e.dhPublic, Encode(e.messageNumber) + (e.key + rest));
    U32RoundTrip(e.messageNumber, e.key + rest);
    FixedRoundTrip(e.key, rest);
  }

  lemma {:induction false} EntriesRoundTrip(entries: seq<SkippedEntry>, rest: Bytes)
    ensures ReadEntries(EncodeEntries(entries) + rest, |entries|) == Ok(Read(entries, rest))
  {
    if |entries| > 0 {
      var tail := EncodeEntries(entries[1..]);
      assert EncodeEntries(entries) + rest == EncodeEntry(entries[0]) + (tail + rest);
      EntryRoundTrip(entries[0], tail + rest);
      EntriesRoundTrip(entries[1..], rest);
      assert entries == [entries[0]] + entries[1..];
    } else {
      assert EncodeEntries(entries) + rest == rest;
    }
  }

  lemma {:induction false} RebuiltSlot(entries: seq<SkippedEntry>, i: nat)
    requires i < |entries| && forall a, b :: 0 <= a < b < |entries| ==> SlotOf(entries[a]) != SlotOf(entries[b])
    ensures SlotOf(entries[i]) in FromEntries(entries) && FromEntries(entries)[SlotOf(entries[i])] == entries[i].key
    decreases |entries|
  {
    if i < |entries| - 1 {
      RebuiltSlot(entries[..|entries| - 1], i);
    }
  }

  lemma {:induction false} RebuiltOnly(entries: seq<SkippedEntry>, slot: Slot) returns (i: nat)
    requires slot in FromEntries(entries)
    ensures i < |entries| && SlotOf(entries[i]) == slot
    decreases |entries|
  {
    i := |entries| - 1;
    if SlotOf(entries[|entries| - 1]) != slot {
      i := RebuiltOnly(entries[..|entries| - 1], slot);
    }
  }

  /** Whatever order the keys were visited in, the same map is rebuilt. */
  lemma {:induction false} RebuildsMap(skipped: map<Slot, KeyBytes>, entries: seq<SkippedEntry>)
    requires Visits(skipped, entries)
    ensures FromEntries(entries) == skipped
  {
    var m := FromEntries(entries);
    forall slot
      ensures slot in m <==> slot in skipped
      ensures slot in m ==> m[slot] == skipped[slot]
    {
      if slot in skipped {
        var i :| 0 <= i < |entries| && SlotOf(entries[i]) == slot;
        RebuiltSlot(entries, i);
        assert EntryOf(skipped, entries[i]);
      }
      if slot in m {
        var i := RebuiltOnly(entries, slot);
        assert EntryOf(skipped, entries[i]);
      }
    }
  }

  /** An optional key reads exactly from a flag byte of zero, or of one with a key after it. */
  lemma {:induction false} OptionalReadsExactly(input: Bytes)
    ensures var r := ReadOptional(input);
            && (r.Ok? <==> |input| > 0 && (input[0] == 0 || (input[0] == 1 && |input| >= 33)))
            && (|input| > 0 && input[0] > 1 <==> r == Err(BadFlag))
            && (r.Ok? && input[0] == 0 ==> r.value == Read(None, input[1..]))
            && (r.Ok? && input[0] == 1 ==> r.value == Read(Some(input[1..33]), input[33..]))
  {
    if |input| >= 33 {
      assert input[1..][..32] == input[1..33] && input[1..][32..] == input[33..];
    }
  }

  // ---- Where each field lies ---------------------------------------------------------------------

  function OptionalLen(key: Option<KeyBytes>): nat { if key.Some? then 33 else 1 }

  /** A flag byte at `i`, and after a set flag the key. */
  ghost predicate OptionalAt(s: Bytes, i: nat, key: Option<KeyBytes>) {
    && i + OptionalLen(key) <= |s|
    && (key.None? ==> s[i] == 0) && (key.Some? ==> s[i] == 1 && s[i + 1..i + 33] == key.value)
  }

  /** A key at `i`. */
  ghost predicate KeyAt(s: Bytes, i: nat, key: KeyBytes) { i + 32 <= |s| && s[i..i + 32] == key }

  /** Everything from `i` on. */
  ghost predicate TailAt(s: Bytes, i: nat, tail: Bytes) { i <= |s| && s[i..] == tail }

  lemma KeyHere(s: Bytes, i: nat, key: KeyBytes, rest: Bytes)
    requires TailAt(s, i, key + rest)
    ensures KeyAt(s, i, key) && TailAt(s, i + 32, rest)
  {
    assert s[i..i + 32] == s[i..][..32] && s[i + 32..] == s[i..][32..];
  }

  /** A varint at `i`, `n` bytes long. */
  ghost predicate CounterAt(s: Bytes, i: nat, v: nat, n: nat) { i + n <= |s| && Decode(s[i..]) == Ok((v, n)) }

  lemma CounterHere(s: Bytes, i: nat, v: nat, rest: Bytes)
    requires TailAt(s, i, Encode(v) + rest) && v < U64
    ensures CounterAt(s, i, v, |Encode(v)|) && TailAt(s, i + |Encode(v)|, rest)
  {
    RoundTrip(v, rest);
    assert s[i..][|Encode(v)|..] == rest;
  }

  lemma OptionalHere(s: Bytes, i: nat, key: Option<KeyBytes>, rest: Bytes)
    requires TailAt(s, i, EncodeOptional(key) + rest)
    ensures OptionalAt(s, i, key) && TailAt(s, i + OptionalLen(key), rest)
  {
    assert s[i] == s[i..][0];
    if key.Some? {
      assert s[i + 1..i + 33] == s[i..][1..33] == key.value;
    }
    assert s[i..][OptionalLen(key)..] == rest;
  }

  /**
   The saved bytes, field by field: own secret, remote key, root key, sending and receiving chain, the two message
   counters, the previous chain's length, the number of skipped keys and then those.
   */
  lemma {:induction false} SavedLayout(r: SavedRatchet, entries: seq<SkippedEntry>) returns (n0: nat, n1: nat, n2: nat, n3: nat)
    requires |entries| < U32
    ensures var s := EncodeRatchet(r, entries);
            var a := 32 + OptionalLen(r.dhRemote);
            var b := a + 32 + OptionalLen(r.sendingChain);
            var c := b + OptionalLen(r.receivingChain);
            && KeyAt(s, 0, r.dhSelf) && OptionalAt(s, 32, r.dhRemote) && KeyAt(s, a, r.rootKey)
            && OptionalAt(s, a + 32, r.sendingChain) && OptionalAt(s, b, r.receivingChain)
            && CounterAt(s, c, r.sendCount, n0) && CounterAt(s, c + n0, r.recvCount, n1)
            && CounterAt(s, c + n0 + n1, r.previousLength, n2) && CounterAt(s, c + n0 + n1 + n2, |entries|, n3)
            && TailAt(s, c + n0 + n1 + n2 + n3, EncodeEntries(entries))
  {
    hide Encode, EncodeOptional, EncodeEntries, OptionalAt, CounterAt, KeyAt, TailAt, OptionalLen, EncodeRatchet, CounterBytes, ChainBytes;
    var s := EncodeRatchet(r, entries);
    var a := 32 + OptionalLen(r.dhRemote);
    var b := a + 32 + OptionalLen(r.sendingChain);
    var c := b + OptionalLen(r.receivingChain);
    SavedParts(r, entries);
    KeyHere(s, 0, r.dhSelf, EncodeOptional(r.dhRemote) + (r.rootKey + ChainBytes(r, entries)));
    OptionalHere(s, 32, r.dhRemote, r.rootKey + ChainBytes(r, entries));
    KeyHere(s, a, r.rootKey, ChainBytes(r, entries));
    ChainParts(r, entries);
    OptionalHere(s, a + 32, r.sendingChain, EncodeOptional(r.receivingChain) + CounterBytes(r, entries));
    OptionalHere(s, b, r.receivingChain, CounterBytes(r, entries));
    n0, n1, n2, n3 := CountersLayout(s, c, r, entries);
  }

  /** From the sending chain on; from the counters on. */
  function ChainBytes(r: SavedRatchet, entries: seq<SkippedEntry>): Bytes {
    EncodeOptional(r.sendingChain) + (EncodeOptional(r.receivingChain) + CounterBytes(r, entries))
  }

  function CounterBytes(r: SavedRatchet, entries: seq<SkippedEntry>): Bytes {
    Encode(r.sendCount) + (Encode(r.recvCount) + (Encode(r.previousLength) + (Encode(|entries|) + EncodeEntries(entries))))
  }

  lemma SavedParts(r: SavedRatchet, entries: seq<SkippedEntry>)
    ensures var s := EncodeRatchet(r, entries);
            TailAt(s, 0, r.dhSelf + (EncodeOptional(r.dhRemote) + (r.rootKey + ChainBytes(r, entries))))
  {
    hide Encode, EncodeOptional, EncodeEntries;
    WholeTail(EncodeRatchet(r, entries));
  }

  lemma ChainParts(r: SavedRatchet, entries: seq<SkippedEntry>)
    ensures ChainBytes(r, entries) == EncodeOptional(r.sendingChain) + (EncodeOptional(r.receivingChain) + CounterBytes(r, entries))
  {
    hide CounterBytes, EncodeOptional;
  }

  lemma {:induction false} CountersLayout(s: Bytes, c: nat, r: SavedRatchet, entries: seq<SkippedEntry>)
    returns (n0: nat, n1: nat, n2: nat, n3: nat)
    requires TailAt(s, c, CounterBytes(r, entries)) && |entries| < U32
    ensures CounterAt(s, c, r.sendCount, n0) && CounterAt(s, c + n0, r.recvCount, n1)
    ensures CounterAt(s, c + n0 + n1, r.previousLength, n2) && CounterAt(s, c + n0 + n1 + n2, |entries|, n3)
    ensures TailAt(s, c + n0 + n1 + n2 + n3, EncodeEntries(entries))
  {
    hide Encode, EncodeEntries, CounterAt, TailAt;
    var t8 := Encode(|entries|) + EncodeEntries(entries);
    var t7 := Encode(r.previousLength) + t8;
    n0, n1, n2, n3 := |Encode(r.sendCount)|, |Encode(r.recvCount)|, |Encode(r.previousLength)|, |Encode(|entries|)|;
    CounterHere(s, c, r.sendCount, Encode(r.recvCount) + t7);
    CounterHere(s, c + n0, r.recvCount, t7);
    CounterHere(s, c + n0 + n1, r.previousLength, t8);
    CounterHere(s, c + n0 + n1 + n2, |entries|, EncodeEntries(entries));
  }

  lemma WholeTail(s: Bytes)
    ensures TailAt(s, 0, s)
  {
  }

  /** A skipped key: its chain's public key, its number, the key. */
  lemma {:induction false} EntryLayout(e: SkippedEntry, rest: Bytes) returns (n: nat)
    ensures var s := EncodeEntries([e]) + rest;
            && |s| == 64 + n + |rest| && s[..32] == e.dhPublic && CounterAt(s, 32, e.messageNumber, n)
            && s[32 + n..64 + n] == e.key && s[64 + n..] == rest
  {
    hide Encode, Decode, CounterAt;
    var s := EncodeEntries([e]) + rest;
    assert [e][1..] == [] && EncodeEntries([e]) == EncodeEntry(e) + [];
    n := |Encode(e.messageNumber)|;
    assert TailAt(s, 32, Encode(e.messageNumber) + (e.key + rest));
    CounterHere(s, 32, e.messageNumber, e.key + rest);
    KeyHere(s, 32 + n, e.key, rest);
  }

  /** Loading undoes saving, for every ratchet, every order of its skipped keys, and whatever follows. */
  lemma {:induction false} RatchetRoundTrip(r: SavedRatchet, entries: seq<SkippedEntry>, rest: Bytes)
    requires Visits(r.skipped, entries) && |entries| < U32
    ensures DecodeRatchet(EncodeRatchet(r, entries) + rest) == Ok(r)
  {
    hide Encode, Decode, ReadFixed, ReadOptional, ReadU32, EncodeOptional, ReadEntries, EncodeEntries, Visits, FromEntries;
    var t9 := EncodeEntries(entries) + rest;
    var t8 := Encode(|entries|) + t9;
    var t7 := Encode(r.previousLength) + t8;
    var t6 := Encode(r.recvCount) + t7;
    var t5 := Encode(r.sendCount) + t6;
    var t4 := EncodeOptional(r.receivingChain) + t5;
    var t3 := EncodeOptional(r.sendingChain) + t4;
    var t2 := r.rootKey + t3;
    var t1 := EncodeOptional(r.dhRemote) + t2;
    assert EncodeRatchet(r, entries) + rest == r.dhSelf + t1;
    FixedRoundTrip(r.dhSelf, t1);
    OptionalRoundTrip(r.dhRemote, t2);
    FixedRoundTrip(r.rootKey, t3);
    OptionalRoundTrip(r.sendingChain, t4);
    OptionalRoundTrip(r.receivingChain, t5);
    U32RoundTrip(r.sendCount, t6);
    U32RoundTrip(r.recvCount, t7);
    U32RoundTrip(r.previousLength, t8);
    U32RoundTrip(|entries|, t9);
    EntriesRoundTrip(entries, rest);
    RebuildsMap(r.skipped, entries);
  }

  // ---- The program's buffer and offset -----------------------------------------------------------

  /** What a read at an offset leaves: the value, and an offset at which the rest begins. */
  ghost predicate ReadAt<T>(input: Bytes, spec: Result<Read<T>, DecodeError>, r: Result<T, DecodeError>, next: nat) {
    match spec
    case Err(e) => r == Err(e)
    case Ok(read) => r == Ok(read.value) && next <= |input| && input[next..] == read.rest
  }

  method ReadFixedAt(input: Bytes, offset: nat) returns (r: Result<KeyBytes, DecodeError>, next: nat)
    requires offset <= |input|
    ensures ReadAt(input, ReadFixed(input[offset..]), r, next)
  {
    var end := offset + KEY_LEN;
    if end > |input| {
      return Err(Truncated), offset;
    }
    assert input[offset..][..KEY_LEN] == input[offset..end];
    r, next := Ok(input[offset..end]), end;
  }

  method ReadOptionalAt(input: Bytes, offset: nat) returns (r: Result<Option<KeyBytes>, DecodeError>, next: nat)
    requires offset <= |input|
    ensures ReadAt(input, ReadOptional(input[offset..]), r, next)
  {
    if offset == |input| {
      return Err(Truncated), offset;
    }
    var flag := input[offset];
    next := offset + 1;
    assert input[offset..][1..] == input[next..];
    if flag == 0 {
      return Ok(None), next;
    }
    if flag != 1 {
      return Err(BadFlag), next;
    }
    var key;
    key, next := ReadFixedAt(input, next);
    r := if key.Ok? then Ok(Some(key.value)) else Err(key.error);
  }

  method ReadU32At(input: Bytes, offset: nat) returns (r: Result<u32, DecodeError>, next: nat)
    requires offset <= |input|
    ensures ReadAt(input, ReadU32(input[offset..]), r, next)
  {
    var decoded := DecodeLoop(input[offset..]);
    if decoded.Err? {
      return Err(decoded.error), offset;
    }
    DecodeBounds(input[offset..], 0, 0);
    next := offset + decoded.value.1;
    assert input[offset..][decoded.value.1..] == input[next..];
    r := Ok(decoded.value.0 % U32);
  }

  method ReadEntryAt(input: Bytes, offset: nat) returns (r: Result<SkippedEntry, DecodeError>, next: nat)
    requires offset <= |input|
    ensures ReadAt(input, ReadEntry(input[offset..]), r, next)
  {
    hide ReadFixed, ReadU32;
    var dh, number, key;
    dh, next := ReadFixedAt(input, offset);
    if dh.Err? {
      return Err(dh.error), next;
    }
    number, next := ReadU32At(input, next);
    if number.Err? {
      return Err(number.error), next;
    }
    key, next := ReadFixedAt(input, next);
    if key.Err? {
      return Err(key.error), next;
    }
    r := Ok(SkippedEntry(dh.value, number.value, key.value));
  }

  /** What the entry loop still has to produce once it has read `done` and stands at `rest`. */
  function EntriesAfter(done: seq<SkippedEntry>, rest: Bytes, left: nat): Result<Read<seq<SkippedEntry>>, DecodeError> {
    match ReadEntries(rest, left)
    case Err(e) => Err(e)
    case Ok(others) => Ok(Read(done + others.value, others.rest))
  }

  lemma {:induction false} OneMoreEntry(done: seq<SkippedEntry>, rest: Bytes, left: nat)
    requires left > 0
    ensures ReadEntry(rest).Err? ==> EntriesAfter(done, rest, left) == Err(ReadEntry(rest).error)
    ensures ReadEntry(rest).Ok? ==>
              EntriesAfter(done, rest, left) == EntriesAfter(done + [ReadEntry(rest).value.value], ReadEntry(rest).value.rest, left - 1)
  {
    hide ReadEntry;
    if ReadEntry(rest).Ok? {
      var first := ReadEntry(rest).value;
      if ReadEntries(first.rest, left - 1).Ok? {
        var others := ReadEntries(first.rest, left - 1).value.value;
        assert done + ([first.value] + others) == (done + [first.value]) + others;
      }
    }
  }

  method ReadEntriesAt(input: Bytes, offset: nat, count: nat) returns (r: Result<seq<SkippedEntry>, DecodeError>, next: nat)
    requires offset <= |input|
    ensures ReadAt(input, ReadEntries(input[offset..], count), r, next)
  {
    hide ReadEntry;
    var entries: seq<SkippedEntry> := [];
    next := offset;
    NothingReadYet(input[offset..], count);
    for i := 0 to count
      invariant next <= |input|
      invariant ReadEntries(input[offset..], count) == EntriesAfter(entries, input[next..], count - i)
    {
      OneMoreEntry(entries, input[next..], count - i);
      var entry;
      entry, next := ReadEntryAt(input, next);
      if entry.Err? {
        return Err(entry.error), next;
      }
      entries := entries + [entry.value];
    }
    r := Ok(entries);
    assert entries + [] == entries;
  }

  lemma {:induction false} NothingReadYet(rest: Bytes, count: nat)
    ensures ReadEntries(rest, count) == EntriesAfter([], rest, count)
  {
    if ReadEntries(rest, count).Ok? {
      assert [] + ReadEntries(rest, count).value.value == ReadEntries(rest, count).value.value;
    }
  }

  /** Loads a ratchet, field by field, at a moving offset. */
  method LoadRatchet(input: Bytes) returns (r: Result<SavedRatchet, DecodeError>)
    ensures r == DecodeRatchet(input)
  {
    hide ReadFixed, ReadOptional, ReadU32, ReadEntries, FromEntries;
    var offset, self, remote, root, sending, receiving, sent, received, previous, count, entries;
    assert input[0..] == input;
    self, offset := ReadFixedAt(input, 0);
    if self.Err? {
      return Err(self.error);
    }
    remote, offset := ReadOptionalAt(input, offset);
    if remote.Err? {
      return Err(remote.error);
    }
    root, offset := ReadFixedAt(input, offset);
    if root.Err? {
      return Err(root.error);
    }
    sending, offset := ReadOptionalAt(input, offset);
    if sending.Err? {
      return Err(sending.error);
    }
    receiving, offset := ReadOptionalAt(input, offset);
    if receiving.Err? {
      return Err(receiving.error);
    }
    sent, offset := ReadU32At(input, offset);
    if sent.Err? {
      return Err(sent.error);
    }
    received, offset := ReadU32At(input, offset);
    if received.Err? {
      return Err(received.error);
    }
    previous, offset := ReadU32At(input, offset);
    if previous.Err? {
      return Err(previous.error);
    }
    count, offset := ReadU32At(input, offset);
    if count.Err? {
      return Err(count.error);
    }
    entries, offset := ReadEntriesAt(input, offset, count.value);
    if entries.Err? {
      return Err(entries.error);
    }
    r := Ok(SavedRatchet(self.value, remote.value, root.value, sending.value, receiving.value,
                         sent.value, received.value, previous.value, FromEntries(entries.value)));
  }

  method SaveEntries(entries: seq<SkippedEntry>, buffer: Bytes) returns (out: Bytes)
    ensures out == buffer + EncodeEntries(entries)
  {
    out := buffer;
    assert entries[0..] == entries;
    for i := 0 to |entries|
      invariant out + EncodeEntries(entries[i..]) == buffer + EncodeEntries(entries)
    {
      var e := entries[i];
      assert entries[i..][0] == e && entries[i..][1..] == entries[i + 1..];
      assert out + EncodeEntries(entries[i..]) == (out + EncodeEntry(e)) + EncodeEntries(entries[i + 1..]);
      ghost var before := out;
      out := out + e.dhPublic;
      out := EncodeTo(e.messageNumber, out);
      out := out + e.key;
      assert out == before + EncodeEntry(e);
    }
    assert out + [] == out;
  }

  /** Saves a ratchet into a growing buffer, its skipped keys in the order given. */
  method SaveRatchet(r: SavedRatchet, entries: seq<SkippedEntry>) returns (out: Bytes)
    requires |entries| < U32
    ensures out == EncodeRatchet(r, entries)
  {
    hide Encode, EncodeEntries, EncodeOptional;
    out := r.dhSelf + EncodeOptional(r.dhRemote) + r.rootKey;
    out := out + EncodeOptional(r.sendingChain) + EncodeOptional(r.receivingChain);
    out := EncodeTo(r.sendCount, out);
    out := EncodeTo(r.recvCount, out);
    out := EncodeTo(r.previousLength, out);
    out := EncodeTo(|entries|, out);
    out := SaveEntries(entries, out);
  }
}
