/**
 What holds of every conversation, whatever the network does: honest messages are delivered exactly
 when their keys fit under the cap, nothing else is ever accepted, and nothing is accepted twice.
 */
module RatchetDelivery {
  import opened Prelude
  import opened SymbolicCrypto
  import opened RatchetSpec
  import opened RatchetConversation

  // ---- Which key a decryption tries -------------------------------------------------------------

  /** The message key under which `Decrypt` tries to open a ciphertext, if it gets that far. */
  function TrialKey(s: State, header: Header, newSecret: Secret): Option<MessageKey> {
    var slot := (header.dh, header.messageNumber);
    if slot in s.skipped then Some(s.skipped[slot])
    else
      match Prepare(s, header, newSecret)
      case Err(_) => None
      case Ok(ready) => if ready.receiving.None? then None else Some(MessageKey(ready.receiving.value))
  }

  lemma DecryptTriesOneKey(s: State, header: Header, c: Ciphertext, aad: Bytes, newSecret: Secret)
    ensures var r := Decrypt(s, header, c, aad, newSecret).1;
            var k := TrialKey(s, header, newSecret);
            var full := AssociatedData(aad, header);
            && (r.Ok? <==> k.Some? && Open(k.value, c, full).Some?)
            && (r.Ok? ==> c == Sealed(k.value, r.value, full))
    ensures Decrypt(s, header, c, aad, newSecret).1.Err? ==> Decrypt(s, header, c, aad, newSecret).0 == s
  {
  }

  lemma OwnParity(w: World, p: Party)
    requires KeysOk(w)
    ensures Sender(OwnEpoch(w, p)) == p
    ensures OwnEpoch(w, p) >= 1 ==> Sender(OwnEpoch(w, p) - 1) == Other(p)
  {
  }

  lemma RemoteKey(w: World, p: Party)
    requires KeysOk(w) && ChainsOk(w, p)
    ensures StateOf(w, p).remote == if OwnEpoch(w, p) >= 1 then Some(Public(w.keys[OwnEpoch(w, p) - 1])) else None
  {
  }

  lemma NothingStoredAheadAt(w: World, p: Party, n: nat)
    requires KeysOk(w) && SkippedOk(w, p)
    requires OwnEpoch(w, p) >= 1 && n >= StateOf(w, p).recvCount
    ensures (Public(w.keys[OwnEpoch(w, p) - 1]), n) !in StateOf(w, p).skipped
  {
    var own := OwnEpoch(w, p);
    OwnParity(w, p);
    if own == 1 {
      OldestKeyUnused(w, p, n);
    } else {
      assert SlotOk(w, p, own - 1, n);
    }
  }

  /** The signed prekey never seals a message, so no skipped key is filed under it. */
  lemma OldestKeyUnused(w: World, p: Party, n: nat)
    requires KeysOk(w) && SkippedOk(w, p)
    ensures (Public(w.keys[0]), n) !in StateOf(w, p).skipped
  {
    assert !KnownSlot(w, p, Public(w.keys[0]));
  }

  lemma NothingStoredAhead(w: World, p: Party)
    requires KeysOk(w) && ChainsOk(w, p) && SkippedOk(w, p)
    ensures FreshAhead(StateOf(w, p))
  {
    RemoteKey(w, p);
    if StateOf(w, p).remote.Some? {
      forall n: nat | n >= StateOf(w, p).recvCount
        ensures (StateOf(w, p).remote.value, n) !in StateOf(w, p).skipped
      {
        NothingStoredAheadAt(w, p, n);
      }
    }
  }

  // ---- The closed form of `Prepare` -------------------------------------------------------------

  /** A message of the epoch being received: the chain advances to it if the gap fits. */
  lemma PrepareSameEpoch(s: State, header: Header, newSecret: Secret, chain: ChainKey)
    requires FreshAhead(s) && s.remote == Some(header.dh)
    requires s.receiving == Some(Advance(chain, s.recvCount))
    ensures var n := header.messageNumber;
            Prepare(s, header, newSecret) ==
              if n <= s.recvCount then Ok(s)
              else if |s.skipped| + (n - s.recvCount) <= MAX_SKIPPED_KEYS then
                Ok(s.(receiving := Some(Advance(chain, n)), recvCount := n,
                      skipped := StoreWindow(s.skipped, header.dh, s.receiving.value, s.recvCount, n)))
              else Err(TooManySkippedKeys)
  {
    if header.messageNumber > s.recvCount {
      SkipClosedForm(s, header.messageNumber);
      AdvanceAdds(chain, s.recvCount, header.messageNumber - s.recvCount);
    }
  }

  function Gap(s: State, until: nat): nat {
    if s.remote.None? || s.receiving.None? then 0 else SatSub(until, s.recvCount)
  }

  /** The current receiving chain closed at `until`, as before a Diffie-Hellman step. */
  function Closed(s: State, until: nat): State {
    if Gap(s, until) == 0 then s
    else s.(receiving := Some(Advance(s.receiving.value, until - s.recvCount)), recvCount := until,
            skipped := StoreWindow(s.skipped, s.remote.value, s.receiving.value, s.recvCount, until))
  }

  /** A header naming another key closes the current chain if that fits, steps, and skips on. */
  lemma PrepareOtherKey(s: State, header: Header, newSecret: Secret)
    requires FreshAhead(s) && s.remote != Some(header.dh)
    ensures var gap := Gap(s, header.previousChainLength);
            Prepare(s, header, newSecret) ==
              if gap == 0 || |s.skipped| + gap <= MAX_SKIPPED_KEYS
              then Skip(DhStep(Closed(s, header.previousChainLength), header.dh, newSecret), header.messageNumber)
              else Err(TooManySkippedKeys)
  {
    if Gap(s, header.previousChainLength) > 0 {
      SkipClosedForm(s, header.previousChainLength);
    }
  }

  lemma {:induction false} SkipOnlyAdvances(s: State, until: nat)
    requires s.receiving.Some? && s.remote.Some?
    ensures Skip(s, until).Ok? ==>
              Skip(s, until).value.receiving == Some(Advance(s.receiving.value, SatSub(until, s.recvCount)))
    decreases SatSub(until, s.recvCount)
  {
    if s.recvCount < until && |s.skipped| < MAX_SKIPPED_KEYS {
      var (key, next) := ChainStep(s.receiving.value);
      SkipOnlyAdvances(s.(skipped := s.skipped[(s.remote.value, s.recvCount) := key], receiving := Some(next),
                          recvCount := s.recvCount + 1), until);
      AdvanceFromNext(s.receiving.value, until - s.recvCount);
    }
  }

  /** After a step, the tried key hangs off the root the receiver held and the named public key. */
  lemma TrialKeyAfterStep(s: State, header: Header, newSecret: Secret)
    requires FreshAhead(s) && s.remote != Some(header.dh)
    requires (header.dh, header.messageNumber) !in s.skipped
    ensures TrialKey(s, header, newSecret).Some? ==>
              TrialKey(s, header, newSecret).value
                == MessageKey(Advance(First(s.root, Dh(s.self, header.dh)), header.messageNumber))
  {
    PrepareOtherKey(s, header, newSecret);
    SkipOnlyAdvances(DhStep(Closed(s, header.previousChainLength), header.dh, newSecret), header.messageNumber);
  }

  // ---- Only honest, unopened messages are accepted ----------------------------------------------

  lemma ReceivingChain(w: World, p: Party)
    requires KeysOk(w) && ChainsOk(w, p)
    ensures var s := StateOf(w, p);
            s.receiving == if OwnEpoch(w, p) >= 2
                           then Some(Advance(ChainAt(w.shared, w.keys, OwnEpoch(w, p) - 1), s.recvCount)) else None
  {
  }

  lemma RootAndSelf(w: World, p: Party)
    requires KeysOk(w) && ChainsOk(w, p)
    ensures StateOf(w, p).root == RootAt(w.shared, w.keys, OwnEpoch(w, p))
    ensures StateOf(w, p).self == w.keys[OwnEpoch(w, p)]
  {
  }

  /** The three places a tried key can come from. */
  datatype Source = FromStore(epoch: nat) | FromChain | FromStep

  ghost predicate KeyFrom(w: World, p: Party, header: Header, key: MessageKey, source: Source)
    requires KeysOk(w)
  {
    var s := StateOf(w, p);
    var own := OwnEpoch(w, p);
    match source
    case FromStore(e) =>
      && 1 <= e < |w.keys| && Sender(e) == Other(p) && header.dh == Public(w.keys[e])
      && key == KeyAt(w, e, header.messageNumber) && key !in w.spent
    case FromChain =>
      && own >= 2 && header.dh == Public(w.keys[own - 1])
      && key == KeyAt(w, own - 1, Max(header.messageNumber, s.recvCount))
    case FromStep =>
      key == MessageKey(Advance(First(RootAt(w.shared, w.keys, own), Dh(w.keys[own], header.dh)), header.messageNumber))
  }

  lemma StoredSource(w: World, p: Party, header: Header) returns (e: nat)
    requires KeysOk(w) && SkippedOk(w, p)
    requires (header.dh, header.messageNumber) in StateOf(w, p).skipped
    ensures KeyFrom(w, p, header, StateOf(w, p).skipped[(header.dh, header.messageNumber)], FromStore(e))
  {
    assert KnownSlot(w, p, header.dh);
    e :| 1 <= e < |w.keys| && Sender(e) == Other(p) && Public(w.keys[e]) == header.dh;
    assert SlotOk(w, p, e, header.messageNumber);
  }

  lemma TrialKeySource(w: World, p: Party, header: Header, newSecret: Secret) returns (source: Source)
    requires KeysOk(w) && ChainsOk(w, p) && SkippedOk(w, p)
    requires TrialKey(StateOf(w, p), header, newSecret).Some?
    ensures KeyFrom(w, p, header, TrialKey(StateOf(w, p), header, newSecret).value, source)
  {
    var s := StateOf(w, p);
    NothingStoredAhead(w, p);
    RemoteKey(w, p);
    ReceivingChain(w, p);
    RootAndSelf(w, p);
    if (header.dh, header.messageNumber) in s.skipped {
      var e := StoredSource(w, p, header);
      source := FromStore(e);
    } else if s.remote == Some(header.dh) {
      source := FromChain;
      if OwnEpoch(w, p) >= 2 {
        PrepareSameEpoch(s, header, newSecret, ChainAt(w.shared, w.keys, OwnEpoch(w, p) - 1));
      }
    } else {
      source := FromStep;
      TrialKeyAfterStep(s, header, newSecret);
    }
  }

  lemma TriedKeysDescend(w: World, p: Party, header: Header, key: MessageKey, source: Source)
    requires KeysOk(w) && KeyFrom(w, p, header, key, source)
    ensures SecretOfChain(key.chain) == w.shared
  {
    match source
    case FromStore(e) => KeysDescend(w, e, header.messageNumber);
    case FromChain => KeysDescend(w, OwnEpoch(w, p) - 1, Max(header.messageNumber, StateOf(w, p).recvCount));
    case FromStep =>
      RootAtShape(w.shared, w.keys, OwnEpoch(w, p));
      AdvanceShape(First(RootAt(w.shared, w.keys, OwnEpoch(w, p)), Dh(w.keys[OwnEpoch(w, p)], header.dh)), header.messageNumber);
  }

  /** A tried key that sealed an honest message under this very header is the peer's unopened one. */
  lemma TriedHonestKey(w: World, p: Party, header: Header, key: MessageKey, source: Source, m: Sent)
    requires KeysOk(w) && SkippedOk(w, p) && LogEntryOk(w, m)
    requires KeyFrom(w, p, header, key, source)
    requires m.header == header && m.ciphertext.key == key
    ensures m.from == Other(p) && key !in w.spent
    ensures source.FromStore? ==> m.epoch == source.epoch
    ensures source.FromChain? ==> m.epoch == OwnEpoch(w, p) - 1 && header.messageNumber >= StateOf(w, p).recvCount
    ensures source.FromStep? ==> m.epoch == OwnEpoch(w, p) + 1
  {
    var own := OwnEpoch(w, p);
    var n := header.messageNumber;
    OwnParity(w, p);
    match source
    case FromStore(e) =>
      KeysAreDistinct(w, m.epoch, n, e, n);
    case FromChain =>
      KeysAreDistinct(w, m.epoch, n, own - 1, Max(n, StateOf(w, p).recvCount));
      assert SlotOk(w, p, own - 1, n);
    case FromStep =>
      StepKeyIsNext(w, own, header.dh, m.epoch, n);
      assert SlotOk(w, p, own + 1, n);
  }

  /** A key derived by a step from epoch `own` can only belong to epoch `own + 1`. */
  lemma StepKeyIsNext(w: World, own: nat, dh: Public, epoch: nat, n: nat)
    requires KeysOk(w) && own < |w.keys| && 1 <= epoch < |w.keys|
    requires KeyAt(w, epoch, n) == MessageKey(Advance(First(RootAt(w.shared, w.keys, own), Dh(w.keys[own], dh)), n))
    ensures epoch == own + 1
  {
    AdvanceShape(ChainAt(w.shared, w.keys, epoch), n);
    AdvanceShape(First(RootAt(w.shared, w.keys, own), Dh(w.keys[own], dh)), n);
    RootAtShape(w.shared, w.keys, own);
    RootAtShape(w.shared, w.keys, epoch - 1);
  }

  /**
   Soundness: whatever header, ciphertext and associated data the network supplies, an accepted
   message is one the peer sealed, with that header and data, never accepted before.
   */
  lemma AcceptedIsHonest(w: World, p: Party, header: Header, c: Ciphertext, aad: Bytes, newSecret: Secret) returns (i: nat)
    requires Inv(w) && Admissible(w, c)
    requires Decrypt(StateOf(w, p), header, c, aad, newSecret).1.Ok?
    ensures i < |w.log| && w.log[i].from == Other(p)
    ensures w.log[i].ciphertext == c && w.log[i].header == header && w.log[i].aad == aad
    ensures Decrypt(StateOf(w, p), header, c, aad, newSecret).1 == Ok(w.log[i].plaintext)
    ensures c.key !in w.spent
  {
    DecryptTriesOneKey(StateOf(w, p), header, c, aad, newSecret);
    var source := TrialKeySource(w, p, header, newSecret);
    TriedKeysDescend(w, p, header, c.key, source);
    i :| 0 <= i < |w.log| && w.log[i].ciphertext == c;
    assert LogEntryOk(w, w.log[i]);
    TriedHonestKey(w, p, header, c.key, source, w.log[i]);
  }

  // ---- Honest messages are delivered ------------------------------------------------------------

  /** The state after closing, stepping and skipping to the header's message. */
  function StepResult(s: State, header: Header, newSecret: Secret): State {
    var closed := Closed(s, header.previousChainLength);
    var first := First(s.root, Dh(s.self, header.dh));
    DhStep(closed, header.dh, newSecret).(
      receiving := Some(Advance(first, header.messageNumber)), recvCount := header.messageNumber,
      skipped := StoreWindow(closed.skipped, header.dh, first, 0, header.messageNumber))
  }

  /** Under a public key with no stored slots, a step succeeds exactly when all skipped keys fit. */
  lemma PrepareStep(s: State, header: Header, newSecret: Secret)
    requires FreshAhead(s) && s.remote != Some(header.dh)
    requires forall k: nat :: (header.dh, k) !in s.skipped
    ensures Prepare(s, header, newSecret) ==
              if Fits(s, header) then Ok(StepResult(s, header, newSecret)) else Err(TooManySkippedKeys)
  {
    var pn, n := header.previousChainLength, header.messageNumber;
    var gap := Gap(s, pn);
    PrepareOtherKey(s, header, newSecret);
    if gap == 0 || |s.skipped| + gap <= MAX_SKIPPED_KEYS {
      var closed := Closed(s, pn);
      if gap > 0 {
        StoreWindowSize(s.skipped, s.remote.value, s.receiving.value, s.recvCount, pn);
        StoreWindowSlots(s.skipped, s.remote.value, s.receiving.value, s.recvCount, pn);
      }
      assert |closed.skipped| == |s.skipped| + gap;
      var stepped := DhStep(closed, header.dh, newSecret);
      assert FreshAhead(stepped);
      if n > 0 {
        SkipClosedForm(stepped, n);
      }
    }
  }

  /** Where an honest message stands relative to its receiver. */
  lemma MessagePosition(w: World, p: Party, m: Sent)
    requires KeysOk(w) && LogEntryOk(w, m) && m.from == Other(p)
    ensures m.epoch < OwnEpoch(w, p) || m.epoch == OwnEpoch(w, p) + 1
  {
    OwnParity(w, p);
  }

  lemma DeliverStored(w: World, p: Party, m: Sent, newSecret: Secret)
    requires KeysOk(w) && SkippedOk(w, p) && LogEntryOk(w, m) && m.from == Other(p)
    requires m.ciphertext.key !in w.spent && m.header.messageNumber < Passed(w, p, m.epoch)
    ensures (m.header.dh, m.header.messageNumber) in StateOf(w, p).skipped
    ensures TrialKey(StateOf(w, p), m.header, newSecret) == Some(m.ciphertext.key)
  {
    assert SlotOk(w, p, m.epoch, m.header.messageNumber);
  }

  lemma DeliverOnChain(w: World, p: Party, m: Sent, newSecret: Secret)
    requires KeysOk(w) && ChainsOk(w, p) && SkippedOk(w, p) && LogEntryOk(w, m) && m.from == Other(p)
    requires m.epoch + 1 == OwnEpoch(w, p) && m.header.messageNumber >= StateOf(w, p).recvCount
    ensures var s := StateOf(w, p);
            && s.remote == Some(m.header.dh)
            && (m.header.dh, m.header.messageNumber) !in s.skipped
            && Prepare(s, m.header, newSecret) ==
                 (if Fits(s, m.header) then
                   Ok(if m.header.messageNumber == s.recvCount then s else
                        s.(receiving := Some(Advance(ChainAt(w.shared, w.keys, m.epoch), m.header.messageNumber)),
                           recvCount := m.header.messageNumber,
                           skipped := StoreWindow(s.skipped, m.header.dh, s.receiving.value, s.recvCount, m.header.messageNumber)))
                 else Err(TooManySkippedKeys))
            && TrialKey(s, m.header, newSecret) == (if Fits(s, m.header) then Some(m.ciphertext.key) else None)
  {
    var s := StateOf(w, p);
    NothingStoredAhead(w, p);
    RemoteKey(w, p);
    ReceivingChain(w, p);
    NothingStoredAheadAt(w, p, m.header.messageNumber);
    PrepareSameEpoch(s, m.header, newSecret, ChainAt(w.shared, w.keys, m.epoch));
  }

  lemma DeliverByStep(w: World, p: Party, m: Sent, newSecret: Secret)
    requires KeysOk(w) && ChainsOk(w, p) && SkippedOk(w, p) && LogEntryOk(w, m) && m.from == Other(p)
    requires m.epoch == OwnEpoch(w, p) + 1
    ensures var s := StateOf(w, p);
            && s.remote != Some(m.header.dh)
            && (forall k: nat :: (m.header.dh, k) !in s.skipped)
            && FreshAhead(s)
            && Prepare(s, m.header, newSecret) ==
                 (if Fits(s, m.header) then Ok(StepResult(s, m.header, newSecret)) else Err(TooManySkippedKeys))
            && TrialKey(s, m.header, newSecret) == (if Fits(s, m.header) then Some(m.ciphertext.key) else None)
  {
    var s := StateOf(w, p);
    NothingStoredAhead(w, p);
    RemoteKey(w, p);
    RootAndSelf(w, p);
    forall k: nat ensures (m.header.dh, k) !in s.skipped {
      assert SlotOk(w, p, m.epoch, k);
    }
    PrepareStep(s, m.header, newSecret);
  }

  lemma ResultOfTrial(s: State, header: Header, c: Ciphertext, aad: Bytes, newSecret: Secret)
    ensures var full := AssociatedData(aad, header);
            var r := Decrypt(s, header, c, aad, newSecret);
            && (TrialKey(s, header, newSecret).Some? && Open(TrialKey(s, header, newSecret).value, c, full).Some? ==>
                  r.1 == Ok(Open(TrialKey(s, header, newSecret).value, c, full).value))
            && ((header.dh, header.messageNumber) !in s.skipped && Prepare(s, header, newSecret).Err? ==>
                  r == (s, Err(Prepare(s, header, newSecret).error)))
  {
  }

  /**
   Delivery: a message honestly sealed by the peer and not yet opened yields its exact plaintext,
   whatever else was lost, reordered, duplicated or injected before it, exactly when the keys to be
   skipped fit under the cap; otherwise the receiver is left untouched.
   */
  lemma HonestIsDelivered(w: World, p: Party, i: nat, newSecret: Secret)
    requires Inv(w) && i < |w.log| && w.log[i].from == Other(p)
    requires w.log[i].ciphertext.Sealed? && w.log[i].ciphertext.key !in w.spent
    ensures var m := w.log[i];
            var s := StateOf(w, p);
            var r := Decrypt(s, m.header, m.ciphertext, m.aad, newSecret);
            if Fits(s, m.header) then r.1 == Ok(m.plaintext) else r == (s, Err(TooManySkippedKeys))
  {
    var m := w.log[i];
    assert LogEntryOk(w, m);
    MessagePosition(w, p, m);
    ResultOfTrial(StateOf(w, p), m.header, m.ciphertext, m.aad, newSecret);
    if m.header.messageNumber < Passed(w, p, m.epoch) {
      DeliverStored(w, p, m, newSecret);
    } else if m.epoch == OwnEpoch(w, p) + 1 {
      DeliverByStep(w, p, m, newSecret);
    } else {
      DeliverOnChain(w, p, m, newSecret);
    }
  }
}
