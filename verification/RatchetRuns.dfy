/** The conversation invariant is kept by every event, hence holds after every run. */
module RatchetRuns {
  import opened Prelude
  import opened SymbolicCrypto
  import opened RatchetSpec
  import opened RatchetConversation
  import opened RatchetDelivery

  lemma StartInv(shared: SharedSecret, signedPrekey: Secret, first: Secret)
    requires signedPrekey != first
    ensures Inv(Start(shared, signedPrekey, first))
  {
    var w := Start(shared, signedPrekey, first);
    DhCommutes(first, signedPrekey);
    assert KeysOk(w) && LogOk(w) && SpentOk(w);
    assert RootAt(shared, w.keys, 0) == Initial(shared);
    assert ChainsOk(w, Alice);
    assert ChainsOk(w, Bob);
    forall p: Party ensures SkippedOk(w, p) {
      forall e: nat, n: nat | 1 <= e < |w.keys| && Sender(e) == Other(p) ensures SlotOk(w, p, e, n) {
      }
    }
  }

  // ---- Frames -----------------------------------------------------------------------------------

  /** `w2` extends `w1`: the same session with possibly more keys, messages and spent keys. */
  ghost predicate Extends(w1: World, w2: World) {
    && w1.shared == w2.shared
    && |w1.keys| >= 2 && w1.keys <= w2.keys && |w1.totals| == |w1.keys| && |w2.totals| == |w2.keys|
  }

  lemma KeyAtFrame(w1: World, w2: World, e: nat, n: nat)
    requires Extends(w1, w2) && 1 <= e < |w1.keys|
    ensures KeyAt(w1, e, n) == KeyAt(w2, e, n)
  {
    RootAtFrame(w1, w2, e - 1);
  }

  lemma RootAtFrame(w1: World, w2: World, e: nat)
    requires Extends(w1, w2) && e < |w1.keys|
    ensures RootAt(w1.shared, w1.keys, e) == RootAt(w2.shared, w2.keys, e)
  {
    assert w2.keys == w1.keys + w2.keys[|w1.keys|..];
    RootAtPrefix(w1.shared, w1.keys, w2.keys[|w1.keys|..], e);
  }

  /** A logged message stays honest when totals of its own epoch grow and its predecessor's stay. */
  lemma LogEntryFrame(w1: World, w2: World, m: Sent)
    requires KeysOk(w1) && KeysOk(w2) && Extends(w1, w2) && LogEntryOk(w1, m)
    requires w1.totals[m.epoch] <= w2.totals[m.epoch]
    requires PreviousTotal(w1, m.epoch) == PreviousTotal(w2, m.epoch)
    ensures LogEntryOk(w2, m)
  {
    KeyAtFrame(w1, w2, m.epoch, m.header.messageNumber);
  }

  lemma SealedFrame(w1: World, w2: World, k: MessageKey)
    requires SealedBy(w1, k) && w1.log <= w2.log
    ensures SealedBy(w2, k)
  {
    var i :| 0 <= i < |w1.log| && w1.log[i].ciphertext.Sealed? && w1.log[i].ciphertext.key == k;
    assert w2.log[i] == w1.log[i];
  }

  // ---- Sealing ----------------------------------------------------------------------------------

  lemma SendKeepsLog(w: World, p: Party, plaintext: Bytes, aad: Bytes)
    requires KeysOk(w) && LogOk(w) && ChainsOk(w, p) && OwnEpoch(w, p) >= 1
    ensures KeysOk(Step(w, Send(p, plaintext, aad))) && LogOk(Step(w, Send(p, plaintext, aad)))
  {
    hide RootAt, ChainAt;
    var w2 := Step(w, Send(p, plaintext, aad));
    var own := OwnEpoch(w, p);
    OwnParity(w, p);
    forall i | 0 <= i < |w.log| ensures LogEntryOk(w2, w.log[i]) {
      assert LogEntryOk(w, w.log[i]);
      LogEntryFrame(w, w2, w.log[i]);
    }
    var m := w2.log[|w.log|];
    assert LogEntryOk(w2, m) by {
      KeyAtFrame(w, w2, own, w.totals[own]);
    }
    forall i, j | 0 <= i < j < |w2.log|
      ensures w2.log[i].epoch != w2.log[j].epoch || w2.log[i].header.messageNumber != w2.log[j].header.messageNumber
    {
      assert LogEntryOk(w, w.log[i]);
    }
  }

  lemma SendKeepsChains(w: World, p: Party, plaintext: Bytes, aad: Bytes, q: Party)
    requires KeysOk(w) && ChainsOk(w, p) && ChainsOk(w, q) && OwnEpoch(w, p) >= 1
    ensures KeysOk(Step(w, Send(p, plaintext, aad))) && ChainsOk(Step(w, Send(p, plaintext, aad)), q)
  {
    hide RootAt, ChainAt;
    OwnParity(w, p);
    OwnParity(w, q);
  }

  lemma SendKeepsSlot(w: World, p: Party, plaintext: Bytes, aad: Bytes, q: Party, e: nat, n: nat)
    requires KeysOk(w) && ChainsOk(w, p) && OwnEpoch(w, p) >= 1
    requires 1 <= e < |w.keys| && Sender(e) == Other(q) && SlotOk(w, q, e, n)
    requires KeysOk(Step(w, Send(p, plaintext, aad)))
    ensures SlotOk(Step(w, Send(p, plaintext, aad)), q, e, n)
  {
    var w2 := Step(w, Send(p, plaintext, aad));
    OwnParity(w, p);
    OwnParity(w, q);
    KeyAtFrame(w, w2, e, n);
  }

  lemma SendKeepsSkipped(w: World, p: Party, plaintext: Bytes, aad: Bytes, q: Party)
    requires KeysOk(w) && ChainsOk(w, p) && OwnEpoch(w, p) >= 1 && SkippedOk(w, q)
    requires KeysOk(Step(w, Send(p, plaintext, aad)))
    ensures SkippedOk(Step(w, Send(p, plaintext, aad)), q)
  {
    var w2 := Step(w, Send(p, plaintext, aad));
    forall k | k in StateOf(w2, q).skipped ensures KnownSlot(w2, q, k.0) {
      assert KnownSlot(w, q, k.0);
    }
    forall e: nat, n: nat | 1 <= e < |w2.keys| && Sender(e) == Other(q) ensures SlotOk(w2, q, e, n) {
      assert SlotOk(w, q, e, n);
      SendKeepsSlot(w, p, plaintext, aad, q, e, n);
    }
  }

  /** A party without a sending chain sends nothing. */
  lemma SilentSend(w: World, p: Party, plaintext: Bytes, aad: Bytes)
    requires KeysOk(w) && ChainsOk(w, p) && OwnEpoch(w, p) == 0
    ensures Step(w, Send(p, plaintext, aad)) == w
  {
  }

  lemma SendKeepsInv(w: World, p: Party, plaintext: Bytes, aad: Bytes)
    requires Inv(w)
    ensures Inv(Step(w, Send(p, plaintext, aad)))
  {
    hide ChainsOk, LogOk, SkippedOk, RootAt, ChainAt;
    var w2 := Step(w, Send(p, plaintext, aad));
    if OwnEpoch(w, p) >= 1 {
      SendKeepsLog(w, p, plaintext, aad);
      SendKeepsChains(w, p, plaintext, aad, Alice);
      SendKeepsChains(w, p, plaintext, aad, Bob);
      SendKeepsSkipped(w, p, plaintext, aad, Alice);
      SendKeepsSkipped(w, p, plaintext, aad, Bob);
      forall k | k in w2.spent ensures SealedBy(w2, k) {
        SealedFrame(w, w2, k);
      }
    } else {
      SilentSend(w, p, plaintext, aad);
    }
  }

  // ---- Opening ----------------------------------------------------------------------------------

  /** An honest message of the peer that was not opened before. */
  ghost predicate Pending(w: World, p: Party, m: Sent)
    requires KeysOk(w)
  {
    LogEntryOk(w, m) && m.from == Other(p) && m.ciphertext.key !in w.spent
  }

  /** The receiver's state after opening a pending message that fits. */
  function Opened(w: World, p: Party, m: Sent, newSecret: Secret): State
    requires KeysOk(w) && m.epoch < |w.keys|
  {
    var s := StateOf(w, p);
    var n := m.header.messageNumber;
    if n < Passed(w, p, m.epoch) then s.(skipped := s.skipped - {(m.header.dh, n)})
    else if m.epoch == OwnEpoch(w, p) + 1 then
      var stepped := StepResult(s, m.header, newSecret);
      stepped.(receiving := Some(Advance(First(s.root, Dh(s.self, m.header.dh)), n + 1)), recvCount := n + 1)
    else if s.receiving.Some? && m.epoch >= 1 then
      s.(receiving := Some(Advance(ChainAt(w.shared, w.keys, m.epoch), n + 1)), recvCount := n + 1,
         skipped := StoreWindow(s.skipped, m.header.dh, s.receiving.value, s.recvCount, n))
    else s
  }

  lemma OpenedIsResult(w: World, p: Party, m: Sent, newSecret: Secret)
    requires KeysOk(w) && ChainsOk(w, p) && SkippedOk(w, p) && Pending(w, p, m) && Fits(StateOf(w, p), m.header)
    ensures Decrypt(StateOf(w, p), m.header, m.ciphertext, m.aad, newSecret)
              == (Opened(w, p, m, newSecret), Ok(m.plaintext))
  {
    var s := StateOf(w, p);
    MessagePosition(w, p, m);
    if m.header.messageNumber < Passed(w, p, m.epoch) {
      DeliverStored(w, p, m, newSecret);
    } else if m.epoch == OwnEpoch(w, p) + 1 {
      DeliverByStep(w, p, m, newSecret);
    } else {
      DeliverOnChain(w, p, m, newSecret);
      ReceivingChain(w, p);
    }
  }

  /** The world after `p` opened `m` without a step. */
  function AfterOpen(w: World, p: Party, m: Sent, newSecret: Secret): World
    requires KeysOk(w) && m.epoch < |w.keys| && m.ciphertext.Sealed?
  {
    WithState(w, p, Opened(w, p, m, newSecret)).(spent := w.spent + {m.ciphertext.key})
  }

  lemma SpentUnlessMessage(w: World, m: Sent, e: nat, n: nat)
    requires KeysOk(w) && LogEntryOk(w, m) && 1 <= e < |w.keys|
    ensures KeyAt(w, e, n) == m.ciphertext.key <==> e == m.epoch && n == m.header.messageNumber
  {
    KeysAreDistinct(w, e, n, m.epoch, m.header.messageNumber);
  }

  lemma OtherSlotsKept(w: World, w2: World, p: Party, q: Party, m: Sent, e: nat, n: nat)
    requires KeysOk(w) && Pending(w, p, m) && q == Other(p)
    requires w2.shared == w.shared && w2.keys == w.keys && w2.totals == w.totals
    requires StateOf(w2, q) == StateOf(w, q) && w2.spent == w.spent + {m.ciphertext.key}
    requires 1 <= e < |w.keys| && Sender(e) == Other(q) && SlotOk(w, q, e, n)
    ensures SlotOk(w2, q, e, n)
  {
    SpentUnlessMessage(w, m, e, n);
    KeyAtFrame(w, w2, e, n);
  }

  lemma StoredSlotsKept(w: World, p: Party, m: Sent, newSecret: Secret, e: nat, n: nat)
    requires KeysOk(w) && ChainsOk(w, p) && Pending(w, p, m)
    requires m.header.messageNumber < Passed(w, p, m.epoch)
    requires 1 <= e < |w.keys| && SlotOk(w, p, e, n)
    ensures SlotOk(AfterOpen(w, p, m, newSecret), p, e, n)
  {
    SpentUnlessMessage(w, m, e, n);
    KeyAtFrame(w, AfterOpen(w, p, m, newSecret), e, n);
  }

  /** One slot of a store to which the window `from..until` of a chain was added. */
  lemma WindowSlot(skipped: SkippedKeys, remote: Public, chain: ChainKey, from: nat, until: nat, q: Public, n: nat)
    requires from <= until
    requires q == remote && n >= from ==> (remote, n) !in skipped
    ensures var t := StoreWindow(skipped, remote, Advance(chain, from), from, until);
            && ((q, n) in t <==> (q, n) in skipped || (q == remote && from <= n < until))
            && ((q, n) in skipped ==> t[(q, n)] == skipped[(q, n)])
            && (q == remote && from <= n < until ==> t[(q, n)] == MessageKey(Advance(chain, n)))
  {
    StoreWindowSlots(skipped, remote, Advance(chain, from), from, until);
    if (q, n) in skipped {
      StoreWindowKeeps(skipped, remote, Advance(chain, from), from, until, q, n);
    } else if q == remote && from <= n < until {
      StoreWindowKey(skipped, remote, Advance(chain, from), from, until, q, n);
      AdvanceAdds(chain, from, n - from);
    }
  }

  lemma ChainSlotsKept(w: World, p: Party, m: Sent, newSecret: Secret, e: nat, n: nat)
    requires KeysOk(w) && ChainsOk(w, p) && Pending(w, p, m)
    requires m.header.messageNumber >= Passed(w, p, m.epoch) && m.epoch + 1 == OwnEpoch(w, p)
    requires 1 <= e < |w.keys| && Sender(e) == Other(p) && SlotOk(w, p, e, n)
    ensures SlotOk(AfterOpen(w, p, m, newSecret), p, e, n)
  {
    var s := StateOf(w, p);
    var w2 := AfterOpen(w, p, m, newSecret);
    SpentUnlessMessage(w, m, e, n);
    KeyAtFrame(w, w2, e, n);
    ReceivingChain(w, p);
    assert e != m.epoch ==> w.keys[e] != w.keys[m.epoch];
    WindowSlot(s.skipped, m.header.dh, ChainAt(w.shared, w.keys, m.epoch), s.recvCount, m.header.messageNumber,
               Public(w.keys[e]), n);
  }

  /** The world after `p` opened `m` and took a Diffie-Hellman step to `newSecret`. */
  function AfterStep(w: World, p: Party, m: Sent, newSecret: Secret): World
    requires KeysOk(w) && m.epoch < |w.keys| && m.ciphertext.Sealed?
  {
    AfterOpen(w, p, m, newSecret).(keys := w.keys + [newSecret], totals := w.totals + [0])
  }

  lemma StepKeepsKeys(w: World, p: Party, m: Sent, newSecret: Secret)
    requires KeysOk(w) && Pending(w, p, m) && newSecret !in w.keys && m.epoch == OwnEpoch(w, p) + 1
    ensures KeysOk(AfterStep(w, p, m, newSecret)) && Extends(w, AfterStep(w, p, m, newSecret))
    ensures OwnEpoch(AfterStep(w, p, m, newSecret), p) == OwnEpoch(w, p) + 2 == |w.keys|
    ensures OwnEpoch(AfterStep(w, p, m, newSecret), Other(p)) == OwnEpoch(w, Other(p)) == |w.keys| - 1
  {
    OwnParity(w, p);
  }

  /** The stepping party now holds the newest key, with both chains derived in the shared schedule. */
  lemma StepAdvancesChains(w: World, p: Party, m: Sent, newSecret: Secret)
    requires KeysOk(w) && ChainsOk(w, p) && Pending(w, p, m) && newSecret !in w.keys && m.epoch == OwnEpoch(w, p) + 1
    ensures KeysOk(AfterStep(w, p, m, newSecret)) && ChainsOk(AfterStep(w, p, m, newSecret), p)
  {
    var w2 := AfterStep(w, p, m, newSecret);
    var own := OwnEpoch(w, p);
    StepKeepsKeys(w, p, m, newSecret);
    RootAndSelf(w, p);
    RootAtFrame(w, w2, own);
    RootAtFrame(w, w2, own + 1);
    DhCommutes(newSecret, w.keys[own + 1]);
    StepState(w, p, m, newSecret);
    assert RootAt(w2.shared, w2.keys, own + 2)
        == Derived(RootAt(w2.shared, w2.keys, own + 1), Dh(w2.keys[own + 1], Public(newSecret)));
    assert RootAt(w2.shared, w2.keys, own + 1)
        == Derived(RootAt(w2.shared, w2.keys, own), Dh(w2.keys[own], m.header.dh));
  }

  lemma StepState(w: World, p: Party, m: Sent, newSecret: Secret)
    requires KeysOk(w) && ChainsOk(w, p) && Pending(w, p, m) && m.epoch == OwnEpoch(w, p) + 1
    ensures var s := StateOf(w, p);
            var t := Opened(w, p, m, newSecret);
            var r := Derived(s.root, Dh(s.self, m.header.dh));
            && t.self == newSecret && t.remote == Some(m.header.dh)
            && t.root == Derived(r, Dh(newSecret, m.header.dh))
            && t.sending == Some(First(r, Dh(newSecret, m.header.dh)))
            && t.receiving == Some(Advance(First(s.root, Dh(s.self, m.header.dh)), m.header.messageNumber + 1))
            && t.sendCount == 0 && t.recvCount == m.header.messageNumber + 1 && t.previousLength == s.sendCount
            && t.skipped == StoreWindow(Closed(s, m.header.previousChainLength).skipped, m.header.dh,
                                        First(s.root, Dh(s.self, m.header.dh)), 0, m.header.messageNumber)
  {
  }

  lemma StepKeepsPeerChains(w: World, p: Party, m: Sent, newSecret: Secret)
    requires KeysOk(w) && ChainsOk(w, Other(p)) && Pending(w, p, m) && newSecret !in w.keys && m.epoch == OwnEpoch(w, p) + 1
    ensures KeysOk(AfterStep(w, p, m, newSecret)) && ChainsOk(AfterStep(w, p, m, newSecret), Other(p))
  {
    var w2 := AfterStep(w, p, m, newSecret);
    var own := OwnEpoch(w, Other(p));
    StepKeepsKeys(w, p, m, newSecret);
    RootAtFrame(w, w2, own);
    RootAtFrame(w, w2, own - 1);
    if own >= 2 {
      RootAtFrame(w, w2, own - 2);
    }
  }

  /** Closing the old chain stores exactly its remaining keys. */
  lemma ClosedSlot(w: World, p: Party, m: Sent, e: nat, n: nat)
    requires KeysOk(w) && ChainsOk(w, p) && Pending(w, p, m) && m.epoch == OwnEpoch(w, p) + 1
    requires 1 <= e < |w.keys| && SlotOk(w, p, e, n)
    ensures var s := StateOf(w, p);
            var t := Closed(s, m.header.previousChainLength).skipped;
            var slot := (Public(w.keys[e]), n);
            && (slot in t <==> slot in s.skipped || (e + 1 == OwnEpoch(w, p) && s.recvCount <= n < w.totals[e]))
            && (slot in t ==> t[slot] == KeyAt(w, e, n))
  {
    var s := StateOf(w, p);
    var own := OwnEpoch(w, p);
    RemoteKey(w, p);
    ReceivingChain(w, p);
    assert e + 1 != own && own >= 1 ==> w.keys[e] != w.keys[own - 1];
    if own >= 2 && s.recvCount < w.totals[own - 1] {
      WindowSlot(s.skipped, s.remote.value, ChainAt(w.shared, w.keys, own - 1), s.recvCount, w.totals[own - 1],
                 Public(w.keys[e]), n);
    }
  }

  lemma StepSlotsKept(w: World, p: Party, m: Sent, newSecret: Secret, e: nat, n: nat)
    requires KeysOk(w) && ChainsOk(w, p) && Pending(w, p, m) && newSecret !in w.keys && m.epoch == OwnEpoch(w, p) + 1
    requires 1 <= e < |w.keys| && Sender(e) == Other(p) && SlotOk(w, p, e, n)
    requires KeysOk(AfterStep(w, p, m, newSecret))
    ensures SlotOk(AfterStep(w, p, m, newSecret), p, e, n)
  {
    var s := StateOf(w, p);
    var w2 := AfterStep(w, p, m, newSecret);
    StepKeepsKeys(w, p, m, newSecret);
    SpentUnlessMessage(w, m, e, n);
    KeyAtFrame(w, w2, e, n);
    RootAndSelf(w, p);
    OwnParity(w, p);
    StepState(w, p, m, newSecret);
    ClosedSlot(w, p, m, e, n);
    assert e != m.epoch ==> w.keys[e] != w.keys[m.epoch];
    WindowSlot(Closed(s, m.header.previousChainLength).skipped, m.header.dh, First(s.root, Dh(s.self, m.header.dh)),
               0, m.header.messageNumber, Public(w.keys[e]), n);
  }

  /** A key that just entered the conversation has sealed nothing and is stored nowhere. */
  lemma NewEpochIsEmpty(w: World, w2: World, q: Party, n: nat)
    requires KeysOk(w) && LogOk(w) && SpentOk(w) && SkippedOk(w, q) && KeysOk(w2) && Extends(w, w2)
    requires |w2.keys| == |w.keys| + 1
    ensures KeyAt(w2, |w.keys|, n) !in w.spent
    ensures (Public(w2.keys[|w.keys|]), n) !in StateOf(w, q).skipped
  {
    var e := |w.keys|;
    if KeyAt(w2, e, n) in w.spent {
      assert SealedBy(w, KeyAt(w2, e, n));
      var i :| 0 <= i < |w.log| && w.log[i].ciphertext.Sealed? && w.log[i].ciphertext.key == KeyAt(w2, e, n);
      assert LogEntryOk(w, w.log[i]);
      KeyAtFrame(w, w2, w.log[i].epoch, w.log[i].header.messageNumber);
      KeysAreDistinct(w2, e, n, w.log[i].epoch, w.log[i].header.messageNumber);
    }
    assert !KnownSlot(w, q, Public(w2.keys[e]));
  }

  lemma PeerSlotsKept(w: World, p: Party, m: Sent, newSecret: Secret, e: nat, n: nat)
    requires KeysOk(w) && LogOk(w) && SpentOk(w) && SkippedOk(w, Other(p)) && Pending(w, p, m)
    requires newSecret !in w.keys && m.epoch == OwnEpoch(w, p) + 1
    requires KeysOk(AfterStep(w, p, m, newSecret))
    requires 1 <= e <= |w.keys| && Sender(e) == p
    ensures SlotOk(AfterStep(w, p, m, newSecret), Other(p), e, n)
  {
    var w2 := AfterStep(w, p, m, newSecret);
    StepKeepsKeys(w, p, m, newSecret);
    OwnParity(w, p);
    if e == |w.keys| {
      NewEpochIsEmpty(w, w2, Other(p), n);
      KeyAtFrame(w, w2, m.epoch, m.header.messageNumber);
      KeysAreDistinct(w2, e, n, m.epoch, m.header.messageNumber);
    } else {
      assert SlotOk(w, Other(p), e, n);
      SpentUnlessMessage(w, m, e, n);
      KeyAtFrame(w, w2, e, n);
    }
  }

  lemma KnownSlotFrame(w: World, w2: World, p: Party, pub: Public)
    requires KnownSlot(w, p, pub) && w.keys <= w2.keys
    ensures KnownSlot(w2, p, pub)
  {
    var e: nat :| 1 <= e < |w.keys| && Sender(e) == Other(p) && Public(w.keys[e]) == pub;
    assert w2.keys[e] == w.keys[e];
  }

  /** Every slot of the receiver's new store names a known key, and the store stays within the cap. */
  lemma OpenedStore(w: World, p: Party, m: Sent, newSecret: Secret)
    requires KeysOk(w) && ChainsOk(w, p) && SkippedOk(w, p) && Pending(w, p, m) && Fits(StateOf(w, p), m.header)
    ensures var t := Opened(w, p, m, newSecret).skipped;
            |t| <= MAX_SKIPPED_KEYS && forall k :: k in t ==> KnownSlot(w, p, k.0)
  {
    var s := StateOf(w, p);
    var n := m.header.messageNumber;
    MessagePosition(w, p, m);
    NothingStoredAhead(w, p);
    RemoteKey(w, p);
    ReceivingChain(w, p);
    OwnParity(w, p);
    assert KnownSlot(w, p, m.header.dh);
    if n < Passed(w, p, m.epoch) {
      assert |s.skipped - {(m.header.dh, n)}| <= |s.skipped|;
    } else if m.epoch == OwnEpoch(w, p) + 1 {
      DeliverByStep(w, p, m, newSecret);
      SteppedStore(w, p, m);
    } else {
      DeliverOnChain(w, p, m, newSecret);
      StoreWindowSize(s.skipped, m.header.dh, s.receiving.value, s.recvCount, n);
      StoreWindowSlots(s.skipped, m.header.dh, s.receiving.value, s.recvCount, n);
    }
  }

  lemma SteppedStore(w: World, p: Party, m: Sent)
    requires KeysOk(w) && SkippedOk(w, p) && KnownSlot(w, p, m.header.dh)
    requires var s := StateOf(w, p);
             && FreshAhead(s) && s.remote != Some(m.header.dh)
             && (s.remote.Some? && s.receiving.Some? ==> KnownSlot(w, p, s.remote.value))
             && (forall k: nat :: (m.header.dh, k) !in s.skipped)
             && Fits(s, m.header)
    ensures var s := StateOf(w, p);
            var t := StoreWindow(Closed(s, m.header.previousChainLength).skipped, m.header.dh,
                                 First(s.root, Dh(s.self, m.header.dh)), 0, m.header.messageNumber);
            |t| <= MAX_SKIPPED_KEYS && forall k :: k in t ==> KnownSlot(w, p, k.0)
  {
    var s := StateOf(w, p);
    var closed := Closed(s, m.header.previousChainLength);
    if Gap(s, m.header.previousChainLength) > 0 {
      StoreWindowSize(s.skipped, s.remote.value, s.receiving.value, s.recvCount, m.header.previousChainLength);
      StoreWindowSlots(s.skipped, s.remote.value, s.receiving.value, s.recvCount, m.header.previousChainLength);
    }
    StoreWindowSize(closed.skipped, m.header.dh, First(s.root, Dh(s.self, m.header.dh)), 0, m.header.messageNumber);
    StoreWindowSlots(closed.skipped, m.header.dh, First(s.root, Dh(s.self, m.header.dh)), 0, m.header.messageNumber);
  }

  // ---- The invariant after opening --------------------------------------------------------------

  lemma LogAndSpentKept(w: World, w2: World, m: Sent)
    requires KeysOk(w) && LogOk(w) && SpentOk(w) && KeysOk(w2) && Extends(w, w2)
    requires m in w.log && LogEntryOk(w, m)
    requires w.totals <= w2.totals && w2.log == w.log && w2.spent == w.spent + {m.ciphertext.key}
    ensures LogOk(w2) && SpentOk(w2)
  {
    forall i | 0 <= i < |w2.log| ensures LogEntryOk(w2, w2.log[i]) {
      assert LogEntryOk(w, w.log[i]);
      assert forall e :: 0 <= e < |w.totals| ==> w.totals[e] == w2.totals[e];
      LogEntryFrame(w, w2, w.log[i]);
    }
    forall k | k in w2.spent ensures SealedBy(w2, k) {
      if k != m.ciphertext.key {
        assert SealedBy(w, k);
        SealedFrame(w, w2, k);
      }
    }
  }

  lemma OpenKeepsPeerChains(w: World, p: Party, m: Sent, newSecret: Secret)
    requires KeysOk(w) && ChainsOk(w, Other(p)) && Pending(w, p, m)
    ensures KeysOk(AfterOpen(w, p, m, newSecret)) && ChainsOk(AfterOpen(w, p, m, newSecret), Other(p))
  {
  }

  /** Opening without a step changes only the receiving chain, its counter and the skipped store. */
  lemma OpenState(w: World, p: Party, m: Sent, newSecret: Secret)
    requires KeysOk(w) && ChainsOk(w, p) && Pending(w, p, m)
    requires m.header.messageNumber < Passed(w, p, m.epoch) || m.epoch + 1 == OwnEpoch(w, p)
    ensures var s := StateOf(w, p);
            var t := Opened(w, p, m, newSecret);
            && t == s.(receiving := t.receiving, recvCount := t.recvCount, skipped := t.skipped)
            && (if m.header.messageNumber < Passed(w, p, m.epoch)
                then t.receiving == s.receiving && t.recvCount == s.recvCount
                else t.receiving == Some(Advance(ChainAt(w.shared, w.keys, m.epoch), m.header.messageNumber + 1))
                     && t.recvCount == m.header.messageNumber + 1)
  {
    ReceivingChain(w, p);
  }

  lemma OpenKeepsChains(w: World, p: Party, m: Sent, newSecret: Secret)
    requires KeysOk(w) && ChainsOk(w, p) && Pending(w, p, m)
    requires m.header.messageNumber < Passed(w, p, m.epoch) || m.epoch + 1 == OwnEpoch(w, p)
    ensures ChainsOk(AfterOpen(w, p, m, newSecret), p)
  {
    var w2 := AfterOpen(w, p, m, newSecret);
    OpenState(w, p, m, newSecret);
    assert StateOf(w2, p) == Opened(w, p, m, newSecret);
    assert OwnEpoch(w2, p) == OwnEpoch(w, p);
    assert PreviousTotal(w2, OwnEpoch(w2, p)) == PreviousTotal(w, OwnEpoch(w, p));
  }

  lemma OpenKeepsOwnStore(w: World, p: Party, m: Sent, newSecret: Secret)
    requires KeysOk(w) && ChainsOk(w, p) && SkippedOk(w, p) && Pending(w, p, m) && Fits(StateOf(w, p), m.header)
    requires m.header.messageNumber < Passed(w, p, m.epoch) || m.epoch + 1 == OwnEpoch(w, p)
    requires KeysOk(AfterOpen(w, p, m, newSecret))
    ensures SkippedOk(AfterOpen(w, p, m, newSecret), p)
  {
    var w2 := AfterOpen(w, p, m, newSecret);
    OpenedStore(w, p, m, newSecret);
    forall k | k in StateOf(w2, p).skipped ensures KnownSlot(w2, p, k.0) {
      KnownSlotFrame(w, w2, p, k.0);
    }
    forall e: nat, n: nat | 1 <= e < |w2.keys| && Sender(e) == Other(p) ensures SlotOk(w2, p, e, n) {
      assert SlotOk(w, p, e, n);
      if m.header.messageNumber < Passed(w, p, m.epoch) {
        StoredSlotsKept(w, p, m, newSecret, e, n);
      } else {
        ChainSlotsKept(w, p, m, newSecret, e, n);
      }
    }
  }

  lemma OtherStoreKept(w: World, w2: World, p: Party, q: Party, m: Sent)
    requires KeysOk(w) && KeysOk(w2) && Pending(w, p, m) && q == Other(p) && SkippedOk(w, q)
    requires w2.shared == w.shared && w2.keys == w.keys && w2.totals == w.totals
    requires StateOf(w2, q) == StateOf(w, q) && w2.spent == w.spent + {m.ciphertext.key}
    ensures SkippedOk(w2, q)
  {
    forall k | k in StateOf(w2, q).skipped ensures KnownSlot(w2, q, k.0) {
      assert KnownSlot(w, q, k.0);
    }
    forall e: nat, n: nat | 1 <= e < |w2.keys| && Sender(e) == Other(q) ensures SlotOk(w2, q, e, n) {
      assert SlotOk(w, q, e, n);
      OtherSlotsKept(w, w2, p, q, m, e, n);
    }
  }

  lemma OpenWithoutStepKeepsInv(w: World, p: Party, m: Sent, newSecret: Secret)
    requires Inv(w) && m in w.log && Pending(w, p, m) && Fits(StateOf(w, p), m.header)
    requires m.header.messageNumber < Passed(w, p, m.epoch) || m.epoch + 1 == OwnEpoch(w, p)
    ensures Inv(AfterOpen(w, p, m, newSecret))
  {
    var w2 := AfterOpen(w, p, m, newSecret);
    OpenKeepsChains(w, p, m, newSecret);
    OpenKeepsPeerChains(w, p, m, newSecret);
    LogAndSpentKept(w, w2, m);
    OpenKeepsOwnStore(w, p, m, newSecret);
    OtherStoreKept(w, w2, p, Other(p), m);
  }

  lemma StepKeepsOwnSlots(w: World, p: Party, m: Sent, newSecret: Secret, e: nat, n: nat)
    requires KeysOk(w) && ChainsOk(w, p) && SkippedOk(w, p) && Pending(w, p, m)
    requires m.epoch == OwnEpoch(w, p) + 1 && newSecret !in w.keys && KeysOk(AfterStep(w, p, m, newSecret))
    requires 1 <= e <= |w.keys| && Sender(e) == Other(p)
    ensures SlotOk(AfterStep(w, p, m, newSecret), p, e, n)
  {
    StepKeepsKeys(w, p, m, newSecret);
    OwnParity(w, p);
    assert e != |w.keys|;
    assert SlotOk(w, p, e, n);
    StepSlotsKept(w, p, m, newSecret, e, n);
  }

  lemma StepKeepsOwnStore(w: World, p: Party, m: Sent, newSecret: Secret)
    requires KeysOk(w) && ChainsOk(w, p) && SkippedOk(w, p) && Pending(w, p, m) && Fits(StateOf(w, p), m.header)
    requires m.epoch == OwnEpoch(w, p) + 1 && newSecret !in w.keys && KeysOk(AfterStep(w, p, m, newSecret))
    ensures SkippedOk(AfterStep(w, p, m, newSecret), p)
  {
    var w2 := AfterStep(w, p, m, newSecret);
    OpenedStore(w, p, m, newSecret);
    assert StateOf(w2, p) == Opened(w, p, m, newSecret);
    forall k | k in StateOf(w2, p).skipped ensures KnownSlot(w2, p, k.0) {
      KnownSlotFrame(w, w2, p, k.0);
    }
    forall e: nat, n: nat | 1 <= e < |w2.keys| && Sender(e) == Other(p) ensures SlotOk(w2, p, e, n) {
      StepKeepsOwnSlots(w, p, m, newSecret, e, n);
    }
  }

  lemma StepKeepsPeerStore(w: World, p: Party, m: Sent, newSecret: Secret)
    requires KeysOk(w) && LogOk(w) && SpentOk(w) && SkippedOk(w, Other(p)) && Pending(w, p, m)
    requires m.epoch == OwnEpoch(w, p) + 1 && newSecret !in w.keys && KeysOk(AfterStep(w, p, m, newSecret))
    ensures SkippedOk(AfterStep(w, p, m, newSecret), Other(p))
  {
    var w2 := AfterStep(w, p, m, newSecret);
    var q := Other(p);
    forall k | k in StateOf(w2, q).skipped ensures KnownSlot(w2, q, k.0) {
      assert KnownSlot(w, q, k.0);
      KnownSlotFrame(w, w2, q, k.0);
    }
    forall e: nat, n: nat | 1 <= e < |w2.keys| && Sender(e) == Other(q) ensures SlotOk(w2, q, e, n) {
      PeerSlotsKept(w, p, m, newSecret, e, n);
    }
  }

  lemma StepKeepsInv(w: World, p: Party, m: Sent, newSecret: Secret)
    requires Inv(w) && m in w.log && Pending(w, p, m) && Fits(StateOf(w, p), m.header)
    requires m.epoch == OwnEpoch(w, p) + 1 && newSecret !in w.keys
    ensures Inv(AfterStep(w, p, m, newSecret))
  {
    StepKeepsKeys(w, p, m, newSecret);
    LogAndSpentKept(w, AfterStep(w, p, m, newSecret), m);
    StepAdvancesChains(w, p, m, newSecret);
    StepKeepsPeerChains(w, p, m, newSecret);
    StepKeepsOwnStore(w, p, m, newSecret);
    StepKeepsPeerStore(w, p, m, newSecret);
  }

  lemma ReceiveKeepsInv(w: World, p: Party, header: Header, c: Ciphertext, aad: Bytes, newSecret: Secret)
    requires Inv(w) && Enabled(w, Receive(p, header, c, aad, newSecret))
    ensures Inv(Step(w, Receive(p, header, c, aad, newSecret)))
  {
    var s := StateOf(w, p);
    DecryptTriesOneKey(s, header, c, aad, newSecret);
    if Decrypt(s, header, c, aad, newSecret).1.Ok? {
      var i := AcceptedIsHonest(w, p, header, c, aad, newSecret);
      var m := w.log[i];
      assert Pending(w, p, m);
      HonestIsDelivered(w, p, i, newSecret);
      MessagePosition(w, p, m);
      AcceptKeepsInv(w, p, m, newSecret);
    } else {
      assert Step(w, Receive(p, header, c, aad, newSecret)) == w;
    }
  }

  /** Accepting a message either opens in place or takes one step to the fresh key. */
  lemma AcceptIsOpenOrStep(w: World, p: Party, m: Sent, newSecret: Secret)
    requires KeysOk(w) && ChainsOk(w, p) && Pending(w, p, m) && newSecret !in w.keys
    requires m.epoch < OwnEpoch(w, p) || m.epoch == OwnEpoch(w, p) + 1
    requires Decrypt(StateOf(w, p), m.header, m.ciphertext, m.aad, newSecret) == (Opened(w, p, m, newSecret), Ok(m.plaintext))
    ensures Step(w, Receive(p, m.header, m.ciphertext, m.aad, newSecret))
              == if m.epoch == OwnEpoch(w, p) + 1 then AfterStep(w, p, m, newSecret) else AfterOpen(w, p, m, newSecret)
  {
    RootAndSelf(w, p);
    assert StateOf(w, p).self in w.keys;
    if m.epoch == OwnEpoch(w, p) + 1 {
      StepState(w, p, m, newSecret);
    }
  }

  lemma AcceptKeepsInv(w: World, p: Party, m: Sent, newSecret: Secret)
    requires Inv(w) && m in w.log && Pending(w, p, m) && Fits(StateOf(w, p), m.header) && newSecret !in w.keys
    requires m.epoch < OwnEpoch(w, p) || m.epoch == OwnEpoch(w, p) + 1
    ensures Inv(Step(w, Receive(p, m.header, m.ciphertext, m.aad, newSecret)))
  {
    OpenedIsResult(w, p, m, newSecret);
    AcceptIsOpenOrStep(w, p, m, newSecret);
    if m.epoch == OwnEpoch(w, p) + 1 {
      StepKeepsInv(w, p, m, newSecret);
    } else {
      OpenWithoutStepKeepsInv(w, p, m, newSecret);
    }
  }

  // ---- Theorems over runs -----------------------------------------------------------------------

  lemma StepGrows(w: World, e: Event)
    requires |w.keys| >= 2 && |w.totals| == |w.keys|
    ensures w.spent <= Step(w, e).spent && w.log <= Step(w, e).log && w.shared == Step(w, e).shared
  {
  }

  lemma StepKeepsInvariant(w: World, e: Event)
    requires Inv(w) && Enabled(w, e)
    ensures Inv(Step(w, e))
  {
    match e
    case Send(p, plaintext, aad) => SendKeepsInv(w, p, plaintext, aad);
    case Receive(p, header, c, aad, newSecret) => ReceiveKeepsInv(w, p, header, c, aad, newSecret);
  }

  lemma {:induction false} RunKeepsInvariant(w: World, events: seq<Event>)
    requires Inv(w) && Run(w, events)
    ensures Inv(Play(w, events)) && w.spent <= Play(w, events).spent && w.log <= Play(w, events).log
    ensures Play(w, events).shared == w.shared
    decreases |events|
  {
    if events != [] {
      StepKeepsInvariant(w, events[0]);
      StepGrows(w, events[0]);
      RunKeepsInvariant(Step(w, events[0]), events[1..]);
    }
  }

  /** The delivery theorem, over every run of the two parties and the network. */
  lemma DeliveryOverRuns(shared: SharedSecret, signedPrekey: Secret, first: Secret, events: seq<Event>,
                         p: Party, i: nat, newSecret: Secret)
    requires signedPrekey != first && Run(Start(shared, signedPrekey, first), events)
    requires var w := Play(Start(shared, signedPrekey, first), events);
             i < |w.log| && w.log[i].from == Other(p) && w.log[i].ciphertext.Sealed? && w.log[i].ciphertext.key !in w.spent
    ensures var w := Play(Start(shared, signedPrekey, first), events);
            var m := w.log[i];
            var s := StateOf(w, p);
            var r := Decrypt(s, m.header, m.ciphertext, m.aad, newSecret);
            if Fits(s, m.header) then r.1 == Ok(m.plaintext) else r == (s, Err(TooManySkippedKeys))
  {
    StartInv(shared, signedPrekey, first);
    RunKeepsInvariant(Start(shared, signedPrekey, first), events);
    HonestIsDelivered(Play(Start(shared, signedPrekey, first), events), p, i, newSecret);
  }

  /**
   How many earlier messages of the peer the receiver has not passed: those before `m` on its own chain, and if that
   chain is new also those left of the one before.
   */
  function Missing(w: World, p: Party, m: Sent): nat
    requires KeysOk(w) && m.epoch < |w.keys|
  {
    var own := OwnEpoch(w, p);
    SatSub(m.header.messageNumber, Passed(w, p, m.epoch))
    + if m.epoch == own + 1 && own >= 2 then SatSub(w.totals[own - 1], StateOf(w, p).recvCount) else 0
  }

  lemma FitsExactly(w: World, p: Party, m: Sent)
    requires KeysOk(w) && ChainsOk(w, p) && SkippedOk(w, p) && Pending(w, p, m)
    ensures Fits(StateOf(w, p), m.header) <==>
              Missing(w, p, m) == 0 || |StateOf(w, p).skipped| + Missing(w, p, m) <= 2000
  {
    var s := StateOf(w, p);
    MessagePosition(w, p, m);
    OwnParity(w, p);
    if m.header.messageNumber < Passed(w, p, m.epoch) {
      DeliverStored(w, p, m, 0);
    } else if m.epoch == OwnEpoch(w, p) + 1 {
      DeliverByStep(w, p, m, 0);
    } else {
      DeliverOnChain(w, p, m, 0);
    }
  }

  /**
   Delivery in plain counts. Over every run an unopened message of the peer returns its exact plaintext exactly if no
   earlier message is missing, or the missing ones and the keys already stored are together at most 2000.
   */
  lemma DeliveredExactly(shared: SharedSecret, signedPrekey: Secret, first: Secret, events: seq<Event>,
                         p: Party, i: nat, newSecret: Secret)
    requires signedPrekey != first && Run(Start(shared, signedPrekey, first), events)
    requires var w := Play(Start(shared, signedPrekey, first), events);
             i < |w.log| && w.log[i].from == Other(p) && w.log[i].ciphertext.Sealed? && w.log[i].ciphertext.key !in w.spent
    ensures var w := Play(Start(shared, signedPrekey, first), events);
            var m := w.log[i];
            var s := StateOf(w, p);
            var r := Decrypt(s, m.header, m.ciphertext, m.aad, newSecret);
            && KeysOk(w) && m.epoch < |w.keys|
            && (if Missing(w, p, m) == 0 || |s.skipped| + Missing(w, p, m) <= 2000 then r.1 == Ok(m.plaintext)
                else r == (s, Err(TooManySkippedKeys)))
  {
    hide Decrypt, Fits, Step, Play;
    StartInv(shared, signedPrekey, first);
    RunKeepsInvariant(Start(shared, signedPrekey, first), events);
    var w := Play(Start(shared, signedPrekey, first), events);
    HonestIsDelivered(w, p, i, newSecret);
    assert LogEntryOk(w, w.log[i]);
    assert Pending(w, p, w.log[i]);
    FitsExactly(w, p, w.log[i]);
  }

  /** The shortest run that meets its hypotheses: the initiator's first message reaches the responder. */
  lemma FirstMessageArrives(shared: SharedSecret, signedPrekey: Secret, first: Secret, plaintext: Bytes, aad: Bytes, newSecret: Secret)
    requires signedPrekey != first
    ensures var events := [Send(Alice, plaintext, aad)];
            && Run(Start(shared, signedPrekey, first), events)
            && (var w := Play(Start(shared, signedPrekey, first), events);
                && |w.log| == 1
                && Decrypt(w.bob, w.log[0].header, w.log[0].ciphertext, aad, newSecret).1 == Ok(plaintext))
  {
    hide Decrypt;
    var start, events := Start(shared, signedPrekey, first), [Send(Alice, plaintext, aad)];
    assert events[1..] == [];
    assert Run(start, events) && Play(start, events) == Step(start, events[0]);
    DeliveryOverRuns(shared, signedPrekey, first, events, Bob, 0, newSecret);
  }

  /** Nothing but a message of the peer, with its own header and data, is ever accepted. */
  lemma AuthenticityOverRuns(shared: SharedSecret, signedPrekey: Secret, first: Secret, events: seq<Event>,
                             p: Party, header: Header, c: Ciphertext, aad: Bytes, newSecret: Secret)
    requires signedPrekey != first && Run(Start(shared, signedPrekey, first), events)
    requires Admissible(Play(Start(shared, signedPrekey, first), events), c)
    ensures var w := Play(Start(shared, signedPrekey, first), events);
            var r := Decrypt(StateOf(w, p), header, c, aad, newSecret);
            if r.1.Ok? then
              exists m :: m in w.log && m.from == Other(p) && m.header == header && m.ciphertext == c && m.aad == aad
                          && r.1 == Ok(m.plaintext)
            else r.0 == StateOf(w, p)
  {
    StartInv(shared, signedPrekey, first);
    RunKeepsInvariant(Start(shared, signedPrekey, first), events);
    var w := Play(Start(shared, signedPrekey, first), events);
    DecryptTriesOneKey(StateOf(w, p), header, c, aad, newSecret);
    if Decrypt(StateOf(w, p), header, c, aad, newSecret).1.Ok? {
      var i := AcceptedIsHonest(w, p, header, c, aad, newSecret);
      assert w.log[i] in w.log;
    }
  }

  /**
   No replay: once a party has accepted a ciphertext, no later call with that ciphertext, under any
   header and associated data and after any continuation of the run, succeeds for either party.
   */
  lemma NoReplayOverRuns(shared: SharedSecret, signedPrekey: Secret, first: Secret, before: seq<Event>, accepted: Event,
                         after: seq<Event>, q: Party, header: Header, aad: Bytes, newSecret: Secret)
    requires signedPrekey != first && Run(Start(shared, signedPrekey, first), before)
    requires var w := Play(Start(shared, signedPrekey, first), before);
             && accepted.Receive? && Enabled(w, accepted)
             && Decrypt(StateOf(w, accepted.party), accepted.header, accepted.ciphertext, accepted.aad, accepted.newSecret).1.Ok?
             && Run(Step(w, accepted), after)
    ensures var w := Play(Start(shared, signedPrekey, first), before);
            var later := Play(Step(w, accepted), after);
            Decrypt(StateOf(later, q), header, accepted.ciphertext, aad, newSecret).1.Err?
  {
    var w0 := Start(shared, signedPrekey, first);
    StartInv(shared, signedPrekey, first);
    RunKeepsInvariant(w0, before);
    var w := Play(w0, before);
    StepKeepsInvariant(w, accepted);
    StepGrows(w, accepted);
    RunKeepsInvariant(Step(w, accepted), after);
    var later := Play(Step(w, accepted), after);
    var c := accepted.ciphertext;
    var i := AcceptedIsHonest(w, accepted.party, accepted.header, c, accepted.aad, accepted.newSecret);
    DecryptTriesOneKey(StateOf(w, accepted.party), accepted.header, c, accepted.aad, accepted.newSecret);
    assert c.key in Step(w, accepted).spent;
    if Decrypt(StateOf(later, q), header, c, aad, newSecret).1.Ok? {
      assert later.log[i].ciphertext == c;
      var j := AcceptedIsHonest(later, q, header, c, aad, newSecret);
    }
  }
}
