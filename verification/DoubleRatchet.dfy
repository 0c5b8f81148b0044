/** The ratchet as the program holds it: objects whose fields change in place. */
module DoubleRatchetObjects {
  import opened Prelude
  import opened SymbolicCrypto
  import opened RatchetSpec

  class SkippedKeyStore {
    var keys: SkippedKeys

    constructor ()
      ensures keys == map[]
    {
      keys := map[];
    }

    constructor From(entries: SkippedKeys)
      ensures keys == entries
    {
      keys := entries;
    }

    /** Refuses, without changing anything, once the cap is reached. */
    method Insert(dh: Public, messageNumber: nat, key: MessageKey) returns (r: Result<(), RatchetError>)
      modifies this
      ensures r.Ok? <==> |old(keys)| < MAX_SKIPPED_KEYS
      ensures r.Err? ==> r.error == TooManySkippedKeys && keys == old(keys)
      ensures r.Ok? ==> keys == old(keys)[(dh, messageNumber) := key]
    {
      if |keys| >= MAX_SKIPPED_KEYS {
        return Err(TooManySkippedKeys);
      }
      keys := keys[(dh, messageNumber) := key];
      r := Ok(());
    }

    /** Removal is part of lookup: a key that was taken is gone. */
    method Take(dh: Public, messageNumber: nat) returns (key: Option<MessageKey>)
      modifies this
      ensures key == if (dh, messageNumber) in old(keys) then Some(old(keys)[(dh, messageNumber)]) else None
      ensures keys == old(keys) - {(dh, messageNumber)}
    {
      var slot := (dh, messageNumber);
      if slot in keys {
        key := Some(keys[slot]);
        keys := keys - {slot};
      } else {
        key := None;
        assert keys == keys - {slot};
      }
    }
  }

  class DoubleRatchet {
    var dhSelf: Secret
    var dhRemote: Option<Public>
    var rootKey: RootKey
    var sendingChain: Option<ChainKey>
    var receivingChain: Option<ChainKey>
    var sendCount: nat
    var recvCount: nat
    var previousSendingChainLength: nat
    var skipped: SkippedKeyStore

    /** The ratchet's value: its fields with the skipped store read out. */
    ghost function Value(): State
      reads this, skipped
    {
      State(dhSelf, dhRemote, rootKey, sendingChain, receivingChain, sendCount, recvCount,
            previousSendingChainLength, skipped.keys)
    }

    constructor InitInitiator(shared: SharedSecret, remote: Public, newSecret: Secret)
      ensures Value() == RatchetSpec.InitInitiator(shared, remote, newSecret) && fresh(skipped)
    {
      var (root, sending) := RootStep(Initial(shared), Dh(newSecret, remote));
      dhSelf, dhRemote, rootKey := newSecret, Some(remote), root;
      sendingChain, receivingChain := Some(sending), None;
      sendCount, recvCount, previousSendingChainLength := 0, 0, 0;
      var store := new SkippedKeyStore();
      skipped := store;
    }

    constructor InitResponder(shared: SharedSecret, mine: Secret)
      ensures Value() == RatchetSpec.InitResponder(shared, mine) && fresh(skipped)
    {
      dhSelf, dhRemote, rootKey := mine, None, Initial(shared);
      sendingChain, receivingChain := None, None;
      sendCount, recvCount, previousSendingChainLength := 0, 0, 0;
      var store := new SkippedKeyStore();
      skipped := store;
    }

    /** A deep copy to work on until the ciphertext has been authenticated. */
    constructor Clone(other: DoubleRatchet)
      ensures Value() == other.Value() && fresh(skipped)
    {
      dhSelf, dhRemote, rootKey := other.dhSelf, other.dhRemote, other.rootKey;
      sendingChain, receivingChain := other.sendingChain, other.receivingChain;
      sendCount, recvCount := other.sendCount, other.recvCount;
      previousSendingChainLength := other.previousSendingChainLength;
      var store := new SkippedKeyStore.From(other.skipped.keys);
      skipped := store;
    }

    method Encrypt(plaintext: Bytes, aad: Bytes) returns (r: Result<(Header, Ciphertext), RatchetError>)
      modifies this
      ensures skipped == old(skipped)
      ensures (Value(), r) == RatchetSpec.Encrypt(old(Value()), plaintext, aad)
    {
      if sendingChain.None? {
        return Err(MessageKeyUnavailable);
      }
      var (messageKey, nextChain) := ChainStep(sendingChain.value);
      sendingChain := Some(nextChain);
      var header := Header(Public(dhSelf), previousSendingChainLength, sendCount);
      sendCount := sendCount + 1;
      r := Ok((header, Sealed(messageKey, plaintext, AssociatedData(aad, header))));
    }

    /** Stores the keys up to `until`; on failure the scratch state is left half-way, for the caller to drop. */
    method SkipMessageKeys(until: nat) returns (r: Result<(), RatchetError>)
      modifies this, skipped
      ensures skipped == old(skipped)
      ensures match Skip(old(Value()), until)
              case Ok(s) => r == Ok(()) && Value() == s
              case Err(e) => r == Err(e)
    {
      if dhRemote.None? || receivingChain.None? {
        return Ok(());
      }
      var chain := receivingChain.value;
      while recvCount < until
        invariant skipped == old(skipped) && dhRemote == old(dhRemote) && receivingChain == old(receivingChain)
        invariant Skip(old(Value()), until) == Skip(Value().(receiving := Some(chain)), until)
        invariant Value() == old(Value()).(recvCount := recvCount, skipped := skipped.keys)
        decreases SatSub(until, recvCount)
      {
        var (messageKey, nextChain) := ChainStep(chain);
        var stored := skipped.Insert(dhRemote.value, recvCount, messageKey);
        if stored.Err? {
          return Err(stored.error);
        }
        chain := nextChain;
        recvCount := recvCount + 1;
      }
      receivingChain := Some(chain);
      r := Ok(());
    }

    method DhRatchetStep(remote: Public, newSecret: Secret)
      modifies this
      ensures skipped == old(skipped)
      ensures Value() == DhStep(old(Value()), remote, newSecret)
    {
      previousSendingChainLength := sendCount;
      sendCount := 0;
      recvCount := 0;
      dhRemote := Some(remote);

      var (rootAfterRecv, receiving) := RootStep(rootKey, Dh(dhSelf, remote));
      rootKey := rootAfterRecv;
      receivingChain := Some(receiving);

      dhSelf := newSecret;
      var (rootAfterSend, sending) := RootStep(rootKey, Dh(dhSelf, remote));
      rootKey := rootAfterSend;
      sendingChain := Some(sending);
    }

    /** Brings the receiving chain to the header's message, with a step if the header names another key. */
    method AdvanceTo(header: Header, newSecret: Secret) returns (r: Result<(), RatchetError>)
      modifies this, skipped
      ensures skipped == old(skipped)
      ensures match Prepare(old(Value()), header, newSecret)
              case Ok(s) => r == Ok(()) && Value() == s
              case Err(e) => r == Err(e)
    {
      if dhRemote != Some(header.dh) {
        r := SkipMessageKeys(header.previousChainLength);
        if r.Err? {
          return;
        }
        DhRatchetStep(header.dh, newSecret);
      }
      r := SkipMessageKeys(header.messageNumber);
    }

    /** Works on a clone and commits it only after the ciphertext opened. */
    method Decrypt(header: Header, ciphertext: Ciphertext, aad: Bytes, newSecret: Secret)
      returns (r: Result<Bytes, RatchetError>)
      modifies this
      ensures (Value(), r) == RatchetSpec.Decrypt(old(Value()), header, ciphertext, aad, newSecret)
      ensures r.Err? ==> unchanged(this) && unchanged(skipped)
      ensures r.Ok? ==> fresh(skipped)
    {
      ghost var before := Value();
      var working := new DoubleRatchet.Clone(this);
      var full := AssociatedData(aad, header);
      var held := working.skipped.Take(header.dh, header.messageNumber);
      var text: Option<Bytes>;
      if held.Some? {
        text := Open(held.value, ciphertext, full);
      } else {
        assert working.skipped.keys == before.skipped;
        assert working.Value() == before;
        var advanced := working.AdvanceTo(header, newSecret);
        if advanced.Err? {
          return Err(advanced.error);
        }
        if working.receivingChain.None? {
          return Err(MessageKeyUnavailable);
        }
        var (messageKey, nextChain) := ChainStep(working.receivingChain.value);
        working.receivingChain := Some(nextChain);
        working.recvCount := working.recvCount + 1;
        text := Open(messageKey, ciphertext, full);
      }
      if text.None? {
        return Err(DecryptionFailed);
      }
      Become(working);
      r := Ok(text.value);
    }

    /** Replaces every field, as assigning the working copy to the ratchet does. */
    method Become(other: DoubleRatchet)
      modifies this
      ensures Value() == old(other.Value()) && skipped == old(other.skipped)
    {
      dhSelf, dhRemote, rootKey := other.dhSelf, other.dhRemote, other.rootKey;
      sendingChain, receivingChain := other.sendingChain, other.receivingChain;
      sendCount, recvCount := other.sendCount, other.recvCount;
      previousSendingChainLength := other.previousSendingChainLength;
      skipped := other.skipped;
    }
  }
}
