/**
 The Double Ratchet as functions on its state: what `DoubleRatchet` computes, step by step.
 The class in DoubleRatchet.dfy is proved to compute exactly these functions.
 */
module RatchetSpec {
  import opened Prelude
  import opened SymbolicCrypto

  const MAX_SKIPPED_KEYS: nat := 2000

  datatype RatchetError = MessageKeyUnavailable | TooManySkippedKeys | DecryptionFailed

  type SkippedKeys = map<(Public, nat), MessageKey>

  datatype State = State(
    self: Secret,
    remote: Option<Public>,
    root: RootKey,
    sending: Option<ChainKey>,
    receiving: Option<ChainKey>,
    sendCount: nat,
    recvCount: nat,
    previousLength: nat,
    skipped: SkippedKeys)

  function InitInitiator(shared: SharedSecret, remote: Public, newSecret: Secret): State {
    var (root, sending) := RootStep(Initial(shared), Dh(newSecret, remote));
    State(newSecret, Some(remote), root, Some(sending), None, 0, 0, 0, map[])
  }

  function InitResponder(shared: SharedSecret, mine: Secret): State {
    State(mine, None, Initial(shared), None, None, 0, 0, 0, map[])
  }

  /** Sealing advances the sending chain by one step and stamps the current counters. */
  function Encrypt(s: State, plaintext: Bytes, aad: Bytes): (State, Result<(Header, Ciphertext), RatchetError>) {
    if s.sending.None? then (s, Err(MessageKeyUnavailable))
    else
      var (key, next) := ChainStep(s.sending.value);
      var header := Header(Public(s.self), s.previousLength, s.sendCount);
      (s.(sending := Some(next), sendCount := s.sendCount + 1),
       Ok((header, Sealed(key, plaintext, AssociatedData(aad, header)))))
  }

  /** Walks the receiving chain up to `until`, storing every key it passes, under the cap. */
  function Skip(s: State, until: nat): Result<State, RatchetError>
    decreases SatSub(until, s.recvCount)
  {
    if s.remote.None? || s.receiving.None? || s.recvCount >= until then Ok(s)
    else if |s.skipped| >= MAX_SKIPPED_KEYS then Err(TooManySkippedKeys)
    else
      var (key, next) := ChainStep(s.receiving.value);
      Skip(s.(skipped := s.skipped[(s.remote.value, s.recvCount) := key],
              receiving := Some(next), recvCount := s.recvCount + 1), until)
  }

  /** A Diffie-Hellman step: a receiving chain from the old key pair, a sending chain from a fresh one. */
  function DhStep(s: State, remote: Public, newSecret: Secret): State {
    var (afterRecv, receiving) := RootStep(s.root, Dh(s.self, remote));
    var (afterSend, sending) := RootStep(afterRecv, Dh(newSecret, remote));
    State(newSecret, Some(remote), afterSend, Some(sending), Some(receiving), 0, 0, s.sendCount, s.skipped)
  }

  /** The state whose receiving chain stands at the header's message, if it can be reached. */
  function Prepare(s: State, header: Header, newSecret: Secret): Result<State, RatchetError> {
    if s.remote == Some(header.dh) then Skip(s, header.messageNumber)
    else
      match Skip(s, header.previousChainLength)
      case Err(e) => Err(e)
      case Ok(closed) => Skip(DhStep(closed, header.dh, newSecret), header.messageNumber)
  }

  function Decrypt(s: State, header: Header, ciphertext: Ciphertext, aad: Bytes, newSecret: Secret)
    : (State, Result<Bytes, RatchetError>)
  {
    var full := AssociatedData(aad, header);
    var slot := (header.dh, header.messageNumber);
    if slot in s.skipped then
      match Open(s.skipped[slot], ciphertext, full)
      case None => (s, Err(DecryptionFailed))
      case Some(text) => (s.(skipped := s.skipped - {slot}), Ok(text))
    else
      match Prepare(s, header, newSecret)
      case Err(e) => (s, Err(e))
      case Ok(ready) =>
        if ready.receiving.None? then (s, Err(MessageKeyUnavailable))
        else
          var (key, next) := ChainStep(ready.receiving.value);
          match Open(key, ciphertext, full)
          case None => (s, Err(DecryptionFailed))
          case Some(text) => (ready.(receiving := Some(next), recvCount := ready.recvCount + 1), Ok(text))
  }

  /** How many keys a message that is not in the skipped store makes the receiver store. */
  function KeysToSkip(s: State, header: Header): nat {
    if s.remote == Some(header.dh) then
      (if s.receiving.Some? then SatSub(header.messageNumber, s.recvCount) else 0)
    else
      (if s.remote.Some? && s.receiving.Some? then SatSub(header.previousChainLength, s.recvCount) else 0)
      + header.messageNumber
  }

  /** Whether the receiver already holds the key, or has room for all keys it must skip. */
  predicate Fits(s: State, header: Header) {
    (header.dh, header.messageNumber) in s.skipped || KeysToSkip(s, header) == 0
    || |s.skipped| + KeysToSkip(s, header) <= MAX_SKIPPED_KEYS
  }

  /** No slot of the current receiving chain at or after `recvCount` is in the skipped store. */
  ghost predicate FreshAhead(s: State) {
    s.remote.Some? ==> forall n: nat :: n >= s.recvCount ==> (s.remote.value, n) !in s.skipped
  }

  /** The skipped store after the keys `from..until` of a chain have been added to it. */
  function StoreWindow(skipped: SkippedKeys, remote: Public, chain: ChainKey, from: nat, until: nat): SkippedKeys
    decreases SatSub(until, from)
  {
    if from >= until then skipped
    else StoreWindow(skipped[(remote, from) := MessageKey(chain)], remote, Next(chain), from + 1, until)
  }

  /** `StoreWindow` adds exactly the window's slots. */
  lemma {:induction false} StoreWindowSlots(skipped: SkippedKeys, remote: Public, chain: ChainKey, from: nat, until: nat)
    requires from <= until
    ensures forall p: Public, n: nat :: (p, n) in StoreWindow(skipped, remote, chain, from, until)
              <==> (p, n) in skipped || (p == remote && from <= n < until)
    decreases until - from
  {
    if from < until {
      StoreWindowSlots(skipped[(remote, from) := MessageKey(chain)], remote, Next(chain), from + 1, until);
    }
  }

  lemma {:induction false} StoreWindowSize(skipped: SkippedKeys, remote: Public, chain: ChainKey, from: nat, until: nat)
    requires from <= until
    requires forall n: nat :: n >= from ==> (remote, n) !in skipped
    ensures |StoreWindow(skipped, remote, chain, from, until)| == |skipped| + (until - from)
    decreases until - from
  {
    if from < until {
      var s1 := skipped[(remote, from) := MessageKey(chain)];
      assert s1.Keys == skipped.Keys + {(remote, from)};
      assert |s1| == |skipped| + 1;
      StoreWindowSize(s1, remote, Next(chain), from + 1, until);
    }
  }

  /** Each stored slot holds the key of its own position; older slots keep theirs. */
  lemma {:induction false} StoreWindowKey(skipped: SkippedKeys, remote: Public, chain: ChainKey, from: nat, until: nat, p: Public, n: nat)
    requires from <= until
    requires (p, n) in skipped || (p == remote && from <= n < until)
    requires (p, n) in skipped ==> !(p == remote && from <= n)
    ensures (p, n) in StoreWindow(skipped, remote, chain, from, until)
    ensures StoreWindow(skipped, remote, chain, from, until)[(p, n)]
              == if (p, n) in skipped then skipped[(p, n)] else MessageKey(Advance(chain, n - from))
    decreases until - from
  {
    if from < until {
      var s1 := skipped[(remote, from) := MessageKey(chain)];
      if p == remote && n == from {
        StoreWindowKeeps(s1, remote, Next(chain), from + 1, until, p, n);
      } else {
        StoreWindowKey(s1, remote, Next(chain), from + 1, until, p, n);
        if (p, n) !in skipped {
          AdvanceFromNext(chain, n - from);
        }
      }
    }
  }

  lemma {:induction false} StoreWindowKeeps(skipped: SkippedKeys, remote: Public, chain: ChainKey, from: nat, until: nat, p: Public, n: nat)
    requires (p, n) in skipped && !(p == remote && from <= n < until)
    ensures (p, n) in StoreWindow(skipped, remote, chain, from, until)
    ensures StoreWindow(skipped, remote, chain, from, until)[(p, n)] == skipped[(p, n)]
    decreases SatSub(until, from)
  {
    if from < until {
      StoreWindowKeeps(skipped[(remote, from) := MessageKey(chain)], remote, Next(chain), from + 1, until, p, n);
    }
  }

  /** The closed form of `Skip`: it succeeds exactly when the keys fit, and stores exactly the window. */
  lemma {:induction false} SkipClosedForm(s: State, until: nat)
    requires FreshAhead(s)
    requires s.remote.Some? && s.receiving.Some? && until > s.recvCount
    ensures Skip(s, until) ==
            if |s.skipped| + (until - s.recvCount) <= MAX_SKIPPED_KEYS
            then Ok(s.(receiving := Some(Advance(s.receiving.value, until - s.recvCount)), recvCount := until,
                       skipped := StoreWindow(s.skipped, s.remote.value, s.receiving.value, s.recvCount, until)))
            else Err(TooManySkippedKeys)
    decreases until - s.recvCount
  {
    if |s.skipped| < MAX_SKIPPED_KEYS {
      var (key, next) := ChainStep(s.receiving.value);
      var slot := (s.remote.value, s.recvCount);
      var s1 := s.(skipped := s.skipped[slot := key], receiving := Some(next), recvCount := s.recvCount + 1);
      assert s1.skipped.Keys == s.skipped.Keys + {slot};
      assert |s1.skipped| == |s.skipped| + 1;
      assert Skip(s, until) == Skip(s1, until);
      AdvanceFromNext(s.receiving.value, until - s.recvCount);
      if until > s1.recvCount {
        SkipClosedForm(s1, until);
      }
    }
  }
}
