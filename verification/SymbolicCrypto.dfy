/**
 Symbolic cryptography shared by the handshake and the ratchet: Diffie-Hellman is commutative,
 key derivation functions are free (injective) constructors, and a ciphertext opens only under the
 key and associated data that sealed it.
 */
module SymbolicCrypto {
  import opened Prelude

  /** A private X25519 scalar, identified by a name. */
  type Secret = nat

  /** The public half of a secret. */
  datatype Public = Public(of: Secret)

  /** A shared point; the two secrets are stored in order, so both sides compute the same term. */
  datatype DhOutput = DhOutput(lo: Secret, hi: Secret)

  function Dh(mine: Secret, theirs: Public): DhOutput {
    if mine <= theirs.of then DhOutput(mine, theirs.of) else DhOutput(theirs.of, mine)
  }

  /** The X3DH output: HKDF over the concatenated shared points. */
  datatype SharedSecret = SharedSecret(ikm: seq<DhOutput>)

  datatype RootKey = Initial(secret: SharedSecret) | Derived(root: RootKey, dh: DhOutput)

  datatype ChainKey = First(root: RootKey, dh: DhOutput) | Next(previous: ChainKey)

  datatype MessageKey = MessageKey(chain: ChainKey)

  /** KDF_RK: one root step yields the next root key and the first key of a chain. */
  function RootStep(root: RootKey, dh: DhOutput): (RootKey, ChainKey) {
    (Derived(root, dh), First(root, dh))
  }

  /** KDF_CK: one chain step yields a message key and the next chain key. */
  function ChainStep(chain: ChainKey): (MessageKey, ChainKey) {
    (MessageKey(chain), Next(chain))
  }

  datatype Header = Header(dh: Public, previousChainLength: nat, messageNumber: nat)

  /** What the AEAD authenticates beside the plaintext: the caller's data and the header. */
  datatype AssociatedData = AssociatedData(caller: Bytes, header: Header)

  datatype Ciphertext =
    | Sealed(key: MessageKey, plaintext: Bytes, aad: AssociatedData)
    | Junk(bytes: Bytes)

  /** The ideal AEAD: opening succeeds exactly for the key and data used to seal. */
  function Open(key: MessageKey, ciphertext: Ciphertext, aad: AssociatedData): Option<Bytes> {
    if ciphertext.Sealed? && ciphertext.key == key && ciphertext.aad == aad
    then Some(ciphertext.plaintext) else None
  }

  /** The session secret a message key descends from. */
  function SecretOfRoot(root: RootKey): SharedSecret {
    match root
    case Initial(secret) => secret
    case Derived(previous, _) => SecretOfRoot(previous)
  }

  function SecretOfChain(chain: ChainKey): SharedSecret {
    match chain
    case First(root, _) => SecretOfRoot(root)
    case Next(previous) => SecretOfChain(previous)
  }

  function Depth(root: RootKey): nat {
    match root
    case Initial(_) => 0
    case Derived(previous, _) => 1 + Depth(previous)
  }

  function Advance(chain: ChainKey, steps: nat): ChainKey {
    if steps == 0 then chain else Next(Advance(chain, steps - 1))
  }

  function Origin(chain: ChainKey): ChainKey {
    match chain
    case First(_, _) => chain
    case Next(previous) => Origin(previous)
  }

  function Steps(chain: ChainKey): nat {
    match chain
    case First(_, _) => 0
    case Next(previous) => 1 + Steps(previous)
  }

  lemma DhCommutes(a: Secret, b: Secret)
    ensures Dh(a, Public(b)) == Dh(b, Public(a))
  {
  }

  lemma {:induction false} AdvanceShape(chain: ChainKey, n: nat)
    ensures Origin(Advance(chain, n)) == Origin(chain)
    ensures Steps(Advance(chain, n)) == Steps(chain) + n
    ensures SecretOfChain(Advance(chain, n)) == SecretOfChain(chain)
  {
    if n > 0 {
      AdvanceShape(chain, n - 1);
    }
  }

  lemma {:induction false} AdvanceAdds(chain: ChainKey, m: nat, n: nat)
    ensures Advance(Advance(chain, m), n) == Advance(chain, m + n)
  {
    if n > 0 {
      AdvanceAdds(chain, m, n - 1);
    }
  }

  lemma AdvanceFromNext(chain: ChainKey, n: nat)
    requires n > 0
    ensures Advance(Next(chain), n - 1) == Advance(chain, n)
  {
    AdvanceAdds(chain, 1, n - 1);
    assert Advance(chain, 1) == Next(Advance(chain, 0));
  }
}
