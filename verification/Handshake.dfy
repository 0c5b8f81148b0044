/**
 Prekeys and the X3DH handshake ("The X3DH Key Agreement Protocol", sections 3.3 and 3.4), symbolically:
 Diffie-Hellman commutes, the key derivation is injective, and a signature verifies only for its signer.
 */
module Handshake {
  import opened Prelude
  import opened SymbolicCrypto

  /** An identity is known by its signing key. */
  type Identity = nat

  datatype Purpose = AgreementKey | SignedPrekey

  /** A signature carries who made it, over which key, in which context. */
  datatype Signature = Signature(signer: Identity, purpose: Purpose, key: Public)

  predicate Verifies(signer: Identity, purpose: Purpose, key: Public, signature: Signature) {
    signature == Signature(signer, purpose, key)
  }

  datatype SignedKey = SignedKey(key: Public, signature: Signature)

  datatype Bundle = Bundle(identity: Identity, agreement: SignedKey, signedPrekey: SignedKey, oneTime: Option<Public>)

  datatype InitialMessage = InitialMessage(identity: Identity, agreement: SignedKey, ephemeral: Public, oneTime: Option<Public>)

  datatype HandshakeError = SignatureInvalid | PrekeyExhausted

  /** One party's long-term keys. */
  datatype Party = Party(identity: Identity, agreement: Secret)

  function SignAgreement(p: Party): SignedKey {
    SignedKey(Public(p.agreement), Signature(p.identity, AgreementKey, Public(p.agreement)))
  }

  // ---- The prekey store --------------------------------------------------------------------------

  /** One-time keys never handed out, and those handed out but not yet used up. */
  datatype Prekeys = Prekeys(signedSecret: Secret, signature: Signature, available: seq<Secret>, pending: seq<Secret>)

  function Generate(p: Party, signedSecret: Secret, oneTime: seq<Secret>): Prekeys {
    Prekeys(signedSecret, Signature(p.identity, SignedPrekey, Public(signedSecret)), oneTime, [])
  }

  /** Hands out a bundle, moving the last available one-time key to the pending ones. */
  function PublicBundle(p: Party, k: Prekeys): (Prekeys, Bundle) {
    var n := |k.available|;
    var oneTime := if n == 0 then None else Some(Public(k.available[n - 1]));
    (if n == 0 then k else k.(available := k.available[..n - 1], pending := k.pending + [k.available[n - 1]]),
     Bundle(p.identity, SignAgreement(p), SignedKey(Public(k.signedSecret), k.signature), oneTime))
  }

  /** Where the secret of a public key sits in a pool, or the pool's size if nowhere. */
  function FindSecret(pool: seq<Secret>, key: Public): (i: nat)
    ensures i <= |pool| && (i < |pool| ==> pool[i] == key.of) && forall j :: 0 <= j < i ==> pool[j] != key.of
  {
    if |pool| == 0 || Public(pool[0]) == key then 0 else 1 + FindSecret(pool[1..], key)
  }

  /** Takes a pending one-time secret out of the store. */
  function TakeOneTime(k: Prekeys, key: Public): (Prekeys, Option<Secret>) {
    var i := FindSecret(k.pending, key);
    if i == |k.pending| then (k, None)
    else (k.(pending := k.pending[..i] + k.pending[i + 1..]), Some(k.pending[i]))
  }

  // ---- The handshake -----------------------------------------------------------------------------

  function DeriveSecret(dh1: DhOutput, dh2: DhOutput, dh3: DhOutput, dh4: Option<DhOutput>): SharedSecret {
    SharedSecret([dh1, dh2, dh3] + (if dh4.Some? then [dh4.value] else []))
  }

  predicate BundleVerifies(b: Bundle) {
    Verifies(b.identity, AgreementKey, b.agreement.key, b.agreement.signature)
    && Verifies(b.identity, SignedPrekey, b.signedPrekey.key, b.signedPrekey.signature)
  }

  /** The initiator: checks the bundle, combines its keys with a new ephemeral one. */
  function Initiate(me: Party, b: Bundle, ephemeral: Secret): Result<(SharedSecret, InitialMessage), HandshakeError> {
    if !BundleVerifies(b) then Err(SignatureInvalid)
    else
      var secret := DeriveSecret(
        Dh(me.agreement, b.signedPrekey.key), Dh(ephemeral, b.agreement.key), Dh(ephemeral, b.signedPrekey.key),
        if b.oneTime.Some? then Some(Dh(ephemeral, b.oneTime.value)) else None);
      Ok((secret, InitialMessage(me.identity, SignAgreement(me), Public(ephemeral), b.oneTime)))
  }

  /** The responder: checks the sender, uses up the one-time key it names, combines the keys. */
  function Respond(me: Party, k: Prekeys, m: InitialMessage): (Prekeys, Result<SharedSecret, HandshakeError>) {
    if !Verifies(m.identity, AgreementKey, m.agreement.key, m.agreement.signature) then (k, Err(SignatureInvalid))
    else
      var (k2, oneTime) := if m.oneTime.Some? then TakeOneTime(k, m.oneTime.value) else (k, None);
      if m.oneTime.Some? && oneTime.None? then (k, Err(PrekeyExhausted))
      else
        (k2, Ok(DeriveSecret(
          Dh(k.signedSecret, m.agreement.key), Dh(me.agreement, m.ephemeral), Dh(k.signedSecret, m.ephemeral),
          if oneTime.Some? then Some(Dh(oneTime.value, m.ephemeral)) else None)))
  }

  /** A bundle made from a party's keys and store, at whatever time. */
  ghost predicate BundleOf(p: Party, k: Prekeys, b: Bundle) {
    && b.identity == p.identity && b.agreement == SignAgreement(p)
    && b.signedPrekey == SignedKey(Public(k.signedSecret), Signature(p.identity, SignedPrekey, Public(k.signedSecret)))
  }

  /**
   Both sides derive the same secret: whenever the responder still holds the one-time key its bundle named,
   or the bundle named none, the initiator's message is answered with the initiator's own secret.
   */
  lemma {:induction false} BothSidesAgree(alice: Party, bob: Party, k: Prekeys, b: Bundle, ephemeral: Secret)
    requires BundleOf(bob, k, b) && (b.oneTime.Some? ==> b.oneTime.value.of in k.pending)
    ensures Initiate(alice, b, ephemeral).Ok?
    ensures Respond(bob, k, Initiate(alice, b, ephemeral).value.1).1 == Ok(Initiate(alice, b, ephemeral).value.0)
  {
    DhCommutes(alice.agreement, k.signedSecret);
    DhCommutes(ephemeral, bob.agreement);
    DhCommutes(ephemeral, k.signedSecret);
    if b.oneTime.Some? {
      DhCommutes(ephemeral, b.oneTime.value.of);
      var i :| 0 <= i < |k.pending| && k.pending[i] == b.oneTime.value.of;
      assert FindSecret(k.pending, b.oneTime.value) < |k.pending|;
    }
  }

  /**
   The initiator refuses exactly the cards with a signature that is not the identity's own over that key. From any
   other it combines its agreement key with the signed prekey, its ephemeral key with the card's agreement key, the
   ephemeral key with the signed prekey, and with the one-time key if there is one, in this order.
   */
  lemma {:induction false} InitiateExactly(me: Party, b: Bundle, ephemeral: Secret)
    ensures var r := Initiate(me, b, ephemeral);
            var genuine := b.agreement.signature == Signature(b.identity, AgreementKey, b.agreement.key)
                           && b.signedPrekey.signature == Signature(b.identity, SignedPrekey, b.signedPrekey.key);
            && (!genuine ==> r == Err(SignatureInvalid))
            && (genuine ==>
                  && r.Ok? && |r.value.0.ikm| == (if b.oneTime.Some? then 4 else 3)
                  && PointOf(r.value.0.ikm[0], me.agreement, b.signedPrekey.key.of)
                  && PointOf(r.value.0.ikm[1], ephemeral, b.agreement.key.of)
                  && PointOf(r.value.0.ikm[2], ephemeral, b.signedPrekey.key.of)
                  && (b.oneTime.Some? ==> PointOf(r.value.0.ikm[3], ephemeral, b.oneTime.value.of))
                  && r.value.1.identity == me.identity && r.value.1.ephemeral.of == ephemeral && r.value.1.oneTime == b.oneTime
                  && r.value.1.agreement.key.of == me.agreement
                  && r.value.1.agreement.signature == Signature(me.identity, AgreementKey, Public(me.agreement)))
  {
  }

  /** The point shared by two secrets, whoever computes it. */
  ghost predicate PointOf(dh: DhOutput, a: Secret, b: Secret) {
    ((dh.lo == a && dh.hi == b) || (dh.lo == b && dh.hi == a)) && dh.lo <= dh.hi
  }

  /**
   The responder refuses exactly the messages whose agreement key is not the sender's, and then those naming a
   one-time key it does not hold; in both cases it keeps its store. Otherwise exactly the first such key is used up.
   */
  lemma {:induction false} RespondExactly(me: Party, k: Prekeys, m: InitialMessage)
    ensures var (k2, r) := Respond(me, k, m);
            var genuine := m.agreement.signature == Signature(m.identity, AgreementKey, m.agreement.key);
            && (r == Err(SignatureInvalid) <==> !genuine)
            && (r == Err(PrekeyExhausted) <==> genuine && m.oneTime.Some? && m.oneTime.value.of !in k.pending)
            && (r.Err? || m.oneTime.None? ==> k2 == k)
            && (r.Ok? && m.oneTime.Some? ==>
                  exists i :: 0 <= i < |k.pending| && k.pending[i] == m.oneTime.value.of
                              && (forall j :: 0 <= j < i ==> k.pending[j] != m.oneTime.value.of)
                              && k2 == k.(pending := k.pending[..i] + k.pending[i + 1..]))
  {
    if m.oneTime.Some? {
      var i := FindSecret(k.pending, m.oneTime.value);
      if i == |k.pending| {
        assert m.oneTime.value.of !in k.pending;
      } else {
        assert k.pending[i] == m.oneTime.value.of;
      }
    }
  }

  // ---- Who can derive the secret -----------------------------------------------------------------

  /** A shared point is computable from either of the two secrets behind it. */
  ghost predicate PointFrom(known: set<Secret>, dh: DhOutput) { dh.lo in known || dh.hi in known }

  /** What someone who knows these secrets, and every public key, can derive. */
  ghost predicate DerivableFrom(known: set<Secret>, secret: SharedSecret) {
    forall i :: 0 <= i < |secret.ikm| ==> PointFrom(known, secret.ikm[i])
  }

  /**
   The signatures a party ever makes. Its identity key signs nothing else, so a card that verifies under
   its identity names its own keys.
   */
  ghost predicate SignedBy(p: Party, k: Prekeys, g: Signature) {
    g == SignAgreement(p).signature || g == Signature(p.identity, SignedPrekey, Public(k.signedSecret))
  }

  /**
   A card put together by anyone from signatures that `bob` made: if it passes, the secret can be derived
   exactly by someone who knows the right keys. Besides the initiator's own two, those are bob's agreement
   and signed prekey secrets and, if the card names one, that one-time secret.
   */
  lemma {:induction false} VerifiedCardNeedsKeys(
      alice: Party, bob: Party, k: Prekeys, b: Bundle, ephemeral: Secret, known: set<Secret>)
    requires Initiate(alice, b, ephemeral).Ok? && b.identity == bob.identity
    requires SignedBy(bob, k, b.agreement.signature) && SignedBy(bob, k, b.signedPrekey.signature)
    ensures BundleOf(bob, Prekeys(k.signedSecret, b.signedPrekey.signature, k.available, k.pending), b)
    ensures DerivableFrom(known, Initiate(alice, b, ephemeral).value.0) <==>
              && (alice.agreement in known || k.signedSecret in known)
              && (ephemeral in known ||
                  (bob.agreement in known && k.signedSecret in known && (b.oneTime.Some? ==> b.oneTime.value.of in known)))
  {
    hide DerivableFrom;
    var points := Initiate(alice, b, ephemeral).value.0.ikm;
    assert points[0] == Dh(alice.agreement, Public(k.signedSecret));
    assert points[1] == Dh(ephemeral, Public(bob.agreement)) && points[2] == Dh(ephemeral, Public(k.signedSecret));
    assert b.oneTime.Some? ==> points[3] == Dh(ephemeral, b.oneTime.value);
    DerivablePoints(known, SharedSecret(points));
  }

  lemma DerivablePoints(known: set<Secret>, secret: SharedSecret)
    requires 3 <= |secret.ikm| <= 4
    ensures DerivableFrom(known, secret) <==>
              && PointFrom(known, secret.ikm[0]) && PointFrom(known, secret.ikm[1]) && PointFrom(known, secret.ikm[2])
              && (|secret.ikm| == 4 ==> PointFrom(known, secret.ikm[3]))
  {
    hide PointFrom;
  }

  /** Both long-term keys of both sides are not enough once the one-time secret and the ephemeral are gone. */
  lemma {:induction false} ForwardSecrecy(
      alice: Party, bob: Party, k: Prekeys, b: Bundle, ephemeral: Secret, known: set<Secret>)
    requires Initiate(alice, b, ephemeral).Ok? && b.identity == bob.identity && b.oneTime.Some?
    requires SignedBy(bob, k, b.agreement.signature) && SignedBy(bob, k, b.signedPrekey.signature)
    requires ephemeral !in known && b.oneTime.value.of !in known
    ensures !DerivableFrom(known, Initiate(alice, b, ephemeral).value.0)
  {
    VerifiedCardNeedsKeys(alice, bob, k, b, ephemeral, known);
  }

  /** Different ephemeral keys give different secrets. */
  lemma {:induction false} FreshEphemeralFreshSecret(
      me: Party, b: Bundle, e1: Secret, e2: Secret)
    requires Initiate(me, b, e1).Ok? && Initiate(me, b, e2).Ok? && e1 != e2
    ensures Initiate(me, b, e1).value.0 != Initiate(me, b, e2).value.0
  {
    var s1, s2 := Initiate(me, b, e1).value.0, Initiate(me, b, e2).value.0;
    DhCommutes(e1, b.signedPrekey.key.of);
    DhCommutes(e2, b.signedPrekey.key.of);
    assert s1.ikm[2] == Dh(e1, b.signedPrekey.key) && s2.ikm[2] == Dh(e2, b.signedPrekey.key);
  }
}
