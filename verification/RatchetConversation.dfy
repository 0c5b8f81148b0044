/**
 Two ratchets and a hostile network. Every run is a sequence of events: a party seals a message, or
 is handed any header, ciphertext and associated data the network likes. The network may lose,
 reorder and duplicate what was sent, put it under another header, reflect it to its sender, and
 inject anything sealed under a key that does not descend from this session's secret.
 */
module RatchetConversation {
  import opened Prelude
  import opened SymbolicCrypto
  import opened RatchetSpec

  datatype Party = Alice | Bob

  function Other(p: Party): Party { if p.Alice? then Bob else Alice }

  /** One sealed message as its sender produced it; `epoch` numbers the sending chain. */
  datatype Sent = Sent(from: Party, epoch: nat, header: Header, ciphertext: Ciphertext, aad: Bytes, plaintext: Bytes)

  /**
   `keys` lists the ratchet secrets of the conversation in the order they entered it: the responder's
   signed prekey, the initiator's first key, and then one key per Diffie-Hellman step. `totals` counts
   the messages sealed under each. `spent` holds the message keys that have opened a message.
   */
  datatype World = World(
    shared: SharedSecret, alice: State, bob: State,
    keys: seq<Secret>, totals: seq<nat>, log: seq<Sent>, spent: set<MessageKey>)

  datatype Event =
    | Send(party: Party, plaintext: Bytes, aad: Bytes)
    | Receive(party: Party, header: Header, ciphertext: Ciphertext, aad: Bytes, newSecret: Secret)

  function StateOf(w: World, p: Party): State { if p.Alice? then w.alice else w.bob }

  function WithState(w: World, p: Party, s: State): World {
    if p.Alice? then w.(alice := s) else w.(bob := s)
  }

  function Start(shared: SharedSecret, signedPrekey: Secret, first: Secret): World {
    World(shared, InitInitiator(shared, Public(signedPrekey), first), InitResponder(shared, signedPrekey),
          [signedPrekey, first], [0, 0], [], {})
  }

  function Sender(epoch: nat): Party { if epoch % 2 == 1 then Alice else Bob }

  /** The epoch of the key pair `p` holds: one of the two newest. */
  function OwnEpoch(w: World, p: Party): nat
    requires |w.keys| >= 2
  {
    if Sender(|w.keys| - 1) == p then |w.keys| - 1 else |w.keys| - 2
  }

  /** What the network may deliver: junk, ciphertexts of other sessions, and anything sent so far. */
  ghost predicate Admissible(w: World, c: Ciphertext) {
    || c.Junk?
    || SecretOfChain(c.key.chain) != w.shared
    || exists i :: 0 <= i < |w.log| && w.log[i].ciphertext == c
  }

  ghost predicate Enabled(w: World, e: Event) {
    e.Receive? ==> Admissible(w, e.ciphertext) && e.newSecret !in w.keys
  }

  function Step(w: World, e: Event): World
    requires |w.keys| >= 2 && |w.totals| == |w.keys|
    ensures |Step(w, e).keys| >= 2 && |Step(w, e).totals| == |Step(w, e).keys|
  {
    match e
    case Send(p, plaintext, aad) =>
      var (s, r) := Encrypt(StateOf(w, p), plaintext, aad);
      if r.Err? then WithState(w, p, s)
      else
        var own := OwnEpoch(w, p);
        WithState(w, p, s).(
          totals := w.totals[own := w.totals[own] + 1],
          log := w.log + [Sent(p, own, r.value.0, r.value.1, aad, plaintext)])
    case Receive(p, header, ciphertext, aad, newSecret) =>
      var (s, r) := Decrypt(StateOf(w, p), header, ciphertext, aad, newSecret);
      if r.Err? || ciphertext.Junk? then WithState(w, p, s)
      else
        var w1 := WithState(w, p, s).(spent := w.spent + {ciphertext.key});
        if s.self == StateOf(w, p).self then w1 else w1.(keys := w.keys + [s.self], totals := w.totals + [0])
  }

  function Play(w: World, events: seq<Event>): World
    requires |w.keys| >= 2 && |w.totals| == |w.keys|
    ensures |Play(w, events).keys| >= 2 && |Play(w, events).totals| == |Play(w, events).keys|
    decreases |events|
  {
    if events == [] then w else Play(Step(w, events[0]), events[1..])
  }

  ghost predicate Run(w: World, events: seq<Event>)
    requires |w.keys| >= 2 && |w.totals| == |w.keys|
    decreases |events|
  {
    events == [] || (Enabled(w, events[0]) && Run(Step(w, events[0]), events[1..]))
  }

  // ---- The key schedule of a conversation -------------------------------------------------------

  /** The root key after the first `epoch` Diffie-Hellman steps. */
  function RootAt(shared: SharedSecret, keys: seq<Secret>, epoch: nat): RootKey
    requires epoch < |keys|
  {
    if epoch == 0 then Initial(shared)
    else Derived(RootAt(shared, keys, epoch - 1), Dh(keys[epoch - 1], Public(keys[epoch])))
  }

  /** The first chain key of an epoch. */
  function ChainAt(shared: SharedSecret, keys: seq<Secret>, epoch: nat): ChainKey
    requires 1 <= epoch < |keys|
  {
    First(RootAt(shared, keys, epoch - 1), Dh(keys[epoch - 1], Public(keys[epoch])))
  }

  /** The key of message `n` of an epoch. */
  function KeyAt(w: World, epoch: nat, n: nat): MessageKey
    requires 1 <= epoch < |w.keys|
  {
    MessageKey(Advance(ChainAt(w.shared, w.keys, epoch), n))
  }

  lemma {:induction false} RootAtShape(shared: SharedSecret, keys: seq<Secret>, epoch: nat)
    requires epoch < |keys|
    ensures Depth(RootAt(shared, keys, epoch)) == epoch
    ensures SecretOfRoot(RootAt(shared, keys, epoch)) == shared
  {
    if epoch > 0 {
      RootAtShape(shared, keys, epoch - 1);
    }
  }

  lemma {:induction false} RootAtPrefix(shared: SharedSecret, keys: seq<Secret>, more: seq<Secret>, epoch: nat)
    requires epoch < |keys|
    ensures RootAt(shared, keys + more, epoch) == RootAt(shared, keys, epoch)
  {
    if epoch > 0 {
      RootAtPrefix(shared, keys, more, epoch - 1);
    }
  }

  /** Message keys of one conversation never repeat. */
  lemma KeysAreDistinct(w: World, e1: nat, n1: nat, e2: nat, n2: nat)
    requires 1 <= e1 < |w.keys| && 1 <= e2 < |w.keys|
    ensures KeyAt(w, e1, n1) == KeyAt(w, e2, n2) ==> e1 == e2 && n1 == n2
  {
    AdvanceShape(ChainAt(w.shared, w.keys, e1), n1);
    AdvanceShape(ChainAt(w.shared, w.keys, e2), n2);
    RootAtShape(w.shared, w.keys, e1 - 1);
    RootAtShape(w.shared, w.keys, e2 - 1);
  }

  lemma KeysDescend(w: World, e: nat, n: nat)
    requires 1 <= e < |w.keys|
    ensures SecretOfChain(KeyAt(w, e, n).chain) == w.shared
  {
    AdvanceShape(ChainAt(w.shared, w.keys, e), n);
    RootAtShape(w.shared, w.keys, e - 1);
  }

  // ---- The invariant ----------------------------------------------------------------------------

  function PreviousTotal(w: World, epoch: nat): nat
    requires epoch < |w.totals|
  {
    if epoch >= 2 then w.totals[epoch - 2] else 0
  }

  ghost predicate KeysOk(w: World) {
    && |w.keys| >= 2 && |w.totals| == |w.keys| && w.totals[0] == 0
    && (forall i, j :: 0 <= i < j < |w.keys| ==> w.keys[i] != w.keys[j])
  }

  /** Every logged message is the honest message of its epoch and number, and no two coincide. */
  ghost predicate LogOk(w: World)
    requires KeysOk(w)
  {
    && (forall i :: 0 <= i < |w.log| ==> LogEntryOk(w, w.log[i]))
    && (forall i, j :: 0 <= i < j < |w.log| ==>
          w.log[i].epoch != w.log[j].epoch || w.log[i].header.messageNumber != w.log[j].header.messageNumber)
  }

  ghost predicate LogEntryOk(w: World, m: Sent)
    requires KeysOk(w)
  {
    && 1 <= m.epoch < |w.keys| && m.from == Sender(m.epoch)
    && m.header.messageNumber < w.totals[m.epoch]
    && m.header == Header(Public(w.keys[m.epoch]), PreviousTotal(w, m.epoch), m.header.messageNumber)
    && m.ciphertext == Sealed(KeyAt(w, m.epoch, m.header.messageNumber), m.plaintext, AssociatedData(m.aad, m.header))
  }

  /** Root keys agree or are one step apart; each chain key is an advanced first chain key. */
  ghost predicate ChainsOk(w: World, p: Party)
    requires KeysOk(w)
  {
    var s := StateOf(w, p);
    var own := OwnEpoch(w, p);
    && s.self == w.keys[own]
    && s.root == RootAt(w.shared, w.keys, own)
    && s.sendCount == w.totals[own]
    && s.previousLength == PreviousTotal(w, own)
    && s.remote == (if own >= 1 then Some(Public(w.keys[own - 1])) else None)
    && s.sending == (if own >= 1 then Some(Advance(ChainAt(w.shared, w.keys, own), s.sendCount)) else None)
    && s.receiving == (if own >= 2 then Some(Advance(ChainAt(w.shared, w.keys, own - 1), s.recvCount)) else None)
    && s.recvCount <= (if own >= 2 then w.totals[own - 1] else 0)
    && (own + 1 == |w.keys| || own + 2 == |w.keys|)
  }

  /** How many keys of the incoming epoch `e` the receiver `p` has moved past. */
  function Passed(w: World, p: Party, e: nat): nat
    requires KeysOk(w) && e < |w.keys|
  {
    var own := OwnEpoch(w, p);
    if e + 1 < own then w.totals[e] else if e + 1 == own then StateOf(w, p).recvCount else 0
  }

  /** The skipped store holds exactly the passed, unopened keys of incoming epochs. */
  ghost predicate SkippedOk(w: World, p: Party)
    requires KeysOk(w)
  {
    var s := StateOf(w, p);
    && |s.skipped| <= MAX_SKIPPED_KEYS
    && (forall k :: k in s.skipped ==> KnownSlot(w, p, k.0))
    && (forall e: nat, n: nat :: 1 <= e < |w.keys| && Sender(e) == Other(p) ==> SlotOk(w, p, e, n))
  }

  ghost predicate KnownSlot(w: World, p: Party, pub: Public)
  {
    exists e: nat :: 1 <= e < |w.keys| && Sender(e) == Other(p) && Public(w.keys[e]) == pub
  }

  ghost predicate SlotOk(w: World, p: Party, e: nat, n: nat)
    requires KeysOk(w) && 1 <= e < |w.keys|
  {
    var s := StateOf(w, p);
    var slot := (Public(w.keys[e]), n);
    && (slot in s.skipped <==> n < Passed(w, p, e) && KeyAt(w, e, n) !in w.spent)
    && (slot in s.skipped ==> s.skipped[slot] == KeyAt(w, e, n))
    && (KeyAt(w, e, n) in w.spent ==> n < Passed(w, p, e))
  }

  /** Every spent key sealed some logged message. */
  ghost predicate SpentOk(w: World) {
    forall k :: k in w.spent ==> SealedBy(w, k)
  }

  ghost predicate SealedBy(w: World, k: MessageKey) {
    exists i :: 0 <= i < |w.log| && w.log[i].ciphertext.Sealed? && w.log[i].ciphertext.key == k
  }

  ghost predicate Inv(w: World) {
    && KeysOk(w) && LogOk(w) && SpentOk(w)
    && ChainsOk(w, Alice) && ChainsOk(w, Bob)
    && SkippedOk(w, Alice) && SkippedOk(w, Bob)
  }
}
