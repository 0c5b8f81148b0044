/**
 Conversations that survive restarts: a party may at any time be saved to bytes and loaded back, its skipped
 keys visited in any order, and the theorems about runs hold as if it had not been.
 */
module RatchetRestarts {
  import opened Prelude
  import opened BigEndian
  import opened SymbolicCrypto
  import opened RatchetSpec
  import opened RatchetConversation
  import opened RatchetRuns
  import opened Varint
  import opened MessageCodec
  import opened RatchetCodec

  /** How symbolic keys are written as bytes and read back. */
  datatype Encoding = Encoding(
    scalar: Secret -> KeyBytes, secret: KeyBytes -> Secret,
    point: Public -> KeyBytes, public: KeyBytes -> Public,
    rootBytes: RootKey -> KeyBytes, root: KeyBytes -> RootKey,
    chainBytes: ChainKey -> KeyBytes, chain: KeyBytes -> ChainKey,
    keyBytes: MessageKey -> KeyBytes, key: KeyBytes -> MessageKey)

  // ---- Saving and loading one party --------------------------------------------------------------

  ghost predicate FaithfulSlot(w: Encoding, slot: (Public, nat), key: MessageKey) {
    w.public(w.point(slot.0)) == slot.0 && slot.1 < U32 && w.key(w.keyBytes(key)) == key
  }

  /** The keys of this state are read back as they were written, and its counters fit in 32 bits. */
  ghost predicate Faithful(w: Encoding, s: State) {
    && w.secret(w.scalar(s.self)) == s.self
    && (s.remote.Some? ==> w.public(w.point(s.remote.value)) == s.remote.value)
    && w.root(w.rootBytes(s.root)) == s.root
    && (s.sending.Some? ==> w.chain(w.chainBytes(s.sending.value)) == s.sending.value)
    && (s.receiving.Some? ==> w.chain(w.chainBytes(s.receiving.value)) == s.receiving.value)
    && s.sendCount < U32 && s.recvCount < U32 && s.previousLength < U32 && |s.skipped| < U32
    && (forall slot :: slot in s.skipped ==> FaithfulSlot(w, slot, s.skipped[slot]))
  }

  function PointOf(w: Encoding, p: Option<Public>): Option<KeyBytes> { if p.Some? then Some(w.point(p.value)) else None }

  function PublicOf(w: Encoding, k: Option<KeyBytes>): Option<Public> { if k.Some? then Some(w.public(k.value)) else None }

  function ChainBytesOf(w: Encoding, c: Option<ChainKey>): Option<KeyBytes> {
    if c.Some? then Some(w.chainBytes(c.value)) else None
  }

  function ChainOf(w: Encoding, k: Option<KeyBytes>): Option<ChainKey> { if k.Some? then Some(w.chain(k.value)) else None }

  /** The slots of a skipped store, written out. */
  ghost function SlotsOf(w: Encoding, skipped: SkippedKeys): set<Slot> {
    set p: (Public, nat) | p in skipped && w.public(w.point(p.0)) == p.0 && p.1 < U32 :: (w.point(p.0), p.1 as u32)
  }

  ghost function SkippedBytes(w: Encoding, skipped: SkippedKeys): map<Slot, KeyBytes> {
    map slot | slot in SlotsOf(w, skipped) :: w.keyBytes(skipped[(w.public(slot.0), slot.1)])
  }

  /** The slots of a saved store, read back; only a point written by `point` denotes a public key. */
  ghost function PublicSlots(w: Encoding, saved: map<Slot, KeyBytes>): set<(Public, nat)> {
    set slot | slot in saved && w.point(w.public(slot.0)) == slot.0 :: (w.public(slot.0), slot.1 as nat)
  }

  ghost function SkippedOf(w: Encoding, saved: map<Slot, KeyBytes>): SkippedKeys {
    map p: (Public, nat) | p in PublicSlots(w, saved) :: w.key(saved[(w.point(p.0), p.1)])
  }

  ghost function Saved(w: Encoding, s: State): SavedRatchet
    requires Faithful(w, s)
  {
    SavedRatchet(w.scalar(s.self), PointOf(w, s.remote), w.rootBytes(s.root), ChainBytesOf(w, s.sending),
                 ChainBytesOf(w, s.receiving), s.sendCount, s.recvCount, s.previousLength, SkippedBytes(w, s.skipped))
  }

  ghost function Loaded(w: Encoding, r: SavedRatchet): State {
    State(w.secret(r.dhSelf), PublicOf(w, r.dhRemote), w.root(r.rootKey), ChainOf(w, r.sendingChain),
          ChainOf(w, r.receivingChain), r.sendCount, r.recvCount, r.previousLength, SkippedOf(w, r.skipped))
  }

  lemma {:induction false} SkippedRoundTrip(w: Encoding, skipped: SkippedKeys)
    requires forall slot :: slot in skipped ==> FaithfulSlot(w, slot, skipped[slot])
    ensures SkippedOf(w, SkippedBytes(w, skipped)) == skipped
  {
    var saved := SkippedBytes(w, skipped);
    var back := SkippedOf(w, saved);
    forall p: (Public, nat)
      ensures p in back <==> p in skipped
      ensures p in skipped ==> back[p] == skipped[p]
    {
      if p in skipped {
        assert FaithfulSlot(w, p, skipped[p]);
        var slot: Slot := (w.point(p.0), p.1);
        assert slot in SlotsOf(w, skipped);
        assert slot in saved && saved[slot] == w.keyBytes(skipped[p]);
        assert (w.public(slot.0), slot.1 as nat) in PublicSlots(w, saved);
      }
      if p in back {
        var slot :| slot in saved && w.point(w.public(slot.0)) == slot.0 && p == (w.public(slot.0), slot.1 as nat);
        var q: (Public, nat) :| q in skipped && q.1 < U32 && w.public(w.point(q.0)) == q.0 && slot == (w.point(q.0), q.1 as u32);
      }
    }
  }

  /** The symbolic slot of a saved entry. */
  function KeyOf(w: Encoding, e: SkippedEntry): (Public, nat) { (w.public(e.dhPublic), e.messageNumber) }

  /** A list that visits each slot once is no longer than the store. */
  lemma {:induction false} VisitedOnce(w: Encoding, order: seq<SkippedEntry>, slots: set<(Public, nat)>)
    requires forall i :: 0 <= i < |order| ==> KeyOf(w, order[i]) in slots
    requires forall i, j :: 0 <= i < j < |order| ==> KeyOf(w, order[i]) != KeyOf(w, order[j])
    ensures |order| <= |slots|
    decreases |order|
  {
    if |order| > 0 {
      VisitedOnce(w, order[..|order| - 1], slots - {KeyOf(w, order[|order| - 1])});
    }
  }

  /** The state after being saved, its skipped keys visited in this order, and loaded. */
  ghost function Restarted(w: Encoding, s: State, order: seq<SkippedEntry>): Result<State, DecodeError>
    requires Faithful(w, s)
  {
    match DecodeRatchet(EncodeRatchet(Saved(w, s), order))
    case Err(e) => Err(e)
    case Ok(r) => Ok(Loaded(w, r))
  }

  /** A restart changes nothing, whatever order the skipped keys were visited in. */
  lemma {:induction false} RestartKeepsState(w: Encoding, s: State, order: seq<SkippedEntry>)
    requires Faithful(w, s) && Visits(Saved(w, s).skipped, order)
    ensures Restarted(w, s, order) == Ok(s)
  {
    hide EncodeRatchet, DecodeRatchet, SkippedOf, SkippedBytes;
    var r := Saved(w, s);
    FewEntries(w, s, order);
    RatchetRoundTrip(r, order, []);
    assert EncodeRatchet(r, order) + [] == EncodeRatchet(r, order);
    SkippedRoundTrip(w, s.skipped);
  }

  lemma {:induction false} FewEntries(w: Encoding, s: State, order: seq<SkippedEntry>)
    requires Faithful(w, s) && Visits(Saved(w, s).skipped, order)
    ensures |order| < U32
  {
    var slots := SlotsOf(w, s.skipped);
    forall i | 0 <= i < |order|
      ensures KeyOf(w, order[i]) in s.skipped && SlotOf(order[i]) == (w.point(KeyOf(w, order[i]).0), order[i].messageNumber)
    {
      assert EntryOf(Saved(w, s).skipped, order[i]);
      assert SlotOf(order[i]) in slots;
    }
    VisitedOnce(w, order, s.skipped.Keys);
    assert |s.skipped.Keys| == |s.skipped|;
  }

  // ---- Runs with restarts ------------------------------------------------------------------------

  /** An event of a run, or one party's restart from what it last saved. */
  datatype Turn = Happens(event: Event) | Restart(party: Party, order: seq<SkippedEntry>)

  /** A party that cannot be loaded stays as it was; no run below meets that case. */
  ghost function Take(e: Encoding, w: World, turn: Turn): World
    requires |w.keys| >= 2 && |w.totals| == |w.keys|
    ensures |Take(e, w, turn).keys| >= 2 && |Take(e, w, turn).totals| == |Take(e, w, turn).keys|
  {
    match turn
    case Happens(event) => Step(w, event)
    case Restart(p, order) =>
      if Faithful(e, StateOf(w, p)) && Restarted(e, StateOf(w, p), order).Ok?
      then WithState(w, p, Restarted(e, StateOf(w, p), order).value) else w
  }

  ghost function PlayTurns(e: Encoding, w: World, turns: seq<Turn>): World
    requires |w.keys| >= 2 && |w.totals| == |w.keys|
    decreases |turns|
  {
    if turns == [] then w else PlayTurns(e, Take(e, w, turns[0]), turns[1..])
  }

  /** Every event can happen, and every restart is of a state written and visited properly. */
  ghost predicate Runs(e: Encoding, w: World, turns: seq<Turn>)
    requires |w.keys| >= 2 && |w.totals| == |w.keys|
    decreases |turns|
  {
    turns == [] ||
    (&& (match turns[0]
         case Happens(event) => Enabled(w, event)
         case Restart(p, order) => Faithful(e, StateOf(w, p)) && Visits(Saved(e, StateOf(w, p)).skipped, order))
     && Runs(e, Take(e, w, turns[0]), turns[1..]))
  }

  function Events(turns: seq<Turn>): seq<Event> {
    if turns == [] then []
    else (if turns[0].Happens? then [turns[0].event] else []) + Events(turns[1..])
  }

  /** Restarts leave no trace: the run is the one in which they did not happen. */
  lemma {:induction false} RestartsAreInvisible(e: Encoding, w: World, turns: seq<Turn>)
    requires |w.keys| >= 2 && |w.totals| == |w.keys| && Runs(e, w, turns)
    ensures Run(w, Events(turns)) && PlayTurns(e, w, turns) == Play(w, Events(turns))
    decreases |turns|
  {
    hide Step, Restarted, Faithful, Saved, Visits;
    if turns != [] {
      RestartsAreInvisible(e, Take(e, w, turns[0]), turns[1..]);
      match turns[0]
      case Happens(event) => {
        assert Events(turns)[0] == event && Events(turns)[1..] == Events(turns[1..]);
      }
      case Restart(p, order) => {
        RestartKeepsState(e, StateOf(w, p), order);
        assert Take(e, w, turns[0]) == w;
        assert Events(turns) == Events(turns[1..]);
      }
    }
  }

  /** Delivery survives restarts: an unopened honest message still returns its plaintext exactly if the keys fit. */
  lemma {:induction false} DeliverySurvivesRestarts(
      e: Encoding, shared: SharedSecret, signedPrekey: Secret, first: Secret, turns: seq<Turn>, p: Party, i: nat, newSecret: Secret)
    requires signedPrekey != first && Runs(e, Start(shared, signedPrekey, first), turns)
    requires var w := PlayTurns(e, Start(shared, signedPrekey, first), turns);
             i < |w.log| && w.log[i].from == Other(p) && w.log[i].ciphertext.Sealed? && w.log[i].ciphertext.key !in w.spent
    ensures var w := PlayTurns(e, Start(shared, signedPrekey, first), turns);
            var m := w.log[i];
            var s := StateOf(w, p);
            var r := Decrypt(s, m.header, m.ciphertext, m.aad, newSecret);
            if Fits(s, m.header) then r.1 == Ok(m.plaintext) else r == (s, Err(TooManySkippedKeys))
  {
    hide Decrypt, Fits, Step, Take;
    RestartsAreInvisible(e, Start(shared, signedPrekey, first), turns);
    DeliveryOverRuns(shared, signedPrekey, first, Events(turns), p, i, newSecret);
  }

  lemma {:induction false} TurnsAppend(e: Encoding, w: World, before: seq<Turn>, after: seq<Turn>)
    requires |w.keys| >= 2 && |w.totals| == |w.keys| && Runs(e, w, before + after)
    ensures Runs(e, w, before)
    ensures var mid := PlayTurns(e, w, before);
            && |mid.keys| >= 2 && |mid.totals| == |mid.keys|
            && Runs(e, mid, after) && PlayTurns(e, w, before + after) == PlayTurns(e, mid, after)
    decreases |before|
  {
    hide Take, Faithful, Visits, Saved, Enabled;
    if before != [] {
      assert (before + after)[0] == before[0] && (before + after)[1..] == before[1..] + after;
      TurnsAppend(e, Take(e, w, before[0]), before[1..], after);
    } else {
      assert before + after == after;
    }
  }

  /**
   No replay across restarts: a message accepted at any point of a run is refused at the end of it by either
   party, under any header and data, however often they restarted in between.
   */
  lemma {:induction false} NoReplayAcrossRestarts(
      e: Encoding, shared: SharedSecret, signedPrekey: Secret, first: Secret, before: seq<Turn>, accepted: Event, after: seq<Turn>,
      q: Party, header: Header, aad: Bytes, newSecret: Secret)
    requires signedPrekey != first && Runs(e, Start(shared, signedPrekey, first), before + ([Happens(accepted)] + after))
    requires var w := PlayTurns(e, Start(shared, signedPrekey, first), before);
             && accepted.Receive?
             && Decrypt(StateOf(w, accepted.party), accepted.header, accepted.ciphertext, accepted.aad, accepted.newSecret).1.Ok?
    ensures var later := PlayTurns(e, Start(shared, signedPrekey, first), before + ([Happens(accepted)] + after));
            Decrypt(StateOf(later, q), header, accepted.ciphertext, aad, newSecret).1.Err?
  {
    hide Decrypt, Step, Faithful, Visits, Saved, Enabled, Restarted;
    var start := Start(shared, signedPrekey, first);
    var rest := [Happens(accepted)] + after;
    TurnsAppend(e, start, before, rest);
    var w := PlayTurns(e, start, before);
    assert rest[0] == Happens(accepted) && rest[1..] == after;
    RestartsAreInvisible(e, start, before);
    RestartsAreInvisible(e, Step(w, accepted), after);
    NoReplayOverRuns(shared, signedPrekey, first, Events(before), accepted, Events(after), q, header, aad, newSecret);
  }

  // ---- Such encodings exist ----------------------------------------------------------------------

  lemma {:induction false} Listed<T>(terms: set<T>) returns (list: seq<T>)
    ensures |list| == |terms| && forall t :: t in terms <==> t in list
  {
    if terms == {} {
      list := [];
    } else {
      var t :| t in terms;
      var rest := Listed(terms - {t});
      list := rest + [t];
    }
  }

  ghost function IndexIn<T>(list: seq<T>, t: T): (i: nat)
    requires t in list
    ensures i < |list| && list[i] == t
  {
    if list[0] == t then 0 else 1 + IndexIn(list[1..], t)
  }

  /** Any finite set of at most 2^256 terms can be written in 32 bytes each and read back. */
  lemma {:induction false} FiniteCode<T(!new)>(terms: set<T>) returns (write: T -> KeyBytes, read: KeyBytes -> T)
    requires 0 < |terms| <= Pow256(32)
    ensures forall t :: t in terms ==> read(write(t)) == t
  {
    hide ToBytes, Value, Pow256;
    var list := Listed(terms);
    write := (t: T) => if t in list then ToBytes(IndexIn(list, t), 32) else ToBytes(0, 32);
    read := (b: KeyBytes) => if Value(b) < |list| then list[Value(b)] else list[0];
    forall t | t in terms ensures read(write(t)) == t {
      ValueOfToBytes(IndexIn(list, t), 32);
    }
  }

  ghost function Secrets(states: set<State>): set<Secret> { {0} + set s | s in states :: s.self }

  ghost function Publics(states: set<State>): set<Public> {
    {Public(0)} + (set s | s in states && s.remote.Some? :: s.remote.value)
    + (set s, slot | s in states && slot in s.skipped :: slot.0)
  }

  ghost function Roots(states: set<State>): set<RootKey> { {Initial(SharedSecret([]))} + set s | s in states :: s.root }

  ghost function Chains(states: set<State>): set<ChainKey> {
    {First(Initial(SharedSecret([])), DhOutput(0, 0))}
    + (set s | s in states && s.sending.Some? :: s.sending.value)
    + (set s | s in states && s.receiving.Some? :: s.receiving.value)
  }

  ghost function MessageKeys(states: set<State>): set<MessageKey> {
    {MessageKey(First(Initial(SharedSecret([])), DhOutput(0, 0)))}
    + (set s, slot | s in states && slot in s.skipped :: s.skipped[slot])
  }

  ghost predicate FitsInBytes(states: set<State>) {
    && |Secrets(states)| <= Pow256(32) && |Publics(states)| <= Pow256(32) && |Roots(states)| <= Pow256(32)
    && |Chains(states)| <= Pow256(32) && |MessageKeys(states)| <= Pow256(32)
  }

  ghost predicate CountersFit(s: State) {
    && s.sendCount < U32 && s.recvCount < U32 && s.previousLength < U32 && |s.skipped| < U32
    && (forall slot :: slot in s.skipped ==> slot.1 < U32)
  }

  /** One encoding is faithful to all the states of a run, however many, as long as their keys fit in 32 bytes. */
  lemma {:induction false} EncodingExists(states: set<State>) returns (w: Encoding)
    requires FitsInBytes(states) && forall s :: s in states ==> CountersFit(s)
    ensures forall s :: s in states ==> Faithful(w, s)
  {
    hide Pow256;
    var scalar, secret := FiniteCode(Secrets(states));
    var point, public := FiniteCode(Publics(states));
    var rootBytes, root := FiniteCode(Roots(states));
    var chainBytes, chain := FiniteCode(Chains(states));
    var keyBytes, key := FiniteCode(MessageKeys(states));
    w := Encoding(scalar, secret, point, public, rootBytes, root, chainBytes, chain, keyBytes, key);
    forall s | s in states ensures Faithful(w, s) {
      FaithfulIfKnown(w, states, s);
    }
  }

  lemma {:induction false} FaithfulIfKnown(w: Encoding, states: set<State>, s: State)
    requires s in states && CountersFit(s)
    requires forall x :: x in Secrets(states) ==> w.secret(w.scalar(x)) == x
    requires forall x :: x in Publics(states) ==> w.public(w.point(x)) == x
    requires forall x :: x in Roots(states) ==> w.root(w.rootBytes(x)) == x
    requires forall x :: x in Chains(states) ==> w.chain(w.chainBytes(x)) == x
    requires forall x :: x in MessageKeys(states) ==> w.key(w.keyBytes(x)) == x
    ensures Faithful(w, s)
  {
    hide FaithfulSlot;
    assert s.self in Secrets(states) && s.root in Roots(states);
    assert s.remote.Some? ==> s.remote.value in Publics(states);
    assert s.sending.Some? ==> s.sending.value in Chains(states);
    assert s.receiving.Some? ==> s.receiving.value in Chains(states);
    forall slot | slot in s.skipped ensures FaithfulSlot(w, slot, s.skipped[slot]) {
      SlotIfKnown(w, states, s, slot);
    }
  }

  lemma {:induction false} SlotIfKnown(w: Encoding, states: set<State>, s: State, slot: (Public, nat))
    requires s in states && CountersFit(s) && slot in s.skipped
    requires forall x :: x in Publics(states) ==> w.public(w.point(x)) == x
    requires forall x :: x in MessageKeys(states) ==> w.key(w.keyBytes(x)) == x
    ensures FaithfulSlot(w, slot, s.skipped[slot])
  {
    assert slot.0 in Publics(states) && s.skipped[slot] in MessageKeys(states);
  }

  /** A visiting order of any saved store: a map's keys, listed. */
  lemma {:induction false} SomeOrder(saved: map<Slot, KeyBytes>) returns (order: seq<SkippedEntry>)
    ensures Visits(saved, order)
  {
    if saved.Keys == {} {
      order := [];
      assert forall slot :: slot in saved ==> slot in saved.Keys;
    } else {
      var slot :| slot in saved.Keys;
      assert (saved - {slot}).Keys == saved.Keys - {slot};
      var rest := SomeOrder(saved - {slot});
      order := rest + [SkippedEntry(slot.0, slot.1, saved[slot])];
      OneMoreVisit(saved, slot, rest);
    }
  }

  lemma {:induction false} OneMoreVisit(saved: map<Slot, KeyBytes>, slot: Slot, rest: seq<SkippedEntry>)
    requires slot in saved && Visits(saved - {slot}, rest)
    ensures Visits(saved, rest + [SkippedEntry(slot.0, slot.1, saved[slot])])
  {
    var order := rest + [SkippedEntry(slot.0, slot.1, saved[slot])];
    forall i | 0 <= i < |order| ensures EntryOf(saved, order[i]) {
      assert i < |rest| ==> EntryOf(saved - {slot}, rest[i]);
    }
    forall i, j | 0 <= i < j < |order| ensures SlotOf(order[i]) != SlotOf(order[j]) {
      assert EntryOf(saved - {slot}, rest[i]);
    }
    forall s | s in saved ensures exists i :: 0 <= i < |order| && SlotOf(order[i]) == s {
      if s == slot {
        assert SlotOf(order[|rest|]) == s;
      } else {
        assert s in saved - {slot};
        var i :| 0 <= i < |rest| && SlotOf(rest[i]) == s;
        assert SlotOf(order[i]) == s;
      }
    }
  }

  /**
   At any point of any run a party can restart: its store is under the cap, so its keys can be written in 32
   bytes each, and visited in some order.
   */
  lemma {:induction false} RestartIsPossible(w: World, p: Party) returns (e: Encoding, order: seq<SkippedEntry>)
    requires |w.keys| >= 2 && |w.totals| == |w.keys|
    requires |StateOf(w, p).skipped| <= MAX_SKIPPED_KEYS && CountersFit(StateOf(w, p))
    ensures Faithful(e, StateOf(w, p)) && Runs(e, w, [Restart(p, order)]) && PlayTurns(e, w, [Restart(p, order)]) == w
  {
    hide Pow256, Faithful, Visits, Restarted, Saved;
    var s := StateOf(w, p);
    FewTerms(s);
    e := EncodingExists({s});
    assert s in {s};
    order := SomeOrder(Saved(e, s).skipped);
    var turns := [Restart(p, order)];
    assert turns[1..] == [];
    assert Runs(e, w, turns);
    RestartKeepsState(e, s, order);
  }

  lemma {:induction false} SubsetIsSmaller<T>(part: set<T>, whole: set<T>)
    requires part <= whole
    ensures |part| <= |whole|
  {
    if part != {} {
      var x :| x in part;
      SubsetIsSmaller(part - {x}, whole - {x});
    }
  }

  lemma AtMostThree<T>(terms: set<T>, a: T, b: T, c: T)
    requires forall t :: t in terms ==> t == a || t == b || t == c
    ensures |terms| <= 3
  {
    SubsetIsSmaller(terms, {a, b, c});
    assert |{a, b, c}| <= 3 by {
      assert {a, b, c} == {a} + {b} + {c};
    }
  }

  ghost function PublicsIn(skipped: SkippedKeys): set<Public> { set slot | slot in skipped :: slot.0 }

  ghost function KeysIn(skipped: SkippedKeys): set<MessageKey> { set slot | slot in skipped :: skipped[slot] }

  /** A store names no more public keys, and holds no more message keys, than it has slots. */
  lemma {:induction false} FewInStore(skipped: SkippedKeys)
    ensures |PublicsIn(skipped)| <= |skipped| && |KeysIn(skipped)| <= |skipped|
    decreases |skipped|
  {
    if skipped.Keys == {} {
      assert PublicsIn(skipped) == {} && KeysIn(skipped) == {};
    } else {
      var slot :| slot in skipped.Keys;
      var rest := skipped - {slot};
      assert rest.Keys == skipped.Keys - {slot} && |rest.Keys| == |rest| && |skipped.Keys| == |skipped|;
      FewInStore(rest);
      assert PublicsIn(skipped) == PublicsIn(rest) + {slot.0} by {
        forall x ensures x in PublicsIn(skipped) <==> x in PublicsIn(rest) + {slot.0} {
          if x in PublicsIn(skipped) {
            var t :| t in skipped && t.0 == x;
            assert t != slot ==> t in rest;
          }
        }
      }
      assert KeysIn(skipped) == KeysIn(rest) + {skipped[slot]} by {
        forall x ensures x in KeysIn(skipped) <==> x in KeysIn(rest) + {skipped[slot]} {
          if x in KeysIn(skipped) {
            var t :| t in skipped && skipped[t] == x;
            assert t != slot ==> t in rest && rest[t] == x;
          }
          if x in KeysIn(rest) {
            var t :| t in rest && rest[t] == x;
            assert t in skipped && skipped[t] == x;
          }
        }
      }
    }
  }

  lemma {:induction false} FewSecretsAndRoots(s: State)
    ensures |Secrets({s})| <= 3 && |Roots({s})| <= 3
  {
    AtMostThree(Secrets({s}), 0, s.self, s.self);
    AtMostThree(Roots({s}), Initial(SharedSecret([])), s.root, s.root);
  }

  lemma {:induction false} FewChains(s: State)
    ensures |Chains({s})| <= 3
  {
    var none := First(Initial(SharedSecret([])), DhOutput(0, 0));
    AtMostThree(Chains({s}), none, if s.sending.Some? then s.sending.value else none,
                if s.receiving.Some? then s.receiving.value else none);
  }

  lemma {:induction false} FewPublics(s: State)
    ensures |Publics({s})| <= 2 + |s.skipped|
  {
    FewInStore(s.skipped);
    var remote := if s.remote.Some? then s.remote.value else Public(0);
    forall x | x in Publics({s}) ensures x in {Public(0), remote} + PublicsIn(s.skipped) {
      NamedPublic(s, remote, x);
    }
    SubsetIsSmaller(Publics({s}), {Public(0), remote} + PublicsIn(s.skipped));
    assert |{Public(0), remote}| <= 2 by {
      assert {Public(0), remote} == {Public(0)} + {remote};
    }
  }

  lemma NamedPublic(s: State, remote: Public, x: Public)
    requires x in Publics({s}) && (s.remote.Some? ==> remote == s.remote.value)
    ensures x == Public(0) || x == remote || x in PublicsIn(s.skipped)
  {
  }

  lemma {:induction false} FewMessageKeys(s: State)
    ensures |MessageKeys({s})| <= 1 + |s.skipped|
  {
    FewInStore(s.skipped);
    var none := {MessageKey(First(Initial(SharedSecret([])), DhOutput(0, 0)))};
    assert MessageKeys({s}) <= none + KeysIn(s.skipped);
    SubsetIsSmaller(MessageKeys({s}), none + KeysIn(s.skipped));
  }

  lemma {:induction false} FewTerms(s: State)
    requires |s.skipped| <= MAX_SKIPPED_KEYS
    ensures FitsInBytes({s})
  {
    hide Pow256, Secrets, Roots, Chains, Publics, MessageKeys;
    FewSecretsAndRoots(s);
    FewChains(s);
    FewPublics(s);
    FewMessageKeys(s);
    PowAdds(2, 30);
    TwoBytes();
    AtLeastOnce(Pow256(30), 0x1_0000);
  }
}
