/** A prekey store over its life: cards handed out, restarts, handshakes answered, in any order. */
module PrekeyRuns {
  import opened Prelude
  import opened BigEndian
  import opened SymbolicCrypto
  import opened MessageCodec
  import C = HandshakeCodec
  import V = Varint
  import opened Handshake

  // ---- Restarting --------------------------------------------------------------------------------

  /** How symbolic secrets and signatures are written as bytes and read back. */
  datatype Encoding = Encoding(
    scalar: Secret -> KeyBytes, secret: KeyBytes -> Secret,
    signatureBytes: Signature -> C.SignatureBytes, signature: C.SignatureBytes -> Signature)

  /** A store's signed prekey, its signature and these one-time keys are read back as they were written. */
  ghost predicate Faithful(w: Encoding, k: Prekeys, keys: multiset<Secret>) {
    && w.secret(w.scalar(k.signedSecret)) == k.signedSecret
    && w.signature(w.signatureBytes(k.signature)) == k.signature
    && (forall s :: s in keys ==> w.secret(w.scalar(s)) == s)
  }

  ghost function KeysOf(k: Prekeys): multiset<Secret> { multiset(k.available) + multiset(k.pending) }

  /** Every new store whose secrets fit in 32 bytes has such an encoding. */
  lemma {:induction false} EncodingExists(me: Party, signedSecret: Secret, oneTime: seq<Secret>) returns (w: Encoding)
    requires signedSecret < Pow256(32) && forall s :: s in oneTime ==> s < Pow256(32)
    ensures Faithful(w, Generate(me, signedSecret, oneTime), multiset(oneTime))
  {
    hide ToBytes, Value, Pow256;
    var g := Generate(me, signedSecret, oneTime).signature;
    w := Encoding((s: Secret) => ToBytes(s, 32), (b: KeyBytes) => Value(b),
                  (_: Signature) => seq(64, _ => 0), (_: C.SignatureBytes) => g);
    ValueOfToBytes(signedSecret, 32);
    assert w.secret(w.scalar(signedSecret)) == signedSecret;
    forall s | s in multiset(oneTime) ensures w.secret(w.scalar(s)) == s {
      assert s in oneTime;
      ValueOfToBytes(s, 32);
    }
  }

  function Scalars(w: Encoding, pool: seq<Secret>): (keys: seq<KeyBytes>)
    ensures |keys| == |pool|
  {
    if |pool| == 0 then [] else [w.scalar(pool[0])] + Scalars(w, pool[1..])
  }

  function Secrets(w: Encoding, keys: seq<KeyBytes>): seq<Secret> {
    if |keys| == 0 then [] else [w.secret(keys[0])] + Secrets(w, keys[1..])
  }

  function SaveStore(w: Encoding, k: Prekeys): Bytes {
    C.EncodePrekeys(C.SavedPrekeys(w.scalar(k.signedSecret), w.signatureBytes(k.signature),
                                   Scalars(w, k.available), Scalars(w, k.pending)))
  }

  function LoadStore(w: Encoding, input: Bytes): Result<Prekeys, V.DecodeError> {
    match C.DecodePrekeys(input)
    case Err(e) => Err(e)
    case Ok(p) => Ok(Prekeys(w.secret(p.signedSecret), w.signature(p.signature), Secrets(w, p.available), Secrets(w, p.pending)))
  }

  lemma {:induction false} PoolRoundTrip(w: Encoding, pool: seq<Secret>)
    requires forall s :: s in pool ==> w.secret(w.scalar(s)) == s
    ensures Secrets(w, Scalars(w, pool)) == pool
  {
    if |pool| > 0 {
      PoolRoundTrip(w, pool[1..]);
    }
  }

  /** A restart changes nothing. */
  lemma {:induction false} RestartKeepsStore(w: Encoding, k: Prekeys)
    requires Faithful(w, k, KeysOf(k)) && |k.available| < U64 && |k.pending| < U64
    ensures LoadStore(w, SaveStore(w, k)) == Ok(k)
  {
    var p := C.SavedPrekeys(w.scalar(k.signedSecret), w.signatureBytes(k.signature), Scalars(w, k.available), Scalars(w, k.pending));
    C.PrekeysRoundTrip(p, []);
    assert C.EncodePrekeys(p) + [] == C.EncodePrekeys(p);
    PoolRoundTrip(w, k.available);
    PoolRoundTrip(w, k.pending);
  }

  // ---- Runs --------------------------------------------------------------------------------------

  datatype Event = HandOut | Restart | Answer(message: InitialMessage)

  /** The store, and what has become of its one-time keys: handed out, and used up, in order. */
  datatype Life = Life(store: Prekeys, handedOut: seq<Secret>, consumed: seq<Secret>)

  function Step(w: Encoding, me: Party, l: Life, e: Event): Life {
    match e
    case HandOut =>
      var (k, b) := PublicBundle(me, l.store);
      Life(k, if b.oneTime.Some? then l.handedOut + [b.oneTime.value.of] else l.handedOut, l.consumed)
    case Restart =>
      (match LoadStore(w, SaveStore(w, l.store))
       case Err(_) => l
       case Ok(k) => l.(store := k))
    case Answer(m) =>
      var (k, r) := Respond(me, l.store, m);
      Life(k, l.handedOut, if r.Ok? && m.oneTime.Some? then l.consumed + [m.oneTime.value.of] else l.consumed)
  }

  function Play(w: Encoding, me: Party, l: Life, events: seq<Event>): Life
    decreases |events|
  {
    if |events| == 0 then l else Play(w, me, Step(w, me, l, events[0]), events[1..])
  }

  /** Available, pending and consumed keys partition the generated ones; the handed-out ones are the last two. */
  ghost predicate Partition(l: Life, generated: multiset<Secret>) {
    && multiset(l.store.available) + multiset(l.store.pending) + multiset(l.consumed) == generated
    && multiset(l.handedOut) == multiset(l.store.pending) + multiset(l.consumed)
    && |l.store.available| + |l.store.pending| < U64
  }

  lemma {:induction false} TakenFromPool(pool: seq<Secret>, i: nat)
    requires i < |pool|
    ensures multiset(pool) == multiset(pool[..i] + pool[i + 1..]) + multiset{pool[i]}
  {
    assert pool == (pool[..i] + [pool[i]]) + pool[i + 1..];
  }

  lemma {:induction false} HandOutKeepsPartition(me: Party, l: Life, generated: multiset<Secret>)
    requires Partition(l, generated) && |l.store.available| > 0
    ensures var k := PublicBundle(me, l.store).0;
            Partition(Life(k, l.handedOut + [l.store.available[|l.store.available| - 1]], l.consumed), generated)
  {
    var n := |l.store.available|;
    assert l.store.available == l.store.available[..n - 1] + [l.store.available[n - 1]];
  }

  lemma {:induction false} TakeKeepsPartition(l: Life, i: nat, generated: multiset<Secret>)
    requires Partition(l, generated) && i < |l.store.pending|
    ensures Partition(Life(l.store.(pending := l.store.pending[..i] + l.store.pending[i + 1..]), l.handedOut,
                           l.consumed + [l.store.pending[i]]), generated)
  {
    TakenFromPool(l.store.pending, i);
  }

  lemma {:induction false} RestartStep(w: Encoding, me: Party, l: Life, generated: multiset<Secret>)
    requires Faithful(w, l.store, generated) && Partition(l, generated)
    ensures Step(w, me, l, Restart) == l
  {
    hide LoadStore, SaveStore;
    RestartKeepsStore(w, l.store);
  }

  lemma {:induction false} AnswerStep(w: Encoding, me: Party, l: Life, m: InitialMessage)
    ensures var i := if m.oneTime.Some? then FindSecret(l.store.pending, m.oneTime.value) else |l.store.pending|;
            Step(w, me, l, Answer(m)) ==
              if i < |l.store.pending| && Verifies(m.identity, AgreementKey, m.agreement.key, m.agreement.signature) then
                Life(l.store.(pending := l.store.pending[..i] + l.store.pending[i + 1..]), l.handedOut,
                     l.consumed + [l.store.pending[i]])
              else l
  {
    hide FindSecret;
  }

  lemma {:induction false} StepKeepsPartition(w: Encoding, me: Party, l: Life, e: Event, generated: multiset<Secret>)
    requires Faithful(w, l.store, generated) && Partition(l, generated)
    ensures Partition(Step(w, me, l, e), generated)
    ensures Step(w, me, l, e).store.signedSecret == l.store.signedSecret && Step(w, me, l, e).store.signature == l.store.signature
  {
    hide Partition, Faithful, FindSecret, LoadStore, SaveStore, Respond;
    match e
    case HandOut => {
      if |l.store.available| > 0 {
        HandOutKeepsPartition(me, l, generated);
      }
    }
    case Restart => {
      RestartStep(w, me, l, generated);
    }
    case Answer(m) => {
      AnswerStep(w, me, l, m);
      if m.oneTime.Some? && FindSecret(l.store.pending, m.oneTime.value) < |l.store.pending| {
        TakeKeepsPartition(l, FindSecret(l.store.pending, m.oneTime.value), generated);
      }
    }
  }

  /** The partition holds over every run. */
  lemma {:induction false} PartitionOverRuns(w: Encoding, me: Party, l: Life, events: seq<Event>, generated: multiset<Secret>)
    requires Faithful(w, l.store, generated) && Partition(l, generated)
    ensures Partition(Play(w, me, l, events), generated)
    ensures Play(w, me, l, events).store.signedSecret == l.store.signedSecret
    ensures Play(w, me, l, events).store.signature == l.store.signature
    decreases |events|
  {
    hide Partition, Step;
    if |events| > 0 {
      StepKeepsPartition(w, me, l, events[0], generated);
      PartitionOverRuns(w, me, Step(w, me, l, events[0]), events[1..], generated);
    }
  }

  function NewLife(me: Party, signedSecret: Secret, oneTime: seq<Secret>): Life {
    Life(Generate(me, signedSecret, oneTime), [], [])
  }

  ghost predicate Distinct(s: seq<Secret>) { forall i, j :: 0 <= i < j < |s| ==> s[i] != s[j] }

  ghost predicate AtMostOnce(m: multiset<Secret>) { forall s: Secret :: m[s] <= 1 }

  lemma {:induction false} OnceMeansDistinct(s: seq<Secret>, i: nat, j: nat)
    requires i < j < |s| && multiset(s)[s[i]] <= 1
    ensures s[i] != s[j]
  {
    TakenFromPool(s, j);
    var rest := s[..j] + s[j + 1..];
    assert rest[i] == s[i];
    assert rest[i] in multiset(rest);
  }

  lemma {:induction false} DistinctOnce(s: seq<Secret>)
    requires Distinct(s)
    ensures AtMostOnce(multiset(s))
  {
    if |s| > 0 {
      DistinctOnce(s[1..]);
      assert s == [s[0]] + s[1..];
      assert s[0] !in s[1..];
      assert s[0] !in multiset(s[1..]);
      forall x: Secret ensures multiset(s)[x] <= 1 {
        assert multiset(s[1..])[x] <= 1;
      }
    }
  }

  lemma {:induction false} PartsDistinct(part: seq<Secret>, whole: multiset<Secret>)
    requires AtMostOnce(whole) && multiset(part) <= whole
    ensures Distinct(part)
  {
    forall i, j | 0 <= i < j < |part| ensures part[i] != part[j] {
      assert multiset(part)[part[i]] <= whole[part[i]] <= 1;
      OnceMeansDistinct(part, i, j);
    }
  }

  /**
   Over every run from a new store with distinct one-time keys: no key is handed out twice, no key completes
   two handshakes, only keys that were handed out complete any, and no key still available ever was.
   */
  lemma {:induction false} EachKeyOnce(w: Encoding, me: Party, signedSecret: Secret, oneTime: seq<Secret>, events: seq<Event>)
    requires Faithful(w, Generate(me, signedSecret, oneTime), multiset(oneTime)) && Distinct(oneTime) && |oneTime| < U64
    ensures var l := Play(w, me, NewLife(me, signedSecret, oneTime), events);
            && Distinct(l.handedOut) && Distinct(l.consumed)
            && (forall s :: s in l.consumed ==> s in l.handedOut)
            && (forall s :: s in l.store.available ==> s !in l.handedOut)
            && (forall s :: s in l.handedOut <==> s in l.store.pending || s in l.consumed)
            && (forall s :: s in l.store.pending ==> s !in l.consumed)
            && (forall s :: s in oneTime <==> s in l.store.available || s in l.handedOut)
  {
    hide Play;
    var start := NewLife(me, signedSecret, oneTime);
    var whole := multiset(oneTime);
    PartitionOverRuns(w, me, start, events, whole);
    DistinctOnce(oneTime);
    var l := Play(w, me, start, events);
    PartsDistinct(l.handedOut, whole);
    PartsDistinct(l.consumed, whole);
    MembersOfParts(l, oneTime);
  }

  lemma {:induction false} MembersOfParts(l: Life, oneTime: seq<Secret>)
    requires AtMostOnce(multiset(oneTime)) && Partition(l, multiset(oneTime))
    ensures forall s :: s in l.handedOut <==> s in l.store.pending || s in l.consumed
    ensures forall s :: s in l.store.available ==> s !in l.handedOut
    ensures forall s :: s in l.store.pending ==> s !in l.consumed
    ensures forall s :: s in oneTime <==> s in l.store.available || s in l.handedOut
  {
    forall s: Secret
      ensures s in l.handedOut <==> s in l.store.pending || s in l.consumed
      ensures s in l.store.available ==> s !in l.handedOut
      ensures s in l.store.pending ==> s !in l.consumed
      ensures s in oneTime <==> s in l.store.available || s in l.handedOut
    {
      var a, p, c, h := multiset(l.store.available), multiset(l.store.pending), multiset(l.consumed), multiset(l.handedOut);
      assert (s in l.store.available <==> a[s] > 0) && (s in l.store.pending <==> p[s] > 0);
      assert (s in l.consumed <==> c[s] > 0) && (s in l.handedOut <==> h[s] > 0);
      assert s in oneTime <==> multiset(oneTime)[s] > 0;
      assert multiset(oneTime)[s] <= 1;
    }
  }

  /** The keys handed out so far are the last of the generated ones, from the end; the rest are still available. */
  ghost predicate FromTheEnd(l: Life, oneTime: seq<Secret>) {
    && |l.handedOut| <= |oneTime| && l.store.available == oneTime[..|oneTime| - |l.handedOut|]
    && (forall i :: 0 <= i < |l.handedOut| ==> l.handedOut[i] == oneTime[|oneTime| - 1 - i])
  }

  lemma {:induction false} StepFromTheEnd(w: Encoding, me: Party, l: Life, e: Event, oneTime: seq<Secret>)
    requires FromTheEnd(l, oneTime) && Faithful(w, l.store, multiset(oneTime)) && Partition(l, multiset(oneTime))
    ensures FromTheEnd(Step(w, me, l, e), oneTime)
  {
    hide Partition, Faithful, LoadStore, SaveStore, FindSecret;
    match e
    case HandOut => {
    }
    case Restart => {
      RestartStep(w, me, l, multiset(oneTime));
    }
    case Answer(m) => {
      AnswerStep(w, me, l, m);
    }
  }

  /** Over every run from a new store, cards name the generated one-time keys in order from the last one. */
  lemma {:induction false} HandedOutInOrder(w: Encoding, me: Party, l: Life, events: seq<Event>, oneTime: seq<Secret>)
    requires FromTheEnd(l, oneTime) && Faithful(w, l.store, multiset(oneTime)) && Partition(l, multiset(oneTime))
    ensures FromTheEnd(Play(w, me, l, events), oneTime)
    decreases |events|
  {
    hide Partition, Step, FromTheEnd;
    if |events| > 0 {
      StepFromTheEnd(w, me, l, events[0], oneTime);
      StepKeepsPartition(w, me, l, events[0], multiset(oneTime));
      HandedOutInOrder(w, me, Step(w, me, l, events[0]), events[1..], oneTime);
    }
  }

  lemma {:induction false} NewIsFromTheEnd(me: Party, signedSecret: Secret, oneTime: seq<Secret>)
    ensures FromTheEnd(NewLife(me, signedSecret, oneTime), oneTime)
  {
  }

  lemma {:induction false} FoundExactly(pool: seq<Secret>, key: Public)
    ensures FindSecret(pool, key) < |pool| <==> key.of in pool
  {
    if key.of in pool {
      var i :| 0 <= i < |pool| && pool[i] == key.of;
      assert FindSecret(pool, key) <= i;
    }
  }

  /**
   A handshake against a card that named a one-time key completes exactly if that key has not completed one
   before; then both sides hold the same secret, and otherwise the store is unchanged.
   */
  lemma {:induction false} CompletesExactlyOnce(
      w: Encoding, bob: Party, signedSecret: Secret, oneTime: seq<Secret>, events: seq<Event>, alice: Party, b: Bundle, ephemeral: Secret)
    requires Faithful(w, Generate(bob, signedSecret, oneTime), multiset(oneTime)) && Distinct(oneTime) && |oneTime| < U64
    requires var l := Play(w, bob, NewLife(bob, signedSecret, oneTime), events);
             BundleOf(bob, l.store, b) && b.oneTime.Some? && b.oneTime.value.of in l.handedOut
    ensures Initiate(alice, b, ephemeral).Ok?
    ensures var l := Play(w, bob, NewLife(bob, signedSecret, oneTime), events);
            var (secret, m) := Initiate(alice, b, ephemeral).value;
            && (b.oneTime.value.of !in l.consumed ==>
                  Respond(bob, l.store, m).1 == Ok(secret) && b.oneTime.value.of in Step(w, bob, l, Answer(m)).consumed)
            && (b.oneTime.value.of in l.consumed ==> Respond(bob, l.store, m) == (l.store, Err(PrekeyExhausted)))
  {
    hide Play;
    EachKeyOnce(w, bob, signedSecret, oneTime, events);
    var l := Play(w, bob, NewLife(bob, signedSecret, oneTime), events);
    FoundExactly(l.store.pending, b.oneTime.value);
    if b.oneTime.value.of !in l.consumed {
      BothSidesAgree(alice, bob, l.store, b, ephemeral);
    }
  }

  lemma {:induction false} ConsumedGrows(w: Encoding, me: Party, l: Life, events: seq<Event>, s: Secret)
    requires s in l.consumed
    ensures s in Play(w, me, l, events).consumed
    decreases |events|
  {
    if |events| > 0 {
      ConsumedGrows(w, me, Step(w, me, l, events[0]), events[1..], s);
    }
  }

  lemma {:induction false} PlayAppends(w: Encoding, me: Party, l: Life, before: seq<Event>, later: seq<Event>)
    ensures Play(w, me, l, before + later) == Play(w, me, Play(w, me, l, before), later)
    decreases |before|
  {
    hide Step;
    if |before| > 0 {
      assert (before + later)[1..] == before[1..] + later;
      PlayAppends(w, me, Step(w, me, l, before[0]), before[1..], later);
    } else {
      assert before + later == later;
    }
  }

  lemma {:induction false} AnswerWithoutKey(bob: Party, k1: Prekeys, k2: Prekeys, m: InitialMessage)
    requires m.oneTime.None? && k1.signedSecret == k2.signedSecret
    ensures Respond(bob, k2, m).1 == Respond(bob, k1, m).1 && Respond(bob, k2, m).0 == k2
  {
  }

  /**
   A first message that has been answered is refused in every continuation of the run exactly if it names a
   one-time key. One that names none is answered again every time, with the same secret.
   */
  lemma {:induction false} ReplayOfFirstMessageExactly(
      w: Encoding, bob: Party, signedSecret: Secret, oneTime: seq<Secret>, before: seq<Event>, m: InitialMessage, later: seq<Event>)
    requires Faithful(w, Generate(bob, signedSecret, oneTime), multiset(oneTime)) && Distinct(oneTime) && |oneTime| < U64
    requires Respond(bob, Play(w, bob, NewLife(bob, signedSecret, oneTime), before).store, m).1.Ok?
    ensures var first := Respond(bob, Play(w, bob, NewLife(bob, signedSecret, oneTime), before).store, m).1;
            var l := Play(w, bob, NewLife(bob, signedSecret, oneTime), before + [Answer(m)] + later);
            Respond(bob, l.store, m) == (l.store, if m.oneTime.Some? then Err(PrekeyExhausted) else first)
  {
    hide Respond, FindSecret, LoadStore, SaveStore, Faithful, Distinct;
    var start := NewLife(bob, signedSecret, oneTime);
    var events := before + [Answer(m)];
    var mid := Play(w, bob, start, before);
    PlayAppends(w, bob, start, before, [Answer(m)]);
    assert Play(w, bob, mid, [Answer(m)]) == Step(w, bob, mid, Answer(m)) by {
      assert [Answer(m)][1..] == [];
    }
    PlayAppends(w, bob, start, events, later);
    var l := Play(w, bob, start, events + later);
    if m.oneTime.Some? {
      ConsumedGrows(w, bob, Play(w, bob, start, events), later, m.oneTime.value.of);
      EachKeyOnce(w, bob, signedSecret, oneTime, events + later);
      AnsweredOnce(bob, mid.store, l, m);
    } else {
      PartitionOverRuns(w, bob, start, before, multiset(oneTime));
      PartitionOverRuns(w, bob, start, events + later, multiset(oneTime));
      AnswerWithoutKey(bob, mid.store, l.store, m);
    }
  }

  lemma {:induction false} AnsweredOnce(bob: Party, k: Prekeys, l: Life, m: InitialMessage)
    requires m.oneTime.Some? && Respond(bob, k, m).1.Ok? && m.oneTime.value.of !in l.store.pending
    ensures Respond(bob, l.store, m) == (l.store, Err(PrekeyExhausted))
  {
    FoundExactly(l.store.pending, m.oneTime.value);
  }

  lemma {:induction false} HandedOutGrows(w: Encoding, me: Party, l: Life, events: seq<Event>, s: Secret)
    requires s in l.handedOut
    ensures s in Play(w, me, l, events).handedOut
    decreases |events|
  {
    if |events| > 0 {
      HandedOutGrows(w, me, Step(w, me, l, events[0]), events[1..], s);
    }
  }

  /** A card handed out at any time stays good: later stores answer for its keys. */
  lemma {:induction false} CardStaysGood(
      w: Encoding, me: Party, signedSecret: Secret, oneTime: seq<Secret>, before: seq<Event>, later: seq<Event>)
    requires Faithful(w, Generate(me, signedSecret, oneTime), multiset(oneTime)) && Distinct(oneTime) && |oneTime| < U64
    ensures var start := NewLife(me, signedSecret, oneTime);
            var b := PublicBundle(me, Play(w, me, start, before).store).1;
            var l := Play(w, me, start, before + [HandOut] + later);
            && BundleOf(me, l.store, b) && BundleVerifies(b)
            && (b.oneTime.Some? ==> b.oneTime.value.of in l.handedOut)
  {
    var start := NewLife(me, signedSecret, oneTime);
    var mid := Play(w, me, start, before);
    PartitionOverRuns(w, me, start, before, multiset(oneTime));
    PartitionOverRuns(w, me, start, before + [HandOut] + later, multiset(oneTime));
    PlayAppends(w, me, start, before, [HandOut]);
    assert Play(w, me, mid, [HandOut]) == Step(w, me, mid, HandOut) by {
      assert [HandOut][1..] == [];
    }
    PlayAppends(w, me, start, before + [HandOut], later);
    var b := PublicBundle(me, mid.store).1;
    if b.oneTime.Some? {
      HandedOutGrows(w, me, Play(w, me, start, before + [HandOut]), later, b.oneTime.value.of);
    }
  }

  /**
   A run that meets every hypothesis above: a card is handed out, the store restarts from its saved bytes,
   and the initiator's first message completes with one secret on both sides.
   */
  lemma {:induction false} CardAnsweredAfterRestart(
      alice: Party, bob: Party, signedSecret: Secret, oneTime: Secret, ephemeral: Secret) returns (w: Encoding, b: Bundle)
    requires signedSecret < Pow256(32) && oneTime < Pow256(32)
    ensures Faithful(w, Generate(bob, signedSecret, [oneTime]), multiset([oneTime])) && Distinct([oneTime])
    ensures b == PublicBundle(bob, Generate(bob, signedSecret, [oneTime])).1 && b.oneTime == Some(Public(oneTime))
    ensures var l := Play(w, bob, NewLife(bob, signedSecret, [oneTime]), [HandOut, Restart]);
            && BundleOf(bob, l.store, b) && l.handedOut == [oneTime] && l.consumed == []
            && Initiate(alice, b, ephemeral).Ok?
            && Respond(bob, l.store, Initiate(alice, b, ephemeral).value.1).1 == Ok(Initiate(alice, b, ephemeral).value.0)
  {
    hide Respond, Initiate, BundleVerifies, Faithful, Play, Step, BundleOf, NewLife, PublicBundle, Generate;
    w := EncodingExists(bob, signedSecret, [oneTime]);
    b := PublicBundle(bob, Generate(bob, signedSecret, [oneTime])).1;
    AfterRestart(w, bob, signedSecret, oneTime);
    CardStaysGood(w, bob, signedSecret, [oneTime], [], [Restart]);
    assert [] + [HandOut] + [Restart] == [HandOut, Restart];
    CompletesExactlyOnce(w, bob, signedSecret, [oneTime], [HandOut, Restart], alice, b, ephemeral);
  }

  lemma {:induction false} AfterRestart(w: Encoding, bob: Party, signedSecret: Secret, oneTime: Secret)
    requires Faithful(w, Generate(bob, signedSecret, [oneTime]), multiset([oneTime]))
    ensures var start := NewLife(bob, signedSecret, [oneTime]);
            && start == Play(w, bob, start, []) && PublicBundle(bob, start.store).1.oneTime == Some(Public(oneTime))
            && start.store == Generate(bob, signedSecret, [oneTime])
            && (var l := Play(w, bob, start, [HandOut, Restart]); l.handedOut == [oneTime] && l.consumed == [])
  {
    hide LoadStore, SaveStore;
    var start := NewLife(bob, signedSecret, [oneTime]);
    var l := Step(w, bob, start, HandOut);
    StepKeepsPartition(w, bob, start, HandOut, multiset([oneTime]));
    RestartStep(w, bob, l, multiset([oneTime]));
    assert [HandOut, Restart][1..] == [Restart] && [Restart][1..] == [];
    assert Play(w, bob, start, [HandOut, Restart]) == Play(w, bob, l, [Restart]) == Play(w, bob, l, []) == l;
  }

  // ---- The store as the program holds it ---------------------------------------------------------

  class PrekeyStore {
    const owner: Party
    const signedSecret: Secret
    const signature: Signature
    var available: seq<Secret>
    var pending: seq<Secret>

    function Value(): Prekeys
      reads this
    {
      Prekeys(signedSecret, signature, available, pending)
    }

    constructor (owner: Party, signedSecret: Secret, oneTime: seq<Secret>)
      ensures this.owner == owner && Value() == Generate(owner, signedSecret, oneTime)
    {
      this.owner, this.signedSecret := owner, signedSecret;
      signature := Signature(owner.identity, SignedPrekey, Public(signedSecret));
      available, pending := oneTime, [];
    }

    method MakeBundle() returns (b: Bundle)
      modifies this
      ensures (Value(), b) == PublicBundle(owner, old(Value()))
    {
      var oneTime: Option<Public> := None;
      if |available| > 0 {
        var secret := available[|available| - 1];
        available := available[..|available| - 1];
        pending := pending + [secret];
        oneTime := Some(Public(secret));
      }
      b := Bundle(owner.identity, SignAgreement(owner), SignedKey(Public(signedSecret), signature), oneTime);
    }

    method Take(key: Public) returns (secret: Option<Secret>)
      modifies this
      ensures (Value(), secret) == TakeOneTime(old(Value()), key)
    {
      var index := 0;
      while index < |pending| && Public(pending[index]) != key
        invariant 0 <= index <= |pending| && forall j :: 0 <= j < index ==> pending[j] != key.of
      {
        index := index + 1;
      }
      if index == |pending| {
        return None;
      }
      secret := Some(pending[index]);
      pending := pending[..index] + pending[index + 1..];
    }

    /** Answers a first message; the one-time key it names is used up even before the keys are combined. */
    method Answer(m: InitialMessage) returns (r: Result<SharedSecret, HandshakeError>)
      modifies this
      ensures (Value(), r) == Respond(owner, old(Value()), m)
    {
      if !Verifies(m.identity, AgreementKey, m.agreement.key, m.agreement.signature) {
        return Err(SignatureInvalid);
      }
      var oneTime: Option<Secret> := None;
      if m.oneTime.Some? {
        oneTime := Take(m.oneTime.value);
        if oneTime.None? {
          return Err(PrekeyExhausted);
        }
      }
      r := Ok(DeriveSecret(
        Dh(signedSecret, m.agreement.key), Dh(owner.agreement, m.ephemeral), Dh(signedSecret, m.ephemeral),
        if oneTime.Some? then Some(Dh(oneTime.value, m.ephemeral)) else None));
    }
  }
}
