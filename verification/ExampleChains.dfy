/**
 Chains of empty blocks that grow as long as one likes, under hash functions that never collide: at the pace that
 keeps the initial target, and at others. They show that the hypotheses of the ledger's theorems can be met
 together, and that a node reaches the state in which its default prune leaves an unopenable database.
 */
module ExampleChains {
  import opened Prelude
  import opened BigEndian
  import opened Difficulty
  import opened Sorting
  import opened LedgerTypes
  import opened ChainRules
  import opened ChainViews
  import opened ChainInvariant
  import opened ChainRuns
  import opened StoreRules
  import opened StoreReplay
  import opened StoreRuns
  import opened Convergence

  // ---- Hash functions without collisions ---------------------------------------------------------

  /** A list of naturals as one natural. */
  ghost function Code(s: seq<nat>): nat { if |s| == 0 then 0 else Pow2(s[0]) * (2 * Code(s[1..]) + 1) }

  lemma HalfPower(a: nat, m: nat)
    ensures a > 0 ==> Pow2(a) * m == 2 * (Pow2(a - 1) * m)
    ensures a == 0 ==> Pow2(a) * m == m
  {
  }

  lemma {:induction false} OddPart(a: nat, x: nat, b: nat, y: nat)
    requires Pow2(a) * (2 * x + 1) == Pow2(b) * (2 * y + 1)
    ensures a == b && x == y
    decreases a
  {
    hide Pow2;
    HalfPower(a, 2 * x + 1);
    HalfPower(b, 2 * y + 1);
    if a > 0 && b > 0 {
      OddPart(a - 1, x, b - 1, y);
    }
  }

  lemma {:induction false} CodeInjective(s: seq<nat>, t: seq<nat>)
    requires Code(s) == Code(t)
    ensures s == t
    decreases |s|
  {
    if |s| > 0 {
      PositiveCode(s);
    }
    if |t| > 0 {
      PositiveCode(t);
    }
    if |s| > 0 && |t| > 0 {
      OddPart(s[0], Code(s[1..]), t[0], Code(t[1..]));
      CodeInjective(s[1..], t[1..]);
      assert s == [s[0]] + s[1..] && t == [t[0]] + t[1..];
    }
  }

  lemma PositiveCode(s: seq<nat>)
    requires |s| > 0
    ensures Code(s) > 0
  {
    AtLeastOnce(Pow2(s[0]), 2 * Code(s[1..]) + 1);
  }

  function HeaderFields(h: Header): seq<nat> {
    [h.version, h.height, h.prev, h.timestamp, h.txCommitment, h.bits, h.nonce, h.miner]
  }

  function Naturals(s: Bytes): (t: seq<nat>)
    ensures |t| == |s| && forall i :: 0 <= i < |s| ==> t[i] == s[i]
  {
    if |s| == 0 then [] else [s[0] as nat] + Naturals(s[1..])
  }

  function ClaimFields(c: Claim): seq<nat> {
    [|c.username|, c.owner, c.heightHint, c.anchor, c.nonce] + (Naturals(c.username) + Naturals(c.signature))
  }

  lemma {:induction false} ClaimFieldsInjective(c: Claim, d: Claim)
    requires ClaimFields(c) == ClaimFields(d)
    ensures c == d
  {
    var f, g := ClaimFields(c), ClaimFields(d);
    var n := |c.username|;
    assert f[0] == n && g[0] == |d.username| && f[1] == c.owner && g[1] == d.owner && f[2] == c.heightHint && g[2] == d.heightHint;
    assert f[3] == c.anchor && g[3] == d.anchor && f[4] == c.nonce && g[4] == d.nonce;
    forall i | 0 <= i < n ensures c.username[i] == d.username[i] {
      assert f[5 + i] == c.username[i] && g[5 + i] == d.username[i];
    }
    assert |f| == 5 + n + |c.signature| && |g| == 5 + n + |d.signature|;
    forall i | 0 <= i < |c.signature| ensures c.signature[i] == d.signature[i] {
      assert f[5 + n + i] == c.signature[i] && g[5 + n + i] == d.signature[i];
    }
    assert c.username == d.username && c.signature == d.signature;
  }

  // ---- The blocks --------------------------------------------------------------------------------

  /** Branches that leave genesis side by side, each with its own pace. */
  type Branch = b: nat | b < 4

  const PACED: Branch := 0
  const SLOW_START: Branch := 1
  const FAST: Branch := 2
  const STEADY: Branch := 3

  /** Five minutes apart, and a little more at the end of a retarget interval, so that each spans exactly a day. */
  function PacedTime(n: nat): nat {
    GENESIS_TIMESTAMP + 90_000 * (n / RETARGET_INTERVAL_BLOCKS) + 300 * (n % RETARGET_INTERVAL_BLOCKS)
    + if n % RETARGET_INTERVAL_BLOCKS == RETARGET_INTERVAL_BLOCKS - 1 then 300 else 0
  }

  /** On pace; a slow first interval, then on pace; a second apart; exactly five minutes apart. */
  function Time(b: Branch, n: nat): nat {
    if b == PACED then PacedTime(n)
    else if b == SLOW_START then (if n < RETARGET_INTERVAL_BLOCKS then GENESIS_TIMESTAMP + 1_300 * n else PacedTime(n) + 400_000)
    else if b == FAST then GENESIS_TIMESTAMP + n
    else GENESIS_TIMESTAMP + TARGET_BLOCK_TIME_SECS * n
  }

  /** The span of the interval whose last block has height `n`. */
  function Span(b: Branch, n: nat): int
    requires n >= RETARGET_INTERVAL_BLOCKS - 1
  {
    Time(b, n) - Time(b, n + 1 - RETARGET_INTERVAL_BLOCKS)
  }

  /** The target each height must have. */
  function Bits(b: Branch, n: nat): Compact {
    if n == 0 then INITIAL_DIFFICULTY_BITS
    else if n % RETARGET_INTERVAL_BLOCKS == 0 then
      Retarget(Bits(b, n - 1), Span(b, n - 1), RETARGET_INTERVAL_BLOCKS * TARGET_BLOCK_TIME_SECS)
    else Bits(b, n - 1)
  }

  function HashAt(b: Branch, n: nat): Hash { if n == 0 then 1 else 5 * n + 1 + b }

  function Head(b: Branch, n: nat): Header {
    Header(1, n, if n == 0 then ZERO else HashAt(b, n - 1), Time(b, n), 0, Bits(b, n), if n == 0 then 0 else b, 0)
  }

  ghost function HashOf(h: Header): (hash: Hash)
    ensures hash != ZERO
  {
    if h.nonce < 4 && h == Head(h.nonce, h.height) then HashAt(h.nonce, h.height) else 5 * Code(HeaderFields(h)) + 5
  }

  ghost const HASHES: Oracle :=
    Hashing((h: Header) => HashOf(h), (c: Claim) => Code(ClaimFields(c)), (s: seq<Hash>) => Code(s), (_: Claim) => true)

  lemma {:induction false} HashesAreInjective()
    ensures Injective(HASHES)
  {
    hide Code, ClaimFields, HashOf;
    forall h, k: Header | HashOf(h) == HashOf(k) ensures h == k {
      HashInjective(h, k);
    }
    forall c, d: Claim | Code(ClaimFields(c)) == Code(ClaimFields(d)) ensures c == d {
      CodeInjective(ClaimFields(c), ClaimFields(d));
      ClaimFieldsInjective(c, d);
    }
    forall s, t: seq<Hash> | Code(s) == Code(t) ensures s == t {
      CodeInjective(s, t);
    }
  }

  lemma {:induction false} PlaceOfHash(b: Branch, n: nat, d: Branch, m: nat)
    ensures HashAt(b, n) == HashAt(d, m) ==> n == m && (n > 0 ==> b == d)
  {
  }

  lemma HashClass(b: Branch, n: nat)
    ensures HashAt(b, n) % 5 != 0
  {
  }

  lemma {:induction false} HashInjective(h: Header, k: Header)
    requires HashOf(h) == HashOf(k)
    ensures h == k
  {
    hide Code, Time, Head, HashAt, HeaderFields;
    var x, y := Code(HeaderFields(h)), Code(HeaderFields(k));
    var onH := h.nonce < 4 && h == Head(h.nonce, h.height);
    var onK := k.nonce < 4 && k == Head(k.nonce, k.height);
    if onH {
      HashClass(h.nonce, h.height);
    }
    if onK {
      HashClass(k.nonce, k.height);
    }
    if onH && onK {
      PlaceOfHash(h.nonce, h.height, k.nonce, k.height);
      GenesisIsShared(h.nonce, k.nonce);
    }
    if !onH && !onK {
      CodeInjective(HeaderFields(h), HeaderFields(k));
      SameFields(h, k);
    }
  }

  lemma GenesisIsShared(b: Branch, d: Branch)
    ensures Head(b, 0) == Head(d, 0)
  {
  }

  lemma SameFields(h: Header, k: Header)
    requires HeaderFields(h) == HeaderFields(k)
    ensures h == k
  {
    var f, g := HeaderFields(h), HeaderFields(k);
    assert f[0] == g[0] && f[1] == g[1] && f[2] == g[2] && f[3] == g[3] && f[4] == g[4] && f[5] == g[5] && f[6] == g[6] && f[7] == g[7];
  }

  lemma {:induction false} HashOfHead(b: Branch, n: nat)
    ensures HashOf(Head(b, n)) == HashAt(b, n)
  {
    hide Time, Bits, Code;
    GenesisIsShared(b, PACED);
  }

  // ---- Times and targets -------------------------------------------------------------------------

  lemma PacedTimeIncreases(n: nat)
    ensures PacedTime(n) < PacedTime(n + 1)
  {
    if n % 288 == 287 {
      assert (n + 1) % 288 == 0 && (n + 1) / 288 == n / 288 + 1;
    } else {
      assert (n + 1) % 288 == n % 288 + 1 && (n + 1) / 288 == n / 288;
    }
  }

  lemma PacedTimeOfSecond()
    ensures PacedTime(288) == GENESIS_TIMESTAMP + 90_000
  {
  }

  lemma TimeIncreases(b: Branch, n: nat)
    ensures Time(b, n) < Time(b, n + 1)
  {
    hide PacedTime;
    PacedTimeIncreases(n);
    PacedTimeOfSecond();
  }

  lemma {:induction false} TimeMonotone(b: Branch, i: nat, n: nat)
    requires i <= n
    ensures Time(b, i) <= Time(b, n)
    decreases n
  {
    hide Time;
    if i < n {
      TimeMonotone(b, i, n - 1);
      TimeIncreases(b, n - 1);
    }
  }

  lemma PacedSpan(n: nat)
    requires (n + 1) % RETARGET_INTERVAL_BLOCKS == 0
    ensures n >= 287 && PacedTime(n) - PacedTime(n + 1 - RETARGET_INTERVAL_BLOCKS) == 86_400
  {
    assert n % 288 == 287 && (n - 287) % 288 == 0 && (n - 287) / 288 == n / 288;
  }

  /** How long the interval that ends at height `n` takes on each branch. */
  lemma SpanOf(b: Branch, n: nat)
    requires (n + 1) % RETARGET_INTERVAL_BLOCKS == 0
    ensures n >= 287
    ensures Span(b, n) == if b == PACED then 86_400
                          else if b == SLOW_START then (if n == 287 then 373_100 else 86_400)
                          else if b == FAST then 287
                          else 86_100
  {
    hide PacedTime;
    PacedSpan(n);
    assert n > 287 ==> n + 1 - 288 >= 288;
  }

  lemma OnPaceKeepsBits()
    ensures Retarget(INITIAL_DIFFICULTY_BITS, 86_400, 86_400) == INITIAL_DIFFICULTY_BITS
  {
    hide TargetValue, CompactFromTarget, ToBytes, Pow256;
    OnPaceRatio(86_400);
    ProductByOne(TargetValue(INITIAL_DIFFICULTY_BITS));
    TargetFits(INITIAL_DIFFICULTY_BITS);
    ClampedExactly(TargetValue(INITIAL_DIFFICULTY_BITS) as real);
    CompactExpandCompact(INITIAL_DIFFICULTY_BITS);
  }

  /** The targets of the second interval on the two branches that change theirs at its start. */
  const SLOW_BITS: Compact := Retarget(INITIAL_DIFFICULTY_BITS, 373_100, 86_400)
  const FAST_BITS: Compact := Retarget(INITIAL_DIFFICULTY_BITS, 287, 86_400)

  lemma {:induction false} FirstInterval(b: Branch, n: nat)
    requires n < RETARGET_INTERVAL_BLOCKS
    ensures Bits(b, n) == INITIAL_DIFFICULTY_BITS
  {
    hide Retarget, Span;
    if n > 0 {
      FirstInterval(b, n - 1);
    }
  }

  lemma {:induction false} PacedBits(n: nat)
    ensures Bits(PACED, n) == INITIAL_DIFFICULTY_BITS
  {
    hide Retarget, Span;
    if n > 0 {
      PacedBits(n - 1);
      if n % RETARGET_INTERVAL_BLOCKS == 0 {
        SpanOf(PACED, n - 1);
        OnPaceKeepsBits();
      }
    }
  }

  lemma {:induction false} SlowTarget(n: nat)
    requires n >= RETARGET_INTERVAL_BLOCKS
    ensures TargetValue(Bits(SLOW_START, n)) == TargetValue(SLOW_BITS)
  {
    hide Retarget, Span, TargetValue;
    if n == RETARGET_INTERVAL_BLOCKS {
      FirstInterval(SLOW_START, n - 1);
      SpanOf(SLOW_START, n - 1);
    } else {
      SlowTarget(n - 1);
      if n % RETARGET_INTERVAL_BLOCKS == 0 {
        SpanOf(SLOW_START, n - 1);
        RetargetOnPace(Bits(SLOW_START, n - 1), 86_400);
      }
    }
  }

  lemma {:induction false} FastBits(n: nat)
    requires RETARGET_INTERVAL_BLOCKS <= n < 2 * RETARGET_INTERVAL_BLOCKS
    ensures Bits(FAST, n) == FAST_BITS
  {
    hide Retarget, Span;
    if n == RETARGET_INTERVAL_BLOCKS {
      FirstInterval(FAST, n - 1);
      SpanOf(FAST, n - 1);
    } else {
      FastBits(n - 1);
    }
  }

  // ---- The chains --------------------------------------------------------------------------------

  /** The work behind block `n` of a branch. */
  function Total(b: Branch, n: nat): real { if n == 0 then 0.0 else Total(b, n - 1) + WorkOf(Bits(b, n)) }

  /** Block `i` of the branch is known, as it should be. */
  ghost predicate MetaAt(c: ChainState, b: Branch, i: nat) {
    && HashAt(b, i) in c.meta
    && c.meta[HashAt(b, i)] == Meta(i, if i == 0 then ZERO else HashAt(b, i - 1), Time(b, i), Bits(b, i), Total(b, i))
  }

  function PathOf(b: Branch, n: nat): (p: seq<Hash>)
    ensures |p| == n + 1 && forall i :: 0 <= i <= n ==> p[i] == HashAt(b, i)
  {
    if n == 0 then [1] else PathOf(b, n - 1) + [HashAt(b, n)]
  }

  /** The chain of a branch's first `n` blocks and nothing else. */
  ghost predicate Grown(c: ChainState, b: Branch, n: nat) {
    && Linked(c) && c.tip == HashAt(b, n) && c.floor == 1 && c.floorHeight == 0
    && Ancestors(c, c.tip) == Ok(PathOf(b, n))
    && (forall i: nat :: i <= n ==> MetaAt(c, b, i))
    && (forall h :: h in c.meta ==> h in PathOf(b, n))
    && (forall h :: h in c.blocks ==> c.blocks[h].header.timestamp <= Time(b, n))
  }

  function Empty(h: Header): Block { Block(h, []) }

  /** The hash of every block up to `n` meets the target of its height. */
  ghost predicate Meets(b: Branch, n: nat) { forall i: nat :: 0 < i <= n ==> HashAt(b, i) <= TargetValue(Bits(b, i)) }

  lemma EmptyBody()
    ensures TxCommitment(HASHES, []) == 0 && TxsSize([]) == 0
  {
    assert Sort(Ids(HASHES, [])) == [];
  }

  lemma {:induction false} ExpectedNext(c: ChainState, b: Branch, n: nat)
    requires Grown(c, b, n)
    ensures ExpectedDifficulty(c, c.tip) == Ok(Bits(b, n + 1))
  {
    hide Time, Path, TreeOk, Retarget, PathOf, HashAt, Total;
    assert MetaAt(c, b, n);
    if RetargetDue(n + 1) {
      SpanOf(b, n);
      var start := n + 1 - RETARGET_INTERVAL_BLOCKS;
      assert MetaAt(c, b, start) && PathOf(b, n)[start] == HashAt(b, start);
    }
  }

  lemma {:induction false} MedianIsPast(c: ChainState, b: Branch, n: nat)
    requires Grown(c, b, n)
    ensures MedianTimePast(c, c.tip).Ok? && MedianTimePast(c, c.tip).value < Time(b, n + 1)
  {
    hide Time, Ancestors, TreeOk, PathOf, Median, HashAt, Total, Bits;
    var window := Window(PathOf(b, n));
    var first := SatSub(n + 1, MEDIAN_TIME_PAST_WINDOW);
    forall i | 0 <= i < |window| ensures window[i] in c.meta && c.meta[window[i]].timestamp < Time(b, n + 1) {
      assert window[i] == PathOf(b, n)[first + i];
      assert MetaAt(c, b, first + i);
      TimeMonotone(b, first + i, n);
      TimeIncreases(b, n);
    }
    var lower, upper := MedianIsMiddle(Timestamps(c.meta, window));
  }

  lemma {:induction false} NextIsNew(c: ChainState, b: Branch, n: nat)
    requires Grown(c, b, n)
    ensures HashAt(b, n + 1) !in c.meta
  {
    hide Linked, MetaAt, Ancestors, Time;
    forall i | 0 <= i <= n ensures PathOf(b, n)[i] != HashAt(b, n + 1) {
      PlaceOfHash(b, i, b, n + 1);
    }
  }

  lemma {:induction false} NextIsValid(c: ChainState, b: Branch, n: nat)
    requires Grown(c, b, n) && HashAt(b, n + 1) <= TargetValue(Bits(b, n + 1))
    ensures BlockHash(HASHES, Empty(Head(b, n + 1))) == HashAt(b, n + 1) && HashAt(b, n + 1) !in c.meta
    ensures ValidateBlock(HASHES, c, Empty(Head(b, n + 1)), Time(b, n + 1)).Ok?
  {
    hide Time, Ancestors, TreeOk, PathOf, Bits, HashAt, TxCommitment, TargetValue, ExpectedDifficulty, MedianTimePast, StateAt, HashOf, Total;
    HashOfHead(b, n + 1);
    NextIsNew(c, b, n);
    EmptyBody();
    assert MetaAt(c, b, n);
    ExpectedNext(c, b, n);
    MedianIsPast(c, b, n);
    assert BlockSize(Empty(Head(b, n + 1))) == HEADER_LEN;
  }

  lemma {:induction false} NextGrows(c: ChainState, g: History, b: Branch, n: nat)
    requires Inv(HASHES, c, g) && Grown(c, b, n) && HashAt(b, n + 1) <= TargetValue(Bits(b, n + 1))
    ensures Grown(TryApply(HASHES, c, Empty(Head(b, n + 1)), Time(b, n + 1)).0, b, n + 1)
  {
    hide Time, Ancestors, TreeOk, StateAt, ValidateBlock, TryApply, BlockHash, Inv, WorkOf, ApplyClaims, PathOf, MetaAt, Bits, TargetValue,
         HashAt, Total;
    NextIsValid(c, b, n);
    TipExtension(HASHES, c, g, Empty(Head(b, n + 1)), Time(b, n + 1));
    TipWork(c, b, n);
    GrownExtends(c, TryApply(HASHES, c, Empty(Head(b, n + 1)), Time(b, n + 1)).0, b, n);
  }

  lemma TipWork(c: ChainState, b: Branch, n: nat)
    requires Grown(c, b, n)
    ensures c.tip in c.meta && c.meta[c.tip].work == Total(b, n) && Total(b, n + 1) == Total(b, n) + WorkOf(Bits(b, n + 1))
  {
    hide Time, Ancestors, TreeOk, PathOf, HashAt, WorkOf;
    assert MetaAt(c, b, n);
  }

  lemma {:induction false} GrownExtends(c: ChainState, c2: ChainState, b: Branch, n: nat)
    requires Grown(c, b, n) && Linked(c2) && c2.tip == HashAt(b, n + 1) && c2.floor == 1 && c2.floorHeight == 0
    requires Ancestors(c2, c2.tip) == Ok(PathOf(b, n) + [HashAt(b, n + 1)]) && HashAt(b, n + 1) !in c.meta
    requires c2.meta == c.meta[c2.tip := Meta(n + 1, HashAt(b, n), Time(b, n + 1), Bits(b, n + 1), Total(b, n + 1))]
    requires c2.blocks == c.blocks[c2.tip := Empty(Head(b, n + 1))]
    ensures Grown(c2, b, n + 1)
  {
    hide Time, Ancestors, TreeOk, Bits, Total, HashAt;
    assert PathOf(b, n + 1) == PathOf(b, n) + [HashAt(b, n + 1)];
    forall i: nat | i <= n + 1 ensures MetaAt(c2, b, i) {
      assert i <= n ==> MetaAt(c, b, i);
    }
    TimeIncreases(b, n);
  }

  lemma {:induction false} FreshIsGrown(b: Branch)
    ensures Fresh(HASHES).tip == 1 && Grown(Fresh(HASHES), b, 0) && Unpruned(HASHES, Fresh(HASHES), GenesisHistory(HASHES))
  {
    hide Unpruned, TxCommitment, TargetValue, WorkOf;
    EmptyBody();
    GenesisIsShared(b, PACED);
    assert Genesis(HASHES) == Empty(Head(PACED, 0));
    HashOfHead(PACED, 0);
    FreshUnpruned(HASHES);
    var c := Fresh(HASHES);
    assert LinkOk(c.meta, c.tip);
    assert Path(c.meta, 1, 1) == Ok([1]);
    assert MetaAt(c, b, 0);
  }

  // ---- The nodes ---------------------------------------------------------------------------------

  function Events(b: Branch, n: nat): (events: seq<Event>)
    ensures forall i :: 0 <= i < |events| ==> !Prunes(events[i])
  {
    if n == 0 then [Boot] else Events(b, n - 1) + [Event.Accept(Empty(Head(b, n)), Time(b, n))]
  }

  /** A node that is given a branch's blocks one by one holds the chain of exactly those. */
  lemma {:induction false} NodeOn(b: Branch, n: nat) returns (node: Node, c: ChainState, g: History)
    requires Meets(b, n)
    ensures RunsTo(HASHES, NEW_NODE, Events(b, n), node) && node.memory == Some(c)
    ensures Sound(HASHES, node, c, g) && Unpruned(HASHES, c, g) && Grown(c, b, n)
  {
    hide Step, Sound, Unpruned, Grown, TryApply, Inv, Head, Time, Fresh, GenesisHistory, HistoryAfter, HashAt, Bits, TargetValue;
    if n == 0 {
      FirstBoot(HASHES);
      NothingYet();
      RunSnoc(HASHES, NEW_NODE, [], NEW_NODE, Boot);
      assert [] + [Boot] == [Boot];
      MemoryAfter(HASHES, NEW_NODE, Boot);
      FreshIsGrown(b);
      node, c, g := Step(HASHES, NEW_NODE, Boot).value, Fresh(HASHES), GenesisHistory(HASHES);
    } else {
      var before, c1, g1 := NodeOn(b, n - 1);
      var block, now := Empty(Head(b, n)), Time(b, n);
      AcceptKeepsSound(HASHES, before, c1, g1, block, now);
      MemoryAfter(HASHES, before, Event.Accept(block, now));
      RunSnoc(HASHES, NEW_NODE, Events(b, n - 1), before, Event.Accept(block, now));
      ApplyKeepsUnpruned(HASHES, c1, g1, block, now);
      UnprunedInv(HASHES, c1, g1);
      NextGrows(c1, g1, b, n - 1);
      node := Step(HASHES, before, Event.Accept(block, now)).value;
      c, g := TryApply(HASHES, c1, block, now).0, HistoryAfter(HASHES, c1, g1, block, now);
    }
  }

  lemma NothingYet()
    ensures RunsTo(HASHES, NEW_NODE, [], NEW_NODE)
  {
  }

  lemma InitialIsLarge()
    ensures TargetValue(INITIAL_DIFFICULTY_BITS) == 0xff_ffff * Pow256(27) && TargetValue(INITIAL_DIFFICULTY_BITS) >= 0xff_ffff
  {
    hide TargetValue, Pow256;
    InitialValue();
    AtLeastOnce(Pow256(27), 0xff_ffff);
  }

  lemma {:induction false} PacedMeets(n: nat)
    requires n <= 3_000_000
    ensures Meets(PACED, n)
  {
    hide TargetValue, Bits;
    InitialIsLarge();
    forall i: nat | 0 < i <= n ensures HashAt(PACED, i) <= TargetValue(Bits(PACED, i)) {
      PacedBits(i);
    }
  }

  /** Before its first retarget every branch keeps the initial target. */
  lemma {:induction false} EarlyMeets(b: Branch, n: nat)
    requires n < RETARGET_INTERVAL_BLOCKS
    ensures Meets(b, n)
  {
    hide TargetValue, Bits;
    InitialIsLarge();
    forall i: nat | 0 < i <= n ensures HashAt(b, i) <= TargetValue(Bits(b, i)) {
      FirstInterval(b, i);
    }
  }

  /** Unpruned chains beyond genesis exist under hash functions without collisions, at every height up to three million. */
  lemma {:induction false} InjectiveAndUnpruned(n: nat) returns (c: ChainState, g: History)
    requires n <= 3_000_000
    ensures Injective(HASHES) && Unpruned(HASHES, c, g) && c.tip in c.meta && c.meta[c.tip].height == n
  {
    hide Unpruned, Sound, RunsTo, Time, Meets, Bits;
    HashesAreInjective();
    PacedMeets(n);
    var node, c1, g1 := NodeOn(PACED, n);
    c, g := c1, g1;
    assert MetaAt(c, PACED, n);
  }

  /**
   The first height at which the default prune does anything: a node that accepts 2017 of these blocks and
   prunes by default is left with a database that cannot be opened.
   */
  lemma {:induction false} DefaultPruneExample() returns (node: Node)
    ensures RunsTo(HASHES, NEW_NODE, Events(PACED, 2017) + [Event.PruneTo(RETENTION_WINDOW_BLOCKS)], node)
    ensures Startable(node.db) && Restore(HASHES, node.db).Err?
  {
    hide Sound, RunsTo, Time, Events, Restore, StorePrune, Unpruned, PathOf, Bits, Meets;
    PacedMeets(2017);
    var before, c, g := NodeOn(PACED, 2017);
    assert MetaAt(c, PACED, 2017);
    assert PruneTarget(c, RETENTION_WINDOW_BLOCKS) == Some(1);
    DefaultPruneBreaksReopen(HASHES, before, c, g);
    PruneStep(before, c);
    RunSnoc(HASHES, NEW_NODE, Events(PACED, 2017), before, Event.PruneTo(RETENTION_WINDOW_BLOCKS));
    node := Step(HASHES, before, Event.PruneTo(RETENTION_WINDOW_BLOCKS)).value;
  }

  lemma PruneStep(n: Node, c: ChainState)
    requires Linked(c) && n.memory == Some(c)
    ensures Step(HASHES, n, Event.PruneTo(RETENTION_WINDOW_BLOCKS)).Some?
    ensures Step(HASHES, n, Event.PruneTo(RETENTION_WINDOW_BLOCKS)).value.db == StorePrune(Store(n.db, c), RETENTION_WINDOW_BLOCKS).0.db
  {
    hide StorePrune, TreeOk;
  }

  // ---- Five minutes apart ------------------------------------------------------------------------

  lemma {:induction false} SteadySteps(c: ChainState, n: nat, k: nat)
    requires Grown(c, STEADY, n) && k <= n
    ensures FiveMinutesApart(c.meta, HashAt(STEADY, k), k)
  {
    hide Linked, PathOf, Bits, Total, HashAt, Ancestors;
    assert MetaAt(c, STEADY, k);
    if k > 0 {
      assert MetaAt(c, STEADY, k - 1);
      SteadySteps(c, n, k - 1);
    }
  }

  /** 287 blocks exactly five minutes apart, and the next must meet a strictly harder target. */
  lemma {:induction false} SteadyGetsHarder() returns (c: ChainState, g: History)
    ensures Unpruned(HASHES, c, g) && Grown(c, STEADY, 287) && ExpectedDifficulty(c, c.tip).Ok?
    ensures TargetValue(ExpectedDifficulty(c, c.tip).value) < TargetValue(INITIAL_DIFFICULTY_BITS)
  {
    hide Unpruned, Sound, RunsTo, PathOf, Bits, Meets, Total, HashAt, ExpectedDifficulty, TargetValue, Ancestors, TreeOk, Time, FiveMinutesApart;
    EarlyMeets(STEADY, 287);
    var node;
    node, c, g := NodeOn(STEADY, 287);
    ExpectedNext(c, STEADY, 287);
    assert MetaAt(c, STEADY, 287);
    FirstInterval(STEADY, 287);
    InitialIsLarge();
    SteadySteps(c, 287, 287);
    FiveMinuteBlocksGetHarder(c, c.tip);
  }
}
