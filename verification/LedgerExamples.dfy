/**
 Small inputs on which sync makes no progress, on which a reopened node refuses what it accepted before, and on
 which mining leaves out a valid claim.
 */
module LedgerExamples {
  import opened Prelude
  import opened BigEndian
  import opened Difficulty
  import opened Sorting
  import opened LedgerTypes
  import opened ChainRules
  import opened ChainViews
  import opened ChainInvariant
  import opened ChainRuns
  import opened StoreRules
  import opened StoreReplay
  import opened Convergence
  import opened Mining
  import opened Sync
  import opened ExampleChains
  import R = StoreRuns
  import N = LedgerNodeObject
  import E = StoreExample

  // ---- Facts about a branch's chain --------------------------------------------------------------

  lemma {:induction false} BlockOf(c: ChainState, b: Branch, n: nat, i: nat)
    requires Grown(c, b, n) && i <= n
    ensures Linked(c) && Ancestors(c, c.tip) == Ok(PathOf(b, n)) && PathOf(b, n)[i] == HashAt(b, i)
    ensures HashAt(b, i) in c.meta && c.meta[HashAt(b, i)].height == i && c.meta[HashAt(b, i)].work == Total(b, i)
  {
    hide Ancestors, TreeOk, Time, Bits, Total, HashAt;
    assert MetaAt(c, b, i);
  }

  lemma GrownInTime(c: ChainState, b: Branch, n: nat)
    requires Grown(c, b, n)
    ensures AllInTime(c, Time(b, n))
  {
    hide Ancestors, Linked, Time, MetaAt;
  }

  /** The work of one block at the initial target. */
  ghost const W: real := WorkOf(INITIAL_DIFFICULTY_BITS)

  lemma {:induction false} EarlyTotal(b: Branch, n: nat)
    requires n < RETARGET_INTERVAL_BLOCKS
    ensures Total(b, n) == n as real * W
  {
    hide WorkOf, Bits;
    if n > 0 {
      EarlyTotal(b, n - 1);
      FirstInterval(b, n);
    }
  }

  // ---- A fork that sync never follows ------------------------------------------------------------

  lemma BranchesApart(b: Branch, d: Branch, n: nat, c: ChainState, m: nat)
    requires Grown(c, b, m) && b != d && n > 0
    ensures HashAt(d, n) !in c.meta
  {
    hide Ancestors, Linked, Time, MetaAt, HashAt;
    forall i | 0 <= i <= m ensures PathOf(b, m)[i] != HashAt(d, n) {
      PlaceOfHash(b, i, d, n);
    }
  }

  /**
   Three blocks: ours at height one, and a peer's two beside it. The peer is heavier, every round asks it for
   height two alone, and every round is refused for the unknown parent.
   */
  lemma {:induction false} ForkIsNeverFollowed(n: nat) returns (c: ChainState, g: History, p: ChainState, gp: History)
    ensures Injective(HASHES) && Unpruned(HASHES, c, g) && Unpruned(HASHES, p, gp) && Linked(c) && Linked(p)
    ensures c.tip in c.meta && p.tip in p.meta && p.meta[p.tip].work > c.meta[c.tip].work
    ensures SyncRound(HASHES, c, p, Time(PACED, 2)) == (c, Refused(UnknownParent(HashAt(PACED, 1))))
    ensures Rounds(HASHES, c, p, Time(PACED, 2), n) == c
  {
    hide Unpruned, Grown, WorkOf, SyncRound, Injective, Time, AllInTime, Rounds, HashAt, Total, Meets, R.Sound, R.RunsTo;
    HashesAreInjective();
    EarlyMeets(STEADY, 1);
    EarlyMeets(PACED, 2);
    var ours, theirs;
    ours, c, g := NodeOn(STEADY, 1);
    theirs, p, gp := NodeOn(PACED, 2);
    TipOf(c, STEADY, 1);
    TipOf(p, PACED, 2);
    BlockOf(p, PACED, 2, 1);
    EarlyTotal(STEADY, 1);
    EarlyTotal(PACED, 2);
    BranchesApart(STEADY, PACED, 1, c, 1);
    GrownInTime(p, PACED, 2);
    SyncRoundExactly(HASHES, c, g, p, gp, Time(PACED, 2));
    FixedPoint(HASHES, c, p, Time(PACED, 2), n);
  }

  lemma TipOf(c: ChainState, b: Branch, n: nat)
    requires Grown(c, b, n)
    ensures Linked(c) && c.tip == HashAt(b, n) && c.meta[c.tip].height == n && c.meta[c.tip].work == Total(b, n)
    ensures Ancestors(c, c.tip) == Ok(PathOf(b, n))
  {
    hide Ancestors, TreeOk, Time, Bits, Total, HashAt;
    assert MetaAt(c, b, n);
  }

  // ---- A known fork that sync never follows ------------------------------------------------------

  /** Targets in inverse proportion to work. */
  lemma WorkByTarget(x: Compact, y: Compact, j: nat, k: nat)
    requires TargetValue(x) > 0 && TargetValue(y) > 0 && j * (TargetValue(x) + 1) <= k * (TargetValue(y) + 1)
    ensures j as real * WorkOf(y) <= k as real * WorkOf(x)
  {
    hide TargetValue, Pow256;
    Quotients(TargetCeiling(), TargetValue(x) + 1, TargetValue(y) + 1, j, k);
  }

  lemma Quotients(a: nat, x: nat, y: nat, j: nat, k: nat)
    requires x > 0 && y > 0 && j * x <= k * y
    ensures j as real * Quotient(a, y) <= k as real * Quotient(a, x)
  {
    var q, r := Quotient(a, x), Quotient(a, y);
    var s, t := x as real, y as real;
    assert q * s == a as real && r * t == a as real by { Cancels(a, x); Cancels(a, y); }
    assert (j * x) as real == j as real * s && (k * y) as real == k as real * t;
    Crosswise(j as real, k as real, q, r, s, t);
  }

  lemma Cancels(a: nat, x: nat)
    requires x > 0
    ensures Quotient(a, x) * x as real == a as real && Quotient(a, x) >= 0.0
  {
  }

  lemma Crosswise(j: real, k: real, q: real, r: real, s: real, t: real)
    requires s > 0.0 && t > 0.0 && q >= 0.0 && r >= 0.0 && q * s == r * t && j * s <= k * t
    ensures j * r <= k * q
  {
    assert (j * s) * r <= (k * t) * r by { ScalesOrder(j * s, k * t, r); }
    assert (j * s) * r == (j * r) * s;
    assert (k * t) * r == k * (r * t) == k * (q * s) == (k * q) * s;
    KeepsStrict(k * q, j * r, s);
  }

  lemma ScalesOrder(a: real, b: real, r: real)
    requires a <= b && r >= 0.0
    ensures a * r <= b * r
  {
    assert (b - a) * r >= 0.0;
  }

  /** A slow first interval cuts the work of later blocks three- to fivefold, a fast one raises it so. */
  lemma {:induction false} WorkAfterFirst()
    ensures TargetValue(SLOW_BITS) >= 0xff_ffff && TargetValue(FAST_BITS) >= 0x10_0000
    ensures 3.0 * WorkOf(SLOW_BITS) <= W <= 5.0 * WorkOf(SLOW_BITS)
    ensures 3.0 * W <= WorkOf(FAST_BITS) <= 5.0 * W
  {
    hide TargetValue, Retarget, WorkOf, Pow256, Overflows;
    InitialIsLarge();
    InitialFits();
    SlowIntervalGrows(INITIAL_DIFFICULTY_BITS, 373_100);
    RetargetBounded(INITIAL_DIFFICULTY_BITS, 373_100, 86_400);
    WorkByTarget(INITIAL_DIFFICULTY_BITS, SLOW_BITS, 3, 1);
    WorkByTarget(SLOW_BITS, INITIAL_DIFFICULTY_BITS, 1, 5);
    FasterFits(INITIAL_DIFFICULTY_BITS, 287, 86_400);
    RetargetBounded(INITIAL_DIFFICULTY_BITS, 287, 86_400);
    QuarterTarget();
    WorkByTarget(FAST_BITS, INITIAL_DIFFICULTY_BITS, 3, 1);
    WorkByTarget(INITIAL_DIFFICULTY_BITS, FAST_BITS, 1, 5);
  }

  lemma InitialFits()
    ensures 4 * TargetValue(INITIAL_DIFFICULTY_BITS) < TargetCeiling()
  {
    hide TargetValue, Pow256;
    InitialValue();
    FiveBytes();
  }

  lemma {:induction false} QuarterTarget()
    ensures 4 * TargetValue(FAST_BITS) <= TargetValue(INITIAL_DIFFICULTY_BITS)
  {
    hide TargetValue, Retarget, RoundDown, Pow256;
    RetargetMeaning(INITIAL_DIFFICULTY_BITS, 287, 86_400);
    FasterFits(INITIAL_DIFFICULTY_BITS, 287, 86_400);
    assert Ratio(287, 86_400) == 0.25;
    RoundDownError(Product(TargetValue(INITIAL_DIFFICULTY_BITS), 0.25).Floor);
  }

  lemma SameTargetSameWork(x: Compact, y: Compact)
    requires TargetValue(x) == TargetValue(y)
    ensures WorkOf(x) == WorkOf(y)
  {
  }

  lemma {:induction false} SlowTotal(n: nat)
    requires n >= 287
    ensures Total(SLOW_START, n) == 287.0 * W + (n - 287) as real * WorkOf(SLOW_BITS)
  {
    hide WorkOf, Bits, TargetValue, Retarget;
    if n == 287 {
      EarlyTotal(SLOW_START, 287);
    } else {
      SlowTotal(n - 1);
      SlowTarget(n);
      SameTargetSameWork(Bits(SLOW_START, n), SLOW_BITS);
    }
  }

  lemma {:induction false} FastTotal(n: nat)
    requires 287 <= n < 576
    ensures Total(FAST, n) == 287.0 * W + (n - 287) as real * WorkOf(FAST_BITS)
  {
    hide WorkOf, Bits, TargetValue, Retarget;
    if n == 287 {
      EarlyTotal(FAST, 287);
    } else {
      FastTotal(n - 1);
      FastBits(n);
    }
  }

  lemma {:induction false} LaterMeets()
    ensures Meets(SLOW_START, 3000) && Meets(FAST, 387)
  {
    hide TargetValue, Bits, WorkOf, Retarget;
    WorkAfterFirst();
    EarlyMeets(SLOW_START, 287);
    EarlyMeets(FAST, 287);
    forall i: nat | 287 < i <= 3000 ensures HashAt(SLOW_START, i) <= TargetValue(Bits(SLOW_START, i)) {
      SlowTarget(i);
    }
    forall i: nat | 287 < i <= 387 ensures HashAt(FAST, i) <= TargetValue(Bits(FAST, i)) {
      FastBits(i);
    }
  }

  /** Our branch of 387 blocks outweighs the peer's first 887, and the peer's 3000 outweigh it. */
  lemma {:induction false} Weights()
    ensures Total(SLOW_START, 387) <= Total(FAST, 387) && Total(SLOW_START, 887) <= Total(FAST, 387)
    ensures Total(FAST, 387) < Total(SLOW_START, 3000)
  {
    hide WorkOf, Retarget, Total, TargetValue;
    WorkAfterFirst();
    FastTotal(387);
    SlowTotal(387);
    SlowTotal(887);
    SlowTotal(3000);
    assert W > 0.0;
  }

  /** A node on the fast branch that is served the peer's first 387 blocks knows them all and keeps its tip. */
  lemma {:induction false} FastNodeWithFork(p: ChainState, gp: History) returns (c: ChainState, g: History)
    requires Unpruned(HASHES, p, gp) && Grown(p, SLOW_START, 3000)
    ensures Injective(HASHES) && Unpruned(HASHES, c, g) && Linked(c)
    ensures c.tip == HashAt(FAST, 387) && c.meta[c.tip].height == 387 && c.meta[c.tip].work == Total(FAST, 387)
    ensures HashAt(SLOW_START, 387) in c.meta
  {
    hide Unpruned, Grown, WorkOf, Injective, Time, AllInTime, HashAt, Total, Meets, R.Sound, R.RunsTo, Serve, ApplyServed, Consecutive,
         CanonicalBlockAt, PathOf, Ancestors, TreeOk, Inv, InTime, BlockHash;
    HashesAreInjective();
    LaterMeets();
    var node, q, gq := NodeOn(FAST, 387);
    TipOf(q, FAST, 387);
    TipOf(p, SLOW_START, 3000);
    ServedAreConsecutive(HASHES, p, gp, 1, 387);
    var blocks := Serve(p, 1, 387).value;
    GrownInTime(p, SLOW_START, 3000);
    BatchInTime(HASHES, p, gp, 1, blocks, Time(SLOW_START, 3000));
    BlockOf(p, SLOW_START, 3000, 0);
    BlockOf(q, FAST, 387, 0);
    SharedGenesis();
    g := BatchMovesTipExactly(HASHES, q, gq, p, gp, 1, blocks, Time(SLOW_START, 3000));
    BlockOf(p, SLOW_START, 3000, 387);
    Weights();
    c := ApplyServed(HASHES, q, blocks, Time(SLOW_START, 3000)).0;
    UnprunedInv(HASHES, c, g);
    InvIsLinked(HASHES, c, g);
    SameRecord(HASHES, q, gq, c, g, c.tip);
  }

  lemma SharedGenesis()
    ensures HashAt(FAST, 0) == HashAt(SLOW_START, 0)
  {
  }

  /**
   A fork whose every block up to our height is known, and which sync still never follows. The branches part at
   genesis; before the first retarget ours was fast and the peer's slow, so that 887 of the peer's blocks weigh
   less than our 387 and a batch is never enough, although all 3000 weigh more.
   */
  lemma {:induction false} KnownForkIsNeverFollowed() returns (c: ChainState, g: History, p: ChainState, gp: History, now: nat)
    ensures Injective(HASHES) && Unpruned(HASHES, c, g) && Unpruned(HASHES, p, gp) && Linked(c) && Linked(p) && Ancestors(p, p.tip).Ok?
    ensures p.meta[p.tip].work > c.meta[c.tip].work && c.meta[c.tip].height == 387 && p.meta[p.tip].height == 3000
    ensures 387 < |Ancestors(p, p.tip).value| && Ancestors(p, p.tip).value[387] in c.meta
    ensures AllInTime(p, now) && !Followable(c, p)
    ensures forall n :: Rounds(HASHES, c, p, now, n).tip == c.tip
  {
    hide Unpruned, Grown, WorkOf, Injective, Time, AllInTime, HashAt, Total, Meets, R.Sound, R.RunsTo, Rounds, PathOf, TreeOk, Path;
    LaterMeets();
    var node;
    node, p, gp := NodeOn(SLOW_START, 3000);
    c, g := FastNodeWithFork(p, gp);
    now := Time(SLOW_START, 3000);
    TipOf(p, SLOW_START, 3000);
    BlockOf(p, SLOW_START, 3000, 387);
    BlockOf(p, SLOW_START, 3000, 887);
    GrownInTime(p, SLOW_START, 3000);
    Weights();
    assert BatchEnd(c, p) == 887;
    FollowedExactly(HASHES, c, g, p, gp, now);
  }

  // ---- A fork that reopening forgets -------------------------------------------------------------

  /** The block beside the path, and its child. */
  ghost const FORK: Block := Empty(Head(STEADY, 1))
  ghost const CHILD: Block := Empty(Head(STEADY, 2))

  ghost const FORK_EVENTS: seq<R.Event> := Events(PACED, 1) + [R.Event.Accept(FORK, Time(STEADY, 1))]

  lemma HeadFacts(b: Branch, n: nat)
    requires n > 0
    ensures var block := Empty(Head(b, n));
            && BlockHash(HASHES, block) == HashAt(b, n) && block.header.prev == HashAt(b, n - 1) && block.header.timestamp == Time(b, n)
            && block.header.txCommitment == TxCommitment(HASHES, block.txs)
  {
    hide Time, Bits, HashAt, HashOf, TxCommitment;
    HashOfHead(b, n);
    EmptyBody();
  }

  /** A node on one branch accepts the first block of another, as light as its own, and keeps its tip. */
  lemma {:induction false} ForkAdded(c1: ChainState, g1: History, c3: ChainState, g3: History)
    requires Injective(HASHES) && Unpruned(HASHES, c1, g1) && Grown(c1, PACED, 1) && Unpruned(HASHES, c3, g3) && Grown(c3, STEADY, 2)
    ensures Linked(c1)
    ensures var c := TryApply(HASHES, c1, FORK, Time(STEADY, 1)).0;
            && Linked(c) && c.tip == HashAt(PACED, 1) && HashAt(STEADY, 1) in c.meta && HashAt(STEADY, 2) !in c.meta
            && Ancestors(c, c.tip) == Ok(PathOf(PACED, 1))
  {
    hide Unpruned, Grown, WorkOf, TryApply, ValidateBlock, Injective, Time, HashAt, Total, PathOf, Ancestors, Head, HistoryAfter, Inv, TreeOk,
         Bits, BlockHash, StateAt, TxCommitment, HashOf, IndexOf, ApplyClaims;
    var now := Time(STEADY, 1);
    TipOf(c1, PACED, 1);
    TipOf(c3, STEADY, 2);
    BlockOf(c3, STEADY, 2, 1);
    BlockOf(c1, PACED, 1, 0);
    HeadFacts(STEADY, 1);
    SharedStart(c3, g3);
    AcceptedIsValidElsewhere(HASHES, c1, g1, c3, g3, FORK, now);
    BranchesApart(PACED, STEADY, 1, c1, 1);
    BranchesApart(PACED, STEADY, 2, c1, 1);
    ApplyKeepsUnpruned(HASHES, c1, g1, FORK, now);
    UnprunedInv(HASHES, c1, g1);
    ForkChoice(HASHES, c1, g1, FORK, now);
    var c, g := TryApply(HASHES, c1, FORK, now).0, HistoryAfter(HASHES, c1, g1, FORK, now);
    SameRecord(HASHES, c, g, c3, g3, HashAt(STEADY, 1));
    EarlyTotal(PACED, 1);
    EarlyTotal(STEADY, 1);
    PlaceOfHash(STEADY, 1, STEADY, 2);
    ApplyKeepsView(HASHES, c1, g1, FORK, now, c1.tip);
  }

  lemma SharedStart(c: ChainState, g: History)
    requires Unpruned(HASHES, c, g)
    ensures g.root == 1 && HashAt(STEADY, 0) == HashAt(PACED, 0) == 1 && HashAt(STEADY, 1) != 1 && HashAt(STEADY, 2) != 1
  {
    hide Inv, TimelyUntilPruned;
    FreshIsGrown(PACED);
    HashOfHead(PACED, 0);
  }

  /** The node that has accepted both blocks at height one. */
  lemma {:induction false} NodeWithFork() returns (node: R.Node, c: ChainState, g: History)
    ensures R.RunsTo(HASHES, R.NEW_NODE, FORK_EVENTS, node) && node.memory == Some(c)
    ensures R.Sound(HASHES, node, c, g) && Unpruned(HASHES, c, g) && Linked(c)
    ensures c.tip == HashAt(PACED, 1) && HashAt(STEADY, 1) in c.meta && HashAt(STEADY, 2) !in c.meta
    ensures Ancestors(c, c.tip) == Ok(PathOf(PACED, 1)) && ValidateBlock(HASHES, c, CHILD, Time(STEADY, 2)).Ok?
  {
    hide R.Step, R.Sound, Unpruned, Grown, WorkOf, TryApply, ValidateBlock, Injective, Time, HashAt, Total, Meets, R.RunsTo, PathOf, Ancestors,
         Head, HistoryAfter, Inv, TreeOk, Bits, BlockHash, StateAt, TxCommitment;
    HashesAreInjective();
    EarlyMeets(PACED, 1);
    EarlyMeets(STEADY, 2);
    var before, c1, g1 := NodeOn(PACED, 1);
    var other, c3, g3 := NodeOn(STEADY, 2);
    ForkAdded(c1, g1, c3, g3);
    var now := Time(STEADY, 1);
    R.AcceptKeepsSound(HASHES, before, c1, g1, FORK, now);
    R.MemoryAfter(HASHES, before, R.Event.Accept(FORK, now));
    R.RunSnoc(HASHES, R.NEW_NODE, Events(PACED, 1), before, R.Event.Accept(FORK, now));
    ApplyKeepsUnpruned(HASHES, c1, g1, FORK, now);
    node := R.Step(HASHES, before, R.Event.Accept(FORK, now)).value;
    c, g := TryApply(HASHES, c1, FORK, now).0, HistoryAfter(HASHES, c1, g1, FORK, now);
    HeadFacts(STEADY, 2);
    SharedStart(c3, g3);
    BlockOf(c3, STEADY, 2, 2);
    AcceptedIsValidElsewhere(HASHES, c, g, c3, g3, CHILD, Time(STEADY, 2));
  }

  lemma NoPrunes()
    ensures forall i :: 0 <= i < |FORK_EVENTS| ==> !R.Prunes(FORK_EVENTS[i])
  {
    hide Events, Head, Time;
  }

  /**
   A node that reopening changes: it knows a block beside its path and would accept a child of it, and after
   reopening it knows neither and refuses the child.
   */
  lemma {:induction false} ReopeningForgetsExample() returns (node: R.Node, c: ChainState)
    ensures R.RunsTo(HASHES, R.NEW_NODE, FORK_EVENTS, node) && node.memory == Some(c) && Linked(c)
    ensures Startable(node.db) && Restore(HASHES, node.db).Ok? && Linked(Restore(HASHES, node.db).value)
    ensures HashAt(STEADY, 1) in c.meta && HashAt(STEADY, 1) !in Restore(HASHES, node.db).value.meta
    ensures TryApply(HASHES, c, CHILD, Time(STEADY, 2)).1.Ok?
    ensures TryApply(HASHES, Restore(HASHES, node.db).value, CHILD, Time(STEADY, 2)).1 == Err(UnknownParent(HashAt(STEADY, 1)))
  {
    hide R.Step, WorkOf, TryApply, ValidateBlock, Time, HashAt, Total, R.RunsTo, PathOf, Ancestors, Head, HistoryAfter, Inv, TreeOk, Bits,
         BlockHash, StateAt, TxCommitment, Unpruned, Restore, Mirrors, SameChain, TimelyUntilPruned, Startable;
    var g;
    node, c, g := NodeWithFork();
    NoPrunes();
    var root := R.UnprunedReopensSameExactly(HASHES, FORK_EVENTS, node);
    HeadFacts(STEADY, 2);
    ApplyIsAllOrNothing(HASHES, c, g, CHILD, Time(STEADY, 2));
    ChildOfForkRefused(HASHES, node.db, c, g, CHILD, Time(STEADY, 2));
    assert HashAt(STEADY, 1) !in PathOf(PACED, 1) by { NotOnPath(); }
  }

  lemma NotOnPath()
    ensures HashAt(STEADY, 1) !in PathOf(PACED, 1)
  {
    assert PathOf(PACED, 1)[0] == 1 && PathOf(PACED, 1)[1] == HashAt(PACED, 1);
  }

  // ---- A claim shadowed by an invalid one --------------------------------------------------------

  const TOY: Oracle := Hashing((h: Header) => h.height + 1, (c: Claim) => c.nonce, (_: seq<Hash>) => 7, (_: Claim) => true)

  /** Two claims to one name. The first is anchored at an unknown block. */
  const BAD := Tx(1, Claim([97, 108, 105, 99, 101], 8, 1, 2, 0, E.SIXTY_FOUR_ZEROS))

  const GOOD := Tx(1, Claim([97, 108, 105, 99, 101], 9, 1, 1, 1, E.SIXTY_FOUR_ZEROS))

  const MEMPOOL: Mempool := map[0 := BAD, 1 := GOOD]

  lemma BothPassAlone()
    ensures VerifySelfContained(TOY, BAD).Ok? && VerifySelfContained(TOY, GOOD).Ok?
  {
    SelfContainedExactly(TOY, BAD);
    SelfContainedExactly(TOY, GOOD);
  }

  lemma GenesisOnly()
    ensures Linked(Fresh(TOY)) && Fresh(TOY).tip == 1 && Ancestors(Fresh(TOY), 1) == Ok([1])
    ensures 1 in Fresh(TOY).meta && Fresh(TOY).meta[1].height == 0 && 2 !in Fresh(TOY).meta && StateAt(Fresh(TOY), 1) == Ok(map[])
  {
    assert LinkOk(Fresh(TOY).meta, 1);
  }

  lemma OnlyOneIsValid()
    ensures Linked(Fresh(TOY)) && MempoolValid(TOY, Fresh(TOY), GOOD, 1) && !MempoolValid(TOY, Fresh(TOY), BAD, 1)
  {
    hide VerifySelfContained, Fresh, StateAt, Path;
    GenesisOnly();
    BothPassAlone();
  }

  lemma InOrder()
    ensures N.InIdOrder(TOY, MEMPOOL, [BAD, GOOD])
  {
    var ids := Ids(TOY, [BAD, GOOD]);
    assert ids[0] == 0 && ids[1] == 1;
    assert ids == [0, 1];
    assert MEMPOOL.Keys == {0, 1};
  }

  /**
   With both claims in the mempool the block mined on genesis holds neither: the invalid one has the lower id and
   uses up the name. With the valid one alone it is mined.
   */
  lemma {:induction false} InvalidClaimShadows()
    ensures VerifySelfContained(TOY, BAD).Ok? && VerifySelfContained(TOY, GOOD).Ok? && N.InIdOrder(TOY, MEMPOOL, [BAD, GOOD])
    ensures Linked(Fresh(TOY)) && MempoolValid(TOY, Fresh(TOY), GOOD, 1)
    ensures Select(TOY, Fresh(TOY), 1, [BAD, GOOD], {}, []) == [] && Select(TOY, Fresh(TOY), 1, [GOOD], {}, []) == [GOOD]
  {
    hide VerifySelfContained, N.InIdOrder, MempoolValid, Fresh;
    BothPassAlone();
    OnlyOneIsValid();
    InOrder();
    var c := Fresh(TOY);
    assert [BAD, GOOD][1..] == [GOOD] && [GOOD][1..] == [];
    var name := BAD.claim.username;
    assert name == GOOD.claim.username;
    assert Select(TOY, c, 1, [GOOD], {} + {name}, []) == Select(TOY, c, 1, [], {} + {name}, []);
    assert [] + [GOOD] == [GOOD];
  }

  // ---- A block that is mined ---------------------------------------------------------------------

  lemma {:induction false} CandidateIsFirst(c: ChainState)
    requires Grown(c, PACED, 0)
    ensures Linked(c) && c.tip in c.meta && c.meta[c.tip].height == 0
    ensures CandidateHeader(HASHES, c, [], Time(PACED, 1), 0) == Some(Head(PACED, 1))
  {
    hide Ancestors, TreeOk, ExpectedDifficulty, MedianTimePast, TxCommitment, TargetValue, Time, Bits;
    ExpectedNext(c, PACED, 0);
    MedianIsPast(c, PACED, 0);
    EmptyBody();
    assert MetaAt(c, PACED, 0);
  }

  lemma FirstMeetsTarget()
    ensures BlockHash(HASHES, Empty(Head(PACED, 1))) <= TargetValue(Head(PACED, 1).bits)
  {
    hide Time, Code, TargetValue, Bits, HashOf;
    HashOfHead(PACED, 1);
    EarlyMeets(PACED, 1);
  }

  /** The paced branch's first block is what a search on genesis emits at its first attempt, given its clock. */
  lemma {:induction false} FirstBlockIsMined(readings: Readings)
    ensures Inv(HASHES, Fresh(HASHES), GenesisHistory(HASHES)) && Linked(Fresh(HASHES))
    ensures Mined(HASHES, Fresh(HASHES), [], Time(PACED, 1), 0, readings, 0, Empty(Head(PACED, 1)))
  {
    hide Unpruned, Linked, Grown, CandidateHeader, TargetValue, BlockHash, Time, Fresh, GenesisHistory, Inv, HeaderAt, Bits;
    FreshIsGrown(PACED);
    var c := Fresh(HASHES);
    UnprunedInv(HASHES, c, GenesisHistory(HASHES));
    CandidateIsFirst(c);
    assert Select(HASHES, c, 1, [], {}, []) == [];
    FirstMeetsTarget();
    FirstHeader(Head(PACED, 1), readings);
  }
}
