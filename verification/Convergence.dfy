/**
 Convergence: nodes that never pruned and received the same blocks, parents first but otherwise in any
 order, know the same tree; and if one branch is heaviest, they show the same tip, index and owners.
 */
module Convergence {
  import opened Prelude
  import opened Difficulty
  import opened LedgerTypes
  import opened ChainRules
  import opened ChainViews
  import opened ChainInvariant
  import opened ChainRuns
  import opened StoreRules
  import opened StoreReplay
  import opened SameClaims

  /** A chain grown from genesis that has never pruned. */
  ghost predicate Unpruned(o: Oracle, c: ChainState, g: History) {
    && Inv(o, c, g) && TimelyUntilPruned(o, c, g)
    && c.floor == g.root == BlockHash(o, Genesis(o)) && c.floorHeight == 0 && g.rootOwners == map[]
    && c.meta[g.root] == Meta(0, ZERO, GENESIS_TIMESTAMP, INITIAL_DIFFICULTY_BITS, 0.0)
  }

  lemma {:induction false} UnprunedInv(o: Oracle, c: ChainState, g: History)
    requires Unpruned(o, c, g)
    ensures Inv(o, c, g)
  {
  }

  // ---- Two nodes agree on every block both know --------------------------------------------------

  lemma {:induction false} LawfulNames(o: Oracle, c: ChainState, b: Block)
    requires Linked(c) && Lawful(o, c, b)
    ensures DistinctNames(b.txs)
  {
    hide ExpectedDifficulty, TargetValue, TxCommitment, BlockSize, Path, StateAt;
    if |b.txs| > 0 {
      ChecksPassExactly(o, c.meta, b.header.height, Ancestors(c, b.header.prev).value, StateAt(c, b.header.prev).value, {}, b.txs);
    }
  }

  ghost predicate SameMetaOn(m1: MetaMap, m2: MetaMap, path: seq<Hash>) {
    forall i :: 0 <= i < |path| ==> path[i] in m1 && path[i] in m2 && m1[path[i]] == m2[path[i]]
  }

  /** The complete ancestries, metadata and owner maps of a block known to both. */
  ghost predicate Agree(c1: ChainState, g1: History, c2: ChainState, g2: History, h: Hash)
    requires Linked(c1) && Linked(c2) && g1.root in c1.meta && g2.root in c2.meta
  {
    && h in c1.meta && h in c2.meta && c1.meta[h] == c2.meta[h]
    && Path(c1.meta, g1.root, h).Ok? && Path(c2.meta, g2.root, h) == Path(c1.meta, g1.root, h)
    && SameMetaOn(c1.meta, c2.meta, Path(c1.meta, g1.root, h).value)
    && StateAt(Whole(c1, g1), h).Ok? && StateAt(Whole(c2, g2), h) == StateAt(Whole(c1, g1), h)
  }

  lemma {:induction false} UnprunedParts(o: Oracle, c: ChainState, g: History)
    requires Unpruned(o, c, g)
    ensures Linked(c) && g.root in c.meta && Rooted(o, c, g) && AllLawful(o, c, g)
  {
    hide Lawful, BodyOk, LinkOk;
  }

  /** The header behind a known hash is the same everywhere. */
  lemma {:induction false} SameHeader(o: Oracle, c1: ChainState, g1: History, c2: ChainState, g2: History, h: Hash)
    requires Injective(o) && Rooted(o, c1, g1) && Rooted(o, c2, g2) && AllLawful(o, c1, g1) && AllLawful(o, c2, g2)
    requires h in c1.meta && h in c2.meta && h != g1.root && h != g2.root
    ensures h in g1.bodies && h in g2.bodies && g1.bodies[h].header == g2.bodies[h].header
    ensures c1.meta[h].prev == g1.bodies[h].header.prev == c2.meta[h].prev
    ensures c1.meta[h].prev in c1.meta && c2.meta[h].prev in c2.meta
    ensures c1.meta[h].height == c1.meta[c1.meta[h].prev].height + 1
    ensures SameBody(g1.bodies[h].txs, g2.bodies[h].txs) && DistinctNames(g1.bodies[h].txs)
  {
    hide ExpectedDifficulty, TargetValue, TxCommitment, BlockSize, ValidateTransactions, SameBody, DistinctNames, Path, StateAt,
         TreeOk, LinkOk;
    assert BodyOk(o, c1.meta, g1, h) && BodyOk(o, c2.meta, g2, h);
    var b1, b2 := g1.bodies[h], g2.bodies[h];
    assert Lawful(o, Whole(c1, g1), b1) && Lawful(o, Whole(c2, g2), b2);
    CommitmentFixesClaims(o, b1.txs, b2.txs);
    LawfulNames(o, Whole(c1, g1), b1);
  }

  lemma {:induction false} AgreeStep(o: Oracle, c1: ChainState, g1: History, c2: ChainState, g2: History, h: Hash)
    requires Injective(o) && Rooted(o, c1, g1) && Rooted(o, c2, g2) && AllLawful(o, c1, g1) && AllLawful(o, c2, g2)
    requires h in c1.meta && h in c2.meta && h != g1.root && h != g2.root && g1.root == g2.root
    requires Agree(c1, g1, c2, g2, c1.meta[h].prev)
    ensures Agree(c1, g1, c2, g2, h)
  {
    hide AllLawful, WorkOf, ApplyClaims, SameBody, DistinctNames, Path, StateAt, TreeOk;
    SameHeader(o, c1, g1, c2, g2, h);
    assert BodyOk(o, c1.meta, g1, h) && BodyOk(o, c2.meta, g2, h);
    WholeStep(o, c1, g1, h);
    WholeStep(o, c2, g2, h);
    var p := c1.meta[h].prev;
    var b1, b2 := g1.bodies[h], g2.bodies[h];
    SameOwners(StateAt(Whole(c1, g1), p).value, b1.txs, b2.txs, b1.header.height, h);
  }

  /** Two nodes that both know a block agree on its whole ancestry and on the owners as of it. */
  lemma {:induction false} AgreeOnCommon(o: Oracle, c1: ChainState, g1: History, c2: ChainState, g2: History, h: Hash)
    requires Injective(o) && Unpruned(o, c1, g1) && Unpruned(o, c2, g2) && h in c1.meta && h in c2.meta
    ensures Linked(c1) && Linked(c2) && g1.root in c1.meta && g2.root in c2.meta && Agree(c1, g1, c2, g2, h)
    decreases c1.meta[h].height
  {
    hide Inv, TimelyUntilPruned, AllLawful, Rooted, BlockHash, Genesis;
    UnprunedParts(o, c1, g1);
    UnprunedParts(o, c2, g2);
    if h != g1.root {
      SameHeader(o, c1, g1, c2, g2, h);
      AgreeOnCommon(o, c1, g1, c2, g2, c1.meta[h].prev);
      AgreeStep(o, c1, g1, c2, g2, h);
    }
  }

  // ---- A block accepted by one node is accepted by the other -------------------------------------

  /** Reordering a body's claims does not make it unlawful. */
  lemma {:induction false} ReorderedIsLawful(o: Oracle, c: ChainState, b: Block, b2: Block)
    requires Linked(c) && Lawful(o, c, b2) && b.header == b2.header && SameBody(b2.txs, b.txs)
    requires b.header.txCommitment == TxCommitment(o, b.txs)
    ensures Lawful(o, c, b)
  {
    hide ExpectedDifficulty, TargetValue, TxCommitment, Path, StateAt, TreeOk, SameBody, CheckTxs;
    SameSize(b2.txs, b.txs);
    if |b.txs| > 0 {
      SameChecks(o, c.meta, b.header.height, Ancestors(c, b.header.prev).value, StateAt(c, b.header.prev).value, b2.txs, b.txs);
    }
  }

  /** Lawful, later than its median and not too far ahead is all there is to validity. */
  lemma {:induction false} LawfulAndTimelyIsValid(o: Oracle, c: ChainState, b: Block, now: nat)
    requires Linked(c) && Lawful(o, c, b) && Timely(c, b) && b.header.timestamp <= now + MAX_FUTURE_DRIFT_SECS
    ensures ValidateBlock(o, c, b, now).Ok?
  {
    hide ExpectedDifficulty, TargetValue, TxCommitment, Path, StateAt, TreeOk, BlockSize, ValidateTransactions, Median, Timestamps;
  }

  /** Agreement is a shared view. */
  lemma {:induction false} AgreeIsSameView(c1: ChainState, g1: History, c2: ChainState, g2: History, h: Hash)
    requires Linked(c1) && Linked(c2) && g1.root in c1.meta && g2.root in c2.meta && g1.root == g2.root
    requires Agree(c1, g1, c2, g2, h)
    ensures Linked(Whole(c1, g1)) && Linked(Whole(c2, g2)) && SameView(Whole(c1, g1), Whole(c2, g2), h)
  {
    hide Path, StateAt, TreeOk;
    var path := Path(c1.meta, g1.root, h).value;
    forall i | 0 <= i < |path| ensures SameFacts(c1.meta, c2.meta, path[i]) {
    }
  }

  /** An unpruned chain sees its complete history. */
  lemma {:induction false} UnprunedSeesWhole(o: Oracle, c: ChainState, g: History, h: Hash)
    requires Unpruned(o, c, g) && h in c.meta
    ensures Linked(c) && Linked(Whole(c, g)) && Ancestors(c, h).Ok? && SameView(Whole(c, g), c, h)
  {
    hide Lawful, AllLawful, BodyOk, TimelyUntilPruned, LinkOk, TreeOk, IndexOk, TipHeaviest;
    EveryBlockIsRooted(o, c, g, h);
    RetainedReplayIsComplete(o, c, g, h);
    SameMetaSameFacts(c.meta, Ancestors(c, h).value);
  }

  lemma {:induction false} KnownIsLawfulAndTimely(o: Oracle, c: ChainState, g: History, h: Hash)
    requires Unpruned(o, c, g) && h in c.meta && h != g.root
    ensures Linked(c) && Linked(Whole(c, g)) && h in g.bodies && BlockHash(o, g.bodies[h]) == h
    ensures Lawful(o, Whole(c, g), g.bodies[h]) && Timely(Whole(c, g), g.bodies[h])
  {
    hide Lawful, Timely, LinkOk, TreeOk, IndexOk, TipHeaviest, Retained, Path, StateAt;
    assert BodyOk(o, c.meta, g, h);
  }

  /**
   If one node accepted a block, any body with its hash that matches its own commitment is valid for
   any other node that knows the parent, whatever the order of its claims.
   */
  lemma {:induction false} AcceptedIsValidElsewhere(
      o: Oracle, c: ChainState, g: History, c2: ChainState, g2: History, b: Block, now: nat)
    requires Injective(o) && Unpruned(o, c, g) && Unpruned(o, c2, g2)
    requires BlockHash(o, b) in c2.meta && BlockHash(o, b) != g2.root && b.header.prev in c.meta
    requires b.header.txCommitment == TxCommitment(o, b.txs) && b.header.timestamp <= now + MAX_FUTURE_DRIFT_SECS
    ensures Linked(c) && ValidateBlock(o, c, b, now).Ok?
  {
    hide Inv, Unpruned, Lawful, Timely, TxCommitment, SameBody, Agree, SameView;
    var h := BlockHash(o, b);
    var p := b.header.prev;
    KnownIsLawfulAndTimely(o, c2, g2, h);
    var b2 := g2.bodies[h];
    assert b.header == b2.header;
    assert SameBody(b2.txs, b.txs) && p in c2.meta by {
      LawfulCommitment(o, Whole(c2, g2), b2);
      CommitmentFixesClaims(o, b2.txs, b.txs);
    }
    ReorderedIsLawful(o, Whole(c2, g2), b, b2);
    HeaderDecidesTime(Whole(c2, g2), b, b2);
    AgreeOnCommon(o, c2, g2, c, g, p);
    SameRoot(o, c, g, c2, g2);
    AgreeIsSameView(c2, g2, c, g, p);
    SameViewSameLaw(o, Whole(c2, g2), Whole(c, g), b);
    SameViewSameTime(Whole(c2, g2), Whole(c, g), b);
    UnprunedSeesWhole(o, c, g, p);
    SameViewSameLaw(o, Whole(c, g), c, b);
    SameViewSameTime(Whole(c, g), c, b);
    LawfulAndTimelyIsValid(o, c, b, now);
  }

  lemma {:induction false} LawfulCommitment(o: Oracle, c: ChainState, b: Block)
    requires Linked(c) && Lawful(o, c, b)
    ensures b.header.txCommitment == TxCommitment(o, b.txs) && b.header.prev in c.meta
  {
  }

  lemma {:induction false} HeaderDecidesTime(c: ChainState, b: Block, b2: Block)
    requires Linked(c) && Timely(c, b2) && b.header == b2.header
    ensures Timely(c, b)
  {
  }

  lemma {:induction false} SameRoot(o: Oracle, c: ChainState, g: History, c2: ChainState, g2: History)
    requires Unpruned(o, c, g) && Unpruned(o, c2, g2)
    ensures g.root == g2.root
  {
  }

  // ---- Feeding a node ----------------------------------------------------------------------------

  datatype Delivery = Delivery(block: Block, now: nat)

  /** The chain after a node has been given every delivery in turn, starting from genesis. */
  function Feed(o: Oracle, s: seq<Delivery>): (c: ChainState)
    ensures Linked(c)
  {
    if |s| == 0 then
      FreshPersistable(o);
      Fresh(o)
    else
      var c := Feed(o, s[..|s| - 1]);
      var d := s[|s| - 1];
      TryApplyLinked(o, c, d.block, d.now);
      TryApply(o, c, d.block, d.now).0
  }

  function FeedHistory(o: Oracle, s: seq<Delivery>): History {
    if |s| == 0 then GenesisHistory(o)
    else HistoryAfter(o, Feed(o, s[..|s| - 1]), FeedHistory(o, s[..|s| - 1]), s[|s| - 1].block, s[|s| - 1].now)
  }

  lemma {:induction false} ApplyKeepsUnpruned(o: Oracle, c: ChainState, g: History, b: Block, now: nat)
    requires Unpruned(o, c, g)
    ensures Linked(c) && Unpruned(o, TryApply(o, c, b, now).0, HistoryAfter(o, c, g, b, now))
    ensures var c2 := TryApply(o, c, b, now).0;
            && (forall x :: x in c.meta ==> x in c2.meta)
            && (forall x :: x in c2.meta ==> x in c.meta || x == BlockHash(o, b))
            && (ValidateBlock(o, c, b, now).Ok? ==> BlockHash(o, b) in c2.meta)
  {
    hide AllLawful, AllTimely, Retained, BodyOk, LinkOk, TreeOk, ViewsOk, StateAt, Path, ValidateBlock, TryApply, TipHeaviest,
         BlockHash, Genesis, WorkOf;
    ApplyKeepsTimely(o, c, g, b, now);
    if BlockHash(o, b) !in c.meta && ValidateBlock(o, c, b, now).Ok? {
      ApplyOutcome(o, c, g, b, now);
    } else {
      ApplyIsAllOrNothing(o, c, g, b, now);
    }
  }

  lemma {:induction false} FreshUnpruned(o: Oracle)
    ensures Unpruned(o, Fresh(o), GenesisHistory(o))
  {
    hide Inv, TimelyUntilPruned;
    FreshInv(o);
    StartInv(o, EMPTY_DB);
  }

  lemma {:induction false} FeedUnpruned(o: Oracle, s: seq<Delivery>)
    ensures Unpruned(o, Feed(o, s), FeedHistory(o, s))
    decreases |s|
  {
    hide Unpruned, TryApply, HistoryAfter, Fresh, GenesisHistory;
    if |s| == 0 {
      FreshUnpruned(o);
    } else {
      FeedUnpruned(o, s[..|s| - 1]);
      ApplyKeepsUnpruned(o, Feed(o, s[..|s| - 1]), FeedHistory(o, s[..|s| - 1]), s[|s| - 1].block, s[|s| - 1].now);
    }
  }

  /** What is known stays known. */
  lemma {:induction false} FeedGrows(o: Oracle, s: seq<Delivery>, k: nat, h: Hash)
    requires k <= |s| && h in Feed(o, s[..k]).meta
    ensures h in Feed(o, s).meta
    decreases |s|
  {
    hide Unpruned, TryApply, HistoryAfter, Fresh, GenesisHistory;
    if k == |s| {
      assert s[..k] == s;
    } else {
      var t := s[..|s| - 1];
      assert t[..k] == s[..k];
      FeedGrows(o, t, k, h);
      FeedUnpruned(o, t);
      ApplyKeepsUnpruned(o, Feed(o, t), FeedHistory(o, t), s[|s| - 1].block, s[|s| - 1].now);
    }
  }

  /** Deliveries come after their parents, match their own commitments and are not too far ahead of the clock. */
  ghost predicate ParentsFirst(o: Oracle, s: seq<Delivery>) {
    forall k :: 0 <= k < |s| ==> InOrder(o, s, k)
  }

  ghost predicate InOrder(o: Oracle, s: seq<Delivery>, k: nat)
    requires k < |s|
  {
    var b := s[k].block;
    && b.header.txCommitment == TxCommitment(o, b.txs) && b.header.timestamp <= s[k].now + MAX_FUTURE_DRIFT_SECS
    && (b.header.prev == BlockHash(o, Genesis(o)) || exists j :: 0 <= j < k && BlockHash(o, s[j].block) == b.header.prev)
  }

  ghost predicate Delivered(o: Oracle, s: seq<Delivery>, h: Hash) {
    exists k :: 0 <= k < |s| && BlockHash(o, s[k].block) == h
  }

  lemma {:induction false} GenesisKnown(o: Oracle, s: seq<Delivery>)
    ensures BlockHash(o, Genesis(o)) in Feed(o, s).meta && FeedHistory(o, s).root == BlockHash(o, Genesis(o))
  {
    hide Inv, TimelyUntilPruned, Feed, FeedHistory, Genesis, BlockHash;
    FeedUnpruned(o, s);
  }

  /** A known block other than genesis was delivered. */
  lemma {:induction false} KnownWasDelivered(o: Oracle, s: seq<Delivery>, h: Hash) returns (k: nat)
    requires h in Feed(o, s).meta && h != BlockHash(o, Genesis(o))
    ensures k < |s| && BlockHash(o, s[k].block) == h
    decreases |s|
  {
    hide Unpruned, TryApply, HistoryAfter, GenesisHistory, BlockHash, Genesis;
    if |s| > 0 {
      var t := s[..|s| - 1];
      if h in Feed(o, t).meta {
        k := KnownWasDelivered(o, t, h);
      } else {
        FeedUnpruned(o, t);
        ApplyKeepsUnpruned(o, Feed(o, t), FeedHistory(o, t), s[|s| - 1].block, s[|s| - 1].now);
        k := |s| - 1;
      }
    } else {
      assert false;
    }
  }

  /** A delivery whose hash some node accepts is accepted here at once, if its parent is known here by then. */
  lemma {:induction false} DeliveryAccepted(o: Oracle, s: seq<Delivery>, k: nat, c2: ChainState, g2: History)
    requires Injective(o) && k < |s| && InOrder(o, s, k) && Unpruned(o, c2, g2)
    requires BlockHash(o, s[k].block) in c2.meta
    requires s[k].block.header.prev in Feed(o, s[..k]).meta
    ensures BlockHash(o, s[k].block) in Feed(o, s[..k + 1]).meta
  {
    hide Unpruned, TryApply, HistoryAfter, GenesisHistory, Fresh, BlockHash, Genesis, ValidateBlock, TxCommitment;
    var t := s[..k];
    assert s[..k + 1][..k] == t;
    FeedUnpruned(o, t);
    ApplyKeepsUnpruned(o, Feed(o, t), FeedHistory(o, t), s[k].block, s[k].now);
    GenesisKnown(o, t);
    if BlockHash(o, s[k].block) !in Feed(o, t).meta {
      SameRoot(o, Feed(o, t), FeedHistory(o, t), c2, g2);
      AcceptedIsValidElsewhere(o, Feed(o, t), FeedHistory(o, t), c2, g2, s[k].block, s[k].now);
    }
  }

  lemma {:induction false} KnownParent(o: Oracle, c: ChainState, g: History, b: Block)
    requires Injective(o) && Unpruned(o, c, g) && BlockHash(o, b) in c.meta && BlockHash(o, b) != g.root
    ensures b.header.prev in c.meta && c.meta[b.header.prev].height < c.meta[BlockHash(o, b)].height
  {
    hide Lawful, LinkOk, TreeOk, AllTimely;
    assert BodyOk(o, c.meta, g, BlockHash(o, b));
    LinkedHeights(c, BlockHash(o, b));
  }

  lemma {:induction false} LinkedHeights(c: ChainState, h: Hash)
    requires Linked(c) && h in c.meta && c.meta[h].prev in c.meta
    ensures c.meta[h].height == c.meta[c.meta[h].prev].height + 1
  {
    assert LinkOk(c.meta, h);
  }

  /** If a block is ever accepted, it is accepted by the time it has first been delivered. */
  lemma {:induction false} FirstDeliveryDecides(o: Oracle, s: seq<Delivery>, k: nat)
    requires Injective(o) && ParentsFirst(o, s) && k < |s| && BlockHash(o, s[k].block) in Feed(o, s).meta
    ensures BlockHash(o, s[k].block) in Feed(o, s[..k + 1]).meta
    decreases k
  {
    hide Unpruned, Feed, FeedHistory, BlockHash, Genesis, TxCommitment;
    var h, p := BlockHash(o, s[k].block), s[k].block.header.prev;
    GenesisKnown(o, s);
    GenesisKnown(o, s[..k + 1]);
    if h != BlockHash(o, Genesis(o)) {
      FeedUnpruned(o, s);
      KnownParent(o, Feed(o, s), FeedHistory(o, s), s[k].block);
      ParentInTime(o, s, k);
      DeliveryAccepted(o, s, k, Feed(o, s), FeedHistory(o, s));
    }
  }

  /** An accepted parent is known by the time its child is delivered. */
  lemma {:induction false} ParentInTime(o: Oracle, s: seq<Delivery>, k: nat)
    requires Injective(o) && ParentsFirst(o, s) && k < |s| && s[k].block.header.prev in Feed(o, s).meta
    ensures s[k].block.header.prev in Feed(o, s[..k]).meta
    decreases k, 0
  {
    hide Feed, BlockHash, Genesis, TxCommitment;
    assert InOrder(o, s, k);
    var p := s[k].block.header.prev;
    if p == BlockHash(o, Genesis(o)) {
      GenesisKnown(o, s[..k]);
    } else {
      var j :| 0 <= j < k && BlockHash(o, s[j].block) == p;
      FirstDeliveryDecides(o, s, j);
      assert s[..k][..j + 1] == s[..j + 1];
      FeedGrows(o, s[..k], j + 1, p);
    }
  }

  /** Everything the first node accepts, the second accepts. */
  lemma {:induction false} AcceptedByBoth(o: Oracle, s1: seq<Delivery>, s2: seq<Delivery>, h: Hash)
    requires Injective(o) && ParentsFirst(o, s1) && ParentsFirst(o, s2)
    requires forall x :: Delivered(o, s1, x) ==> Delivered(o, s2, x)
    requires h in Feed(o, s1).meta
    ensures h in Feed(o, s2).meta
    decreases Feed(o, s1).meta[h].height
  {
    hide Unpruned, Feed, FeedHistory, BlockHash, Genesis, TxCommitment;
    GenesisKnown(o, s1);
    GenesisKnown(o, s2);
    if h != BlockHash(o, Genesis(o)) {
      var k1 := KnownWasDelivered(o, s1, h);
      assert Delivered(o, s1, h);
      var k :| 0 <= k < |s2| && BlockHash(o, s2[k].block) == h;
      FeedUnpruned(o, s1);
      KnownParent(o, Feed(o, s1), FeedHistory(o, s1), s2[k].block);
      AcceptedByBoth(o, s1, s2, s2[k].block.header.prev);
      ParentInTime(o, s2, k);
      DeliveryAccepted(o, s2, k, Feed(o, s1), FeedHistory(o, s1));
      FeedGrows(o, s2, k + 1, h);
    }
  }

  /** The tree knows one block heavier than all others. */
  ghost predicate UniqueHeaviest(c: ChainState, h: Hash) {
    h in c.meta && forall x :: x in c.meta && x != h ==> c.meta[x].work < c.meta[h].work
  }

  lemma {:induction false} HeaviestIsTip(o: Oracle, c: ChainState, g: History, h: Hash)
    requires Unpruned(o, c, g) && UniqueHeaviest(c, h)
    ensures c.tip == h
  {
    hide Rooted, Retained, AllLawful, ViewsOk, TimelyUntilPruned, Genesis, BlockHash;
    TipKnown(o, c, g);
  }

  lemma {:induction false} TipKnown(o: Oracle, c: ChainState, g: History)
    requires Unpruned(o, c, g)
    ensures c.tip in c.meta
  {
  }

  /** Unpruned chains with the same tip that agree on it show the same owners and index. */
  lemma {:induction false} SameTipSameViews(o: Oracle, c1: ChainState, g1: History, c2: ChainState, g2: History)
    requires Injective(o) && Unpruned(o, c1, g1) && Unpruned(o, c2, g2) && c1.tip == c2.tip
    ensures c1.owners == c2.owners && c1.index == c2.index
  {
    hide Lawful, AllLawful, BodyOk, TimelyUntilPruned, LinkOk, TreeOk, Path, StateAt, Retained, TipHeaviest, IndexOk;
    TipKnown(o, c1, g1);
    TipKnown(o, c2, g2);
    AgreeOnCommon(o, c1, g1, c2, g2, c1.tip);
    forall k: nat
      ensures k in c1.index <==> k in c2.index
      ensures k in c1.index ==> c1.index[k] == c2.index[k]
    {
      IndexFromFloor(o, c1, g1, k);
      IndexFromFloor(o, c2, g2, k);
    }
  }

  /**
   Convergence: given the same blocks in any two parents-first orders, two unpruned nodes know exactly
   the same tree, even where they hold a block's claims in different orders; and if one branch is
   heavier than every other they show the same tip, canonical index and owner map.
   */
  lemma {:induction false} NodesConverge(o: Oracle, s1: seq<Delivery>, s2: seq<Delivery>)
    requires Injective(o) && ParentsFirst(o, s1) && ParentsFirst(o, s2)
    requires forall h :: Delivered(o, s1, h) <==> Delivered(o, s2, h)
    ensures Feed(o, s1).meta == Feed(o, s2).meta
    ensures (exists h :: UniqueHeaviest(Feed(o, s1), h)) ==>
              var c1, c2 := Feed(o, s1), Feed(o, s2);
              c1.tip == c2.tip && c1.index == c2.index && c1.owners == c2.owners
  {
    hide Unpruned, Feed, FeedHistory, ParentsFirst, Delivered;
    var c1, g1, c2, g2 := Feed(o, s1), FeedHistory(o, s1), Feed(o, s2), FeedHistory(o, s2);
    FeedUnpruned(o, s1);
    FeedUnpruned(o, s2);
    forall h: Hash
      ensures h in c1.meta <==> h in c2.meta
      ensures h in c1.meta ==> c1.meta[h] == c2.meta[h]
    {
      if h in c1.meta {
        AcceptedByBoth(o, s1, s2, h);
        AgreeOnCommon(o, c1, g1, c2, g2, h);
      } else if h in c2.meta {
        AcceptedByBoth(o, s2, s1, h);
      }
    }
    if h :| UniqueHeaviest(c1, h) {
      HeaviestIsTip(o, c1, g1, h);
      HeaviestIsTip(o, c2, g2, h);
      SameTipSameViews(o, c1, g1, c2, g2);
    }
  }
}
