/**
 A three-block run, under a toy hash, whose pruned store does not reopen: the last block claims a name
 anchored at genesis, and pruning to height 1 leaves genesis below the floor.
 */
module StoreExample {
  import opened Prelude
  import opened Difficulty
  import opened BigEndian
  import opened Sorting
  import opened LedgerTypes
  import opened ChainRules
  import opened ChainInvariant
  import opened ChainRuns
  import opened StoreRules
  import opened StoreReplay
  import opened StoreRuns

  const TOY: Oracle := Hashing((h: Header) => h.height + 1, (_: Claim) => 5, (_: seq<Hash>) => 7, (_: Claim) => true)

  const FIRST := Block(Header(1, 1, 1, GENESIS_TIMESTAMP + 1, 7, INITIAL_DIFFICULTY_BITS, 0, 0), [])

  const SIXTY_FOUR_ZEROS: Bytes := seq(64, _ => 0)

  const CLAIM := Claim([97, 108, 105, 99, 101], 9, 2, 1, 0, SIXTY_FOUR_ZEROS)

  const SECOND := Block(Header(1, 2, 2, GENESIS_TIMESTAMP + 2, 7, INITIAL_DIFFICULTY_BITS, 0, 0), [Tx(1, CLAIM)])

  const EVENTS := [Boot, Accept(FIRST, GENESIS_TIMESTAMP + 1), Accept(SECOND, GENESIS_TIMESTAMP + 2), Event.PruneTo(1)]

  lemma InitialTarget()
    ensures TargetValue(INITIAL_DIFFICULTY_BITS) >= 3
  {
  }

  /** The chain after the first block. */
  const ONE := ChainState(
    map[1 := Genesis(TOY), 2 := FIRST],
    map[1 := Meta(0, ZERO, GENESIS_TIMESTAMP, INITIAL_DIFFICULTY_BITS, 0.0),
        2 := Meta(1, 1, GENESIS_TIMESTAMP + 1, INITIAL_DIFFICULTY_BITS, WorkOf(INITIAL_DIFFICULTY_BITS))],
    2, map[0 := 1, 1 := 2], map[], 1, 0, map[])

  lemma FirstMedian()
    ensures 1 in Fresh(TOY).meta && Median(Timestamps(Fresh(TOY).meta, [1])) == GENESIS_TIMESTAMP
  {
    assert Timestamps(Fresh(TOY).meta, [1]) == [GENESIS_TIMESTAMP];
    assert Sort([GENESIS_TIMESTAMP]) == [GENESIS_TIMESTAMP];
  }

  lemma FirstIsValid()
    ensures Linked(Fresh(TOY)) && ValidateBlock(TOY, Fresh(TOY), FIRST, GENESIS_TIMESTAMP + 1) == Ok(())
  {
    hide TargetValue, RetargetBetween, StateAt, Median, Timestamps;
    var c := Fresh(TOY);
    assert LinkOk(c.meta, 1);
    assert Path(c.meta, 1, 1) == Ok([1]);
    InitialTarget();
    assert Window([1]) == [1];
    FirstMedian();
  }

  lemma OneAfterFirst()
    ensures Linked(Fresh(TOY)) && TryApply(TOY, Fresh(TOY), FIRST, GENESIS_TIMESTAMP + 1) == (ONE, Ok(ExtendedTip))
  {
    hide ValidateBlock, WorkOf;
    FirstIsValid();
    FreshInv(TOY);
    TipExtension(TOY, Fresh(TOY), GenesisHistory(TOY), FIRST, GENESIS_TIMESTAMP + 1);
    var c := TryApply(TOY, Fresh(TOY), FIRST, GENESIS_TIMESTAMP + 1).0;
    assert [1] + [2] == [1, 2];
    assert Ancestors(c, 2) == Ok([1, 2]);
    assert IndexOf([1, 2], 0) == map[0 := 1, 1 := 2];
  }

  lemma OneState()
    ensures Linked(ONE) && Path(ONE.meta, 1, 2) == Ok([1, 2]) && StateAt(ONE, 2) == Ok(map[])
  {
    hide WorkOf;
    assert LinkOk(ONE.meta, 1) && LinkOk(ONE.meta, 2);
    assert Path(ONE.meta, 1, 1) == Ok([1]);
    assert [1] + [2] == [1, 2];
  }

  lemma SecondClaims()
    ensures CheckTxs(TOY, ONE.meta, 2, [1, 2], map[], {}, SECOND.txs) == Ok(())
  {
    hide WorkOf;
    var tx := SECOND.txs[0];
    assert SECOND.txs[1..] == [];
    SelfContainedExactly(TOY, tx);
    assert tx.claim.anchor in [1, 2];
  }

  lemma SecondMedian()
    ensures Median(Timestamps(ONE.meta, [1, 2])) == GENESIS_TIMESTAMP + 1
  {
    hide WorkOf;
    assert Timestamps(ONE.meta, [1, 2]) == [GENESIS_TIMESTAMP, GENESIS_TIMESTAMP + 1];
    assert Sort([GENESIS_TIMESTAMP + 1]) == [GENESIS_TIMESTAMP + 1];
    assert Sort([GENESIS_TIMESTAMP, GENESIS_TIMESTAMP + 1]) == [GENESIS_TIMESTAMP, GENESIS_TIMESTAMP + 1];
  }

  lemma SecondFits()
    ensures |SECOND.txs| == 1 && BlockSize(SECOND) <= MAX_BLOCK_BYTES && TxCommitment(TOY, SECOND.txs) == 7
  {
    assert SECOND.txs[1..] == [] && TxsSize([]) == 0;
    assert TxsSize(SECOND.txs) == TxSize(SECOND.txs[0]) && |SIXTY_FOUR_ZEROS| == 64;
  }

  lemma SecondIsValid()
    ensures Linked(ONE) && ValidateBlock(TOY, ONE, SECOND, GENESIS_TIMESTAMP + 2) == Ok(())
  {
    hide WorkOf, StateAt, Path, CheckTxs, Median, Timestamps, TargetValue, TreeOk, BlockSize, TxCommitment, RetargetBetween;
    OneState();
    InitialTarget();
    SecondFits();
    SecondMedian();
    SecondClaims();
    assert Window([1, 2]) == [1, 2];
    assert ExpectedDifficulty(ONE, 2) == Ok(INITIAL_DIFFICULTY_BITS);
    assert MedianTimePast(ONE, 2) == Ok(GENESIS_TIMESTAMP + 1);
    assert ValidateTransactions(TOY, ONE, SECOND) == Ok(());
  }

  /** After both blocks. */
  const TWO: ChainState := TryApply(TOY, ONE, SECOND, GENESIS_TIMESTAMP + 2).0

  lemma TwoAfterSecond()
    ensures Linked(ONE) && Linked(TWO) && TWO.tip == 3 && TWO.floorHeight == 0 && 3 in TWO.meta && TWO.meta[3].height == 2
    ensures Ancestors(TWO, 3) == Ok([1, 2, 3]) && 3 in TWO.blocks && TWO.blocks[3] == SECOND
    ensures 1 in TWO.index && TWO.index[1] == 2
  {
    hide ValidateBlock, WorkOf, StateAt, TryApply, Path, Inv;
    OneState();
    SecondIsValid();
    FreshInv(TOY);
    OneAfterFirst();
    ApplyKeepsInv(TOY, Fresh(TOY), GenesisHistory(TOY), FIRST, GENESIS_TIMESTAMP + 1);
    TipExtension(TOY, ONE, HistoryAfter(TOY, Fresh(TOY), GenesisHistory(TOY), FIRST, GENESIS_TIMESTAMP + 1),
                 SECOND, GENESIS_TIMESTAMP + 2);
    assert [1, 2] + [3] == [1, 2, 3];
    assert TWO.index == IndexOf([1, 2, 3], 0);
    assert IndexOf([1, 2, 3], 0)[0 + 1] == [1, 2, 3][1];
  }

  /** One event further along the example. */
  lemma Next(n: Node, c: ChainState, g: History, k: nat) returns (c2: ChainState, g2: History)
    requires k < 4 && RunsTo(TOY, NEW_NODE, EVENTS[..k], n) && SoundOrNew(TOY, n, c, g)
    ensures Step(TOY, n, EVENTS[k]).Some? && RunsTo(TOY, NEW_NODE, EVENTS[..k + 1], Step(TOY, n, EVENTS[k]).value)
    ensures SoundOrNew(TOY, Step(TOY, n, EVENTS[k]).value, c2, g2)
  {
    hide Step, SoundOrNew;
    c2, g2 := StepKeepsSound(TOY, n, c, g, EVENTS[k]);
    RunSnoc(TOY, NEW_NODE, EVENTS[..k], n, EVENTS[k]);
    assert EVENTS[..k + 1] == EVENTS[..k] + [EVENTS[k]];
  }

  lemma BothAccepted() returns (n: Node, g: History)
    ensures RunsTo(TOY, NEW_NODE, EVENTS[..3], n) && n.memory == Some(TWO) && SoundOrNew(TOY, n, TWO, g)
    ensures Inv(TOY, TWO, g)
  {
    hide Step, Inv, TryApply, Mirrors, RunsTo, TimelyUntilPruned, ONE, Fresh, GenesisHistory;
    assert RunsTo(TOY, NEW_NODE, EVENTS[..0], NEW_NODE) by {
      NothingRun(TOY, NEW_NODE);
    }
    var c, g1 := Next(NEW_NODE, Fresh(TOY), GenesisHistory(TOY), 0);
    MemoryAfter(TOY, NEW_NODE, EVENTS[0]);
    var n1 := Step(TOY, NEW_NODE, EVENTS[0]).value;
    var c2, g2 := Next(n1, c, g1, 1);
    MemoryAfter(TOY, n1, EVENTS[1]);
    OneAfterFirst();
    var n2 := Step(TOY, n1, EVENTS[1]).value;
    var c3, g3 := Next(n2, c2, g2, 2);
    MemoryAfter(TOY, n2, EVENTS[2]);
    n, g := Step(TOY, n2, EVENTS[2]).value, g3;
  }

  lemma NothingRun(o: Oracle, n: Node)
    ensures RunsTo(o, n, [], n)
  {
  }

  lemma AnchorIsCut(c: ChainState, path: seq<Hash>)
    requires path == [2, 3] && 3 in c.blocks && c.blocks[3] == SECOND && 2 in c.meta && 3 in c.meta
    ensures !Survives(c, path, 1)
  {
    assert SECOND.txs[0].claim.anchor !in path[..1];
  }

  lemma TwoPruned(db: Db, g: History)
    requires Inv(TOY, TWO, g)
    ensures Linked(TWO)
    ensures var c := StorePrune(Store(db, TWO), 1).0.chain;
            && Linked(c) && c.tip == 3 && Ancestors(c, 3) == Ok([2, 3]) && 3 in c.blocks && c.blocks[3] == SECOND
  {
    hide Inv, TryApply, StateAt, Path, Prune, CheckpointAt, TWO;
    TwoAfterSecond();
    PruneShape(TOY, TWO, g, 1);
    PruneKeepsInv(TOY, TWO, g, 1);
    InvIsLinked(TOY, Prune(TWO, 1).0, g);
    assert [1, 2, 3][1..] == [2, 3];
  }

  lemma CutExampleFails(db: Db, c: ChainState, g: History)
    requires Inv(TOY, c, g) && Mirrors(TOY, db, c, g)
    requires c.tip == 3 && Ancestors(c, 3) == Ok([2, 3]) && 3 in c.blocks && c.blocks[3] == SECOND
    ensures Startable(db) && Restore(TOY, db).Err?
  {
    hide Inv, Mirrors, Restore, Survives, Path;
    InvIsLinked(TOY, c, g);
    MirrorsStartable(TOY, db, c, g);
    var gs := ReopenExactly(TOY, db, c, g);
    CanonicalBodies(TOY, c, g);
    AnchorIsCut(c, [2, 3]);
  }

  lemma SoundIfLive(o: Oracle, n: Node, c: ChainState, g: History)
    requires SoundOrNew(o, n, c, g) && n.memory.Some?
    ensures Inv(o, c, g) && Mirrors(o, n.db, c, g) && n.memory.value == c
  {
    hide Inv, Mirrors, TimelyUntilPruned;
  }

  lemma FourthIsPrune()
    ensures |EVENTS| == 4 && EVENTS[3] == Event.PruneTo(1)
  {
  }

  lemma MemoryAfterPrune(o: Oracle, n: Node, c: ChainState, retention: nat)
    requires Linked(c) && n.memory == Some(c)
    ensures Step(o, n, Event.PruneTo(retention)).Some?
    ensures Step(o, n, Event.PruneTo(retention)).value.memory == Some(StorePrune(Store(n.db, c), retention).0.chain)
  {
    hide StorePrune, TreeOk;
  }

  /** The last of the four events prunes the chain in memory. */
  lemma LastEvent() returns (n: Node, c: ChainState, g: History, db: Db, before: History)
    ensures RunsTo(TOY, NEW_NODE, EVENTS[..4], n) && Linked(TWO) && Inv(TOY, TWO, before)
    ensures n.memory == Some(StorePrune(Store(db, TWO), 1).0.chain) && SoundOrNew(TOY, n, c, g)
  {
    hide *;
    FourthIsPrune();
    var m, g1 := BothAccepted();
    InvIsLinked(TOY, TWO, g1);
    c, g := Next(m, TWO, g1, 3);
    MemoryAfterPrune(TOY, m, TWO, 1);
    n, db, before := Step(TOY, m, EVENTS[3]).value, m.db, g1;
  }

  lemma FourEvents() returns (n: Node, g: History)
    ensures RunsTo(TOY, NEW_NODE, EVENTS[..4], n) && n.memory.Some?
    ensures var c := n.memory.value;
            && Inv(TOY, c, g) && Mirrors(TOY, n.db, c, g)
            && c.tip == 3 && Ancestors(c, 3) == Ok([2, 3]) && 3 in c.blocks && c.blocks[3] == SECOND
  {
    hide Inv, Mirrors, RunsTo, StorePrune, TWO, Ancestors, Linked, SECOND, SoundOrNew;
    var c, db, before;
    n, c, g, db, before := LastEvent();
    SoundIfLive(TOY, n, c, g);
    TwoPruned(db, before);
  }

  /**
   The four events succeed, and the database they leave cannot be opened: the surviving block's anchor
   lies below the floor, so its replay is refused.
   */
  lemma PrunedExampleCannotReopen() returns (n: Node)
    ensures RunsTo(TOY, NEW_NODE, EVENTS, n) && n.memory.Some? && Startable(n.db) && Restore(TOY, n.db).Err?
  {
    hide Inv, Mirrors, RunsTo, Restore, Ancestors, Startable;
    var m, g := FourEvents();
    assert EVENTS[..4] == EVENTS;
    n := m;
    CutExampleFails(n.db, n.memory.value, g);
  }
}
