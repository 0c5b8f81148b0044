/**
 A node with a durable chain over its whole life: applying, pruning, crashing between transactions and
 reopening, in any order.
 */
module StoreRuns {
  import opened Prelude
  import opened Difficulty
  import opened LedgerTypes
  import opened ChainRules
  import opened ChainViews
  import opened ChainInvariant
  import opened ChainRuns
  import opened StoreRules
  import opened StoreReplay

  /** The database survives a crash; the chain in memory does not. */
  datatype Node = Node(db: Db, memory: Option<ChainState>)

  const NEW_NODE := Node(EMPTY_DB, None)

  datatype Event =
    | Boot
    | Accept(block: Block, now: nat)
    | PruneTo(retention: nat)
    | Crash
    | CrashBetweenPruneTransactions(retention: nat)

  /** The node after an event; `None` if the program would panic. */
  ghost function Step(o: Oracle, n: Node, e: Event): Option<Node> {
    if n.memory.Some? && !Linked(n.memory.value) then None
    else
      match e
      case Boot =>
        if n.memory.Some? then Some(n)
        else if !Startable(n.db) then None
        else (match Open(o, n.db)
              case Err(_) => Some(n)
              case Ok(s) => Some(Node(s.db, Some(s.chain))))
      case Accept(b, now) =>
        if n.memory.None? then Some(n)
        else if TryApply(o, n.memory.value, b, now).1.Ok? && !Persistable(o, TryApply(o, n.memory.value, b, now).0, b) then None
        else
          var s := StoreApply(o, Store(n.db, n.memory.value), b, now).0;
          Some(Node(s.db, Some(s.chain)))
      case PruneTo(retention) =>
        if n.memory.None? then Some(n)
        else
          var s := StorePrune(Store(n.db, n.memory.value), retention).0;
          Some(Node(s.db, Some(s.chain)))
      case Crash => Some(Node(n.db, None))
      case CrashBetweenPruneTransactions(retention) =>
        if n.memory.None? || PruneTarget(n.memory.value, retention).None? then Some(Node(n.db, None))
        else
          (match CheckpointAt(n.memory.value, PruneTarget(n.memory.value, retention).value)
           case Err(_) => Some(Node(n.db, None))
           case Ok(k) => Some(Node(SaveCheckpoint(n.db, k), None)))
  }

  /** The database mirrors a chain `c` whose complete history is `g`, and memory, if any, holds `c`. */
  ghost predicate Sound(o: Oracle, n: Node, c: ChainState, g: History) {
    && Inv(o, c, g) && Mirrors(o, n.db, c, g) && TimelyUntilPruned(o, c, g)
    && (n.memory.Some? ==> n.memory.value == c)
  }

  // ---- Accepting ---------------------------------------------------------------------------------

  /** Overwriting the path's entries and removing those above it leaves, from `base` up, the path alone. */
  lemma RewrittenHeights(heights: map<nat, Hash>, path: seq<Hash>, base: nat, top: nat, highest: nat)
    requires |path| == top - base + 1 && base <= top && forall k :: k in heights ==> k <= highest
    ensures HeightsAre(WithoutHeights(heights + IndexOf(path, base), top + 1, highest), path, base, top)
  {
    var index := IndexOf(path, base);
    forall k | base <= k < base + |path| ensures k in index && index[k] == path[k - base] {
      assert index[base + (k - base)] == path[k - base];
    }
  }

  lemma PersistedHeights(o: Oracle, db: Db, c: ChainState, c2: ChainState, b: Block)
    requires Persistable(o, c2, b) && Linked(c)
    requires HeightsMirror(db, c) && c2.floorHeight == c.floorHeight
    ensures HeightsMirror(PersistAfterApply(o, db, c2, b), c2)
  {
    hide Path, TreeOk, WithoutHeights, IndexOf;
    var path, top := Ancestors(c2, c2.tip).value, c2.meta[c2.tip].height;
    assert |path| == top - c2.floorHeight + 1;
    RewrittenHeights(db.heights, path, c2.floorHeight, top, PreviousMax(db));
  }

  /** What accepting does to the parts of the chain that the database mirrors. */
  lemma AcceptShape(o: Oracle, c: ChainState, g: History, b: Block, now: nat)
    requires Inv(o, c, g) && TryApply(o, c, b, now).1.Ok? && !TryApply(o, c, b, now).1.value.AlreadyKnown?
    ensures var c2 := TryApply(o, c, b, now).0;
            var h := BlockHash(o, b);
            && h !in c.meta && Persistable(o, c2, b) && c2.blocks == c.blocks[h := b]
            && c2.floor == c.floor && c2.floorHeight == c.floorHeight && c2.floorOwners == c.floorOwners
            && c.floor in c2.meta && c2.meta[c.floor] == c.meta[c.floor]
            && HistoryAfter(o, c, g, b, now).root == g.root
  {
    hide ValidateBlock, Lawful, AllLawful, Retained, IndexOk, Path, StateAt, LinkOk, TreeOk, TryApply, BodyOk, TipHeaviest, WorkOf;
    ApplyIsAllOrNothing(o, c, g, b, now);
    ApplyOutcome(o, c, g, b, now);
    ApplyKeepsInv(o, c, g, b, now);
  }

  lemma AcceptKeepsSound(o: Oracle, n: Node, c: ChainState, g: History, b: Block, now: nat)
    requires Sound(o, n, c, g) && n.memory.Some?
    ensures Step(o, n, Accept(b, now)).Some?
    ensures Sound(o, Step(o, n, Accept(b, now)).value, TryApply(o, c, b, now).0, HistoryAfter(o, c, g, b, now))
  {
    hide Inv, TryApply, HeightsMirror, TimelyUntilPruned, PersistAfterApply, Ancestors, HistoryAfter;
    InvIsLinked(o, c, g);
    ApplyIsAllOrNothing(o, c, g, b, now);
    ApplyKeepsTimely(o, c, g, b, now);
    var (c2, r) := TryApply(o, c, b, now);
    if r.Ok? && !r.value.AlreadyKnown? {
      AcceptShape(o, c, g, b, now);
      PersistKeepsMirror(o, n.db, c, g, c2, HistoryAfter(o, c, g, b, now), b);
    } else {
      KnownKeepsHistory(o, c, g, b, now);
    }
  }

  lemma KnownKeepsHistory(o: Oracle, c: ChainState, g: History, b: Block, now: nat)
    requires Inv(o, c, g)
    requires TryApply(o, c, b, now).1.Err? || TryApply(o, c, b, now).1.value.AlreadyKnown?
    ensures TryApply(o, c, b, now).0 == c && HistoryAfter(o, c, g, b, now) == g
  {
    hide ValidateBlock, Lawful;
    ApplyIsAllOrNothing(o, c, g, b, now);
    if BlockHash(o, b) !in c.meta && ValidateBlock(o, c, b, now).Ok? {
      ApplyOutcome(o, c, g, b, now);
    }
  }

  lemma PersistKeepsMirror(o: Oracle, db: Db, c: ChainState, g: History, c2: ChainState, g2: History, b: Block)
    requires Linked(c) && Mirrors(o, db, c, g) && Persistable(o, c2, b) && BlockHash(o, b) !in c.meta
    requires c2.blocks == c.blocks[BlockHash(o, b) := b] && g2.root == g.root
    requires c2.floor == c.floor && c2.floorHeight == c.floorHeight && c2.floorOwners == c.floorOwners
    requires c.floor in c2.meta && c2.meta[c.floor] == c.meta[c.floor]
    ensures Mirrors(o, PersistAfterApply(o, db, c2, b), c2, g2)
  {
    hide HeightsMirror, Ancestors, TreeOk;
    var db2 := PersistAfterApply(o, db, c2, b);
    PersistedHeights(o, db, c, c2, b);
    assert Start(o, db2) == Start(o, db);
    assert BodiesMirror(db2, Start(o, db)) by {
      assert BlockHash(o, b) !in Start(o, db).blocks;
    }
  }

  // ---- Pruning -----------------------------------------------------------------------------------

  /** The checkpoint a prune to a canonical height saves, and the chain it leaves. */
  lemma PruneShape(o: Oracle, c: ChainState, g: History, height: nat)
    requires Inv(o, c, g) && c.floorHeight < height <= c.meta[c.tip].height
    ensures height in c.index && c.index[height] in c.meta && StateAt(c, c.index[height]).Ok?
    ensures var h := c.index[height];
            var m := c.meta[h];
            && m.height == height && h != ZERO
            && CheckpointAt(c, height) == Ok(Checkpoint(height, h, m.timestamp, m.bits, m.work, StateAt(c, h).value))
            && Prune(c, height) == (c.(blocks := BodiesAbove(c.blocks, height), floor := h, floorHeight := height,
                                       floorOwners := StateAt(c, h).value), Ok(()))
            && Ancestors(c, c.tip).Ok? && Path(c.meta, h, c.tip).Ok?
            && Path(c.meta, h, c.tip).value == Ancestors(c, c.tip).value[height - c.floorHeight..]
            && h != g.root
  {
    hide Inv, StateAt, Path, TreeOk;
    InvIsLinked(o, c, g);
    assert |Ancestors(c, c.tip).value| == c.meta[c.tip].height - c.floorHeight + 1;
    IndexFromFloor(o, c, g, height);
    CanonicalHash(o, c, g, height);
    PruneOutcome(o, c, g, height);
    PathSuffix(c.meta, c.floor, c.index[height], c.tip);
    KnownIsNotZero(c, c.index[height]);
    RootBelowFloor(o, c, g);
  }

  lemma KnownIsNotZero(c: ChainState, h: Hash)
    requires Linked(c) && h in c.meta
    ensures h != ZERO
  {
  }

  lemma RootBelowFloor(o: Oracle, c: ChainState, g: History)
    requires Inv(o, c, g)
    ensures g.root in c.meta && c.meta[g.root].height <= c.floorHeight
  {
    hide Lawful, BodyOk, StateAt, TreeOk;
    RootIsLowest(o, c, g, c.floor);
  }

  /** Raising the floor keeps the height entries in step. */
  lemma HeightsAbove(heights: map<nat, Hash>, path: seq<Hash>, base: nat, top: nat, from: nat)
    requires HeightsAre(heights, path, base, top) && base <= from <= top
    ensures HeightsAre(heights, path[from - base..], from, top)
  {
  }

  lemma BodiesAfterPrune(db: Db, c: ChainState, c2: ChainState, k: Checkpoint, height: nat)
    requires BodiesMirror(db, c) && c2.blocks == BodiesAbove(c.blocks, height)
    ensures BodiesMirror(SaveCheckpoint(db, k), c2) && BodiesMirror(DropBodies(SaveCheckpoint(db, k), height), c2)
  {
  }

  lemma StartAfterPrune(o: Oracle, db: Db, c: ChainState, k: Checkpoint)
    requires Linked(c) && db.checkpoint == Some(k) && k.hash == c.floor && k.height == c.floorHeight && k.owners == c.floorOwners
    requires var m := c.meta[c.floor]; k.timestamp == m.timestamp && k.bits == m.bits && k.work == m.work
    ensures StartsAtFloor(o, db, c) && BodiesMirror(db, Start(o, db))
  {
  }

  /** Both durable states of a prune mirror the pruned chain. */
  lemma PruneMirrors(o: Oracle, db: Db, c: ChainState, g: History, height: nat)
    requires Inv(o, c, g) && Mirrors(o, db, c, g) && c.floorHeight < height <= c.meta[c.tip].height
    ensures CheckpointAt(c, height).Ok? && Prune(c, height).1.Ok? && Linked(Prune(c, height).0)
    ensures var saved := SaveCheckpoint(db, CheckpointAt(c, height).value);
            && Mirrors(o, saved, Prune(c, height).0, g)
            && Mirrors(o, DropBodies(saved, height), Prune(c, height).0, g)
  {
    hide Inv, StateAt, Path, TreeOk, Prune, CheckpointAt, HeightsAre, BodiesMirror, StartsAtFloor, BodiesAbove;
    InvIsLinked(o, c, g);
    PruneShape(o, c, g, height);
    PruneKeepsInv(o, c, g, height);
    var c2 := Prune(c, height).0;
    InvIsLinked(o, c2, g);
    HeightsAbove(db.heights, Ancestors(c, c.tip).value, c.floorHeight, c.meta[c.tip].height, height);
    var k := CheckpointAt(c, height).value;
    var saved := SaveCheckpoint(db, k);
    BodiesAfterPrune(db, c, c2, k, height);
    StartAfterPrune(o, saved, c2, k);
    StartAfterPrune(o, DropBodies(saved, height), c2, k);
  }

  lemma PruneKeepsTimely(o: Oracle, c: ChainState, g: History, height: nat)
    requires Inv(o, c, g) && c.floorHeight < height <= c.meta[c.tip].height
    ensures Linked(Prune(c, height).0) && Inv(o, Prune(c, height).0, g) && TimelyUntilPruned(o, Prune(c, height).0, g)
  {
    hide Inv, StateAt, Path, TreeOk, Prune, CheckpointAt, AllTimely;
    InvIsLinked(o, c, g);
    PruneShape(o, c, g, height);
    PruneKeepsInv(o, c, g, height);
    InvIsLinked(o, Prune(c, height).0, g);
  }

  /** The chain a prune leaves, whether or not there was anything to prune. */
  ghost function Pruned(c: ChainState, retention: nat): ChainState
    requires Linked(c)
  {
    if PruneTarget(c, retention).None? then c else Prune(c, PruneTarget(c, retention).value).0
  }

  lemma PruneKeepsSound(o: Oracle, n: Node, c: ChainState, g: History, retention: nat)
    requires Sound(o, n, c, g) && n.memory.Some?
    ensures Step(o, n, Event.PruneTo(retention)).Some? && Step(o, n, CrashBetweenPruneTransactions(retention)).Some?
    ensures Sound(o, Step(o, n, Event.PruneTo(retention)).value, Pruned(c, retention), g)
    ensures Sound(o, Step(o, n, CrashBetweenPruneTransactions(retention)).value, Pruned(c, retention), g)
  {
    hide Inv, StateAt, Path, TreeOk, Prune, CheckpointAt, TimelyUntilPruned, Mirrors;
    InvIsLinked(o, c, g);
    if PruneTarget(c, retention).Some? {
      PruneMirrors(o, n.db, c, g, PruneTarget(c, retention).value);
      PruneKeepsTimely(o, c, g, PruneTarget(c, retention).value);
    }
  }

  // ---- Booting -----------------------------------------------------------------------------------

  lemma FirstMirror(o: Oracle)
    ensures Persistable(o, Fresh(o), Genesis(o))
    ensures Mirrors(o, PersistAfterApply(o, EMPTY_DB, Fresh(o), Genesis(o)), Fresh(o), GenesisHistory(o))
  {
    hide WithoutHeights;
    FreshPersistable(o);
    var c := Fresh(o);
    assert Ancestors(c, c.tip) == Ok([c.tip]);
    RewrittenHeights(map[], [c.tip], 0, 0, 0);
  }

  lemma FirstBoot(o: Oracle)
    ensures Step(o, NEW_NODE, Boot).Some?
    ensures Sound(o, Step(o, NEW_NODE, Boot).value, Fresh(o), GenesisHistory(o))
  {
    hide Inv, TimelyUntilPruned, Mirrors, Fresh, GenesisHistory, PersistAfterApply, Restore;
    FreshInv(o);
    assert TimelyUntilPruned(o, Fresh(o), GenesisHistory(o)) by {
      StartInv(o, EMPTY_DB);
    }
    FirstMirror(o);
  }

  lemma BootKeepsSound(o: Oracle, n: Node, c: ChainState, g: History) returns (c2: ChainState, g2: History)
    requires Sound(o, n, c, g)
    ensures Step(o, n, Boot).Some? && Sound(o, Step(o, n, Boot).value, c2, g2)
  {
    hide Inv, TreeOk, TimelyUntilPruned, Restore, StartsAtFloor, HeightsMirror, BodiesMirror;
    c2, g2 := c, g;
    InvIsLinked(o, c, g);
    if n.memory.None? {
      var gs := ReopenExactly(o, n.db, c, g);
      if Restore(o, n.db).Ok? {
        c2, g2 := Restore(o, n.db).value, gs;
      }
    }
  }

  // ---- Runs --------------------------------------------------------------------------------------

  ghost predicate SoundOrNew(o: Oracle, n: Node, c: ChainState, g: History) {
    n == NEW_NODE || Sound(o, n, c, g)
  }

  lemma StepKeepsSound(o: Oracle, n: Node, c: ChainState, g: History, e: Event) returns (c2: ChainState, g2: History)
    requires SoundOrNew(o, n, c, g)
    ensures Step(o, n, e).Some? && SoundOrNew(o, Step(o, n, e).value, c2, g2)
  {
    hide Inv, Mirrors, TimelyUntilPruned, TryApply, StoreApply, StorePrune, Open, HistoryAfter, Prune;
    c2, g2 := c, g;
    if n == NEW_NODE {
      if e.Boot? {
        FirstBoot(o);
        c2, g2 := Fresh(o), GenesisHistory(o);
      }
    } else {
      InvIsLinked(o, c, g);
      if e.Boot? {
        c2, g2 := BootKeepsSound(o, n, c, g);
      } else if n.memory.Some? && e.Accept? {
        AcceptKeepsSound(o, n, c, g, e.block, e.now);
        c2, g2 := TryApply(o, c, e.block, e.now).0, HistoryAfter(o, c, g, e.block, e.now);
      } else if n.memory.Some? && !e.Crash? {
        PruneKeepsSound(o, n, c, g, e.retention);
        c2 := Pruned(c, retention := e.retention);
      }
    }
  }

  /** `events` lead a node from `n` to `n2` without a panic. */
  ghost predicate RunsTo(o: Oracle, n: Node, events: seq<Event>, n2: Node)
    decreases |events|
  {
    if |events| == 0 then n2 == n
    else Step(o, n, events[0]).Some? && RunsTo(o, Step(o, n, events[0]).value, events[1..], n2)
  }

  lemma {:induction false} RunSnoc(o: Oracle, n: Node, events: seq<Event>, n1: Node, e: Event)
    requires RunsTo(o, n, events, n1) && Step(o, n1, e).Some?
    ensures RunsTo(o, n, events + [e], Step(o, n1, e).value)
    decreases |events|
  {
    hide Step;
    if |events| > 0 {
      assert (events + [e])[1..] == events[1..] + [e];
      RunSnoc(o, Step(o, n, events[0]).value, events[1..], n1, e);
    } else {
      assert events + [e] == [e] && [e][1..] == [];
    }
  }

  /** What the chain in memory becomes; the database follows it. */
  lemma MemoryAfter(o: Oracle, n: Node, e: Event)
    requires Step(o, n, e).Some?
    ensures n == NEW_NODE && e.Boot? ==> Step(o, n, e).value.memory == Some(Fresh(o))
    ensures n.memory.Some? ==> Linked(n.memory.value)
    ensures n.memory.Some? && e.PruneTo? ==> Step(o, n, e).value.memory == Some(StorePrune(Store(n.db, n.memory.value), e.retention).0.chain)
    ensures n.memory.Some? && e.Accept? ==> Step(o, n, e).value.memory == Some(TryApply(o, n.memory.value, e.block, e.now).0)
  {
    hide TryApply, Restore, PersistAfterApply, TreeOk, StorePrune;
  }

  /** No run panics: there is always a node it leads to. */
  lemma {:induction false} RunsNeverPanic(o: Oracle, n: Node, c: ChainState, g: History, events: seq<Event>)
    returns (n2: Node, c2: ChainState, g2: History)
    requires SoundOrNew(o, n, c, g)
    ensures RunsTo(o, n, events, n2) && SoundOrNew(o, n2, c2, g2)
    decreases |events|
  {
    hide SoundOrNew, Step;
    if |events| == 0 {
      n2, c2, g2 := n, c, g;
    } else {
      c2, g2 := StepKeepsSound(o, n, c, g, events[0]);
      n2, c2, g2 := RunsNeverPanic(o, Step(o, n, events[0]).value, c2, g2, events[1..]);
    }
  }

  lemma {:induction false} RunsAreDeterministic(o: Oracle, n: Node, events: seq<Event>, n1: Node, n2: Node)
    requires RunsTo(o, n, events, n1) && RunsTo(o, n, events, n2)
    ensures n1 == n2
    decreases |events|
  {
    hide Step;
    if |events| > 0 {
      RunsAreDeterministic(o, Step(o, n, events[0]).value, events[1..], n1, n2);
    }
  }

  // ---- What a run guarantees ---------------------------------------------------------------------

  /** The height entry `k` names a stored body of that height, which continues the chain below it. */
  ghost predicate EntryOk(o: Oracle, db: Db, floor: Hash, floorHeight: nat, k: nat) {
    && k in db.heights && db.heights[k] in db.blocks
    && (var b := db.blocks[db.heights[k]];
        && BlockHash(o, b) == db.heights[k] && b.header.height == k
        && (if k == floorHeight + 1 then b.header.prev == floor
            else k > 0 && k - 1 in db.heights && b.header.prev == db.heights[k - 1]))
  }

  /** Nothing above `top`, and everything from the durable floor up to the durable tip at `top`. */
  ghost predicate Recoverable(o: Oracle, db: Db, top: nat) {
    && Startable(db)
    && (var s := Start(o, db);
        && s.floorHeight <= top
        && (forall k :: k in db.heights ==> k <= top)
        && (forall k :: s.floorHeight < k <= top ==> EntryOk(o, db, s.floor, s.floorHeight, k))
        && db.tip.Some?
        && (if top == s.floorHeight then db.tip.value == s.floor
            else top in db.heights && db.tip.value == db.heights[top]))
  }

  lemma SoundEntry(o: Oracle, db: Db, c: ChainState, g: History, k: nat)
    requires Inv(o, c, g) && Mirrors(o, db, c, g) && c.floorHeight < k <= c.meta[c.tip].height
    ensures EntryOk(o, db, c.floor, c.floorHeight, k)
  {
    hide Inv, StateAt, Path, TreeOk, StartsAtFloor, WorkOf, Lawful;
    InvIsLinked(o, c, g);
    assert |Ancestors(c, c.tip).value| == c.meta[c.tip].height - c.floorHeight + 1;
    StoredEntry(o, db, c, g, k - c.floorHeight);
    CanonicalBody(o, c, g, k - c.floorHeight);
  }

  lemma SoundIsRecoverable(o: Oracle, db: Db, c: ChainState, g: History)
    requires Inv(o, c, g) && Mirrors(o, db, c, g)
    ensures c.tip in c.meta && Recoverable(o, db, c.meta[c.tip].height)
  {
    hide Inv, StateAt, Path, TreeOk, EntryOk, BodiesMirror;
    InvIsLinked(o, c, g);
    assert |Ancestors(c, c.tip).value| == c.meta[c.tip].height - c.floorHeight + 1;
    forall k | c.floorHeight < k <= c.meta[c.tip].height ensures EntryOk(o, db, c.floor, c.floorHeight, k) {
      SoundEntry(o, db, c, g, k);
    }
  }

  /**
   Crash safety. At every transaction boundary of every run, each height above the durable floor up to
   the durable tip has an entry whose body is stored and continues the chain, and no entry lies above
   the tip.
   */
  lemma CrashSafety(o: Oracle, events: seq<Event>, n: Node) returns (top: nat)
    requires RunsTo(o, NEW_NODE, events, n)
    ensures n.db == EMPTY_DB || Recoverable(o, n.db, top)
  {
    hide Step, Recoverable, Inv, Mirrors, TimelyUntilPruned;
    var n2, c, g := RunsNeverPanic(o, NEW_NODE, Fresh(o), GenesisHistory(o), events);
    RunsAreDeterministic(o, NEW_NODE, events, n, n2);
    top := 0;
    if n != NEW_NODE {
      SoundIsRecoverable(o, n.db, c, g);
      top := c.meta[c.tip].height;
    }
  }

  /** The chain and history behind a node that a run has booted. */
  lemma BehindRun(o: Oracle, events: seq<Event>, n: Node) returns (c: ChainState, g: History)
    requires RunsTo(o, NEW_NODE, events, n) && n.memory.Some?
    ensures n.memory.value == c && Sound(o, n, c, g)
  {
    hide Step, Inv, Mirrors, TimelyUntilPruned;
    var n2, c2, g2 := RunsNeverPanic(o, NEW_NODE, Fresh(o), GenesisHistory(o), events);
    RunsAreDeterministic(o, NEW_NODE, events, n, n2);
    c, g := c2, g2;
  }

  /**
   After any run, closing and reopening succeeds exactly if every canonical block above the floor passes
   judged from the floor alone; then the reopened chain shows the same tip and owners, and the same
   canonical index from the floor upward.
   */
  lemma ReopenAfterRun(o: Oracle, events: seq<Event>, n: Node) returns (g: History)
    requires RunsTo(o, NEW_NODE, events, n) && n.memory.Some?
    ensures Inv(o, n.memory.value, g) && Startable(n.db)
    ensures Restore(o, n.db).Ok? <==> AllSurvive(o, n.memory.value, g)
    ensures Restore(o, n.db).Ok? ==> SameViewsAbove(n.memory.value, Restore(o, n.db).value)
  {
    hide Step, Inv, Mirrors, TimelyUntilPruned, SameViewsAbove, AllSurvive, Restore;
    var c, g2 := BehindRun(o, events, n);
    g := g2;
    InvIsLinked(o, c, g);
    MirrorsStartable(o, n.db, c, g);
    var gs := ReopenExactly(o, n.db, c, g);
  }

  /**
   What pruning leaves: nothing changes if the chain is too short. Otherwise the checkpoint is the canonical block
   `retention` below the tip with the owners as of it, exactly the bodies at or below it are gone from disk and memory,
   and the other tables and the tip stay.
   */
  lemma {:induction false} PruneExactly(o: Oracle, db: Db, c: ChainState, g: History, retention: nat)
    requires Inv(o, c, g)
    ensures Linked(c)
    ensures var (s, r) := StorePrune(Store(db, c), retention);
            var height := c.meta[c.tip].height - retention;
            && r == Ok(())
            && (height <= c.floorHeight ==> s == Store(db, c))
            && (height > c.floorHeight ==>
                  && height in c.index && c.index[height] in c.meta && StateAt(c, c.index[height]).Ok?
                  && s.db.checkpoint.Some?
                  && (var k, m := s.db.checkpoint.value, c.meta[c.index[height]];
                      && k.height == height == m.height && k.hash == c.index[height] && k.timestamp == m.timestamp && k.bits == m.bits
                      && k.work == m.work && k.owners == StateAt(c, c.index[height]).value
                      && s.chain.floor == k.hash && s.chain.floorHeight == height && s.chain.floorOwners == k.owners)
                  && (forall x :: x in s.db.blocks <==> x in db.blocks && db.blocks[x].header.height > height)
                  && (forall x :: x in s.db.blocks ==> s.db.blocks[x] == db.blocks[x])
                  && (forall x :: x in s.chain.blocks <==> x in c.blocks && c.blocks[x].header.height > height)
                  && s.db.headers == db.headers && s.db.heights == db.heights && s.db.tip == db.tip && s.db.maxHeight == db.maxHeight
                  && s.chain.tip == c.tip && s.chain.meta == c.meta && s.chain.index == c.index && s.chain.owners == c.owners)
  {
    hide Inv, StateAt, Path, TreeOk;
    InvIsLinked(o, c, g);
    var height := c.meta[c.tip].height - retention;
    if height > c.floorHeight {
      IndexFromFloor(o, c, g, height);
      CanonicalHeight(o, c, g, height);
      PruneOutcome(o, c, g, height);
    }
  }

  lemma {:induction false} CanonicalHeight(o: Oracle, c: ChainState, g: History, height: nat)
    requires Inv(o, c, g) && height >= c.floorHeight && height in c.index
    ensures c.index[height] in c.meta && c.meta[c.index[height]].height == height
  {
    hide Lawful, BodyOk, StateAt, TreeOk, LinkOk, AllLawful, Path;
    IndexEntry(o, c, g, height);
  }

  predicate Prunes(e: Event) { e.PruneTo? || e.CrashBetweenPruneTransactions? }

  lemma {:induction false} NoPruneNoCheckpoint(o: Oracle, n: Node, events: seq<Event>, n2: Node)
    requires RunsTo(o, n, events, n2) && n.db.checkpoint.None? && forall i :: 0 <= i < |events| ==> !Prunes(events[i])
    ensures n2.db.checkpoint.None?
    decreases |events|
  {
    hide TryApply, Persistable, Linked, Restore;
    if |events| > 0 {
      assert !Prunes(events[0]);
      assert Step(o, n, events[0]).value.db.checkpoint.None?;
      NoPruneNoCheckpoint(o, Step(o, n, events[0]).value, events[1..], n2);
    }
  }

  /**
   A store that never pruned reopens after any run, reorganisations to heavier but shorter branches and
   crashes included, to exactly the tip, canonical index and owner map it had.
   */
  lemma UnprunedReopens(o: Oracle, events: seq<Event>, n: Node)
    requires RunsTo(o, NEW_NODE, events, n) && n.memory.Some? && forall i :: 0 <= i < |events| ==> !Prunes(events[i])
    ensures Startable(n.db) && Restore(o, n.db).Ok?
    ensures var c, s := n.memory.value, Restore(o, n.db).value;
            s.tip == c.tip && s.index == c.index && s.owners == c.owners
  {
    hide Step, Inv, Mirrors, TimelyUntilPruned, Restore;
    var c, g := BehindRun(o, events, n);
    NoPruneNoCheckpoint(o, NEW_NODE, events, n);
    InvIsLinked(o, c, g);
    MirrorsStartable(o, n.db, c, g);
    var gs := NeverPrunedReopens(o, n.db, c, g);
  }

  /**
   What reopening loses after such a run: the tree comes back exactly if every block known was canonical;
   otherwise the reopened chain knows the tip's path alone.
   */
  lemma UnprunedReopensSameExactly(o: Oracle, events: seq<Event>, n: Node) returns (root: Hash)
    requires RunsTo(o, NEW_NODE, events, n) && n.memory.Some? && forall i :: 0 <= i < |events| ==> !Prunes(events[i])
    ensures Startable(n.db) && Restore(o, n.db).Ok? && Linked(n.memory.value)
    ensures var c, s := n.memory.value, Restore(o, n.db).value;
            && Ancestors(c, c.tip).Ok?
            && (forall h :: h in s.meta <==> h in Ancestors(c, c.tip).value)
            && (SameChain(c, s, root) <==> forall h :: h in c.meta ==> h in Ancestors(c, c.tip).value)
  {
    hide Step, Inv, Mirrors, TimelyUntilPruned, Restore, SameChain, Path, TreeOk;
    var c, g := BehindRun(o, events, n);
    root := g.root;
    NoPruneNoCheckpoint(o, NEW_NODE, events, n);
    InvIsLinked(o, c, g);
    MirrorsStartable(o, n.db, c, g);
    ReopenedSameExactly(o, n.db, c, g);
    ReopenForgetsForks(o, n.db, c, g);
  }

  /**
   Pruning with a retention of at least one retarget interval, to a floor that is not itself a retarget
   height, leaves a database that can no longer be opened.
   */
  lemma PruneToUnalignedFloorBreaksReopen(o: Oracle, n: Node, c: ChainState, g: History, retention: nat)
    requires Sound(o, n, c, g) && n.memory.Some? && retention >= RETARGET_INTERVAL_BLOCKS
    requires PruneTarget(c, retention).Some? && !RetargetDue(PruneTarget(c, retention).value)
    ensures var s := StorePrune(Store(n.db, c), retention);
            s.1 == Ok(()) && Startable(s.0.db) && Restore(o, s.0.db).Err?
  {
    hide Inv, Mirrors, TimelyUntilPruned, Restore, Prune, CheckpointAt, RetargetDue, NextRetarget;
    InvIsLinked(o, c, g);
    var height := PruneTarget(c, retention).value;
    PruneShape(o, c, g, height);
    PruneMirrors(o, n.db, c, g, height);
    PruneKeepsTimely(o, c, g, height);
    var s := StorePrune(Store(n.db, c), retention).0;
    MirrorsStartable(o, s.db, s.chain, g);
    NextRetargetIsNear(height);
    UnalignedFloorCannotReopen(o, s.db, s.chain, g);
  }

  /** `prune()` at any tip height that is not a retarget height leaves a database that cannot be opened. */
  lemma DefaultPruneBreaksReopen(o: Oracle, n: Node, c: ChainState, g: History)
    requires Sound(o, n, c, g) && n.memory.Some? && PruneTarget(c, RETENTION_WINDOW_BLOCKS).Some?
    requires !RetargetDue(c.meta[c.tip].height)
    ensures var s := StorePrune(Store(n.db, c), RETENTION_WINDOW_BLOCKS);
            s.1 == Ok(()) && Startable(s.0.db) && Restore(o, s.0.db).Err?
  {
    hide Sound, Restore, StorePrune;
    PruneToUnalignedFloorBreaksReopen(o, n, c, g, RETENTION_WINDOW_BLOCKS);
  }
}
