/**
 The durable chain: four tables, the transactions that change them, and the replay that rebuilds the
 in-memory chain on open. The class in Store.dfy is proved to compute these functions.
 */
module StoreRules {
  import opened Prelude
  import opened Difficulty
  import opened LedgerTypes
  import opened ChainRules

  /** `blocks`, `headers`, `canonical_heights`, and the three values of `singleton`. */
  datatype Db = Db(
    blocks: map<Hash, Block>, headers: map<Hash, Meta>, heights: map<nat, Hash>,
    tip: Option<Hash>, checkpoint: Option<Checkpoint>, maxHeight: Option<nat>)

  const EMPTY_DB := Db(map[], map[], map[], None, None, None)

  datatype Store = Store(db: Db, chain: ChainState)

  const RETENTION_WINDOW_BLOCKS: nat := 2016

  function PreviousMax(db: Db): nat { if db.maxHeight.Some? then db.maxHeight.value else 0 }

  /** The entries of `heights` outside `low..=high`. */
  function WithoutHeights(heights: map<nat, Hash>, low: nat, high: nat): map<nat, Hash> {
    map k | k in heights && !(low <= k <= high) :: heights[k]
  }

  /** What persisting needs of the chain; the program panics otherwise. */
  ghost predicate Persistable(o: Oracle, c: ChainState, b: Block) {
    Linked(c) && BlockHash(o, b) in c.meta && Ancestors(c, c.tip).Ok?
  }

  /** One transaction: the body, the header, the whole canonical index, the tip. */
  function PersistAfterApply(o: Oracle, db: Db, c: ChainState, b: Block): Db
    requires Persistable(o, c, b)
  {
    var h := BlockHash(o, b);
    var top := c.meta[c.tip].height;
    var merged := db.heights + IndexOf(Ancestors(c, c.tip).value, c.floorHeight);
    Db(db.blocks[h := b], db.headers[h := c.meta[h]], WithoutHeights(merged, top + 1, PreviousMax(db)),
       Some(c.tip), db.checkpoint, Some(Max(top, PreviousMax(db))))
  }

  /** Applying keeps the tree well linked, whatever the verdict. */
  lemma TryApplyLinked(o: Oracle, c: ChainState, b: Block, now: nat)
    requires Linked(c)
    ensures Linked(TryApply(o, c, b, now).0)
    ensures TryApply(o, c, b, now).0.floor == c.floor && TryApply(o, c, b, now).0.floorHeight == c.floorHeight
  {
    hide ValidateBlock, Path, StateAt, WorkOf;
    if BlockHash(o, b) !in c.meta && ValidateBlock(o, c, b, now).Ok? {
      ValidHasParent(o, c, b, now);
      RecordedLinked(o, c, b);
    }
  }

  function KeysFrom(heights: map<nat, Hash>, height: nat): set<nat> {
    set k | k in heights && k >= height
  }

  lemma KeysShrink(heights: map<nat, Hash>, height: nat)
    requires height in heights
    ensures |KeysFrom(heights, height + 1)| < |KeysFrom(heights, height)|
  {
    assert KeysFrom(heights, height) == KeysFrom(heights, height + 1) + {height};
  }

  /** Applies the stored canonical blocks from `height` upward, each judged at its own timestamp. */
  function Replay(o: Oracle, db: Db, c: ChainState, height: nat): Result<ChainState, LedgerError>
    requires Linked(c)
    decreases |KeysFrom(db.heights, height)|
  {
    if height !in db.heights then Ok(c)
    else if db.heights[height] !in db.blocks then Err(UnknownBlock(db.heights[height]))
    else
      var b := db.blocks[db.heights[height]];
      var (c2, r) := TryApply(o, c, b, b.header.timestamp);
      if r.Err? then Err(r.error)
      else
        TryApplyLinked(o, c, b, b.header.timestamp);
        KeysShrink(db.heights, height);
        Replay(o, db, c2, height + 1)
  }

  /** Where a replay starts: the saved checkpoint, or genesis. */
  function Start(o: Oracle, db: Db): ChainState {
    if db.checkpoint.Some? then FromCheckpoint(db.checkpoint.value) else Fresh(o)
  }

  /** A checkpoint is only ever taken of a known block, which `ZERO` is not. */
  predicate Startable(db: Db) { db.checkpoint.Some? ==> db.checkpoint.value.hash != ZERO }

  lemma StartLinked(o: Oracle, db: Db)
    requires Startable(db)
    ensures Linked(Start(o, db))
  {
    assert LinkOk(Start(o, db).meta, Start(o, db).tip);
  }

  function Restore(o: Oracle, db: Db): Result<ChainState, LedgerError>
    requires Startable(db)
  {
    StartLinked(o, db);
    Replay(o, db, Start(o, db), Start(o, db).floorHeight + 1)
  }

  lemma FreshPersistable(o: Oracle)
    ensures Persistable(o, Fresh(o), Genesis(o))
  {
    assert LinkOk(Fresh(o).meta, Fresh(o).tip);
  }

  /** Opening an empty database starts at genesis and persists it; otherwise the chain is restored. */
  function Open(o: Oracle, db: Db): Result<Store, LedgerError>
    requires Startable(db)
  {
    if db.tip.None? then
      FreshPersistable(o);
      Ok(Store(PersistAfterApply(o, db, Fresh(o), Genesis(o)), Fresh(o)))
    else
      match Restore(o, db)
      case Err(e) => Err(e)
      case Ok(c) => Ok(Store(db, c))
  }

  /** Applies in memory, then persists unless the block was known already. */
  function StoreApply(o: Oracle, s: Store, b: Block, now: nat): (Store, Result<Outcome, LedgerError>)
    requires Linked(s.chain)
    requires TryApply(o, s.chain, b, now).1.Ok? ==> Persistable(o, TryApply(o, s.chain, b, now).0, b)
  {
    var (c2, r) := TryApply(o, s.chain, b, now);
    if r.Err? || r.value.AlreadyKnown? then (Store(s.db, c2), r)
    else (Store(PersistAfterApply(o, s.db, c2, b), c2), r)
  }

  /** The height pruning moves the floor to, if it moves it at all. */
  function PruneTarget(c: ChainState, retention: nat): Option<nat>
    requires Linked(c)
  {
    var top := c.meta[c.tip].height;
    if top < retention || top - retention <= c.floorHeight then None else Some(top - retention)
  }

  /** Pruning's first transaction. */
  function SaveCheckpoint(db: Db, k: Checkpoint): Db { db.(checkpoint := Some(k)) }

  /** Pruning's second transaction. */
  function DropBodies(db: Db, height: nat): Db { db.(blocks := BodiesAbove(db.blocks, height)) }

  /** Saves the checkpoint durably, prunes in memory, then deletes the bodies. */
  function StorePrune(s: Store, retention: nat): (Store, Result<(), LedgerError>)
    requires Linked(s.chain)
  {
    match PruneTarget(s.chain, retention)
    case None => (s, Ok(()))
    case Some(height) =>
      match CheckpointAt(s.chain, height)
      case Err(e) => (s, Err(e))
      case Ok(k) =>
        var saved := SaveCheckpoint(s.db, k);
        var (c2, r) := Prune(s.chain, height);
        if r.Err? then (Store(saved, c2), r) else (Store(DropBodies(saved, height), c2), Ok(()))
  }
}
