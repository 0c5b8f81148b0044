/** The durable chain as the program holds it: four tables changed by transactions, and a chain in memory. */
module StoreObject {
  import opened Prelude
  import opened LedgerTypes
  import opened ChainRules
  import opened ChainObject
  import opened StoreRules

  /** The database file. A transaction's writes become visible together, in `Commit`. */
  class Database {
    var blocks: map<Hash, Block>
    var headers: map<Hash, Meta>
    var heights: map<nat, Hash>
    var tip: Option<Hash>
    var checkpoint: Option<Checkpoint>
    var maxHeight: Option<nat>

    function Value(): Db
      reads this
    {
      Db(blocks, headers, heights, tip, checkpoint, maxHeight)
    }

    constructor ()
      ensures Value() == EMPTY_DB
    {
      blocks, headers, heights, tip, checkpoint, maxHeight := map[], map[], map[], None, None, None;
    }

    method Commit(db: Db)
      modifies this
      ensures Value() == db
    {
      blocks, headers, heights, tip, checkpoint, maxHeight :=
        db.blocks, db.headers, db.heights, db.tip, db.checkpoint, db.maxHeight;
    }
  }

  /** Writes the path's entries one by one. */
  method InsertHeights(table: map<nat, Hash>, path: seq<Hash>, from: nat) returns (heights: map<nat, Hash>)
    ensures heights == table + IndexOf(path, from)
  {
    heights := table;
    for offset := 0 to |path|
      invariant heights == table + IndexOf(path[..offset], from)
    {
      assert path[..offset + 1][..offset] == path[..offset];
      heights := heights[from + offset := path[offset]];
    }
    assert path[..|path|] == path;
  }

  /** Removes the entries of heights `low` to `high`. */
  method RemoveHeights(table: map<nat, Hash>, low: nat, high: nat) returns (heights: map<nat, Hash>)
    ensures heights == WithoutHeights(table, low, high)
  {
    heights := table;
    var stale := low;
    while stale <= high
      invariant low <= stale
      invariant low < stale ==> stale <= high + 1
      invariant heights == map k | k in table && !(low <= k < stale) :: table[k]
      decreases high + 1 - stale
    {
      heights := heights - {stale};
      stale := stale + 1;
    }
  }

  /** Finds the bodies at or below `height`, then removes them one by one. */
  method RemoveStaleBodies(table: map<Hash, Block>, height: nat) returns (blocks: map<Hash, Block>)
    ensures blocks == BodiesAbove(table, height)
  {
    blocks := table;
    var stale := set h | h in table && table[h].header.height <= height;
    while stale != {}
      invariant forall h :: h in stale ==> h in table && table[h].header.height <= height
      invariant blocks == map h | h in table && (h in stale || table[h].header.height > height) :: table[h]
      decreases |stale|
    {
      var h :| h in stale;
      stale := stale - {h};
      blocks := blocks - {h};
    }
  }

  class ChainStore {
    const o: Oracle
    const db: Database
    const chain: Chain

    ghost function Value(): Store
      reads this, db, chain
    {
      Store(db.Value(), chain.Value())
    }

    constructor (o: Oracle, db: Database, chain: Chain)
      ensures this.o == o && this.db == db && this.chain == chain
    {
      this.o, this.db, this.chain := o, db, chain;
    }

    /** Replays the stored canonical blocks above the checkpoint, or above genesis. */
    static method RestoreFrom(o: Oracle, db: Database) returns (r: Result<Chain, LedgerError>)
      requires Startable(db.Value())
      ensures r.Ok? ==> fresh(r.value) && r.value.o == o && Restore(o, db.Value()) == Ok(r.value.Value())
      ensures r.Err? ==> Restore(o, db.Value()) == Err(r.error)
    {
      hide ChainRules.TryApply, Fresh;
      StartLinked(o, db.Value());
      var chain: Chain;
      if db.checkpoint.Some? {
        chain := new Chain.FromCheckpoint(o, db.checkpoint.value);
      } else {
        chain := new Chain(o);
      }
      var height: nat := chain.floorHeight + 1;
      while height in db.heights
        invariant fresh(chain) && chain.o == o && Linked(chain.Value())
        invariant Restore(o, db.Value()) == Replay(o, db.Value(), chain.Value(), height)
        decreases |KeysFrom(db.heights, height)|
      {
        var hash := db.heights[height];
        if hash !in db.blocks {
          return Err(UnknownBlock(hash));
        }
        var block := db.blocks[hash];
        TryApplyLinked(o, chain.Value(), block, block.header.timestamp);
        KeysShrink(db.heights, height);
        var applied := chain.TryApply(block, block.header.timestamp);
        if applied.Err? {
          return Err(applied.error);
        }
        height := height + 1;
      }
      r := Ok(chain);
    }

    static method OpenAt(o: Oracle, db: Database) returns (r: Result<ChainStore, LedgerError>)
      requires Startable(db.Value())
      modifies db
      ensures r.Ok? ==> fresh(r.value) && r.value.o == o && r.value.db == db && fresh(r.value.chain) && r.value.chain.o == o
      ensures r.Ok? ==> Open(o, old(db.Value())) == Ok(r.value.Value())
      ensures r.Err? ==> Open(o, old(db.Value())) == Err(r.error) && db.Value() == old(db.Value())
    {
      hide Restore;
      if db.tip.None? {
        FreshPersistable(o);
        var chain := new Chain(o);
        var store := new ChainStore(o, db, chain);
        store.PersistAfterApply(Genesis(o));
        r := Ok(store);
      } else {
        var restored := RestoreFrom(o, db);
        if restored.Err? {
          return Err(restored.error);
        }
        var store := new ChainStore(o, db, restored.value);
        r := Ok(store);
      }
    }

    /** One transaction over every table. */
    method PersistAfterApply(block: Block)
      requires chain.o == o && Persistable(o, chain.Value(), block)
      modifies db
      ensures db.Value() == StoreRules.PersistAfterApply(o, old(db.Value()), chain.Value(), block)
    {
      hide IndexOf, WithoutHeights;
      var hash := BlockHash(o, block);
      var meta := chain.meta[hash];
      var ancestry := chain.AncestorsOf(chain.tipHash);
      var newTipHeight := chain.meta[chain.tipHash].height;
      var heights := InsertHeights(db.heights, ancestry.value, chain.floorHeight);
      var previousMaxHeight := PreviousMax(db.Value());
      heights := RemoveHeights(heights, newTipHeight + 1, previousMaxHeight);
      db.Commit(Db(db.blocks[hash := block], db.headers[hash := meta], heights, Some(chain.tipHash), db.checkpoint,
                   Some(Max(newTipHeight, previousMaxHeight))));
    }

    method TryApply(block: Block, now: nat) returns (r: Result<Outcome, LedgerError>)
      requires chain.o == o && Linked(chain.Value())
      requires ChainRules.TryApply(o, chain.Value(), block, now).1.Ok? ==>
                 Persistable(o, ChainRules.TryApply(o, chain.Value(), block, now).0, block)
      modifies db, chain
      ensures (Value(), r) == StoreApply(o, old(Value()), block, now)
    {
      hide ChainRules.TryApply, StoreRules.PersistAfterApply;
      r := chain.TryApply(block, now);
      if r.Err? {
        return;
      }
      if r.value != AlreadyKnown {
        PersistAfterApply(block);
      }
    }

    /** Two transactions: the checkpoint first, then, once the chain in memory is pruned, the deletions. */
    method PruneWithRetention(retention: nat) returns (r: Result<(), LedgerError>)
      requires chain.o == o && Linked(chain.Value())
      modifies db, chain
      ensures (Value(), r) == StorePrune(old(Value()), retention)
    {
      hide ChainRules.Prune, CheckpointAt, BodiesAbove;
      var tipHeight := chain.meta[chain.tipHash].height;
      if tipHeight < retention {
        return Ok(());
      }
      var newFloorHeight := tipHeight - retention;
      if newFloorHeight <= chain.floorHeight {
        return Ok(());
      }
      var checkpoint := chain.MakeCheckpoint(newFloorHeight);
      if checkpoint.Err? {
        return Err(checkpoint.error);
      }
      db.Commit(SaveCheckpoint(db.Value(), checkpoint.value));
      var pruned := chain.PruneBodiesUpTo(newFloorHeight);
      if pruned.Err? {
        return Err(pruned.error);
      }
      var blocks := RemoveStaleBodies(db.blocks, newFloorHeight);
      db.Commit(db.Value().(blocks := blocks));
      r := Ok(());
    }

    method Prune() returns (r: Result<(), LedgerError>)
      requires chain.o == o && Linked(chain.Value())
      modifies db, chain
      ensures (Value(), r) == StorePrune(old(Value()), RETENTION_WINDOW_BLOCKS)
    {
      r := PruneWithRetention(RETENTION_WINDOW_BLOCKS);
    }
  }
}
