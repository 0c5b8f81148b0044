/**
 The chain as a value, and every operation of `Chain` and rule of `validate_block` as a function on it.
 The class in Chain.dfy is proved to compute these functions.
 */
module ChainRules {
  import opened Prelude
  import opened Difficulty
  import opened Sorting
  import opened LedgerTypes

  type MetaMap = map<Hash, Meta>

  datatype ChainState = ChainState(
    blocks: map<Hash, Block>, meta: MetaMap, tip: Hash, index: map<nat, Hash>, owners: Owners,
    floor: Hash, floorHeight: nat, floorOwners: Owners)

  /** Parents are known and one lower; only a root, whose parent is `ZERO`, has an unknown parent. */
  ghost predicate TreeOk(meta: MetaMap) {
    && ZERO !in meta
    && (forall h :: h in meta ==> LinkOk(meta, h))
  }

  ghost predicate LinkOk(meta: MetaMap, h: Hash)
    requires h in meta
  {
    var p := meta[h].prev;
    if p in meta then meta[h].height == meta[p].height + 1 else p == ZERO
  }

  /** What every operation relies on to be defined at all. */
  ghost predicate Linked(c: ChainState) {
    && TreeOk(c.meta) && c.tip in c.meta && c.floor in c.meta
    && c.floorHeight == c.meta[c.floor].height
  }

  function Fresh(o: Oracle): ChainState {
    var g := Genesis(o);
    var h := BlockHash(o, g);
    ChainState(map[h := g], map[h := Meta(0, ZERO, GENESIS_TIMESTAMP, INITIAL_DIFFICULTY_BITS, 0.0)],
               h, map[0 := h], map[], h, 0, map[])
  }

  function FromCheckpoint(k: Checkpoint): ChainState {
    ChainState(map[], map[k.hash := Meta(k.height, ZERO, k.timestamp, k.bits, k.work)],
               k.hash, map[k.height := k.hash], k.owners, k.hash, k.height, k.owners)
  }

  /** From the floor to `h`, floor first; an error if the walk leaves the tree. */
  function Path(meta: MetaMap, floor: Hash, h: Hash): (r: Result<seq<Hash>, LedgerError>)
    requires TreeOk(meta)
    ensures r.Ok? ==> floor in meta && h in meta && |r.value| == meta[h].height - meta[floor].height + 1 && |r.value| > 0
    ensures r.Ok? ==> r.value[0] == floor && r.value[|r.value| - 1] == h
    ensures r.Ok? ==> forall i :: 0 <= i < |r.value| ==> r.value[i] in meta && meta[r.value[i]].height == meta[floor].height + i
    ensures r.Err? ==> r.error.UnknownBlock?
    decreases if h in meta then meta[h].height + 1 else 0
  {
    if h !in meta then Err(UnknownBlock(h))
    else if h == floor then Ok([h])
    else
      assert LinkOk(meta, h);
      match Path(meta, floor, meta[h].prev)
      case Err(e) => Err(e)
      case Ok(p) => Ok(p + [h])
  }

  function Ancestors(c: ChainState, h: Hash): (r: Result<seq<Hash>, LedgerError>)
    requires Linked(c)
  {
    Path(c.meta, c.floor, h)
  }

  /** The owner map as of `h`: the floor's, replayed through every body between the floor and `h`. */
  function StateAt(c: ChainState, h: Hash): (r: Result<Owners, LedgerError>)
    requires Linked(c)
    ensures r.Err? ==> r.error.UnknownBlock?
    decreases if h in c.meta then c.meta[h].height + 1 else 0
  {
    if h !in c.meta then Err(UnknownBlock(h))
    else if h == c.floor then Ok(c.floorOwners)
    else
      assert LinkOk(c.meta, h);
      match StateAt(c, c.meta[h].prev)
      case Err(e) => Err(e)
      case Ok(s) =>
        if h !in c.blocks then Err(UnknownBlock(h))
        else Ok(ApplyClaims(s, c.blocks[h].txs, c.blocks[h].header.height, h))
  }

  function Timestamps(meta: MetaMap, path: seq<Hash>): (ts: seq<nat>)
    requires forall i :: 0 <= i < |path| ==> path[i] in meta
    ensures |ts| == |path|
    ensures forall i :: 0 <= i < |path| ==> ts[i] == meta[path[i]].timestamp
  {
    if |path| == 0 then [] else [meta[path[0]].timestamp] + Timestamps(meta, path[1..])
  }

  function Median(ts: seq<nat>): nat
    requires |ts| > 0
  {
    SortIsSort(ts);
    Sort(ts)[|ts| / 2]
  }

  /** The last eleven entries of a path, or all of it. */
  function Window(path: seq<Hash>): seq<Hash> {
    path[SatSub(|path|, MEDIAN_TIME_PAST_WINDOW)..]
  }

  function MedianTimePast(c: ChainState, parent: Hash): Result<nat, LedgerError>
    requires Linked(c)
  {
    match Ancestors(c, parent)
    case Err(e) => Err(e)
    case Ok(path) => Ok(Median(Timestamps(c.meta, Window(path))))
  }

  /** The retarget over the interval from block `start` to block `last`. */
  function RetargetBetween(last: Meta, start: Meta): Compact {
    Retarget(last.bits, Max(WrapI64(last.timestamp - start.timestamp), 1),
             RETARGET_INTERVAL_BLOCKS * TARGET_BLOCK_TIME_SECS)
  }

  predicate RetargetDue(height: nat) { height % RETARGET_INTERVAL_BLOCKS == 0 }

  function ExpectedDifficulty(c: ChainState, parent: Hash): Result<Compact, LedgerError>
    requires Linked(c)
  {
    if parent !in c.meta then Err(UnknownBlock(parent))
    else
      var m := c.meta[parent];
      if !RetargetDue(m.height + 1) then Ok(m.bits)
      else
        match Ancestors(c, parent)
        case Err(e) => Err(e)
        case Ok(path) =>
          var start := m.height + 1 - RETARGET_INTERVAL_BLOCKS;
          if start < c.floorHeight then Err(UnknownBlock(parent))
          else Ok(RetargetBetween(m, c.meta[path[start - c.floorHeight]]))
  }

  // ---- The rules of a block ---------------------------------------------------------------------

  /** The checks of one claim inside a block, in the program's order. */
  function CheckTx(o: Oracle, meta: MetaMap, height: nat, ancestry: seq<Hash>, parentOwners: Owners,
                   claimed: set<Username>, tx: Tx): Result<(), LedgerError>
  {
    match VerifySelfContained(o, tx)
    case Err(e) => Err(e)
    case Ok(_) =>
      if tx.claim.anchor !in ancestry || tx.claim.anchor !in meta then Err(AnchorInvalid)
      else if SatSub(height, meta[tx.claim.anchor].height) > ANCHOR_MAX_AGE_BLOCKS then Err(AnchorInvalid)
      else if tx.claim.username in parentOwners then Err(UsernameAlreadyClaimed(tx.claim.username))
      else if tx.claim.username in claimed then Err(DuplicateClaimInBlock(tx.claim.username))
      else Ok(())
  }

  function CheckTxs(o: Oracle, meta: MetaMap, height: nat, ancestry: seq<Hash>, parentOwners: Owners,
                    claimed: set<Username>, txs: seq<Tx>): Result<(), LedgerError>
    decreases |txs|
  {
    if |txs| == 0 then Ok(())
    else
      match CheckTx(o, meta, height, ancestry, parentOwners, claimed, txs[0])
      case Err(e) => Err(e)
      case Ok(_) => CheckTxs(o, meta, height, ancestry, parentOwners, claimed + {txs[0].claim.username}, txs[1..])
  }

  function ValidateTransactions(o: Oracle, c: ChainState, b: Block): Result<(), LedgerError>
    requires Linked(c)
  {
    if |b.txs| == 0 then Ok(())
    else
      match StateAt(c, b.header.prev)
      case Err(e) => Err(e)
      case Ok(parentOwners) =>
        match Ancestors(c, b.header.prev)
        case Err(e) => Err(e)
        case Ok(path) => CheckTxs(o, c.meta, b.header.height, path, parentOwners, {}, b.txs)
  }

  /** Every rule, in the program's order, so that the error reported is the program's too. */
  function ValidateBlock(o: Oracle, c: ChainState, b: Block, now: nat): Result<(), LedgerError>
    requires Linked(c)
  {
    if |b.txs| > MAX_TXS_PER_BLOCK then Err(TooManyTransactions)
    else if BlockSize(b) > MAX_BLOCK_BYTES then Err(BlockTooLarge)
    else if b.header.txCommitment != TxCommitment(o, b.txs) then Err(TxCommitmentMismatch)
    else if b.header.prev !in c.meta then Err(UnknownParent(b.header.prev))
    else if b.header.height != c.meta[b.header.prev].height + 1 then Err(HeightMismatch)
    else
      match ExpectedDifficulty(c, b.header.prev)
      case Err(e) => Err(e)
      case Ok(bits) =>
        if b.header.bits != bits then Err(DifficultyMismatch)
        else if BlockHash(o, b) > TargetValue(bits) then Err(ProofOfWorkInvalid)
        else
          match MedianTimePast(c, b.header.prev)
          case Err(e) => Err(e)
          case Ok(median) =>
            if b.header.timestamp <= median then Err(TimestampTooOld)
            else if b.header.timestamp > now + MAX_FUTURE_DRIFT_SECS then Err(TimestampTooFarInFuture)
            else ValidateTransactions(o, c, b)
  }

  // ---- Applying and pruning ---------------------------------------------------------------------

  /** Numbers the entries of a path from height `from` upward. */
  function IndexOf(path: seq<Hash>, from: nat): (index: map<nat, Hash>)
    ensures forall k :: k in index <==> from <= k < from + |path|
    ensures forall i :: 0 <= i < |path| ==> from + i in index && index[from + i] == path[i]
  {
    if |path| == 0 then map[]
    else IndexOf(path[..|path| - 1], from)[from + |path| - 1 := path[|path| - 1]]
  }

  /** Rebuilds the canonical index and owner map for a new tip; an error leaves a half-rebuilt chain. */
  function SetCanonicalTip(c: ChainState, h: Hash): (ChainState, Result<(), LedgerError>)
    requires Linked(c)
  {
    match Ancestors(c, h)
    case Err(e) => (c, Err(e))
    case Ok(path) =>
      var indexed := c.(index := IndexOf(path, c.floorHeight));
      match StateAt(c, h)
      case Err(e) => (indexed, Err(e))
      case Ok(owners) => (indexed.(owners := owners, tip := h), Ok(()))
  }

  /** The chain with one more block recorded, before fork choice. */
  function Recorded(o: Oracle, c: ChainState, b: Block): ChainState
    requires b.header.prev in c.meta
  {
    var h := BlockHash(o, b);
    var m := Meta(b.header.height, b.header.prev, b.header.timestamp, b.header.bits,
                  c.meta[b.header.prev].work + WorkOf(b.header.bits));
    c.(meta := c.meta[h := m], blocks := c.blocks[h := b])
  }

  lemma RecordedLinked(o: Oracle, c: ChainState, b: Block)
    requires Linked(c) && b.header.prev in c.meta && b.header.height == c.meta[b.header.prev].height + 1
    requires BlockHash(o, b) !in c.meta
    ensures Linked(Recorded(o, c, b))
  {
    var c2 := Recorded(o, c, b);
    forall h | h in c2.meta ensures LinkOk(c2.meta, h) {
      if h in c.meta {
        assert LinkOk(c.meta, h);
      }
    }
  }

  lemma ValidHasParent(o: Oracle, c: ChainState, b: Block, now: nat)
    requires Linked(c) && ValidateBlock(o, c, b, now).Ok?
    ensures b.header.prev in c.meta && b.header.height == c.meta[b.header.prev].height + 1
  {
  }

  /** Validates and records a block, and makes it the tip if its branch is now the heaviest. */
  function TryApply(o: Oracle, c: ChainState, b: Block, now: nat): (ChainState, Result<Outcome, LedgerError>)
    requires Linked(c)
  {
    var h := BlockHash(o, b);
    if h in c.meta then (c, Ok(AlreadyKnown))
    else
      match ValidateBlock(o, c, b, now)
      case Err(e) => (c, Err(e))
      case Ok(_) =>
        ValidHasParent(o, c, b, now);
        RecordedLinked(o, c, b);
        var recorded := Recorded(o, c, b);
        if recorded.meta[h].work <= recorded.meta[c.tip].work then (recorded, Ok(AddedToFork))
        else
          var (c2, r) := SetCanonicalTip(recorded, h);
          if r.Err? then (c2, Err(r.error))
          else (c2, Ok(if b.header.prev == c.tip then ExtendedTip else ReorgedTo(b.header.height)))
  }

  /** The bodies above a height. */
  function BodiesAbove(blocks: map<Hash, Block>, height: nat): map<Hash, Block> {
    map h | h in blocks && blocks[h].header.height > height :: blocks[h]
  }

  /** Drops the bodies at or below `height` and moves the floor there, if it is a canonical height. */
  function Prune(c: ChainState, height: nat): (ChainState, Result<(), LedgerError>)
    requires Linked(c)
  {
    if height <= c.floorHeight || height !in c.index then (c, Ok(()))
    else
      match StateAt(c, c.index[height])
      case Err(e) => (c, Err(e))
      case Ok(owners) =>
        (c.(blocks := BodiesAbove(c.blocks, height), floorOwners := owners, floor := c.index[height], floorHeight := height),
         Ok(()))
  }

  function CheckpointAt(c: ChainState, height: nat): Result<Checkpoint, LedgerError>
    requires Linked(c)
  {
    if height !in c.index then Err(HeightNotFound(height))
    else
      var h := c.index[height];
      if h !in c.meta then Err(UnknownBlock(h))
      else
        match StateAt(c, h)
        case Err(e) => Err(e)
        case Ok(owners) => Ok(Checkpoint(c.meta[h].height, h, c.meta[h].timestamp, c.meta[h].bits, c.meta[h].work, owners))
  }
}
