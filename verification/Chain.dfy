/** The in-memory chain as the program holds it: maps and cached views changed in place. */
module ChainObject {
  import opened Prelude
  import opened Difficulty
  import opened LedgerTypes
  import opened ChainRules
  import V = ChainViews

  function Reversed(s: seq<Hash>): seq<Hash> {
    if |s| == 0 then [] else Reversed(s[1..]) + [s[0]]
  }

  lemma {:induction false} ReversedAppend(s: seq<Hash>, x: Hash)
    ensures Reversed(s + [x]) == [x] + Reversed(s)
  {
    if |s| > 0 {
      assert (s + [x])[1..] == s[1..] + [x];
      ReversedAppend(s[1..], x);
    } else {
      assert s + [x] == [x];
    }
  }

  /** The answer of a walk that has collected `path`, newest first, and still has `rest` to go. */
  function Walked(rest: Result<seq<Hash>, LedgerError>, path: seq<Hash>): Result<seq<Hash>, LedgerError> {
    match rest
    case Err(e) => Err(e)
    case Ok(p) => Ok(p + Reversed(path))
  }

  lemma NothingWalkedYet(rest: Result<seq<Hash>, LedgerError>)
    ensures Walked(rest, []) == rest
  {
    if rest.Ok? {
      assert rest.value + [] == rest.value;
    }
  }

  lemma OneStepBack(meta: MetaMap, floor: Hash, h: Hash, path: seq<Hash>)
    requires TreeOk(meta) && h in meta
    ensures h != floor ==> Walked(Path(meta, floor, h), path) == Walked(Path(meta, floor, meta[h].prev), path + [h])
    ensures h == floor ==> Walked(Path(meta, floor, h), path) == Ok(Reversed(path + [h]))
  {
    assert LinkOk(meta, h);
    ReversedAppend(path, h);
    if h != floor && Path(meta, floor, meta[h].prev).Ok? {
      var p := Path(meta, floor, meta[h].prev).value;
      assert (p + [h]) + Reversed(path) == p + ([h] + Reversed(path));
    }
  }

  /** A path one block longer ends in the state one block later. */
  lemma StateAlongPath(c: ChainState, path: seq<Hash>, h: Hash, i: nat)
    requires Linked(c) && Ancestors(c, h) == Ok(path) && 0 < i < |path|
    ensures path[i] in c.meta && path[i] != c.floor && StateAt(c, path[i - 1]).Ok? ==>
              StateAt(c, path[i]) ==
                if path[i] !in c.blocks then Err(UnknownBlock(path[i]))
                else Ok(ApplyClaims(StateAt(c, path[i - 1]).value, c.blocks[path[i]].txs, c.blocks[path[i]].header.height, path[i]))
    ensures path[i] in c.meta && path[i] != c.floor
  {
    hide ApplyClaims;
    V.PathLinks(c.meta, c.floor, h, i);
    assert LinkOk(c.meta, path[i]);
  }

  /** A missing body on the path makes every later state undefined, with the same error. */
  lemma {:induction false} ErrorAlongPath(c: ChainState, path: seq<Hash>, h: Hash, i: nat)
    requires Linked(c) && Ancestors(c, h) == Ok(path) && 0 < i < |path| && StateAt(c, path[i]).Err?
    ensures StateAt(c, h) == StateAt(c, path[i])
    decreases |path| - i
  {
    if i + 1 < |path| {
      V.PathLinks(c.meta, c.floor, h, i + 1);
      assert LinkOk(c.meta, path[i + 1]);
      assert StateAt(c, path[i + 1]) == StateAt(c, path[i]);
      ErrorAlongPath(c, path, h, i + 1);
    }
  }

  class Chain {
    const o: Oracle
    var blocks: map<Hash, Block>
    var meta: MetaMap
    var tipHash: Hash
    var canonicalIndex: map<nat, Hash>
    var usernameOwner: Owners
    var floorHash: Hash
    var floorHeight: nat
    var floorUsernameOwner: Owners

    /** The chain's value. */
    ghost function Value(): ChainState
      reads this
    {
      ChainState(blocks, meta, tipHash, canonicalIndex, usernameOwner, floorHash, floorHeight, floorUsernameOwner)
    }

    constructor (o: Oracle)
      ensures this.o == o && Value() == Fresh(o)
    {
      this.o := o;
      var genesis := Genesis(o);
      var hash := BlockHash(o, genesis);
      blocks := map[hash := genesis];
      meta := map[hash := Meta(0, ZERO, GENESIS_TIMESTAMP, INITIAL_DIFFICULTY_BITS, 0.0)];
      tipHash, canonicalIndex, usernameOwner := hash, map[0 := hash], map[];
      floorHash, floorHeight, floorUsernameOwner := hash, 0, map[];
    }

    constructor FromCheckpoint(o: Oracle, k: Checkpoint)
      ensures this.o == o && Value() == ChainRules.FromCheckpoint(k)
    {
      this.o := o;
      blocks := map[];
      meta := map[k.hash := Meta(k.height, ZERO, k.timestamp, k.bits, k.work)];
      tipHash, canonicalIndex, usernameOwner := k.hash, map[k.height := k.hash], k.owners;
      floorHash, floorHeight, floorUsernameOwner := k.hash, k.height, k.owners;
    }

    /** Walks parents from `h` to the floor, then reverses; terminates because heights fall. */
    method AncestorsOf(h: Hash) returns (r: Result<seq<Hash>, LedgerError>)
      requires Linked(Value())
      ensures r == Ancestors(Value(), h)
    {
      var path: seq<Hash> := [];
      var current := h;
      NothingWalkedYet(Path(meta, floorHash, h));
      while true
        invariant Path(meta, floorHash, h) == Walked(Path(meta, floorHash, current), path)
        decreases if current in meta then meta[current].height + 1 else 0
      {
        if current !in meta {
          return Err(UnknownBlock(current));
        }
        assert LinkOk(meta, current);
        OneStepBack(meta, floorHash, current, path);
        path := path + [current];
        if current == floorHash {
          break;
        }
        current := meta[current].prev;
      }
      r := Ok(Reversed(path));
    }

    /** Replays the bodies between the floor and `h` over the floor's snapshot. */
    method StateOf(h: Hash) returns (r: Result<Owners, LedgerError>)
      requires Linked(Value())
      ensures r == StateAt(Value(), h)
    {
      var state := floorUsernameOwner;
      var ancestry := AncestorsOf(h);
      if ancestry.Err? {
        NoPathNoState(Value(), h);
        return Err(ancestry.error);
      }
      var path := ancestry.value;
      for i := 0 to |path|
        invariant i == 0 ==> state == floorUsernameOwner
        invariant i > 0 ==> StateAt(Value(), path[i - 1]) == Ok(state)
      {
        if i > 0 {
          StateAlongPath(Value(), path, h, i);
        }
        if path[i] != floorHash {
          if path[i] !in blocks {
            ErrorAlongPath(Value(), path, h, i);
            return Err(UnknownBlock(path[i]));
          }
          var block := blocks[path[i]];
          ghost var before := state;
          for j := 0 to |block.txs|
            invariant state == ApplyClaims(before, block.txs[..j], block.header.height, path[i])
          {
            var tx := block.txs[j];
            assert block.txs[..j + 1][..j] == block.txs[..j];
            state := state[tx.claim.username := Owner(tx.claim.owner, block.header.height, path[i])];
          }
          assert block.txs[..|block.txs|] == block.txs;
        }
      }
      r := Ok(state);
    }

    method MedianTimePastOf(parent: Hash) returns (r: Result<nat, LedgerError>)
      requires Linked(Value())
      ensures r == MedianTimePast(Value(), parent)
    {
      var ancestry := AncestorsOf(parent);
      if ancestry.Err? {
        return Err(ancestry.error);
      }
      r := Ok(Median(Timestamps(meta, Window(ancestry.value))));
    }

    method ExpectedDifficultyOf(parent: Hash) returns (r: Result<Compact, LedgerError>)
      requires Linked(Value())
      ensures r == ExpectedDifficulty(Value(), parent)
    {
      hide Retarget;
      if parent !in meta {
        return Err(UnknownBlock(parent));
      }
      var parentMeta := meta[parent];
      if !RetargetDue(parentMeta.height + 1) {
        return Ok(parentMeta.bits);
      }
      var start := parentMeta.height + 1 - RETARGET_INTERVAL_BLOCKS;
      var ancestry := AncestorsOf(parent);
      if ancestry.Err? {
        return Err(ancestry.error);
      }
      if start < floorHeight {
        return Err(UnknownBlock(parent));
      }
      r := Ok(RetargetBetween(parentMeta, meta[ancestry.value[start - floorHeight]]));
    }

    method ValidateTransactionsOf(b: Block) returns (r: Result<(), LedgerError>)
      requires Linked(Value())
      ensures r == ValidateTransactions(o, Value(), b)
    {
      if |b.txs| == 0 {
        return Ok(());
      }
      var parentState := StateOf(b.header.prev);
      if parentState.Err? {
        return Err(parentState.error);
      }
      var ancestry := AncestorsOf(b.header.prev);
      if ancestry.Err? {
        return Err(ancestry.error);
      }
      var claimed: set<Username> := {};
      for i := 0 to |b.txs|
        invariant CheckTxs(o, meta, b.header.height, ancestry.value, parentState.value, {}, b.txs)
               == CheckTxs(o, meta, b.header.height, ancestry.value, parentState.value, claimed, b.txs[i..])
      {
        var tx := b.txs[i];
        assert b.txs[i..][1..] == b.txs[i + 1..];
        var verified := VerifySelfContained(o, tx);
        if verified.Err? {
          return Err(verified.error);
        }
        if tx.claim.anchor !in ancestry.value || tx.claim.anchor !in meta {
          return Err(AnchorInvalid);
        }
        if SatSub(b.header.height, meta[tx.claim.anchor].height) > ANCHOR_MAX_AGE_BLOCKS {
          return Err(AnchorInvalid);
        }
        if tx.claim.username in parentState.value {
          return Err(UsernameAlreadyClaimed(tx.claim.username));
        }
        if tx.claim.username in claimed {
          return Err(DuplicateClaimInBlock(tx.claim.username));
        }
        claimed := claimed + {tx.claim.username};
      }
      r := Ok(());
    }

    method Validate(b: Block, now: nat) returns (r: Result<(), LedgerError>)
      requires Linked(Value())
      ensures r == ValidateBlock(o, Value(), b, now)
    {
      hide ExpectedDifficulty, MedianTimePast, ValidateTransactions, TargetValue, TxCommitment, BlockSize;
      if |b.txs| > MAX_TXS_PER_BLOCK {
        return Err(TooManyTransactions);
      }
      if BlockSize(b) > MAX_BLOCK_BYTES {
        return Err(BlockTooLarge);
      }
      if b.header.txCommitment != TxCommitment(o, b.txs) {
        return Err(TxCommitmentMismatch);
      }
      if b.header.prev !in meta {
        return Err(UnknownParent(b.header.prev));
      }
      if b.header.height != meta[b.header.prev].height + 1 {
        return Err(HeightMismatch);
      }
      var expected := ExpectedDifficultyOf(b.header.prev);
      if expected.Err? {
        return Err(expected.error);
      }
      if b.header.bits != expected.value {
        return Err(DifficultyMismatch);
      }
      if BlockHash(o, b) > TargetValue(expected.value) {
        return Err(ProofOfWorkInvalid);
      }
      var median := MedianTimePastOf(b.header.prev);
      if median.Err? {
        return Err(median.error);
      }
      if b.header.timestamp <= median.value {
        return Err(TimestampTooOld);
      }
      if b.header.timestamp > now + MAX_FUTURE_DRIFT_SECS {
        return Err(TimestampTooFarInFuture);
      }
      r := ValidateTransactionsOf(b);
    }

    /** Clears and refills the canonical index before the owner map is known to be computable. */
    method SetTip(h: Hash) returns (r: Result<(), LedgerError>)
      requires Linked(Value())
      modifies this
      ensures (Value(), r) == SetCanonicalTip(old(Value()), h)
    {
      hide Linked, Path, StateAt;
      var ancestry := AncestorsOf(h);
      if ancestry.Err? {
        return Err(ancestry.error);
      }
      var path := ancestry.value;
      canonicalIndex := map[];
      for offset := 0 to |path|
        invariant Value() == old(Value()).(index := canonicalIndex)
        invariant canonicalIndex == IndexOf(path[..offset], floorHeight)
      {
        assert path[..offset + 1][..offset] == path[..offset];
        canonicalIndex := canonicalIndex[floorHeight + offset := path[offset]];
      }
      assert path[..|path|] == path;
      IndexIrrelevant(old(Value()), Value(), h);
      var state := StateOf(h);
      if state.Err? {
        return Err(state.error);
      }
      usernameOwner := state.value;
      tipHash := h;
      r := Ok(());
    }

    method TryApply(b: Block, now: nat) returns (r: Result<Outcome, LedgerError>)
      requires Linked(Value())
      modifies this
      ensures (Value(), r) == ChainRules.TryApply(o, old(Value()), b, now)
    {
      hide ValidateBlock, SetCanonicalTip, WorkOf, BlockHash;
      var hash := BlockHash(o, b);
      if hash in meta {
        return Ok(AlreadyKnown);
      }
      var valid := Validate(b, now);
      if valid.Err? {
        return Err(valid.error);
      }
      ValidHasParent(o, Value(), b, now);
      RecordedLinked(o, Value(), b);
      var parent := b.header.prev;
      var work := meta[parent].work + WorkOf(b.header.bits);
      meta := meta[hash := Meta(b.header.height, parent, b.header.timestamp, b.header.bits, work)];
      blocks := blocks[hash := b];
      assert Value() == Recorded(o, old(Value()), b);
      var tipWork := meta[tipHash].work;
      if work <= tipWork {
        return Ok(AddedToFork);
      }
      var extendedTip := parent == tipHash;
      var moved := SetTip(hash);
      if moved.Err? {
        return Err(moved.error);
      }
      r := Ok(if extendedTip then ExtendedTip else ReorgedTo(b.header.height));
    }

    method PruneBodiesUpTo(height: nat) returns (r: Result<(), LedgerError>)
      requires Linked(Value())
      modifies this
      ensures (Value(), r) == Prune(old(Value()), height)
    {
      if height <= floorHeight || height !in canonicalIndex {
        return Ok(());
      }
      var newFloor := canonicalIndex[height];
      var state := StateOf(newFloor);
      if state.Err? {
        return Err(state.error);
      }
      blocks := BodiesAbove(blocks, height);
      floorUsernameOwner := state.value;
      floorHash := newFloor;
      floorHeight := height;
      r := Ok(());
    }

    method MakeCheckpoint(height: nat) returns (r: Result<Checkpoint, LedgerError>)
      requires Linked(Value())
      ensures r == CheckpointAt(Value(), height)
    {
      if height !in canonicalIndex {
        return Err(HeightNotFound(height));
      }
      var hash := canonicalIndex[height];
      if hash !in meta {
        return Err(UnknownBlock(hash));
      }
      var state := StateOf(hash);
      if state.Err? {
        return Err(state.error);
      }
      var m := meta[hash];
      r := Ok(Checkpoint(m.height, hash, m.timestamp, m.bits, m.work, state.value));
    }
  }

  lemma {:induction false} NoPathNoState(c: ChainState, h: Hash)
    requires Linked(c) && Ancestors(c, h).Err?
    ensures StateAt(c, h) == Err(Ancestors(c, h).error)
    decreases if h in c.meta then c.meta[h].height + 1 else 0
  {
    if h in c.meta {
      assert LinkOk(c.meta, h);
      NoPathNoState(c, c.meta[h].prev);
    }
  }

  lemma {:induction false} IndexIrrelevant(c1: ChainState, c2: ChainState, h: Hash)
    requires Linked(c1) && c2 == c1.(index := c2.index)
    ensures Linked(c2) && StateAt(c1, h) == StateAt(c2, h)
    decreases if h in c1.meta then c1.meta[h].height + 1 else 0
  {
    if h in c1.meta && h != c1.floor {
      assert LinkOk(c1.meta, h);
      IndexIrrelevant(c1, c2, c1.meta[h].prev);
    }
  }
}
