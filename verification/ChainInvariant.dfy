/**
 The invariant of `Chain`, stated against the complete history: every body ever accepted, including
 those already pruned. `Whole` is the chain that never pruned.
 */
module ChainInvariant {
  import opened Prelude
  import opened Difficulty
  import opened LedgerTypes
  import opened ChainRules
  import opened ChainViews

  /** Every accepted body, and the trusted start: genesis with no owners, or a checkpoint. */
  datatype History = History(bodies: map<Hash, Block>, root: Hash, rootOwners: Owners)

  /** The chain with its complete history and its floor back at the root. */
  function Whole(c: ChainState, g: History): ChainState
    requires g.root in c.meta
  {
    c.(blocks := g.bodies, floor := g.root, floorHeight := c.meta[g.root].height, floorOwners := g.rootOwners)
  }

  ghost predicate BodyOk(o: Oracle, meta: MetaMap, g: History, h: Hash)
    requires h in meta
  {
    && meta[h].prev in meta && h in g.bodies
    && (var b := g.bodies[h].header;
        && o.headerHash(b) == h
        && meta[h] == Meta(b.height, b.prev, b.timestamp, b.bits, meta[meta[h].prev].work + WorkOf(b.bits)))
  }

  /** All metadata hangs off the root and restates the headers of the complete history. */
  ghost predicate Rooted(o: Oracle, c: ChainState, g: History) {
    && Linked(c) && g.root in c.meta && c.meta[g.root].prev == ZERO
    && (forall h :: h in c.meta && h != g.root ==> BodyOk(o, c.meta, g, h))
    && (forall h :: h in g.bodies ==> h in c.meta && g.bodies[h].header.height == c.meta[h].height)
  }

  /** Exactly the bodies above the floor are kept; a genesis body stays until its chain first prunes. */
  ghost predicate Retained(c: ChainState, g: History) {
    && (forall h :: h in c.blocks ==> h in g.bodies && c.blocks[h] == g.bodies[h])
    && (forall h :: h in c.blocks && h in c.meta ==> c.meta[h].height > c.floorHeight || (h == g.root == c.floor))
    && (forall h :: h in c.meta && h != g.root && c.meta[h].height > c.floorHeight ==> h in c.blocks)
  }

  /** Every rule of `validate_block` except the two about time. */
  ghost predicate Lawful(o: Oracle, c: ChainState, b: Block)
    requires Linked(c)
  {
    && |b.txs| <= MAX_TXS_PER_BLOCK && BlockSize(b) <= MAX_BLOCK_BYTES
    && b.header.txCommitment == TxCommitment(o, b.txs)
    && b.header.prev in c.meta && b.header.height == c.meta[b.header.prev].height + 1
    && ExpectedDifficulty(c, b.header.prev) == Ok(b.header.bits)
    && BlockHash(o, b) <= TargetValue(b.header.bits)
    && ValidateTransactions(o, c, b).Ok?
  }

  ghost predicate AllLawful(o: Oracle, c: ChainState, g: History)
    requires Rooted(o, c, g)
  {
    forall h :: h in c.meta && h != g.root ==> Lawful(o, Whole(c, g), g.bodies[h])
  }

  /** `index` numbers entries of `path` from height `base`, and misses none at or above `from`. */
  ghost predicate IndexMatches(index: map<nat, Hash>, path: seq<Hash>, base: nat, from: nat) {
    && (forall k :: k in index ==> base <= k < base + |path| && index[k] == path[k - base])
    && (forall k :: base <= k && from <= k < base + |path| ==> k in index)
  }

  /** The canonical index is the tip's path, complete from the floor upward. */
  ghost predicate IndexOk(c: ChainState, g: History)
    requires Linked(c) && g.root in c.meta && Path(c.meta, g.root, c.tip).Ok?
  {
    IndexMatches(c.index, Path(c.meta, g.root, c.tip).value, c.meta[g.root].height, c.floorHeight)
  }

  /** The floor lies on the tip's path, and both owner maps replay the complete history. */
  ghost predicate ViewsOk(c: ChainState, g: History)
    requires Linked(c) && g.root in c.meta
  {
    && Ancestors(c, c.tip).Ok? && Path(c.meta, g.root, c.tip).Ok?
    && StateAt(Whole(c, g), c.floor) == Ok(c.floorOwners)
    && StateAt(Whole(c, g), c.tip) == Ok(c.owners)
    && IndexOk(c, g)
  }

  ghost predicate TipHeaviest(c: ChainState)
    requires c.tip in c.meta
  {
    forall h :: h in c.meta ==> c.meta[h].work <= c.meta[c.tip].work
  }

  ghost predicate Inv(o: Oracle, c: ChainState, g: History) {
    Rooted(o, c, g) && Retained(c, g) && AllLawful(o, c, g) && ViewsOk(c, g) && TipHeaviest(c)
  }

  // ---- The complete history answers for every known block ---------------------------------------

  /** Every known block's ancestry reaches the root, and its complete replay is defined. */
  lemma {:induction false} EveryBlockIsRooted(o: Oracle, c: ChainState, g: History, h: Hash)
    requires Rooted(o, c, g) && h in c.meta
    ensures Path(c.meta, g.root, h).Ok? && Ancestors(Whole(c, g), h) == Path(c.meta, g.root, h)
    ensures StateAt(Whole(c, g), h).Ok?
    decreases c.meta[h].height
  {
    if h != g.root {
      assert BodyOk(o, c.meta, g, h);
      assert LinkOk(c.meta, h);
      EveryBlockIsRooted(o, c, g, c.meta[h].prev);
    }
  }

  /** If the walk to the floor succeeds, the floor is on the path to the root. */
  lemma {:induction false} FloorOnRootPath(meta: MetaMap, root: Hash, floor: Hash, h: Hash)
    requires TreeOk(meta) && Path(meta, root, h).Ok? && Path(meta, floor, h).Ok?
    requires meta[root].height <= meta[floor].height
    ensures floor in Path(meta, root, h).value
    decreases if h in meta then meta[h].height else 0
  {
    var p := Path(meta, root, h).value;
    if h == floor {
      assert p[|p| - 1] == h;
    } else if h != root {
      assert LinkOk(meta, h);
      FloorOnRootPath(meta, root, floor, meta[h].prev);
    }
  }

  lemma RootIsLowest(o: Oracle, c: ChainState, g: History, h: Hash)
    requires Rooted(o, c, g) && h in c.meta
    ensures c.meta[g.root].height <= c.meta[h].height
  {
    EveryBlockIsRooted(o, c, g, h);
    assert |Path(c.meta, g.root, h).value| > 0;
  }

  /** Replaying retained bodies from the floor's snapshot gives the complete replay. */
  lemma {:induction false} RetainedReplayIsComplete(o: Oracle, c: ChainState, g: History, h: Hash)
    requires Rooted(o, c, g) && Retained(c, g) && Ancestors(c, h).Ok?
    requires StateAt(Whole(c, g), c.floor) == Ok(c.floorOwners)
    ensures h in c.meta && StateAt(c, h) == StateAt(Whole(c, g), h) && StateAt(c, h).Ok?
    decreases if h in c.meta then c.meta[h].height else 0
  {
    if h != c.floor {
      assert LinkOk(c.meta, h);
      RetainedReplayIsComplete(o, c, g, c.meta[h].prev);
      RootIsLowest(o, c, g, c.floor);
      assert c.meta[h].height > c.floorHeight;
      assert h != g.root;
      EveryBlockIsRooted(o, c, g, h);
    }
  }

  lemma SameMetaSameFacts(meta: MetaMap, path: seq<Hash>)
    requires forall i :: 0 <= i < |path| ==> path[i] in meta
    ensures SameFactsOn(meta, meta, path)
  {
    forall i | 0 <= i < |path| ensures SameFacts(meta, meta, path[i]) {
    }
  }

  /** A path from the floor is the path from the root, cut at the floor. */
  lemma CutPath(o: Oracle, c: ChainState, g: History, h: Hash)
    requires Rooted(o, c, g) && Ancestors(c, h).Ok?
    ensures h in c.meta && Path(c.meta, g.root, h).Ok? && c.meta[g.root].height <= c.floorHeight
    ensures c.floorHeight - c.meta[g.root].height < |Path(c.meta, g.root, h).value|
    ensures Ancestors(c, h).value == Path(c.meta, g.root, h).value[c.floorHeight - c.meta[g.root].height..]
  {
    hide Path, StateAt, BodyOk, LinkOk, TreeOk;
    EveryBlockIsRooted(o, c, g, h);
    RootIsLowest(o, c, g, c.floor);
    FloorOnRootPath(c.meta, g.root, c.floor, h);
    PathSuffix(c.meta, g.root, c.floor, h);
    PathPosition(c.meta, g.root, h, c.floor);
  }

  /** The chain sees the complete ancestry of a block above its floor, cut at the floor. */
  lemma ChainSeesCut(o: Oracle, c: ChainState, g: History, h: Hash)
    requires Rooted(o, c, g) && Retained(c, g) && Ancestors(c, h).Ok?
    requires StateAt(Whole(c, g), c.floor) == Ok(c.floorOwners)
    ensures h in c.meta && Linked(Whole(c, g)) && CutView(Whole(c, g), c, h)
  {
    hide Path, StateAt, BodyOk, LinkOk, TreeOk, Retained, SameFactsOn;
    CutPath(o, c, g, h);
    RetainedReplayIsComplete(o, c, g, h);
    SameMetaSameFacts(c.meta, Ancestors(c, h).value);
  }

  /** The separate facts a successful validation establishes. */
  lemma ValidParts(o: Oracle, c: ChainState, b: Block, now: nat)
    requires Linked(c) && ValidateBlock(o, c, b, now).Ok?
    ensures b.header.prev in c.meta && b.header.height == c.meta[b.header.prev].height + 1
    ensures |b.txs| <= MAX_TXS_PER_BLOCK && BlockSize(b) <= MAX_BLOCK_BYTES
    ensures b.header.txCommitment == TxCommitment(o, b.txs)
    ensures ExpectedDifficulty(c, b.header.prev) == Ok(b.header.bits) && BlockHash(o, b) <= TargetValue(b.header.bits)
    ensures ValidateTransactions(o, c, b).Ok?
    ensures Ancestors(c, b.header.prev).Ok? && b.header.timestamp > MedianTimePast(c, b.header.prev).value
    ensures b.header.timestamp <= now + MAX_FUTURE_DRIFT_SECS
  {
    hide ExpectedDifficulty, ValidateTransactions, TxCommitment, BlockSize, TargetValue, Median, Timestamps;
  }

  lemma CutTransactions(o: Oracle, w: ChainState, c: ChainState, b: Block)
    requires Linked(w) && Linked(c) && CutView(w, c, b.header.prev) && w.meta == c.meta
    requires ValidateTransactions(o, c, b).Ok?
    ensures ValidateTransactions(o, w, b).Ok?
  {
    if |b.txs| > 0 {
      var p1, p2 := Ancestors(w, b.header.prev).value, Ancestors(c, b.header.prev).value;
      MoreAnchorsStillOk(o, c.meta, p2, w.meta, p1, b.header.height, StateAt(c, b.header.prev).value, {}, b.txs);
    }
  }

  /** A block accepted above any floor is lawful in the complete history. */
  lemma AcceptedIsLawful(o: Oracle, c: ChainState, g: History, b: Block, now: nat)
    requires Inv(o, c, g) && ValidateBlock(o, c, b, now).Ok?
    ensures Ancestors(c, b.header.prev).Ok? && b.header.prev in c.meta
    ensures Lawful(o, Whole(c, g), b)
  {
    hide ValidateBlock, ValidateTransactions, ExpectedDifficulty, BodyOk, LinkOk, IndexOk, Path, StateAt, RetargetDue,
         CutView, TargetValue, TxCommitment, BlockSize, AllLawful, Retained, TipHeaviest, TreeOk;
    ValidParts(o, c, b, now);
    ChainSeesCut(o, c, g, b.header.prev);
    CutDifficulty(Whole(c, g), c, b.header.prev);
    CutTransactions(o, Whole(c, g), c, b);
  }

  lemma {:induction false} MoreAnchorsStillOk(
      o: Oracle, m1: MetaMap, p1: seq<Hash>, m2: MetaMap, p2: seq<Hash>, height: nat, owners: Owners,
      claimed: set<Username>, txs: seq<Tx>)
    requires CheckTxs(o, m1, height, p1, owners, claimed, txs).Ok?
    requires forall a: Hash :: AnchorOk(m1, p1, height, a) ==> AnchorOk(m2, p2, height, a)
    ensures CheckTxs(o, m2, height, p2, owners, claimed, txs).Ok?
    decreases |txs|
  {
    if |txs| > 0 {
      assert AnchorOk(m1, p1, height, txs[0].claim.anchor);
      MoreAnchorsStillOk(o, m1, p1, m2, p2, height, owners, claimed + {txs[0].claim.username}, txs[1..]);
    }
  }

  // ---- What accepted claims look like -----------------------------------------------------------

  ghost predicate TxLawful(o: Oracle, meta: MetaMap, height: nat, path: seq<Hash>, owners: Owners, tx: Tx) {
    VerifySelfContained(o, tx).Ok? && AnchorOk(meta, path, height, tx.claim.anchor) && tx.claim.username !in owners
  }

  ghost predicate DistinctNames(txs: seq<Tx>) {
    forall i, j :: 0 <= i < j < |txs| ==> txs[i].claim.username != txs[j].claim.username
  }

  /** A block's claims pass exactly when each is lawful on its own and no name repeats. */
  lemma {:induction false} ChecksPassExactly(
      o: Oracle, meta: MetaMap, height: nat, path: seq<Hash>, owners: Owners, claimed: set<Username>, txs: seq<Tx>)
    ensures CheckTxs(o, meta, height, path, owners, claimed, txs).Ok? <==>
              && (forall i :: 0 <= i < |txs| ==>
                    TxLawful(o, meta, height, path, owners, txs[i]) && txs[i].claim.username !in claimed)
              && DistinctNames(txs)
    decreases |txs|
  {
    if |txs| > 0 {
      var more := claimed + {txs[0].claim.username};
      ChecksPassExactly(o, meta, height, path, owners, more, txs[1..]);
      var rest := txs[1..];
      if CheckTxs(o, meta, height, path, owners, claimed, txs).Ok? {
        forall i | 0 <= i < |txs|
          ensures TxLawful(o, meta, height, path, owners, txs[i]) && txs[i].claim.username !in claimed
          ensures i > 0 ==> txs[i].claim.username != txs[0].claim.username
        {
          if i > 0 {
            assert txs[i] == rest[i - 1];
          }
        }
        forall i, j | 0 <= i < j < |txs| ensures txs[i].claim.username != txs[j].claim.username {
          if i > 0 {
            assert txs[i] == rest[i - 1] && txs[j] == rest[j - 1];
          }
        }
      }
      if && (forall i :: 0 <= i < |txs| ==> TxLawful(o, meta, height, path, owners, txs[i]) && txs[i].claim.username !in claimed)
         && DistinctNames(txs)
      {
        assert TxLawful(o, meta, height, path, owners, txs[0]);
        forall i | 0 <= i < |rest|
          ensures TxLawful(o, meta, height, path, owners, rest[i]) && rest[i].claim.username !in more
        {
          assert rest[i] == txs[i + 1];
        }
      }
    }
  }

  /** Claiming only free names never overwrites an owner. */
  lemma {:induction false} FreshClaimsKeepOwners(owners: Owners, txs: seq<Tx>, height: nat, hash: Hash, u: Username)
    requires u in owners && forall i :: 0 <= i < |txs| ==> txs[i].claim.username !in owners
    ensures u in ApplyClaims(owners, txs, height, hash) && ApplyClaims(owners, txs, height, hash)[u] == owners[u]
    decreases |txs|
  {
    if |txs| > 0 {
      FreshClaimsKeepOwners(owners, txs[..|txs| - 1], height, hash, u);
      assert txs[|txs| - 1].claim.username !in owners;
    }
  }

  /** The complete replay at `h` gives `u` the record `r`. */
  ghost predicate OwnerAt(c: ChainState, g: History, h: Hash, u: Username, r: Owner)
    requires Linked(c) && g.root in c.meta
  {
    StateAt(Whole(c, g), h).Ok? && u in StateAt(Whole(c, g), h).value && StateAt(Whole(c, g), h).value[u] == r
  }

  lemma ChildKeepsOwner(o: Oracle, c: ChainState, g: History, d: Hash, u: Username, r: Owner)
    requires Rooted(o, c, g) && AllLawful(o, c, g) && d in c.meta && d != g.root
    requires OwnerAt(c, g, c.meta[d].prev, u, r)
    ensures OwnerAt(c, g, d, u, r)
  {
    hide Retarget, ExpectedDifficulty, TargetValue, TxCommitment, BlockSize, CheckTxs, TreeOk, LinkOk;
    assert BodyOk(o, c.meta, g, d);
    var w := Whole(c, g);
    var parent := c.meta[d].prev;
    EveryBlockIsRooted(o, c, g, parent);
    var block := g.bodies[d];
    assert Lawful(o, w, block);
    if |block.txs| > 0 {
      ChecksPassExactly(o, w.meta, block.header.height, Ancestors(w, parent).value, StateAt(w, parent).value, {}, block.txs);
      FreshClaimsKeepOwners(StateAt(w, parent).value, block.txs, block.header.height, d, u);
    }
  }

  /**
   First claim wins on every branch: an owner recorded at a block is the owner, with the identical
   record, at each of its descendants.
   */
  lemma {:induction false} FirstClaimWins(o: Oracle, c: ChainState, g: History, b: Hash, d: Hash, u: Username, r: Owner)
    requires Rooted(o, c, g) && AllLawful(o, c, g)
    requires Path(c.meta, g.root, d).Ok? && b in Path(c.meta, g.root, d).value
    requires OwnerAt(c, g, b, u, r)
    ensures OwnerAt(c, g, d, u, r)
    decreases if d in c.meta then c.meta[d].height else 0
  {
    if d != b {
      PathPosition(c.meta, g.root, d, b);
      assert LinkOk(c.meta, d);
      assert d != g.root;
      FirstClaimWins(o, c, g, b, c.meta[d].prev, u, r);
      ChildKeepsOwner(o, c, g, d, u, r);
    }
  }
}
