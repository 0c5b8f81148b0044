/** Every operation keeps the chain invariant, so it holds after any mix of applying, reorganising and pruning. */
module ChainRuns {
  import opened Prelude
  import opened Difficulty
  import opened LedgerTypes
  import opened ChainRules
  import opened ChainViews
  import opened ChainInvariant

  function GenesisHistory(o: Oracle): History {
    var b := Genesis(o);
    History(map[BlockHash(o, b) := b], BlockHash(o, b), map[])
  }

  lemma FreshInv(o: Oracle)
    ensures Inv(o, Fresh(o), GenesisHistory(o))
  {
    var c, g := Fresh(o), GenesisHistory(o);
    assert LinkOk(c.meta, c.tip);
    assert Path(c.meta, g.root, c.tip) == Ok([c.tip]);
    assert Rooted(o, c, g);
  }

  function CheckpointHistory(k: Checkpoint): History { History(map[], k.hash, k.owners) }

  lemma CheckpointInv(o: Oracle, k: Checkpoint)
    requires k.hash != ZERO
    ensures Inv(o, FromCheckpoint(k), CheckpointHistory(k))
  {
    var c, g := FromCheckpoint(k), CheckpointHistory(k);
    assert LinkOk(c.meta, c.tip);
    assert Path(c.meta, g.root, c.tip) == Ok([c.tip]);
    assert Rooted(o, c, g);
  }

  // ---- One more block ---------------------------------------------------------------------------

  /** `c2` is `c` with metadata and a body for one more block `h`. */
  ghost predicate Extension(c: ChainState, c2: ChainState, h: Hash) {
    && Linked(c) && Linked(c2) && h !in c.meta && h in c2.meta
    && c2.meta == c.meta[h := c2.meta[h]]
    && c2.floor == c.floor && c2.floorHeight == c.floorHeight && c2.floorOwners == c.floorOwners
    && (forall x :: x in c.meta ==> (x in c.blocks <==> x in c2.blocks))
    && (forall x :: x in c.meta && x in c.blocks ==> c2.blocks[x] == c.blocks[x])
  }

  lemma {:induction false} ExtendedPath(m1: MetaMap, m2: MetaMap, floor: Hash, h: Hash, x: Hash)
    requires TreeOk(m1) && TreeOk(m2) && h !in m1 && h in m2 && m2 == m1[h := m2[h]] && x in m1
    ensures Path(m2, floor, x) == Path(m1, floor, x)
    decreases m1[x].height
  {
    if x != floor {
      assert LinkOk(m1, x) && LinkOk(m2, x);
      if m1[x].prev in m1 {
        ExtendedPath(m1, m2, floor, h, m1[x].prev);
      }
    }
  }

  lemma {:induction false} ExtendedState(c: ChainState, c2: ChainState, h: Hash, x: Hash)
    requires Extension(c, c2, h) && x in c.meta
    ensures StateAt(c2, x) == StateAt(c, x)
    decreases c.meta[x].height
  {
    if x != c.floor {
      assert LinkOk(c.meta, x) && LinkOk(c2.meta, x);
      if c.meta[x].prev in c.meta {
        ExtendedState(c, c2, h, c.meta[x].prev);
      }
    }
  }

  /** Nothing about an already known block changes when another is recorded. */
  lemma ExtensionKeepsView(c: ChainState, c2: ChainState, h: Hash, x: Hash)
    requires Extension(c, c2, h) && x in c.meta && Ancestors(c, x).Ok?
    ensures SameView(c, c2, x)
  {
    ExtendedPath(c.meta, c2.meta, c.floor, h, x);
    ExtendedState(c, c2, h, x);
    var path := Ancestors(c, x).value;
    forall i | 0 <= i < |path| ensures SameFacts(c.meta, c2.meta, path[i]) {
      assert path[i] in c.meta;
    }
  }

  lemma SameViewSameLaw(o: Oracle, c1: ChainState, c2: ChainState, b: Block)
    requires Linked(c1) && Linked(c2) && SameView(c1, c2, b.header.prev) && Lawful(o, c1, b)
    ensures Lawful(o, c2, b)
  {
    hide Retarget;
    var path := Ancestors(c1, b.header.prev).value;
    assert SameFacts(c1.meta, c2.meta, path[|path| - 1]);
    SameViewSameDifficulty(c1, c2, b.header.prev);
    SameFactsSameAnchors(c1.meta, c2.meta, path, b.header.height);
    if |b.txs| > 0 {
      SameAnchorsSameChecks(o, c1.meta, path, c2.meta, path, b.header.height, StateAt(c1, b.header.prev).value, {}, b.txs);
    }
  }

  function AddBody(g: History, h: Hash, b: Block): History { g.(bodies := g.bodies[h := b]) }

  /** A block that may be recorded under `c`: unknown, one above its known parent. */
  ghost predicate Recordable(o: Oracle, c: ChainState, b: Block) {
    b.header.prev in c.meta && b.header.height == c.meta[b.header.prev].height + 1 && BlockHash(o, b) !in c.meta
  }

  lemma RecordedIsExtension(o: Oracle, c: ChainState, g: History, b: Block)
    requires Rooted(o, c, g)
    requires Recordable(o, c, b)
    ensures var h := BlockHash(o, b);
            && Extension(c, Recorded(o, c, b), h)
            && Extension(Whole(c, g), Whole(Recorded(o, c, b), AddBody(g, h, b)), h)
  {
    RecordedLinked(o, c, b);
  }

  lemma RecordedIsRooted(o: Oracle, c: ChainState, g: History, b: Block)
    requires Rooted(o, c, g) && Recordable(o, c, b)
    ensures Rooted(o, Recorded(o, c, b), AddBody(g, BlockHash(o, b), b))
  {
    hide WorkOf;
    RecordedLinked(o, c, b);
    var h := BlockHash(o, b);
    var c2, g2 := Recorded(o, c, b), AddBody(g, h, b);
    forall x | x in c2.meta && x != g2.root ensures BodyOk(o, c2.meta, g2, x) {
      if x != h {
        assert BodyOk(o, c.meta, g, x);
      }
    }
  }

  lemma RecordedIsRetained(o: Oracle, c: ChainState, g: History, b: Block)
    requires Rooted(o, c, g) && Retained(c, g) && Recordable(o, c, b)
    requires c.meta[b.header.prev].height >= c.floorHeight
    ensures Retained(Recorded(o, c, b), AddBody(g, BlockHash(o, b), b))
  {
    hide WorkOf, BodyOk, LinkOk, TreeOk;
    assert BlockHash(o, b) !in g.bodies;
  }

  lemma RecordedIsLawful(o: Oracle, c: ChainState, g: History, b: Block)
    requires Rooted(o, c, g) && Retained(c, g) && AllLawful(o, c, g) && Lawful(o, Whole(c, g), b)
    requires Recordable(o, c, b)
    requires Rooted(o, Recorded(o, c, b), AddBody(g, BlockHash(o, b), b))
    ensures AllLawful(o, Recorded(o, c, b), AddBody(g, BlockHash(o, b), b))
  {
    var h := BlockHash(o, b);
    var c2, g2 := Recorded(o, c, b), AddBody(g, h, b);
    RecordedIsExtension(o, c, g, b);
    forall x | x in c2.meta && x != g2.root ensures Lawful(o, Whole(c2, g2), g2.bodies[x]) {
      var body := g2.bodies[x];
      if x != h {
        assert BodyOk(o, c.meta, g, x);
        assert Lawful(o, Whole(c, g), body);
      }
      EveryBlockIsRooted(o, c, g, body.header.prev);
      ExtensionKeepsView(Whole(c, g), Whole(c2, g2), h, body.header.prev);
      SameViewSameLaw(o, Whole(c, g), Whole(c2, g2), body);
    }
  }

  /** Recording a block without making it the tip leaves the canonical views as they were. */
  lemma RecordedKeepsViews(o: Oracle, c: ChainState, g: History, b: Block)
    requires Rooted(o, c, g) && ViewsOk(c, g) && Recordable(o, c, b)
    ensures Linked(Recorded(o, c, b)) && ViewsOk(Recorded(o, c, b), AddBody(g, BlockHash(o, b), b))
  {
    hide WorkOf, BodyOk, LinkOk, IndexMatches;
    var h := BlockHash(o, b);
    var c2, g2 := Recorded(o, c, b), AddBody(g, h, b);
    RecordedIsExtension(o, c, g, b);
    assert Path(c2.meta, c.floor, c.tip) == Path(c.meta, c.floor, c.tip) by {
      ExtendedPath(c.meta, c2.meta, c.floor, h, c.tip);
    }
    assert Path(c2.meta, g.root, c.tip) == Path(c.meta, g.root, c.tip) by {
      ExtendedPath(c.meta, c2.meta, g.root, h, c.tip);
    }
    ExtendedState(Whole(c, g), Whole(c2, g2), h, c.floor);
    ExtendedState(Whole(c, g), Whole(c2, g2), h, c.tip);
  }

  /** After validation, making the block the tip cannot fail, even among branches forking below the floor. */
  lemma NewTipSucceeds(o: Oracle, c: ChainState, g: History, b: Block)
    requires Inv(o, c, g) && Ancestors(c, b.header.prev).Ok? && Recordable(o, c, b)
    ensures Linked(Recorded(o, c, b))
    ensures var h := BlockHash(o, b);
            var c2 := Recorded(o, c, b);
            && Ancestors(c2, h) == Ok(Ancestors(c, b.header.prev).value + [h])
            && StateAt(c, b.header.prev).Ok?
            && StateAt(c2, h) == Ok(ApplyClaims(StateAt(c, b.header.prev).value, b.txs, b.header.height, h))
            && SetCanonicalTip(c2, h) ==
                 (c2.(index := IndexOf(Ancestors(c2, h).value, c.floorHeight), owners := StateAt(c2, h).value, tip := h), Ok(()))
  {
    var h := BlockHash(o, b);
    var c2 := Recorded(o, c, b);
    RecordedIsExtension(o, c, g, b);
    RetainedReplayIsComplete(o, c, g, b.header.prev);
    ExtensionKeepsView(c, c2, h, b.header.prev);
    assert LinkOk(c2.meta, h);
    assert c2.meta[h].prev == b.header.prev;
  }

  lemma SuffixIndex(path: seq<Hash>, base: nat, from: nat)
    requires base <= from <= base + |path|
    ensures IndexMatches(IndexOf(path[from - base..], from), path, base, from)
  {
    var cut := path[from - base..];
    var index := IndexOf(cut, from);
    forall k | k in index ensures base <= k < base + |path| && index[k] == path[k - base] {
      assert index[from + (k - from)] == cut[k - from];
    }
  }

  /** The chain with `h` as its tip. */
  function WithTip(c: ChainState, h: Hash, owners: Owners): ChainState
    requires Linked(c) && Ancestors(c, h).Ok?
  {
    c.(index := IndexOf(Ancestors(c, h).value, c.floorHeight), owners := owners, tip := h)
  }

  lemma NewTipIndex(o: Oracle, c: ChainState, g: History, h: Hash, owners: Owners)
    requires Rooted(o, c, g) && Ancestors(c, h).Ok?
    ensures Linked(WithTip(c, h, owners)) && Path(c.meta, g.root, h).Ok? && IndexOk(WithTip(c, h, owners), g)
  {
    hide BodyOk, LinkOk, IndexMatches, TreeOk, Path, StateAt;
    CutPath(o, c, g, h);
    SuffixIndex(Path(c.meta, g.root, h).value, c.meta[g.root].height, c.floorHeight);
  }

  lemma NewTipViews(o: Oracle, c: ChainState, g: History, h: Hash, owners: Owners)
    requires Rooted(o, c, g) && Ancestors(c, h).Ok? && StateAt(Whole(c, g), h) == Ok(owners)
    requires StateAt(Whole(c, g), c.floor) == Ok(c.floorOwners)
    ensures Linked(WithTip(c, h, owners)) && ViewsOk(WithTip(c, h, owners), g)
  {
    hide BodyOk, LinkOk, TreeOk, Path, StateAt, IndexOk;
    var c2 := WithTip(c, h, owners);
    NewTipIndex(o, c, g, h, owners);
    SameBodiesSameState(Whole(c, g), Whole(c2, g), c.floor);
    SameBodiesSameState(Whole(c, g), Whole(c2, g), h);
  }

  /** The replay reads only the tree, the bodies and the floor. */
  lemma {:induction false} SameBodiesSameState(c1: ChainState, c2: ChainState, h: Hash)
    requires Linked(c1) && Linked(c2)
    requires c1.meta == c2.meta && c1.blocks == c2.blocks && c1.floor == c2.floor && c1.floorOwners == c2.floorOwners
    ensures StateAt(c1, h) == StateAt(c2, h)
    decreases if h in c1.meta then c1.meta[h].height + 1 else 0
  {
    if h in c1.meta && h != c1.floor {
      assert LinkOk(c1.meta, h);
      SameBodiesSameState(c1, c2, c1.meta[h].prev);
    }
  }

  // ---- Applying a block -------------------------------------------------------------------------

  /** What an accepted block does: it is recorded, and becomes the tip exactly if its branch is the heaviest. */
  lemma ApplyOutcome(o: Oracle, c: ChainState, g: History, b: Block, now: nat)
    requires Inv(o, c, g) && BlockHash(o, b) !in c.meta && ValidateBlock(o, c, b, now).Ok?
    ensures Recordable(o, c, b) && Ancestors(c, b.header.prev).Ok? && Linked(Recorded(o, c, b))
    ensures var h := BlockHash(o, b);
            var c2 := Recorded(o, c, b);
            && Ancestors(c2, h).Ok? && StateAt(c2, h).Ok?
            && TryApply(o, c, b, now) ==
                 if c2.meta[h].work <= c2.meta[c2.tip].work then (c2, Ok(AddedToFork))
                 else (WithTip(c2, h, StateAt(c2, h).value),
                       Ok(if b.header.prev == c.tip then ExtendedTip else ReorgedTo(b.header.height)))
  {
    hide ValidateBlock, Retarget, Lawful, AllLawful, BodyOk, LinkOk, Path, StateAt, TreeOk, IndexOk, WorkOf, ApplyClaims, Retained;
    ValidHasParent(o, c, b, now);
    AcceptedIsLawful(o, c, g, b, now);
    NewTipSucceeds(o, c, g, b);
  }

  /** `try_apply` is all or nothing: every error leaves the chain exactly as it was. */
  lemma ApplyIsAllOrNothing(o: Oracle, c: ChainState, g: History, b: Block, now: nat)
    requires Inv(o, c, g)
    ensures TryApply(o, c, b, now).1.Err? ==> TryApply(o, c, b, now).0 == c
    ensures TryApply(o, c, b, now) == (c, Ok(AlreadyKnown)) <==> BlockHash(o, b) in c.meta
    ensures BlockHash(o, b) !in c.meta && ValidateBlock(o, c, b, now).Err? ==>
              TryApply(o, c, b, now) == (c, Err(ValidateBlock(o, c, b, now).error))
    ensures BlockHash(o, b) !in c.meta && ValidateBlock(o, c, b, now).Ok? ==> TryApply(o, c, b, now).1.Ok?
  {
    hide ValidateBlock;
    if BlockHash(o, b) !in c.meta && ValidateBlock(o, c, b, now).Ok? {
      ApplyOutcome(o, c, g, b, now);
    }
  }

  lemma ParentAboveFloor(c: ChainState, h: Hash)
    requires Linked(c) && Ancestors(c, h).Ok?
    ensures h in c.meta && c.meta[h].height >= c.floorHeight
  {
    assert |Ancestors(c, h).value| > 0;
  }

  lemma RecordedKeepsInv(o: Oracle, c: ChainState, g: History, b: Block)
    requires Inv(o, c, g) && Recordable(o, c, b) && Ancestors(c, b.header.prev).Ok? && Lawful(o, Whole(c, g), b)
    ensures var c2, g2 := Recorded(o, c, b), AddBody(g, BlockHash(o, b), b);
            Rooted(o, c2, g2) && Retained(c2, g2) && AllLawful(o, c2, g2) && ViewsOk(c2, g2)
  {
    hide Lawful, BodyOk, LinkOk, WorkOf;
    ParentAboveFloor(c, b.header.prev);
    RecordedIsRooted(o, c, g, b);
    RecordedIsRetained(o, c, g, b);
    RecordedIsLawful(o, c, g, b);
    RecordedKeepsViews(o, c, g, b);
  }

  lemma NewTipKeepsLaw(o: Oracle, c: ChainState, g: History, h: Hash, owners: Owners)
    requires Rooted(o, c, g) && AllLawful(o, c, g) && Ancestors(c, h).Ok?
    ensures Rooted(o, WithTip(c, h, owners), g) && AllLawful(o, WithTip(c, h, owners), g)
  {
    hide Lawful, LinkOk, WorkOf;
    var c2 := WithTip(c, h, owners);
    assert Rooted(o, c2, g) by {
      forall x | x in c2.meta && x != g.root ensures BodyOk(o, c2.meta, g, x) {
        assert BodyOk(o, c.meta, g, x);
      }
    }
    forall x | x in c2.meta && x != g.root ensures Lawful(o, Whole(c2, g), g.bodies[x]) {
      assert BodyOk(o, c.meta, g, x);
      assert Lawful(o, Whole(c, g), g.bodies[x]);
      LawIgnoresTip(o, Whole(c, g), Whole(c2, g), g.bodies[x]);
    }
  }

  lemma RetainedIgnoresTip(c1: ChainState, c2: ChainState, g: History)
    requires Retained(c1, g)
    requires c1.meta == c2.meta && c1.blocks == c2.blocks && c1.floor == c2.floor && c1.floorHeight == c2.floorHeight
    ensures Retained(c2, g)
  {
  }

  lemma NewTipKeepsInv(o: Oracle, c: ChainState, g: History, h: Hash)
    requires Rooted(o, c, g) && Retained(c, g) && AllLawful(o, c, g) && ViewsOk(c, g)
    requires Ancestors(c, h).Ok? && StateAt(c, h).Ok?
    requires forall x :: x in c.meta ==> c.meta[x].work <= c.meta[h].work
    ensures Inv(o, WithTip(c, h, StateAt(c, h).value), g)
  {
    hide Lawful, AllLawful, BodyOk, LinkOk, IndexOk, Path, StateAt, Retained, TreeOk;
    var c2 := WithTip(c, h, StateAt(c, h).value);
    RetainedReplayIsComplete(o, c, g, h);
    assert Linked(c2) && ViewsOk(c2, g) by {
      NewTipViews(o, c, g, h, StateAt(c, h).value);
    }
    assert Rooted(o, c2, g) && AllLawful(o, c2, g) by {
      NewTipKeepsLaw(o, c, g, h, StateAt(c, h).value);
    }
    RetainedIgnoresTip(c, c2, g);
  }

  lemma LawIgnoresTip(o: Oracle, c1: ChainState, c2: ChainState, b: Block)
    requires Linked(c1) && Linked(c2) && Lawful(o, c1, b)
    requires c1.meta == c2.meta && c1.blocks == c2.blocks && c1.floor == c2.floor
             && c1.floorHeight == c2.floorHeight && c1.floorOwners == c2.floorOwners
    ensures Lawful(o, c2, b)
  {
    hide Retarget;
    SameBodiesSameState(c1, c2, b.header.prev);
  }

  /** The history after an attempt to apply a block. */
  function HistoryAfter(o: Oracle, c: ChainState, g: History, b: Block, now: nat): History
    requires Linked(c)
  {
    if BlockHash(o, b) !in c.meta && ValidateBlock(o, c, b, now).Ok? then AddBody(g, BlockHash(o, b), b) else g
  }

  lemma ApplyKeepsInv(o: Oracle, c: ChainState, g: History, b: Block, now: nat)
    requires Inv(o, c, g)
    ensures Inv(o, TryApply(o, c, b, now).0, HistoryAfter(o, c, g, b, now))
  {
    hide ValidateBlock, Lawful, BodyOk, LinkOk, WorkOf, IndexMatches, RetargetDue, TryApply;
    if BlockHash(o, b) !in c.meta && ValidateBlock(o, c, b, now).Ok? {
      ApplyOutcome(o, c, g, b, now);
      AcceptedIsLawful(o, c, g, b, now);
      RecordedKeepsInv(o, c, g, b);
      var h := BlockHash(o, b);
      var c2, g2 := Recorded(o, c, b), AddBody(g, h, b);
      if c2.meta[h].work > c2.meta[c2.tip].work {
        NewTipKeepsInv(o, c2, g2, h);
      }
    } else {
      ApplyIsAllOrNothing(o, c, g, b, now);
    }
  }

  /**
   Fork choice: cumulative work at the tip never falls, rises exactly when the tip changes, and a valid
   child of the tip always becomes the tip.
   */
  lemma ForkChoice(o: Oracle, c: ChainState, g: History, b: Block, now: nat)
    requires Inv(o, c, g)
    ensures var (c2, r) := TryApply(o, c, b, now);
            && c2.tip in c2.meta && c.tip in c2.meta && c2.meta[c.tip].work == c.meta[c.tip].work
            && (c2.tip != c.tip <==> c2.meta[c2.tip].work > c.meta[c.tip].work)
            && (c2.tip != c.tip ==> c2.tip == BlockHash(o, b) && (r == Ok(ExtendedTip) || r == Ok(ReorgedTo(b.header.height))))
            && (BlockHash(o, b) !in c.meta && ValidateBlock(o, c, b, now).Ok? && b.header.prev == c.tip ==>
                  r == Ok(ExtendedTip) && c2.tip == BlockHash(o, b))
            && (r == Ok(AddedToFork) ==> c2.tip == c.tip && c2.owners == c.owners && c2.index == c.index)
  {
    hide ValidateBlock, Lawful, IndexMatches, TryApply;
    if BlockHash(o, b) !in c.meta && ValidateBlock(o, c, b, now).Ok? {
      ApplyOutcome(o, c, g, b, now);
    } else {
      ApplyIsAllOrNothing(o, c, g, b, now);
    }
  }

  /** A valid child of the tip: the chain after applying it, field by field. */
  lemma TipExtension(o: Oracle, c: ChainState, g: History, b: Block, now: nat)
    requires Inv(o, c, g) && BlockHash(o, b) !in c.meta && ValidateBlock(o, c, b, now).Ok? && b.header.prev == c.tip
    ensures var h := BlockHash(o, b);
            var (c2, r) := TryApply(o, c, b, now);
            && r == Ok(ExtendedTip) && Linked(c2) && Ancestors(c, c.tip).Ok? && StateAt(c, c.tip).Ok?
            && c2.meta == c.meta[h := Meta(b.header.height, c.tip, b.header.timestamp, b.header.bits,
                                           c.meta[c.tip].work + WorkOf(b.header.bits))]
            && c2.blocks == c.blocks[h := b] && c2.tip == h
            && c2.floor == c.floor && c2.floorHeight == c.floorHeight && c2.floorOwners == c.floorOwners
            && Ancestors(c2, h) == Ok(Ancestors(c, c.tip).value + [h])
            && StateAt(c2, h) == Ok(ApplyClaims(StateAt(c, c.tip).value, b.txs, b.header.height, h))
            && c2.owners == ApplyClaims(StateAt(c, c.tip).value, b.txs, b.header.height, h)
            && c2.index == IndexOf(Ancestors(c2, h).value, c2.floorHeight)
  {
    hide ValidateBlock, Lawful, AllLawful, Retained, IndexOk, Path, StateAt, LinkOk, TreeOk, ApplyClaims, TryApply, BodyOk, TipHeaviest, WorkOf, BlockHash;
    ApplyOutcome(o, c, g, b, now);
    NewTipSucceeds(o, c, g, b);
    var h := BlockHash(o, b);
    var c2 := Recorded(o, c, b);
    SameBodiesSameState(c2, WithTip(c2, h, StateAt(c2, h).value), h);
  }

  // ---- Pruning ----------------------------------------------------------------------------------

  /** The tip's path from the floor is its path from the root, cut. */
  lemma TipPathIsCut(o: Oracle, c: ChainState, g: History)
    requires Rooted(o, c, g) && ViewsOk(c, g)
    ensures c.meta[g.root].height <= c.floorHeight
    ensures Ancestors(c, c.tip).Ok? && Path(c.meta, g.root, c.tip).Ok?
    ensures c.floorHeight - c.meta[g.root].height < |Path(c.meta, g.root, c.tip).value|
    ensures Ancestors(c, c.tip).value == Path(c.meta, g.root, c.tip).value[c.floorHeight - c.meta[g.root].height..]
  {
    hide BodyOk, IndexOk, StateAt, Path;
    CutPath(o, c, g, c.tip);
  }

  lemma IndexEntry(o: Oracle, c: ChainState, g: History, height: nat)
    requires Rooted(o, c, g) && ViewsOk(c, g) && height in c.index && height >= c.floorHeight
    ensures Ancestors(c, c.tip).Ok? && height - c.floorHeight < |Ancestors(c, c.tip).value|
    ensures Ancestors(c, c.tip).value[height - c.floorHeight] == c.index[height]
    ensures c.index[height] in Path(c.meta, g.root, c.tip).value
    ensures c.index[height] in c.meta && c.meta[c.index[height]].height == height
    ensures Ancestors(c, c.index[height]).Ok?
  {
    hide BodyOk, StateAt, Path;
    TipPathIsCut(o, c, g);
    var base := c.meta[g.root].height;
    assert Path(c.meta, g.root, c.tip).value[height - base] == c.index[height];
    PathLinks(c.meta, c.floor, c.tip, height - c.floorHeight);
  }

  /** A canonical height above the floor names a block whose ancestry passes through the floor. */
  lemma CanonicalHash(o: Oracle, c: ChainState, g: History, height: nat)
    requires Inv(o, c, g) && height in c.index && height >= c.floorHeight
    ensures var h := c.index[height];
            && h in c.meta && c.meta[h].height == height && Ancestors(c, h).Ok? && StateAt(c, h).Ok?
            && h in Path(c.meta, g.root, c.tip).value && StateAt(c, h) == StateAt(Whole(c, g), h)
            && Ancestors(c, c.tip).Ok? && height - c.floorHeight < |Ancestors(c, c.tip).value|
            && Ancestors(c, c.tip).value[height - c.floorHeight] == h
  {
    hide BodyOk, Lawful, LinkOk, IndexMatches, Path, StateAt;
    IndexEntry(o, c, g, height);
    RetainedReplayIsComplete(o, c, g, c.index[height]);
  }

  /** Pruning to a canonical height succeeds; to any other height it does nothing. */
  lemma PruneOutcome(o: Oracle, c: ChainState, g: History, height: nat)
    requires Inv(o, c, g)
    ensures Prune(c, height).1 == Ok(())
    ensures height <= c.floorHeight || height !in c.index ==> Prune(c, height).0 == c
    ensures height > c.floorHeight && height in c.index ==>
              && StateAt(c, c.index[height]).Ok?
              && Prune(c, height).0 == c.(blocks := BodiesAbove(c.blocks, height), floor := c.index[height],
                                          floorHeight := height, floorOwners := StateAt(c, c.index[height]).value)
  {
    hide BodyOk, Lawful;
    if height > c.floorHeight && height in c.index {
      CanonicalHash(o, c, g, height);
    }
  }

  lemma PruneKeepsRetained(o: Oracle, c: ChainState, g: History, height: nat)
    requires Inv(o, c, g) && height > c.floorHeight && height in c.index
    ensures Linked(Prune(c, height).0) && Retained(Prune(c, height).0, g)
  {
    hide BodyOk, Lawful, IndexMatches, LinkOk;
    PruneOutcome(o, c, g, height);
    CanonicalHash(o, c, g, height);
  }

  lemma PruneKeepsViews(o: Oracle, c: ChainState, g: History, height: nat)
    requires Linked(c) && g.root in c.meta && g.root in Prune(c, height).0.meta && Linked(Prune(c, height).0)
    requires height > c.floorHeight && height in c.index && Inv(o, c, g)
    ensures ViewsOk(Prune(c, height).0, g)
    ensures Whole(Prune(c, height).0, g) == Whole(c, g)
  {
    hide BodyOk, Lawful, AllLawful, LinkOk, Retained, StateAt, Path, RetargetDue, Prune, TreeOk, TipHeaviest;
    var nf := c.index[height];
    PruneOutcome(o, c, g, height);
    var c2 := Prune(c, height).0;
    assert Linked(c2) by {
      PruneKeepsRetained(o, c, g, height);
    }
    CanonicalHash(o, c, g, height);
    assert Path(c.meta, nf, c.tip).Ok? by {
      PathSuffix(c.meta, g.root, nf, c.tip);
    }
    assert Whole(c2, g) == Whole(c, g);
    assert IndexOk(c2, g);
  }

  lemma SameTreeRooted(o: Oracle, c: ChainState, c2: ChainState, g: History)
    requires Rooted(o, c, g) && Linked(c2) && c2.meta == c.meta
    ensures Rooted(o, c2, g)
  {
    forall x | x in c2.meta && x != g.root ensures BodyOk(o, c2.meta, g, x) {
      assert BodyOk(o, c.meta, g, x);
    }
  }

  lemma PruneKeepsInv(o: Oracle, c: ChainState, g: History, height: nat)
    requires Inv(o, c, g)
    ensures Linked(Prune(c, height).0) && Inv(o, Prune(c, height).0, g)
    ensures Whole(Prune(c, height).0, g) == Whole(c, g)
    ensures Prune(c, height).0.owners == c.owners && Prune(c, height).0.tip == c.tip && Prune(c, height).0.index == c.index
  {
    hide Lawful, BodyOk, LinkOk, TreeOk, Path, StateAt, Retained, ViewsOk, Prune;
    PruneOutcome(o, c, g, height);
    if height > c.floorHeight && height in c.index {
      PruneKeepsRetained(o, c, g, height);
      PruneKeepsViews(o, c, g, height);
      SameTreeRooted(o, c, Prune(c, height).0, g);
    }
  }

  /**
   Pruning never changes a verdict for blocks extending the part of the tree that stays well above the
   floor: if the parent descends from the new floor and is at least 287 above it, the pruned chain and
   the unpruned one judge every block alike, with the same error.
   */
  lemma PruningKeepsVerdicts(o: Oracle, c: ChainState, g: History, height: nat, b: Block, now: nat)
    requires Inv(o, c, g)
    requires var p := Prune(c, height).0;
             && Linked(p) && Ancestors(p, b.header.prev).Ok? && b.header.prev in p.meta
             && p.meta[b.header.prev].height >= p.floorHeight + RETARGET_INTERVAL_BLOCKS - 1
    ensures ValidateBlock(o, Prune(c, height).0, b, now) == ValidateBlock(o, c, b, now)
    ensures ValidateBlock(o, Prune(c, height).0, b, now) == ValidateBlock(o, Whole(c, g), b, now)
  {
    hide ValidateBlock, Lawful, IndexMatches, LinkOk, BodyOk;
    var p := Prune(c, height).0;
    PruneKeepsInv(o, c, g, height);
    PruneOutcome(o, c, g, height);
    WholeVerdict(o, p, g, b, now);
    if height > c.floorHeight && height in c.index {
      LowerFloorStillSees(o, c, g, height, b.header.prev);
      WholeVerdict(o, c, g, b, now);
    }
  }

  /** Far enough above its floor a chain judges as its complete history does. */
  lemma WholeVerdict(o: Oracle, c: ChainState, g: History, b: Block, now: nat)
    requires Inv(o, c, g) && Ancestors(c, b.header.prev).Ok? && b.header.prev in c.meta
    requires c.meta[b.header.prev].height >= c.floorHeight + RETARGET_INTERVAL_BLOCKS - 1
    ensures Linked(Whole(c, g)) && ValidateBlock(o, Whole(c, g), b, now) == ValidateBlock(o, c, b, now)
  {
    hide ValidateBlock, Lawful, IndexMatches, LinkOk, BodyOk, CutView;
    ChainSeesCut(o, c, g, b.header.prev);
    CutVerdict(o, Whole(c, g), c, b, now);
  }

  lemma LowerFloorStillSees(o: Oracle, c: ChainState, g: History, height: nat, h: Hash)
    requires Inv(o, c, g) && height > c.floorHeight && height in c.index
    requires h in c.meta && Path(c.meta, c.index[height], h).Ok?
    ensures Ancestors(c, h).Ok?
  {
    hide Lawful, BodyOk;
    CanonicalHash(o, c, g, height);
    PathThrough(c.meta, c.floor, c.index[height], h);
  }

  lemma {:induction false} PathThrough(meta: MetaMap, low: Hash, high: Hash, h: Hash)
    requires TreeOk(meta) && Path(meta, low, high).Ok? && Path(meta, high, h).Ok?
    ensures Path(meta, low, h).Ok?
    decreases if h in meta then meta[h].height else 0
  {
    if h != high {
      assert LinkOk(meta, h);
      PathThrough(meta, low, high, meta[h].prev);
    }
  }

  // ---- Runs -------------------------------------------------------------------------------------

  datatype Op = Apply(block: Block, now: nat) | PruneTo(height: nat)

  function Do(o: Oracle, c: ChainState, op: Op): ChainState
    requires Linked(c)
  {
    match op
    case Apply(b, now) => TryApply(o, c, b, now).0
    case PruneTo(height) => Prune(c, height).0
  }

  function DoHistory(o: Oracle, c: ChainState, g: History, op: Op): History
    requires Linked(c)
  {
    match op
    case Apply(b, now) => HistoryAfter(o, c, g, b, now)
    case PruneTo(_) => g
  }

  lemma DoKeepsInv(o: Oracle, c: ChainState, g: History, op: Op)
    requires Inv(o, c, g)
    ensures Inv(o, Do(o, c, op), DoHistory(o, c, g, op))
  {
    match op
    case Apply(b, now) => ApplyKeepsInv(o, c, g, b, now);
    case PruneTo(height) => PruneKeepsInv(o, c, g, height);
  }

  /** `ops` leads from one chain and history to another. */
  ghost predicate Leads(o: Oracle, c: ChainState, g: History, ops: seq<Op>, c2: ChainState, g2: History)
    decreases |ops|
  {
    if |ops| == 0 then c2 == c && g2 == g
    else Linked(c) && Leads(o, Do(o, c, ops[0]), DoHistory(o, c, g, ops[0]), ops[1..], c2, g2)
  }

  /**
   Over every run of applying, reorganising and pruning from genesis: the owner map is the replay of the
   complete root-to-tip history including pruned bodies, the canonical index from the floor upward is
   exactly the tip's ancestor path, and no known block has more cumulative work than the tip.
   */
  lemma {:induction false} InvOverRuns(o: Oracle, c: ChainState, g: History, ops: seq<Op>, c2: ChainState, g2: History)
    requires Inv(o, c, g) && Leads(o, c, g, ops, c2, g2)
    ensures Inv(o, c2, g2)
    decreases |ops|
  {
    hide ValidateBlock, Lawful, IndexMatches, LinkOk, BodyOk, Do, DoHistory;
    if |ops| > 0 {
      DoKeepsInv(o, c, g, ops[0]);
      InvOverRuns(o, Do(o, c, ops[0]), DoHistory(o, c, g, ops[0]), ops[1..], c2, g2);
    }
  }

  lemma CachedViewsAgreeWithReplay(o: Oracle, ops: seq<Op>, c: ChainState, g: History, k: nat)
    requires Leads(o, Fresh(o), GenesisHistory(o), ops, c, g)
    ensures Linked(c) && g.root in c.meta && StateAt(Whole(c, g), c.tip) == Ok(c.owners)
    ensures Ancestors(c, c.tip).Ok?
    ensures c.floorHeight <= k ==>
              (k in c.index <==> k < c.floorHeight + |Ancestors(c, c.tip).value|)
              && (k in c.index ==> c.index[k] == Ancestors(c, c.tip).value[k - c.floorHeight])
    ensures forall h :: h in c.meta ==> c.meta[h].work <= c.meta[c.tip].work
  {
    hide Lawful, BodyOk, LinkOk;
    FreshInv(o);
    InvOverRuns(o, Fresh(o), GenesisHistory(o), ops, c, g);
    if c.floorHeight <= k {
      if k in c.index {
        CanonicalHash(o, c, g, k);
      }
      assert |Ancestors(c, c.tip).value| == c.meta[c.tip].height - c.floorHeight + 1;
      RootIsLowest(o, c, g, c.floor);
    }
  }
}
