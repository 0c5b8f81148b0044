/**
 Reopening. A replay starts at the saved checkpoint and so sees every ancestry cut at the checkpoint's
 height; this module says exactly which stored chains such a replay accepts, and that an accepted
 replay ends in the views the chain had when it was closed.
 */
module StoreReplay {
  import opened Prelude
  import opened Difficulty
  import opened LedgerTypes
  import opened ChainRules
  import opened ChainViews
  import opened ChainInvariant
  import opened ChainRuns
  import opened StoreRules

  // ---- What a cut ancestry does to a verdict -----------------------------------------------------

  /** The retarget interval of a block at `height` starts at or above `floor`, if it ends there at all. */
  predicate IntervalSeen(height: nat, floor: nat) {
    RetargetDue(height) ==> height - RETARGET_INTERVAL_BLOCKS >= floor
  }

  ghost predicate LaterThan(timestamp: nat, meta: MetaMap, path: seq<Hash>)
    requires |path| > 0 && forall i :: 0 <= i < |path| ==> path[i] in meta
  {
    timestamp > Median(Timestamps(meta, Window(path)))
  }

  predicate AnchorsIn(txs: seq<Tx>, path: seq<Hash>) {
    forall i :: 0 <= i < |txs| ==> txs[i].claim.anchor in path
  }

  lemma CutTransactionsExactly(o: Oracle, c1: ChainState, c2: ChainState, b: Block)
    requires Linked(c1) && Linked(c2) && CutView(c1, c2, b.header.prev)
    requires ValidateTransactions(o, c1, b).Ok?
    ensures ValidateTransactions(o, c2, b).Ok? <==> AnchorsIn(b.txs, Ancestors(c2, b.header.prev).value)
  {
    hide Path, StateAt, VerifySelfContained;
    var p1, p2 := Ancestors(c1, b.header.prev).value, Ancestors(c2, b.header.prev).value;
    if |b.txs| > 0 {
      var owners := StateAt(c1, b.header.prev).value;
      ChecksPassExactly(o, c1.meta, b.header.height, p1, owners, {}, b.txs);
      ChecksPassExactly(o, c2.meta, b.header.height, p2, owners, {}, b.txs);
      forall i | 0 <= i < |b.txs|
        ensures TxLawful(o, c2.meta, b.header.height, p2, owners, b.txs[i]) <==> b.txs[i].claim.anchor in p2
      {
        assert TxLawful(o, c1.meta, b.header.height, p1, owners, b.txs[i]);
        if b.txs[i].claim.anchor in p2 {
          var j :| 0 <= j < |p2| && p2[j] == b.txs[i].claim.anchor;
          assert SameFacts(c1.meta, c2.meta, p2[j]);
        }
      }
    }
  }

  /**
   A block lawful under the complete ancestry passes under the cut one exactly when its retarget
   interval is visible, it is later than the median of the visible window, and its anchors are visible.
   */
  lemma CutVerdictExactly(o: Oracle, c1: ChainState, c2: ChainState, b: Block, now: nat)
    requires Linked(c1) && Linked(c2) && CutView(c1, c2, b.header.prev)
    requires Lawful(o, c1, b) && b.header.timestamp <= now + MAX_FUTURE_DRIFT_SECS
    ensures ValidateBlock(o, c2, b, now).Ok? <==>
              && IntervalSeen(b.header.height, c2.floorHeight)
              && LaterThan(b.header.timestamp, c2.meta, Ancestors(c2, b.header.prev).value)
              && AnchorsIn(b.txs, Ancestors(c2, b.header.prev).value)
  {
    hide ValidateTransactions, ExpectedDifficulty, Path, StateAt, RetargetDue, TargetValue, TxCommitment, BlockSize,
         TreeOk, Median, Timestamps, AnchorsIn;
    var p2 := Ancestors(c2, b.header.prev).value;
    assert SameFacts(c1.meta, c2.meta, p2[|p2| - 1]);
    CutDifficulty(c1, c2, b.header.prev);
    CutTransactionsExactly(o, c1, c2, b);
  }

  // ---- What the database says about the chain ----------------------------------------------------

  /** A replay of `db` starts at the chain's floor. */
  ghost predicate StartsAtFloor(o: Oracle, db: Db, c: ChainState)
    requires Linked(c)
  {
    var s := Start(o, db);
    && s.floor == c.floor && s.floorHeight == c.floorHeight && s.floorOwners == c.floorOwners
    && s.floor in s.meta && SameFacts(c.meta, s.meta, c.floor) && s.meta[c.floor].work == c.meta[c.floor].work
  }

  /** No entry above `top`, and from `base` up to `top` exactly the path's entries. */
  ghost predicate HeightsAre(heights: map<nat, Hash>, path: seq<Hash>, base: nat, top: nat) {
    && |path| == top - base + 1
    && (forall k :: k in heights ==> k <= top)
    && (forall k :: base <= k <= top ==> k in heights && heights[k] == path[k - base])
  }

  /** The height entries: none above the tip, and from the floor to the tip exactly the tip's path. */
  ghost predicate HeightsMirror(db: Db, c: ChainState)
    requires Linked(c)
  {
    && Ancestors(c, c.tip).Ok?
    && HeightsAre(db.heights, Ancestors(c, c.tip).value, c.floorHeight, c.meta[c.tip].height)
    && c.meta[c.tip].height <= PreviousMax(db)
  }

  /** Every body in memory is in the database. */
  ghost predicate BodiesMirror(db: Db, c: ChainState) {
    forall h :: h in c.blocks ==> h in db.blocks && db.blocks[h] == c.blocks[h]
  }

  /** The database holds everything a replay needs to rebuild `c`. */
  ghost predicate Mirrors(o: Oracle, db: Db, c: ChainState, g: History)
    requires Linked(c)
  {
    && Startable(db) && db.tip == Some(c.tip) && StartsAtFloor(o, db, c) && HeightsMirror(db, c) && BodiesMirror(db, c)
    && BodiesMirror(db, Start(o, db)) && (db.checkpoint.None? ==> c.floor == g.root)
  }

  /** From `base` to `top` exactly the path's entries, none above it up to `highest`, and otherwise those of before. */
  ghost predicate HeightsAfter(after: map<nat, Hash>, before: map<nat, Hash>, path: seq<Hash>, base: nat, top: nat, highest: nat) {
    && |path| == top - base + 1
    && (forall k :: base <= k <= top ==> k in after && after[k] == path[k - base])
    && (forall k :: top < k <= highest ==> k !in after)
    && (forall k :: k < base || (k > top && k > highest) ==> (k in after <==> k in before) && (k in before ==> after[k] == before[k]))
  }

  /** What persisting writes: the body, its metadata, the tip's path at its heights, and nothing above the tip up to the old maximum. */
  lemma PersistExactly(o: Oracle, db: Db, c: ChainState, b: Block)
    requires Persistable(o, c, b)
    ensures var db2, h, top := PersistAfterApply(o, db, c, b), BlockHash(o, b), c.meta[c.tip].height;
            && db2.tip == Some(c.tip) && db2.checkpoint == db.checkpoint
            && h in db2.blocks && db2.blocks[h] == b && h in db2.headers && db2.headers[h] == c.meta[h]
            && (forall x :: x != h ==> (x in db2.blocks <==> x in db.blocks) && (x in db2.headers <==> x in db.headers))
            && (forall x :: x != h && x in db.blocks ==> db2.blocks[x] == db.blocks[x])
            && (forall x :: x != h && x in db.headers ==> db2.headers[x] == db.headers[x])
            && HeightsAfter(db2.heights, db.heights, Ancestors(c, c.tip).value, c.floorHeight, top, PreviousMax(db))
            && db2.maxHeight.Some? && db2.maxHeight.value >= top && db2.maxHeight.value >= PreviousMax(db)
            && (db2.maxHeight.value == top || db2.maxHeight.value == PreviousMax(db))
  {
    hide Path, TreeOk, WithoutHeights, IndexOf, HeightsAfter;
    var path, top := Ancestors(c, c.tip).value, c.meta[c.tip].height;
    assert |path| == top - c.floorHeight + 1;
    HeightsWritten(db.heights, path, c.floorHeight, top, PreviousMax(db));
  }

  lemma HeightsWritten(heights: map<nat, Hash>, path: seq<Hash>, base: nat, top: nat, highest: nat)
    requires |path| == top - base + 1 && base <= top
    ensures HeightsAfter(WithoutHeights(heights + IndexOf(path, base), top + 1, highest), heights, path, base, top, highest)
  {
    var index := IndexOf(path, base);
    forall k | base <= k <= top ensures k in index && index[k] == path[k - base] {
      assert index[base + (k - base)] == path[k - base];
    }
  }

  // ---- Blocks that were later than their median --------------------------------------------------

  ghost predicate Timely(c: ChainState, b: Block)
    requires Linked(c)
  {
    Ancestors(c, b.header.prev).Ok? && LaterThan(b.header.timestamp, c.meta, Ancestors(c, b.header.prev).value)
  }

  /** Every accepted block was later than the median of its complete window. */
  ghost predicate AllTimely(o: Oracle, c: ChainState, g: History)
    requires Rooted(o, c, g)
  {
    forall h :: h in c.meta && h != g.root ==> Timely(Whole(c, g), g.bodies[h])
  }

  /** As long as nothing has been pruned, every accepted block is known to be timely. */
  ghost predicate TimelyUntilPruned(o: Oracle, c: ChainState, g: History)
    requires Rooted(o, c, g)
  {
    c.floor == g.root ==> AllTimely(o, c, g)
  }

  lemma SameViewSameTime(c1: ChainState, c2: ChainState, b: Block)
    requires Linked(c1) && Linked(c2) && SameView(c1, c2, b.header.prev) && Timely(c1, b)
    ensures Timely(c2, b)
  {
    SameViewSameMedian(c1, c2, b.header.prev);
  }

  lemma RecordedIsTimely(o: Oracle, c: ChainState, g: History, b: Block)
    requires Inv(o, c, g) && AllTimely(o, c, g) && Recordable(o, c, b) && Timely(Whole(c, g), b)
    ensures Rooted(o, Recorded(o, c, b), AddBody(g, BlockHash(o, b), b))
    ensures AllTimely(o, Recorded(o, c, b), AddBody(g, BlockHash(o, b), b))
  {
    hide Lawful, LinkOk, LaterThan, Retained, IndexMatches;
    var h := BlockHash(o, b);
    var c2, g2 := Recorded(o, c, b), AddBody(g, h, b);
    RecordedIsRooted(o, c, g, b);
    RecordedIsExtension(o, c, g, b);
    forall x | x in c2.meta && x != g2.root ensures Timely(Whole(c2, g2), g2.bodies[x]) {
      var body := g2.bodies[x];
      if x != h {
        assert BodyOk(o, c.meta, g, x);
        assert Timely(Whole(c, g), body);
      }
      EveryBlockIsRooted(o, c, g, body.header.prev);
      ExtensionKeepsView(Whole(c, g), Whole(c2, g2), h, body.header.prev);
      SameViewSameTime(Whole(c, g), Whole(c2, g2), body);
    }
  }

  lemma ValidIsTimely(o: Oracle, c: ChainState, g: History, b: Block, now: nat)
    requires Inv(o, c, g) && c.floor == g.root && ValidateBlock(o, c, b, now).Ok?
    ensures Timely(Whole(c, g), b)
  {
    hide AllLawful, Retained, BodyOk, LinkOk, TreeOk, IndexOk, StateAt, Path, ValidateBlock, ExpectedDifficulty, ValidateTransactions;
    ValidParts(o, c, b, now);
  }

  lemma ApplyKeepsTimely(o: Oracle, c: ChainState, g: History, b: Block, now: nat)
    requires Inv(o, c, g) && TimelyUntilPruned(o, c, g)
    ensures Inv(o, TryApply(o, c, b, now).0, HistoryAfter(o, c, g, b, now))
    ensures TimelyUntilPruned(o, TryApply(o, c, b, now).0, HistoryAfter(o, c, g, b, now))
  {
    hide AllLawful, AllTimely, Retained, BodyOk, LinkOk, TreeOk, ViewsOk, StateAt, Path, ValidateBlock, TryApply, TipHeaviest;
    ApplyKeepsInv(o, c, g, b, now);
    var c2, g2 := TryApply(o, c, b, now).0, HistoryAfter(o, c, g, b, now);
    if BlockHash(o, b) !in c.meta && ValidateBlock(o, c, b, now).Ok? {
      ApplyOutcome(o, c, g, b, now);
      if c2.floor == g2.root {
        ValidIsTimely(o, c, g, b, now);
        RecordedIsTimely(o, c, g, b);
        TimelyIgnoresTip(o, Recorded(o, c, b), c2, g2);
      }
    } else {
      ApplyIsAllOrNothing(o, c, g, b, now);
    }
  }

  lemma TimelyIgnoresTip(o: Oracle, c1: ChainState, c2: ChainState, g: History)
    requires Rooted(o, c1, g) && Rooted(o, c2, g) && c1.meta == c2.meta && AllTimely(o, c1, g)
    ensures AllTimely(o, c2, g)
  {
    hide LinkOk, LaterThan, Path, StateAt, TreeOk;
    forall x | x in c2.meta && x != g.root ensures Timely(Whole(c2, g), g.bodies[x]) {
      assert BodyOk(o, c1.meta, g, x);
      assert Timely(Whole(c1, g), g.bodies[x]);
    }
  }

  // ---- Replaying ---------------------------------------------------------------------------------

  /** The canonical block at position `j` of the tip's path passes when judged from the floor alone. */
  ghost predicate Survives(c: ChainState, path: seq<Hash>, j: nat)
    requires 0 < j < |path| && path[j] in c.blocks && forall i :: 0 <= i < |path| ==> path[i] in c.meta
  {
    var b := c.blocks[path[j]];
    && IntervalSeen(b.header.height, c.floorHeight)
    && LaterThan(b.header.timestamp, c.meta, path[..j])
    && AnchorsIn(b.txs, path[..j])
  }

  /** A canonical block above the floor: its body is kept, and says what the tree says. */
  lemma CanonicalBody(o: Oracle, c: ChainState, g: History, j: nat)
    requires Inv(o, c, g) && 0 < j < |Ancestors(c, c.tip).value|
    ensures var path := Ancestors(c, c.tip).value;
            var h := path[j];
            && h in c.meta && path[j - 1] in c.meta && h in c.blocks && h in g.bodies && c.blocks[h] == g.bodies[h]
            && (var b := c.blocks[h];
                && BlockHash(o, b) == h && b.header.prev == path[j - 1]
                && b.header.height == c.floorHeight + j == c.meta[h].height
                && c.meta[h] == Meta(b.header.height, b.header.prev, b.header.timestamp, b.header.bits,
                                     c.meta[path[j - 1]].work + WorkOf(b.header.bits))
                && Lawful(o, Whole(c, g), b))
  {
    hide Lawful, WorkOf, ApplyClaims, IndexOk, StateAt;
    var path := Ancestors(c, c.tip).value;
    var h := path[j];
    PathLinks(c.meta, c.floor, c.tip, j);
    RootIsLowest(o, c, g, c.floor);
    assert c.meta[h].height == c.floorHeight + j;
    assert BodyOk(o, c.meta, g, h);
  }

  /** The complete ancestry and owner map of a known block, from its parent's. */
  lemma WholeStep(o: Oracle, c: ChainState, g: History, h: Hash)
    requires Rooted(o, c, g) && h in c.meta && h != g.root
    ensures var w := Whole(c, g);
            var p := c.meta[h].prev;
            && p in c.meta && h in g.bodies && Ancestors(w, h).Ok? && Ancestors(w, p).Ok? && StateAt(w, p).Ok?
            && Ancestors(w, h).value == Ancestors(w, p).value + [h]
            && StateAt(w, h) == Ok(ApplyClaims(StateAt(w, p).value, g.bodies[h].txs, g.bodies[h].header.height, h))
  {
    hide WorkOf, ApplyClaims;
    assert BodyOk(o, c.meta, g, h);
    EveryBlockIsRooted(o, c, g, h);
    EveryBlockIsRooted(o, c, g, c.meta[h].prev);
  }

  /** `s` is the bare path up to position `i`, with bodies from the database. */
  ghost predicate ReplayShape(db: Db, path: seq<Hash>, s: ChainState, i: nat) {
    && Linked(s) && i < |path| && s.tip == path[i] && Ancestors(s, s.tip) == Ok(path[..i + 1])
    && (forall h :: h in s.meta ==> h in path[..i + 1])
    && BodiesMirror(db, s)
  }

  lemma ShapeExtends(db: Db, path: seq<Hash>, s: ChainState, s2: ChainState, i: nat, b: Block)
    requires ReplayShape(db, path, s, i) && Linked(s2) && i + 1 < |path| && s2.tip == path[i + 1] && s2.tip in s2.meta
    requires s2.meta == s.meta[s2.tip := s2.meta[s2.tip]] && s2.blocks == s.blocks[s2.tip := b]
    requires s2.tip in db.blocks && db.blocks[s2.tip] == b
    requires Ancestors(s2, s2.tip) == Ok(Ancestors(s, s.tip).value + [s2.tip])
    ensures ReplayShape(db, path, s2, i + 1)
  {
    hide TreeOk, Path;
    assert path[..i + 2] == path[..i + 1] + [s2.tip];
  }

  /** `s` is what replaying `db` up to position `i` of the tip's path gives. */
  ghost predicate Replayed(o: Oracle, db: Db, c: ChainState, g: History, s: ChainState, gs: History, i: nat)
    requires Linked(c) && g.root in c.meta
  {
    && Ancestors(c, c.tip).Ok? && i < |Ancestors(c, c.tip).value|
    && (var path := Ancestors(c, c.tip).value;
        && Inv(o, s, gs) && TimelyUntilPruned(o, s, gs)
        && gs.root == s.floor && s.floor == c.floor && s.floorHeight == c.floorHeight
        && ReplayShape(db, path, s, i) && StartsAtFloor(o, db, s)
        && Linked(Whole(c, g)) && CutView(Whole(c, g), s, path[i]))
  }

  lemma SameFactsSameLater(timestamp: nat, m1: MetaMap, m2: MetaMap, path: seq<Hash>)
    requires |path| > 0 && SameFactsOn(m1, m2, path)
    ensures (forall i :: 0 <= i < |path| ==> path[i] in m1) && (forall i :: 0 <= i < |path| ==> path[i] in m2)
    ensures LaterThan(timestamp, m1, path) <==> LaterThan(timestamp, m2, path)
  {
    forall i | 0 <= i < |path| ensures path[i] in m1 && path[i] in m2 {
      assert SameFacts(m1, m2, path[i]);
    }
    SameFactsOfSlice(m1, m2, path, SatSub(|path|, MEDIAN_TIME_PAST_WINDOW));
    SameTimestamps(m1, m2, Window(path));
  }

  lemma CutSurvives(o: Oracle, w: ChainState, s: ChainState, b: Block, path: seq<Hash>)
    requires Linked(w) && Linked(s) && CutView(w, s, b.header.prev) && Ancestors(s, b.header.prev) == Ok(path)
    requires Lawful(o, w, b)
    ensures forall i :: 0 <= i < |path| ==> path[i] in w.meta
    ensures ValidateBlock(o, s, b, b.header.timestamp).Ok? <==>
              && IntervalSeen(b.header.height, s.floorHeight)
              && LaterThan(b.header.timestamp, w.meta, path)
              && AnchorsIn(b.txs, path)
  {
    hide Lawful, ValidateBlock, StateAt, Path, TreeOk, LinkOk, LaterThan, AnchorsIn, IntervalSeen;
    CutVerdictExactly(o, w, s, b, b.header.timestamp);
    SameFactsSameLater(b.header.timestamp, w.meta, s.meta, path);
  }

  /** What the database holds for the canonical block at position `j`. */
  lemma StoredEntry(o: Oracle, db: Db, c: ChainState, g: History, j: nat)
    requires Inv(o, c, g) && HeightsMirror(db, c) && BodiesMirror(db, c) && 0 < j < |Ancestors(c, c.tip).value|
    ensures var h := Ancestors(c, c.tip).value[j];
            && c.floorHeight + j in db.heights && db.heights[c.floorHeight + j] == h
            && h in c.blocks && h in db.blocks && db.blocks[h] == c.blocks[h]
            && BlockHash(o, c.blocks[h]) == h && c.blocks[h].header.height == c.floorHeight + j
  {
    hide Lawful, BodyOk, LinkOk, TreeOk, AllLawful, Retained, StateAt, Path, TipHeaviest, WorkOf;
    CanonicalBody(o, c, g, j);
  }

  lemma PrefixExcludes(meta: MetaMap, path: seq<Hash>, base: nat, j: nat)
    requires forall i :: 0 <= i < |path| ==> path[i] in meta && meta[path[i]].height == base + i
    requires j < |path|
    ensures path[j] !in path[..j]
  {
  }

  lemma InvIsLinked(o: Oracle, c: ChainState, g: History)
    requires Inv(o, c, g)
    ensures Linked(c) && g.root in c.meta && Ancestors(c, c.tip).Ok?
  {
  }

  /** One more stored block is accepted exactly if it survives the cut. */
  lemma ReplayVerdict(o: Oracle, db: Db, c: ChainState, g: History, s: ChainState, gs: History, i: nat)
    requires Inv(o, c, g) && Replayed(o, db, c, g, s, gs, i)
    requires i + 1 < |Ancestors(c, c.tip).value|
    ensures var path := Ancestors(c, c.tip).value;
            var h := path[i + 1];
            && h in c.blocks && h !in s.meta && (forall i :: 0 <= i < |path| ==> path[i] in c.meta)
            && (ValidateBlock(o, s, c.blocks[h], c.blocks[h].header.timestamp).Ok? <==> Survives(c, path, i + 1))
  {
    hide Inv, Lawful, StateAt, Path, TreeOk, LinkOk, LaterThan, AnchorsIn, IntervalSeen, CutView, ValidateBlock, WorkOf;
    InvIsLinked(o, c, g);
    InvIsLinked(o, s, gs);
    var path := Ancestors(c, c.tip).value;
    var h := path[i + 1];
    CanonicalBody(o, c, g, i + 1);
    PrefixExcludes(c.meta, path, c.floorHeight, i + 1);
    CutSurvives(o, Whole(c, g), s, c.blocks[h], path[..i + 1]);
  }

  /** A cut view of a parent extends to its child, recorded on both sides. */
  lemma CutViewExtends(o: Oracle, c: ChainState, g: History, s: ChainState, s2: ChainState, h: Hash)
    requires Rooted(o, c, g) && h in c.meta && h != g.root && Linked(s) && Linked(s2) && Linked(Whole(c, g))
    requires CutView(Whole(c, g), s, c.meta[h].prev) && s2.floorHeight == s.floorHeight
    requires h in g.bodies && h !in s.meta && h in s2.meta && s2.meta == s.meta[h := s2.meta[h]] && SameFacts(c.meta, s2.meta, h)
    requires Ancestors(s2, h) == Ok(Ancestors(s, c.meta[h].prev).value + [h])
    requires StateAt(s, c.meta[h].prev).Ok?
    requires StateAt(s2, h) == Ok(ApplyClaims(StateAt(s, c.meta[h].prev).value, g.bodies[h].txs, g.bodies[h].header.height, h))
    ensures CutView(Whole(c, g), s2, h)
  {
    hide BodyOk, LinkOk, TreeOk, Path, StateAt, ApplyClaims, SameFactsOn;
    var w, p := Whole(c, g), c.meta[h].prev;
    WholeStep(o, c, g, h);
    var k := s.floorHeight - w.floorHeight;
    assert (Ancestors(w, p).value + [h])[k..] == Ancestors(w, p).value[k..] + [h];
    FactsExtend(w.meta, s.meta, s2.meta, Ancestors(s, p).value, h);
  }

  lemma {:induction false} FactsExtend(w: MetaMap, m: MetaMap, m2: MetaMap, path: seq<Hash>, h: Hash)
    requires SameFactsOn(w, m, path) && h !in m && h in m2 && m2 == m[h := m2[h]] && SameFacts(w, m2, h)
    ensures SameFactsOn(w, m2, path + [h])
  {
    var longer := path + [h];
    forall i | 0 <= i < |longer| ensures SameFacts(w, m2, longer[i]) {
      if i < |path| {
        assert SameFacts(w, m, path[i]);
      }
    }
  }

  /** A surviving stored block is accepted as a tip extension, and the cut view extends to it. */
  lemma ReplayExtends(o: Oracle, c: ChainState, g: History, s: ChainState, gs: History, i: nat)
    requires Inv(o, c, g) && Inv(o, s, gs) && i + 1 < |Ancestors(c, c.tip).value|
    requires s.tip == Ancestors(c, c.tip).value[i] && CutView(Whole(c, g), s, s.tip)
    requires var h := Ancestors(c, c.tip).value[i + 1];
             && h in c.blocks && h !in s.meta && BlockHash(o, c.blocks[h]) == h
             && ValidateBlock(o, s, c.blocks[h], c.blocks[h].header.timestamp).Ok?
    ensures var h := Ancestors(c, c.tip).value[i + 1];
            var (s2, r) := TryApply(o, s, c.blocks[h], c.blocks[h].header.timestamp);
            && r.Ok? && Linked(s2) && CutView(Whole(c, g), s2, h)
  {
    hide Inv, StateAt, Path, TreeOk, LinkOk, CutView, ValidateBlock, TryApply, ApplyClaims, WorkOf, Lawful, BodyOk;
    InvIsLinked(o, c, g);
    InvIsLinked(o, s, gs);
    var h := Ancestors(c, c.tip).value[i + 1];
    var b := c.blocks[h];
    CanonicalBody(o, c, g, i + 1);
    TipExtension(o, s, gs, b, b.header.timestamp);
    InvParts(o, c, g, h, i);
    CutViewExtends(o, c, g, s, TryApply(o, s, b, b.header.timestamp).0, h);
  }

  /** A surviving stored block extends the replay by one. */
  lemma ReplayStep(o: Oracle, db: Db, c: ChainState, g: History, s: ChainState, gs: History, i: nat)
    requires Inv(o, c, g) && Replayed(o, db, c, g, s, gs, i) && BodiesMirror(db, c)
    requires i + 1 < |Ancestors(c, c.tip).value|
    requires var h := Ancestors(c, c.tip).value[i + 1];
             && h in c.blocks && h !in s.meta && BlockHash(o, c.blocks[h]) == h
             && ValidateBlock(o, s, c.blocks[h], c.blocks[h].header.timestamp).Ok?
    ensures var b := c.blocks[Ancestors(c, c.tip).value[i + 1]];
            && TryApply(o, s, b, b.header.timestamp).1.Ok?
            && Replayed(o, db, c, g, TryApply(o, s, b, b.header.timestamp).0, HistoryAfter(o, s, gs, b, b.header.timestamp), i + 1)
  {
    hide Inv, StateAt, Path, TreeOk, LinkOk, CutView, ValidateBlock, TryApply, ApplyClaims, WorkOf, Lawful, BodyOk, AllTimely,
         BlockHash, IndexOf;
    InvIsLinked(o, c, g);
    InvIsLinked(o, s, gs);
    var path := Ancestors(c, c.tip).value;
    var h := path[i + 1];
    var b := c.blocks[h];
    assert b.header.prev == s.tip by {
      CanonicalBody(o, c, g, i + 1);
    }
    TipExtension(o, s, gs, b, b.header.timestamp);
    ApplyKeepsTimely(o, s, gs, b, b.header.timestamp);
    ReplayExtends(o, c, g, s, gs, i);
    ShapeExtends(db, path, s, TryApply(o, s, b, b.header.timestamp).0, i, b);
  }

  lemma InvParts(o: Oracle, c: ChainState, g: History, h: Hash, i: nat)
    requires Inv(o, c, g) && i + 1 < |Ancestors(c, c.tip).value| && h == Ancestors(c, c.tip).value[i + 1]
    ensures Rooted(o, c, g) && h != g.root
  {
    hide BodyOk, Lawful, StateAt;
    PathLinks(c.meta, c.floor, c.tip, i + 1);
    RootIsLowest(o, c, g, c.floor);
    assert c.meta[h].height == c.floorHeight + i + 1;
  }

  /** The history of a chain that has only just started. */
  function StartHistory(o: Oracle, db: Db): History {
    if db.checkpoint.Some? then CheckpointHistory(db.checkpoint.value) else GenesisHistory(o)
  }

  /** A chain that knows only its root, with nothing to replay. */
  ghost predicate JustStarted(o: Oracle, s: ChainState, gs: History) {
    && Inv(o, s, gs) && TimelyUntilPruned(o, s, gs) && gs.root == s.floor == s.tip
    && Ancestors(s, s.tip) == Ok([s.tip]) && StateAt(s, s.tip) == Ok(s.floorOwners)
    && (forall h :: h in s.meta ==> h == s.tip)
  }

  lemma OnlyRootStarted(o: Oracle, s: ChainState, gs: History)
    requires Inv(o, s, gs) && gs.root == s.floor == s.tip && forall h :: h in s.meta ==> h == s.tip
    ensures JustStarted(o, s, gs)
  {
    hide Lawful, Timely, BodyOk, Retained, IndexOk, TipHeaviest;
  }

  lemma StartInv(o: Oracle, db: Db)
    requires Startable(db)
    ensures JustStarted(o, Start(o, db), StartHistory(o, db))
  {
    hide Inv, JustStarted;
    if db.checkpoint.Some? {
      CheckpointInv(o, db.checkpoint.value);
    } else {
      FreshInv(o);
    }
    OnlyRootStarted(o, Start(o, db), StartHistory(o, db));
  }

  lemma StartReplayed(o: Oracle, db: Db, c: ChainState, g: History)
    requires Inv(o, c, g) && Mirrors(o, db, c, g)
    ensures Replayed(o, db, c, g, Start(o, db), StartHistory(o, db), 0)
  {
    hide Inv, Lawful, BodyOk, AllTimely, StateAt, Path, TreeOk, LinkOk;
    InvIsLinked(o, c, g);
    StartInv(o, db);
    var s := Start(o, db);
    InvIsLinked(o, s, StartHistory(o, db));
    var path := Ancestors(c, c.tip).value;
    assert path[..1] == [path[0]];
    StartView(o, c, g, s);
  }

  lemma StartView(o: Oracle, c: ChainState, g: History, s: ChainState)
    requires Inv(o, c, g) && Linked(s) && s.floor == c.floor && s.floorHeight == c.floorHeight && s.floorOwners == c.floorOwners
    requires Ancestors(s, s.floor) == Ok([s.floor]) && StateAt(s, s.floor) == Ok(s.floorOwners) && SameFacts(c.meta, s.meta, c.floor)
    ensures CutView(Whole(c, g), s, c.floor)
  {
    hide Lawful, BodyOk, StateAt, Path, TreeOk, LinkOk, IndexOk;
    EveryBlockIsRooted(o, c, g, c.floor);
    RootIsLowest(o, c, g, c.floor);
    var p := Path(c.meta, g.root, c.floor).value;
    assert p[|p| - 1..] == [c.floor];
  }

  /** From position `i` on, the replay succeeds exactly if every further stored block survives. */
  lemma ReplayRest(o: Oracle, db: Db, c: ChainState, g: History, s: ChainState, gs: History, i: nat) returns (gs2: History)
    requires Inv(o, c, g) && HeightsMirror(db, c) && BodiesMirror(db, c) && Replayed(o, db, c, g, s, gs, i)
    ensures var path := Ancestors(c, c.tip).value;
            var r := Replay(o, db, s, c.floorHeight + i + 1);
            && (forall j :: 0 <= j < |path| ==> path[j] in c.meta && (0 < j ==> path[j] in c.blocks))
            && (r.Ok? <==> forall j :: i < j < |path| ==> Survives(c, path, j))
            && (r.Ok? ==> Replayed(o, db, c, g, r.value, gs2, |path| - 1))
    decreases |Ancestors(c, c.tip).value| - i
  {
    hide Inv, Survives, StateAt, Path, TreeOk, LinkOk, CutView, ValidateBlock, TryApply, TimelyUntilPruned, ReplayShape;
    InvIsLinked(o, c, g);
    InvIsLinked(o, s, gs);
    gs2 := gs;
    var path := Ancestors(c, c.tip).value;
    forall j | 0 <= j < |path| ensures path[j] in c.meta && (0 < j ==> path[j] in c.blocks) {
      if 0 < j {
        CanonicalBody(o, c, g, j);
      }
    }
    if i + 1 == |path| {
      return;
    }
    var h := path[i + 1];
    StoredEntry(o, db, c, g, i + 1);
    ReplayVerdict(o, db, c, g, s, gs, i);
    var b := c.blocks[h];
    ApplyIsAllOrNothing(o, s, gs, b, b.header.timestamp);
    if Survives(c, path, i + 1) {
      ReplayStep(o, db, c, g, s, gs, i);
      gs2 := ReplayRest(o, db, c, g, TryApply(o, s, b, b.header.timestamp).0, HistoryAfter(o, s, gs, b, b.header.timestamp), i + 1);
    }
  }

  // ---- Reopening ---------------------------------------------------------------------------------

  /** Every canonical block above the floor passes when judged from the floor alone. */
  ghost predicate AllSurvive(o: Oracle, c: ChainState, g: History)
    requires Inv(o, c, g)
  {
    CanonicalBodies(o, c, g);
    var path := Ancestors(c, c.tip).value;
    forall j :: 0 < j < |path| ==> Survives(c, path, j)
  }

  lemma CanonicalBodies(o: Oracle, c: ChainState, g: History)
    requires Inv(o, c, g)
    ensures Linked(c) && Ancestors(c, c.tip).Ok?
    ensures var path := Ancestors(c, c.tip).value;
            forall j :: 0 <= j < |path| ==> path[j] in c.meta && (0 < j ==> path[j] in c.blocks)
  {
    hide Lawful, BodyOk, StateAt, TreeOk, IndexOk;
    var path := Ancestors(c, c.tip).value;
    forall j | 0 < j < |path| ensures path[j] in c.blocks {
      CanonicalBody(o, c, g, j);
    }
  }

  /** The same tip and owners, and from the floor upward the same canonical index. */
  ghost predicate SameViewsAbove(c: ChainState, s: ChainState) {
    && s.tip == c.tip && s.owners == c.owners && s.floor == c.floor && s.floorHeight == c.floorHeight
    && (forall k :: k in s.index <==> k in c.index && k >= c.floorHeight)
    && (forall k :: k in s.index ==> s.index[k] == c.index[k])
  }

  lemma ReplayedOwners(o: Oracle, db: Db, c: ChainState, g: History, s: ChainState, gs: History)
    requires Inv(o, c, g) && Replayed(o, db, c, g, s, gs, |Ancestors(c, c.tip).value| - 1)
    ensures s.tip == c.tip && s.owners == c.owners
  {
    hide Lawful, BodyOk, StateAt, TreeOk, IndexOk, Path, LinkOk, AllLawful, TimelyUntilPruned;
    RetainedReplayIsComplete(o, s, gs, s.tip);
  }

  lemma IndexFromFloor(o: Oracle, c: ChainState, g: History, k: nat)
    requires Inv(o, c, g) && k >= c.floorHeight
    ensures k in c.index <==> k - c.floorHeight < |Ancestors(c, c.tip).value|
    ensures k in c.index ==> c.index[k] == Ancestors(c, c.tip).value[k - c.floorHeight]
  {
    hide Lawful, BodyOk, StateAt, TreeOk, LinkOk, AllLawful, Path;
    TipPathIsCut(o, c, g);
  }

  lemma NoIndexBelowRoot(o: Oracle, c: ChainState, g: History, k: nat)
    requires Inv(o, c, g) && c.floor == g.root && k in c.index
    ensures k >= c.floorHeight
  {
    hide Lawful, BodyOk, StateAt, TreeOk, LinkOk, AllLawful, Path;
  }

  lemma ReplayedViews(o: Oracle, db: Db, c: ChainState, g: History, s: ChainState, gs: History)
    requires Inv(o, c, g) && Replayed(o, db, c, g, s, gs, |Ancestors(c, c.tip).value| - 1)
    ensures SameViewsAbove(c, s)
  {
    hide Inv, StateAt, Path, CutView, TimelyUntilPruned, TreeOk;
    InvIsLinked(o, c, g);
    InvIsLinked(o, s, gs);
    ReplayedOwners(o, db, c, g, s, gs);
    var path := Ancestors(c, c.tip).value;
    assert path[..|path|] == path;
    forall k: nat
      ensures k in s.index <==> k in c.index && k >= c.floorHeight
      ensures k in s.index ==> s.index[k] == c.index[k]
    {
      if k >= c.floorHeight {
        IndexFromFloor(o, c, g, k);
        IndexFromFloor(o, s, gs, k);
      } else if k in s.index {
        NoIndexBelowRoot(o, s, gs, k);
      }
    }
  }

  lemma SameHeights(db: Db, c: ChainState, s: ChainState)
    requires Linked(c) && Linked(s) && HeightsMirror(db, c)
    requires s.tip == c.tip && s.floorHeight == c.floorHeight && Ancestors(s, s.tip) == Ancestors(c, c.tip)
    ensures HeightsMirror(db, s)
  {
    hide Path, TreeOk;
    assert |Ancestors(c, c.tip).value| == c.meta[c.tip].height - c.floorHeight + 1;
    assert |Ancestors(s, s.tip).value| == s.meta[s.tip].height - s.floorHeight + 1;
  }

  lemma ReplayedMirrors(o: Oracle, db: Db, c: ChainState, g: History, s: ChainState, gs: History)
    requires Inv(o, c, g) && Mirrors(o, db, c, g) && Replayed(o, db, c, g, s, gs, |Ancestors(c, c.tip).value| - 1)
    ensures Mirrors(o, db, s, gs)
  {
    hide Inv, StateAt, Path, TimelyUntilPruned, TreeOk, HeightsMirror, StartsAtFloor, BodiesMirror, CutView;
    InvIsLinked(o, c, g);
    InvIsLinked(o, s, gs);
    var path := Ancestors(c, c.tip).value;
    assert path[..|path|] == path;
    SameHeights(db, c, s);
  }

  /** The replay behind a reopening: it succeeds exactly if every canonical block above the floor survives. */
  lemma RestoreReplays(o: Oracle, db: Db, c: ChainState, g: History) returns (gs: History)
    requires Inv(o, c, g) && Mirrors(o, db, c, g)
    ensures Restore(o, db).Ok? <==> AllSurvive(o, c, g)
    ensures Linked(c) && g.root in c.meta && Ancestors(c, c.tip).Ok?
    ensures Restore(o, db).Ok? ==> Replayed(o, db, c, g, Restore(o, db).value, gs, |Ancestors(c, c.tip).value| - 1)
  {
    hide Inv, StateAt, Path, TimelyUntilPruned, TreeOk, HeightsMirror, BodiesMirror, CutView, Survives, ReplayShape;
    StartReplayed(o, db, c, g);
    StartLinked(o, db);
    InvIsLinked(o, c, g);
    gs := ReplayRest(o, db, c, g, Start(o, db), StartHistory(o, db), 0);
  }

  /**
   Reopening succeeds exactly when every canonical block above the saved floor passes judged from that
   floor alone: its retarget interval does not start below the floor, it is later than the median of the
   blocks still visible, and its anchors are at or above the floor. When it succeeds, tip and owners are
   those of the chain that was closed, and so is the canonical index from the floor upward.
   */
  lemma ReopenExactly(o: Oracle, db: Db, c: ChainState, g: History) returns (gs: History)
    requires Inv(o, c, g) && Mirrors(o, db, c, g)
    ensures Restore(o, db).Ok? <==> AllSurvive(o, c, g)
    ensures Restore(o, db).Ok? ==>
              var s := Restore(o, db).value;
              && SameViewsAbove(c, s) && Inv(o, s, gs) && Mirrors(o, db, s, gs) && TimelyUntilPruned(o, s, gs)
  {
    hide Inv, StateAt, Path, TimelyUntilPruned, TreeOk, HeightsMirror, BodiesMirror, CutView, Survives, ReplayShape;
    gs := RestoreReplays(o, db, c, g);
    if Restore(o, db).Ok? {
      ReplayedViews(o, db, c, g, Restore(o, db).value, gs);
      ReplayedMirrors(o, db, c, g, Restore(o, db).value, gs);
    }
  }

  // ---- What a reopened chain has forgotten -------------------------------------------------------

  /** Above the floor a canonical block's metadata comes back as it was, accumulated work included. */
  lemma {:induction false} ReplayedMeta(o: Oracle, db: Db, c: ChainState, g: History, s: ChainState, gs: History, j: nat)
    requires Inv(o, c, g) && Mirrors(o, db, c, g) && Replayed(o, db, c, g, s, gs, |Ancestors(c, c.tip).value| - 1)
    requires j < |Ancestors(c, c.tip).value|
    ensures var h := Ancestors(c, c.tip).value[j];
            && h in c.meta && h in s.meta && s.meta[h].work == c.meta[h].work
            && (j > 0 ==> s.meta[h] == c.meta[h] && h in c.blocks && h in s.blocks && s.blocks[h] == c.blocks[h])
  {
    hide Inv, StateAt, Path, TimelyUntilPruned, TreeOk, HeightsMirror, CutView, Lawful, WorkOf;
    InvIsLinked(o, c, g);
    InvIsLinked(o, s, gs);
    var path := Ancestors(c, c.tip).value;
    assert path[..|path|] == path;
    if j > 0 {
      ReplayedMeta(o, db, c, g, s, gs, j - 1);
      CanonicalBody(o, c, g, j);
      CanonicalBody(o, s, gs, j);
    } else {
      assert path[0] == c.floor;
    }
  }

  lemma {:induction false} OnlyPathReplayed(o: Oracle, db: Db, c: ChainState, g: History, s: ChainState, gs: History, h: Hash)
    requires Linked(c) && g.root in c.meta && Ancestors(c, c.tip).Ok?
    requires Replayed(o, db, c, g, s, gs, |Ancestors(c, c.tip).value| - 1)
    ensures h in s.meta ==> h in Ancestors(c, c.tip).value
  {
    hide Inv, Ancestors, TimelyUntilPruned, TreeOk, CutView, StartsAtFloor, BodiesMirror;
    var path := Ancestors(c, c.tip).value;
    assert path[..|path|] == path;
  }

  lemma {:induction false} ReplayedBlock(o: Oracle, db: Db, c: ChainState, g: History, s: ChainState, gs: History, h: Hash)
    requires Inv(o, c, g) && Mirrors(o, db, c, g) && Replayed(o, db, c, g, s, gs, |Ancestors(c, c.tip).value| - 1)
    ensures var path := Ancestors(c, c.tip).value;
            && (h in s.meta <==> h in path)
            && (h in path ==> h in c.meta)
            && (h in path && h != c.floor ==> s.meta[h] == c.meta[h] && h in c.blocks && h in s.blocks && s.blocks[h] == c.blocks[h])
  {
    hide Inv, Path, Replayed, TreeOk, Mirrors;
    InvIsLinked(o, c, g);
    var path := Ancestors(c, c.tip).value;
    OnlyPathReplayed(o, db, c, g, s, gs, h);
    if h in path {
      var j :| 0 <= j < |path| && path[j] == h;
      ReplayedMeta(o, db, c, g, s, gs, j);
    }
  }

  /** A reopened chain knows the tip's path from the floor and nothing else: every fork block is forgotten. */
  lemma {:induction false} ReopenForgetsForks(o: Oracle, db: Db, c: ChainState, g: History)
    requires Inv(o, c, g) && Mirrors(o, db, c, g) && Restore(o, db).Ok?
    ensures Linked(c) && Ancestors(c, c.tip).Ok?
    ensures var s, path := Restore(o, db).value, Ancestors(c, c.tip).value;
            && (forall h :: h in s.meta <==> h in path)
            && (forall h :: h in s.meta && h != c.floor ==> h in c.meta && s.meta[h] == c.meta[h])
            && (s.meta.Keys == c.meta.Keys <==> forall h :: h in c.meta ==> h in path)
  {
    hide Inv, Ancestors, TreeOk, Mirrors, AllSurvive, Restore, Replayed, Startable;
    InvIsLinked(o, c, g);
    MirrorsStartable(o, db, c, g);
    var gs := RestoreReplays(o, db, c, g);
    var s, path := Restore(o, db).value, Ancestors(c, c.tip).value;
    forall h ensures h in s.meta <==> h in path
             ensures h in path ==> h in c.meta && (h != c.floor ==> s.meta[h] == c.meta[h])
    {
      ReplayedBlock(o, db, c, g, s, gs, h);
    }
  }

  /** The two chains agree on everything but, perhaps, whether the body of `root` is held. */
  ghost predicate SameChain(c: ChainState, s: ChainState, root: Hash) {
    && s.(blocks := c.blocks) == c
    && (forall h :: h != root ==> (h in s.blocks <==> h in c.blocks) && (h in s.blocks ==> s.blocks[h] == c.blocks[h]))
  }

  lemma {:induction false} RootMeta(o: Oracle, db: Db, c: ChainState, g: History, s: ChainState, gs: History)
    requires Inv(o, c, g) && Mirrors(o, db, c, g) && Replayed(o, db, c, g, s, gs, |Ancestors(c, c.tip).value| - 1) && c.floor == g.root
    ensures c.floor in c.meta && c.floor in s.meta && s.meta[c.floor] == c.meta[c.floor]
    ensures s.floor == c.floor && s.floorHeight == c.floorHeight && s.floorOwners == c.floorOwners && Inv(o, s, gs)
  {
    hide StateAt, Path, TimelyUntilPruned, TreeOk, CutView, Lawful, BodyOk, ReplayShape, TipHeaviest, ViewsOk;
  }

  lemma {:induction false} OnlyOwnBodies(o: Oracle, c: ChainState, g: History, h: Hash)
    requires Inv(o, c, g) && h in c.blocks
    ensures h in c.meta
  {
    hide StateAt, Path, TreeOk, Lawful, BodyOk;
  }

  /**
   A store that never pruned reopens to exactly the chain that was closed if every block known was
   canonical, and otherwise to a smaller one.
   */
  lemma {:induction false} ReopenedSameExactly(o: Oracle, db: Db, c: ChainState, g: History)
    requires Inv(o, c, g) && Mirrors(o, db, c, g) && TimelyUntilPruned(o, c, g) && db.checkpoint.None?
    ensures Linked(c) && Ancestors(c, c.tip).Ok? && Restore(o, db).Ok?
    ensures SameChain(c, Restore(o, db).value, g.root) <==> forall h :: h in c.meta ==> h in Ancestors(c, c.tip).value
  {
    hide Inv, Ancestors, TimelyUntilPruned, TreeOk, Mirrors, AllSurvive, Restore, Startable, Replayed, SameChain, AllTimely;
    InvIsLinked(o, c, g);
    MirrorsStartable(o, db, c, g);
    var gs2 := NeverPrunedReopens(o, db, c, g);
    var gs := RestoreReplays(o, db, c, g);
    NeverPrunedIsTimely(o, db, c, g);
    var s, path := Restore(o, db).value, Ancestors(c, c.tip).value;
    RootMeta(o, db, c, g, s, gs);
    forall h
      ensures h in s.meta <==> h in path
      ensures h in path ==> h in c.meta && s.meta[h] == c.meta[h]
      ensures h in path && h != g.root ==> h in c.blocks && h in s.blocks && s.blocks[h] == c.blocks[h]
      ensures h in s.blocks ==> h in s.meta
      ensures h in c.blocks ==> h in c.meta
    {
      ReplayedBlock(o, db, c, g, s, gs, h);
      if h in s.blocks {
        OnlyOwnBodies(o, s, gs, h);
      }
      if h in c.blocks {
        OnlyOwnBodies(o, c, g, h);
      }
    }
    SameIfAllCanonical(c, s, g.root, path);
  }

  lemma {:induction false} SameIfAllCanonical(c: ChainState, s: ChainState, root: Hash, path: seq<Hash>)
    requires s.tip == c.tip && s.owners == c.owners && s.index == c.index
    requires s.floor == c.floor && s.floorHeight == c.floorHeight && s.floorOwners == c.floorOwners
    requires forall h :: h in s.meta <==> h in path
    requires forall h :: h in path ==> h in c.meta && s.meta[h] == c.meta[h]
    requires forall h :: h in path && h != root ==> h in c.blocks && h in s.blocks && s.blocks[h] == c.blocks[h]
    requires (forall h :: h in s.blocks ==> h in s.meta) && forall h :: h in c.blocks ==> h in c.meta
    ensures SameChain(c, s, root) <==> forall h :: h in c.meta ==> h in path
  {
    if forall h :: h in c.meta ==> h in path {
      assert s.meta == c.meta;
    }
  }

  lemma {:induction false} ClaimErrors(o: Oracle, meta: MetaMap, height: nat, path: seq<Hash>, owners: Owners, claimed: set<Username>, txs: seq<Tx>)
    ensures CheckTxs(o, meta, height, path, owners, claimed, txs).Err? ==>
              !CheckTxs(o, meta, height, path, owners, claimed, txs).error.UnknownParent?
    decreases |txs|
  {
    if |txs| > 0 {
      ClaimErrors(o, meta, height, path, owners, claimed + {txs[0].claim.username}, txs[1..]);
    }
  }

  lemma {:induction false} ViewErrors(o: Oracle, c: ChainState, b: Block)
    requires Linked(c)
    ensures ExpectedDifficulty(c, b.header.prev).Err? ==> ExpectedDifficulty(c, b.header.prev).error.UnknownBlock?
    ensures MedianTimePast(c, b.header.prev).Err? ==> MedianTimePast(c, b.header.prev).error.UnknownBlock?
    ensures ValidateTransactions(o, c, b).Err? ==> !ValidateTransactions(o, c, b).error.UnknownParent?
  {
    hide CheckTxs, Path, StateAt, TreeOk, Retarget, Median, Timestamps;
    if StateAt(c, b.header.prev).Ok? && Ancestors(c, b.header.prev).Ok? {
      ClaimErrors(o, c.meta, b.header.height, Ancestors(c, b.header.prev).value, StateAt(c, b.header.prev).value, {}, b.txs);
    }
  }

  /** A new block of the right shape is refused for an unknown parent exactly if its parent is unknown. */
  lemma {:induction false} UnknownParentExactly(o: Oracle, s: ChainState, b: Block, now: nat)
    requires Linked(s) && BlockHash(o, b) !in s.meta
    requires |b.txs| <= MAX_TXS_PER_BLOCK && BlockSize(b) <= MAX_BLOCK_BYTES && b.header.txCommitment == TxCommitment(o, b.txs)
    ensures TryApply(o, s, b, now).1 == Err(UnknownParent(b.header.prev)) <==> b.header.prev !in s.meta
  {
    hide Path, TreeOk, BlockSize, TxCommitment, TargetValue, ExpectedDifficulty, MedianTimePast, StateAt, ValidateTransactions, WorkOf;
    ViewErrors(o, s, b);
  }

  /**
   What forgetting means for later blocks: one that was acceptable when the chain was closed is refused for
   an unknown parent after reopening exactly if its parent was not canonical.
   */
  lemma {:induction false} ChildOfForkRefused(o: Oracle, db: Db, c: ChainState, g: History, b: Block, now: nat)
    requires Inv(o, c, g) && Mirrors(o, db, c, g) && Restore(o, db).Ok?
    requires Linked(c) && BlockHash(o, b) !in c.meta && ValidateBlock(o, c, b, now).Ok?
    ensures Ancestors(c, c.tip).Ok? && Linked(Restore(o, db).value)
    ensures TryApply(o, Restore(o, db).value, b, now).1 == Err(UnknownParent(b.header.prev)) <==>
              b.header.prev !in Ancestors(c, c.tip).value
  {
    hide Inv, Ancestors, TreeOk, Mirrors, Restore, BlockSize, TxCommitment, ValidateBlock, Startable, TryApply, AllSurvive,
         SameViewsAbove, Replayed, TimelyUntilPruned;
    MirrorsStartable(o, db, c, g);
    ReopenForgetsForks(o, db, c, g);
    var gs := ReopenExactly(o, db, c, g);
    var s := Restore(o, db).value;
    InvIsLinked(o, s, gs);
    ValidShape(o, c, b, now);
    UnknownParentExactly(o, s, b, now);
  }

  lemma {:induction false} ValidShape(o: Oracle, c: ChainState, b: Block, now: nat)
    requires Linked(c) && ValidateBlock(o, c, b, now).Ok?
    ensures |b.txs| <= MAX_TXS_PER_BLOCK && BlockSize(b) <= MAX_BLOCK_BYTES && b.header.txCommitment == TxCommitment(o, b.txs)
  {
    hide BlockSize, TxCommitment;
  }

  /** A block whose complete parent ancestry is what is visible survives. */
  lemma UncutSurvives(o: Oracle, c: ChainState, w: ChainState, path: seq<Hash>, j: nat)
    requires Linked(c) && Linked(w) && w.meta == c.meta && c.floorHeight == 0
    requires 0 < j < |path| && path[j] in c.blocks && forall i :: 0 <= i < |path| ==> path[i] in c.meta
    requires Ancestors(w, c.blocks[path[j]].header.prev) == Ok(path[..j])
    requires Lawful(o, w, c.blocks[path[j]]) && Timely(w, c.blocks[path[j]])
    ensures Survives(c, path, j)
  {
    hide ExpectedDifficulty, TargetValue, TxCommitment, BlockSize, ValidateTransactions, StateAt, TreeOk, LinkOk, LaterThan, Path;
    LawfulAnchors(o, w, c.blocks[path[j]]);
  }

  /** With nothing pruned, every canonical block survives. */
  lemma NothingCutAllSurvive(o: Oracle, c: ChainState, g: History, j: nat)
    requires Inv(o, c, g) && AllTimely(o, c, g) && c.floor == g.root && c.floorHeight == 0
    requires 0 < j < |Ancestors(c, c.tip).value|
    ensures var path := Ancestors(c, c.tip).value;
            && path[j] in c.blocks && (forall i :: 0 <= i < |path| ==> path[i] in c.meta)
            && Survives(c, path, j)
  {
    hide Inv, Lawful, StateAt, TreeOk, LinkOk, LaterThan, Path, Survives, BodyOk, Timely, WorkOf;
    InvIsLinked(o, c, g);
    var path := Ancestors(c, c.tip).value;
    CanonicalBody(o, c, g, j);
    PathLinks(c.meta, c.floor, c.tip, j - 1);
    InvParts(o, c, g, path[j], j - 1);
    UncutSurvives(o, c, Whole(c, g), path, j);
  }

  lemma LawfulAnchors(o: Oracle, c: ChainState, b: Block)
    requires Linked(c) && Ancestors(c, b.header.prev).Ok? && Lawful(o, c, b)
    ensures AnchorsIn(b.txs, Ancestors(c, b.header.prev).value)
  {
    hide ExpectedDifficulty, TargetValue, TxCommitment, BlockSize, VerifySelfContained;
    if |b.txs| > 0 {
      var p := Ancestors(c, b.header.prev).value;
      ChecksPassExactly(o, c.meta, b.header.height, p, StateAt(c, b.header.prev).value, {}, b.txs);
      forall i | 0 <= i < |b.txs| ensures b.txs[i].claim.anchor in p {
        assert TxLawful(o, c.meta, b.header.height, p, StateAt(c, b.header.prev).value, b.txs[i]);
      }
    }
  }

  lemma NeverPrunedIsTimely(o: Oracle, db: Db, c: ChainState, g: History)
    requires Inv(o, c, g) && Mirrors(o, db, c, g) && TimelyUntilPruned(o, c, g) && db.checkpoint.None?
    ensures AllTimely(o, c, g) && c.floor == g.root && c.floorHeight == 0
  {
    hide Lawful, StateAt, TreeOk, LinkOk, Path, BodyOk, HeightsMirror, BodiesMirror, AllTimely;
  }

  /**
   A store that never pruned always reopens, to the same tip, owners and canonical index, whatever
   reorganisations it went through.
   */
  lemma NeverPrunedReopens(o: Oracle, db: Db, c: ChainState, g: History) returns (gs: History)
    requires Inv(o, c, g) && Mirrors(o, db, c, g) && TimelyUntilPruned(o, c, g) && db.checkpoint.None?
    ensures Restore(o, db).Ok?
    ensures var s := Restore(o, db).value;
            s.tip == c.tip && s.owners == c.owners && s.index == c.index && Inv(o, s, gs) && Mirrors(o, db, s, gs)
  {
    hide Inv, StateAt, Path, TimelyUntilPruned, TreeOk, Mirrors, Survives, Restore;
    InvIsLinked(o, c, g);
    assert Startable(db) by {
      MirrorsStartable(o, db, c, g);
    }
    gs := ReopenExactly(o, db, c, g);
    NeverPrunedIsTimely(o, db, c, g);
    NothingPrunedAllSurvive(o, c, g);
    forall k | k in c.index ensures k in Restore(o, db).value.index {
      NoIndexBelowRoot(o, c, g, k);
    }
  }

  lemma MirrorsStartable(o: Oracle, db: Db, c: ChainState, g: History)
    requires Linked(c) && Mirrors(o, db, c, g)
    ensures Startable(db)
  {
  }

  lemma NothingPrunedAllSurvive(o: Oracle, c: ChainState, g: History)
    requires Inv(o, c, g) && AllTimely(o, c, g) && c.floor == g.root && c.floorHeight == 0
    ensures AllSurvive(o, c, g)
  {
    hide Inv, Path, TreeOk, Survives, Timely;
    CanonicalBodies(o, c, g);
    var path := Ancestors(c, c.tip).value;
    forall j | 0 < j < |path| ensures Survives(c, path, j) {
      NothingCutAllSurvive(o, c, g, j);
    }
  }

  /** The first retarget height above `height`. */
  function NextRetarget(height: nat): nat { (height / RETARGET_INTERVAL_BLOCKS + 1) * RETARGET_INTERVAL_BLOCKS }

  lemma NextRetargetIsNear(height: nat)
    ensures RetargetDue(NextRetarget(height)) && height < NextRetarget(height)
    ensures NextRetarget(height) - RETARGET_INTERVAL_BLOCKS <= height
    ensures !RetargetDue(height) ==> NextRetarget(height) - RETARGET_INTERVAL_BLOCKS < height
  {
  }

  /**
   A checkpointed store whose floor is not a retarget height cannot be reopened once the tip has passed
   the next retarget height: the interval that ends there starts below the floor.
   */
  lemma UnalignedFloorCannotReopen(o: Oracle, db: Db, c: ChainState, g: History)
    requires Inv(o, c, g) && Mirrors(o, db, c, g)
    requires !RetargetDue(c.floorHeight)
    requires c.meta[c.tip].height >= NextRetarget(c.floorHeight)
    ensures Restore(o, db).Err?
  {
    hide Inv, StateAt, Path, TreeOk, HeightsMirror, BodiesMirror, LaterThan, AnchorsIn, RetargetDue, NextRetarget, CutView,
         StartsAtFloor, Restore, Lawful, WorkOf;
    InvIsLinked(o, c, g);
    CanonicalBodies(o, c, g);
    var gs := ReopenExactly(o, db, c, g);
    var path := Ancestors(c, c.tip).value;
    NextRetargetIsNear(c.floorHeight);
    var j := NextRetarget(c.floorHeight) - c.floorHeight;
    CanonicalBody(o, c, g, j);
    assert !Survives(c, path, j);
  }
}
