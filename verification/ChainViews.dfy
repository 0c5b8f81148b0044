/**
 What a verdict depends on: the parent's ancestry back to the floor, the metadata along it, and the
 owner map at the parent. Two chains that agree on these give every child the same verdict.
 */
module ChainViews {
  import opened Prelude
  import opened Difficulty
  import opened Sorting
  import opened LedgerTypes
  import opened ChainRules

  /** Consecutive entries of a path are parent and child. */
  lemma {:induction false} PathLinks(meta: MetaMap, floor: Hash, h: Hash, i: nat)
    requires TreeOk(meta) && Path(meta, floor, h).Ok? && i < |Path(meta, floor, h).value|
    ensures var p := Path(meta, floor, h).value;
            && Path(meta, floor, p[i]) == Ok(p[..i + 1])
            && (i > 0 ==> p[i] != floor && meta[p[i]].prev == p[i - 1])
    decreases if h in meta then meta[h].height else 0
  {
    var p := Path(meta, floor, h).value;
    if i == |p| - 1 {
      assert p[..i + 1] == p;
    } else {
      assert LinkOk(meta, h);
      var q := Path(meta, floor, meta[h].prev).value;
      assert p == q + [h];
      PathLinks(meta, floor, meta[h].prev, i);
      assert p[..i + 1] == q[..i + 1];
    }
  }

  /** A path's entries are pairwise distinct, their heights being consecutive. */
  lemma PathPosition(meta: MetaMap, floor: Hash, h: Hash, x: Hash)
    requires TreeOk(meta) && Path(meta, floor, h).Ok? && x in Path(meta, floor, h).value
    ensures x in meta && meta[floor].height <= meta[x].height <= meta[h].height
    ensures Path(meta, floor, h).value[meta[x].height - meta[floor].height] == x
  {
    var p := Path(meta, floor, h).value;
    var i :| 0 <= i < |p| && p[i] == x;
    assert meta[p[i]].height == meta[floor].height + i;
  }

  /** Raising the floor to an entry of a path cuts the path there. */
  lemma {:induction false} PathSuffix(meta: MetaMap, low: Hash, high: Hash, h: Hash)
    requires TreeOk(meta) && Path(meta, low, h).Ok? && high in Path(meta, low, h).value
    ensures Path(meta, high, h) == Ok(Path(meta, low, h).value[meta[high].height - meta[low].height..])
    decreases if h in meta then meta[h].height else 0
  {
    var p := Path(meta, low, h).value;
    PathPosition(meta, low, h, high);
    var k := meta[high].height - meta[low].height;
    if h == high {
      assert p[k..] == [h];
    } else {
      assert LinkOk(meta, h);
      var q := Path(meta, low, meta[h].prev).value;
      assert p == q + [h];
      assert high in q;
      PathSuffix(meta, low, high, meta[h].prev);
      assert p[k..] == q[k..] + [h];
    }
  }

  /** The fields of a block's metadata that validation reads along an ancestry. */
  ghost predicate SameFacts(m1: MetaMap, m2: MetaMap, h: Hash) {
    h in m1 && h in m2 && m1[h].height == m2[h].height && m1[h].timestamp == m2[h].timestamp && m1[h].bits == m2[h].bits
  }

  ghost predicate SameFactsOn(m1: MetaMap, m2: MetaMap, path: seq<Hash>) {
    forall i :: 0 <= i < |path| ==> SameFacts(m1, m2, path[i])
  }

  /** The two chains agree on everything a child of `parent` is judged by. */
  ghost predicate SameView(c1: ChainState, c2: ChainState, parent: Hash)
    requires Linked(c1) && Linked(c2)
  {
    && Ancestors(c1, parent).Ok? && Ancestors(c2, parent) == Ancestors(c1, parent)
    && SameFactsOn(c1.meta, c2.meta, Ancestors(c1, parent).value)
    && StateAt(c1, parent) == StateAt(c2, parent)
  }

  lemma {:induction false} SameTimestamps(m1: MetaMap, m2: MetaMap, path: seq<Hash>)
    requires SameFactsOn(m1, m2, path)
    ensures Timestamps(m1, path) == Timestamps(m2, path)
  {
    if |path| > 0 {
      assert SameFacts(m1, m2, path[0]);
      forall i | 0 <= i < |path[1..]| ensures SameFacts(m1, m2, path[1..][i]) {
        assert SameFacts(m1, m2, path[i + 1]);
      }
      SameTimestamps(m1, m2, path[1..]);
    }
  }

  lemma SameFactsOfSlice(m1: MetaMap, m2: MetaMap, path: seq<Hash>, k: nat)
    requires SameFactsOn(m1, m2, path) && k <= |path|
    ensures SameFactsOn(m1, m2, path[k..])
  {
    forall i | 0 <= i < |path[k..]| ensures SameFacts(m1, m2, path[k..][i]) {
      assert SameFacts(m1, m2, path[k + i]);
    }
  }

  /** Whether two ancestries decide every anchor of a block at `height` alike. */
  ghost predicate SameAnchors(m1: MetaMap, p1: seq<Hash>, m2: MetaMap, p2: seq<Hash>, height: nat) {
    forall a: Hash :: AnchorOk(m1, p1, height, a) <==> AnchorOk(m2, p2, height, a)
  }

  predicate AnchorOk(meta: MetaMap, path: seq<Hash>, height: nat, a: Hash) {
    a in path && a in meta && SatSub(height, meta[a].height) <= ANCHOR_MAX_AGE_BLOCKS
  }

  lemma {:induction false} SameAnchorsSameChecks(
      o: Oracle, m1: MetaMap, p1: seq<Hash>, m2: MetaMap, p2: seq<Hash>, height: nat, owners: Owners,
      claimed: set<Username>, txs: seq<Tx>)
    requires SameAnchors(m1, p1, m2, p2, height)
    ensures CheckTxs(o, m1, height, p1, owners, claimed, txs) == CheckTxs(o, m2, height, p2, owners, claimed, txs)
    decreases |txs|
  {
    if |txs| > 0 {
      assert AnchorOk(m1, p1, height, txs[0].claim.anchor) <==> AnchorOk(m2, p2, height, txs[0].claim.anchor);
      assert CheckTx(o, m1, height, p1, owners, claimed, txs[0]) == CheckTx(o, m2, height, p2, owners, claimed, txs[0]);
      SameAnchorsSameChecks(o, m1, p1, m2, p2, height, owners, claimed + {txs[0].claim.username}, txs[1..]);
    }
  }

  lemma SameFactsSameAnchors(m1: MetaMap, m2: MetaMap, path: seq<Hash>, height: nat)
    requires SameFactsOn(m1, m2, path)
    ensures SameAnchors(m1, path, m2, path, height)
  {
    forall a: Hash | a in path ensures SameFacts(m1, m2, a) {
      var i :| 0 <= i < |path| && path[i] == a;
    }
  }

  lemma SameViewSameDifficulty(c1: ChainState, c2: ChainState, parent: Hash)
    requires Linked(c1) && Linked(c2) && SameView(c1, c2, parent)
    ensures ExpectedDifficulty(c1, parent) == ExpectedDifficulty(c2, parent)
  {
    hide Retarget;
    var path := Ancestors(c1, parent).value;
    assert SameFacts(c1.meta, c2.meta, path[|path| - 1]);
    assert SameFacts(c1.meta, c2.meta, path[0]);
    var start := c1.meta[parent].height + 1 - RETARGET_INTERVAL_BLOCKS;
    if c1.floorHeight <= start {
      var x := path[start - c1.floorHeight];
      assert SameFacts(c1.meta, c2.meta, x);
    }
  }

  lemma SameViewSameMedian(c1: ChainState, c2: ChainState, parent: Hash)
    requires Linked(c1) && Linked(c2) && SameView(c1, c2, parent)
    ensures MedianTimePast(c1, parent) == MedianTimePast(c2, parent)
  {
    var path := Ancestors(c1, parent).value;
    SameFactsOfSlice(c1.meta, c2.meta, path, SatSub(|path|, MEDIAN_TIME_PAST_WINDOW));
    SameTimestamps(c1.meta, c2.meta, Window(path));
  }

  /** Equal views give equal verdicts, down to the error reported. */
  lemma SameViewSameVerdict(o: Oracle, c1: ChainState, c2: ChainState, b: Block, now: nat)
    requires Linked(c1) && Linked(c2) && SameView(c1, c2, b.header.prev)
    ensures ValidateBlock(o, c1, b, now) == ValidateBlock(o, c2, b, now)
  {
    hide TargetValue, TxCommitment, BlockSize, ExpectedDifficulty, MedianTimePast, StateAt, Path, LinkOk, TreeOk, CheckTxs;
    var path := Ancestors(c1, b.header.prev).value;
    assert SameFacts(c1.meta, c2.meta, path[|path| - 1]);
    SameViewSameDifficulty(c1, c2, b.header.prev);
    SameViewSameMedian(c1, c2, b.header.prev);
    SameFactsSameAnchors(c1.meta, c2.meta, path, b.header.height);
    if StateAt(c1, b.header.prev).Ok? {
      SameAnchorsSameChecks(o, c1.meta, path, c2.meta, path, b.header.height,
                            StateAt(c1, b.header.prev).value, {}, b.txs);
    }
  }

  // ---- What the time rules mean ------------------------------------------------------------------

  /** The median is an entry with half of the entries at or below it and the rest at or above it. */
  lemma MedianIsMiddle(ts: seq<nat>) returns (lower: seq<nat>, upper: seq<nat>)
    requires |ts| > 0
    ensures multiset(ts) == multiset(lower) + multiset(upper) && |lower| == |ts| / 2
    ensures Median(ts) in upper && Median(ts) in ts
    ensures (forall t :: t in lower ==> t <= Median(ts)) && (forall t :: t in upper ==> t >= Median(ts))
  {
    hide Sort;
    SortIsSort(ts);
    var s, h := Sort(ts), |ts| / 2;
    lower, upper := s[..h], s[h..];
    assert s == lower + upper;
    assert upper[0] == s[h] == Median(ts);
    assert s[h] in multiset(s);
  }

  /**
   The difficulty rule in whole numbers, for the ancestry `p` of a known parent. Away from multiples of 288 the
   parent's bits stay. At one, the 288th block from the end of the ancestry must be visible, and the new target is
   the old one scaled by the seconds between the two over a day; timestamps are below 2^63.
   */
  lemma {:induction false} ExpectedDifficultyExactly(c: ChainState, parent: Hash, p: seq<Hash>)
    requires Linked(c) && Ancestors(c, parent) == Ok(p)
    requires forall h :: h in c.meta ==> c.meta[h].timestamp < 0x8000_0000_0000_0000
    ensures var m, r := c.meta[parent], ExpectedDifficulty(c, parent);
            && ((m.height + 1) % 288 != 0 ==> r == Ok(m.bits))
            && ((m.height + 1) % 288 == 0 && |p| < 288 ==> r == Err(UnknownBlock(parent)))
            && ((m.height + 1) % 288 == 0 && |p| >= 288 ==>
                  && p[|p| - 288] in c.meta && c.meta[p[|p| - 288]].height == m.height - 287 && r.Ok?
                  && TargetValue(r.value) ==
                       NextTarget(TargetValue(m.bits), Max(m.timestamp - c.meta[p[|p| - 288]].timestamp, 1), 86_400))
  {
    hide Retarget, TargetValue, Path, TreeOk, NextTarget;
    var m := c.meta[parent];
    assert |p| == m.height - c.floorHeight + 1;
    if (m.height + 1) % 288 == 0 && |p| >= 288 {
      var first := c.meta[p[|p| - 288]];
      RetargetExactly(m.bits, Max(m.timestamp - first.timestamp, 1), 86_400);
    }
  }

  /**
   The median in plain terms: of the timestamps of the last eleven ancestors, or of all if there are fewer, half
   lie at or below it, and it and the rest at or above it.
   */
  lemma {:induction false} MedianTimePastExactly(c: ChainState, parent: Hash, p: seq<Hash>)
    returns (times: seq<nat>, lower: seq<nat>, upper: seq<nat>)
    requires Linked(c) && Ancestors(c, parent) == Ok(p)
    ensures MedianTimePast(c, parent).Ok?
    ensures var n, median := if |p| < 11 then |p| else 11, MedianTimePast(c, parent).value;
            && |times| == n
            && (forall i :: 0 <= i < n ==> p[|p| - n + i] in c.meta && times[i] == c.meta[p[|p| - n + i]].timestamp)
            && multiset(times) == multiset(lower) + multiset(upper) && |lower| == n / 2
            && median in upper && (forall t :: t in lower ==> t <= median) && (forall t :: t in upper ==> t >= median)
  {
    hide Path, TreeOk, Median;
    times := Timestamps(c.meta, Window(p));
    lower, upper := MedianIsMiddle(times);
  }

  /** The first block of the interval that ends at `parent`. */
  ghost function IntervalStart(c: ChainState, parent: Hash): (h: Hash)
    requires Linked(c) && ExpectedDifficulty(c, parent).Ok? && RetargetDue(c.meta[parent].height + 1)
    ensures h in c.meta && c.meta[h].height == c.meta[parent].height + 1 - RETARGET_INTERVAL_BLOCKS
  {
    Ancestors(c, parent).value[c.meta[parent].height + 1 - RETARGET_INTERVAL_BLOCKS - c.floorHeight]
  }

  /** The program's measure of that interval: a 64-bit difference of timestamps, at least one second. */
  ghost function IntervalSpan(c: ChainState, parent: Hash): int
    requires Linked(c) && ExpectedDifficulty(c, parent).Ok? && RetargetDue(c.meta[parent].height + 1)
  {
    Max(WrapI64(c.meta[parent].timestamp - c.meta[IntervalStart(c, parent)].timestamp), 1)
  }

  /**
   At a retarget height the new target follows the pace of the interval that just ended. It is strictly harder
   exactly if that interval took less than a day from its first block to its last, or so long that the scaled
   target no longer fits in 32 bytes. Between retargets nothing changes.
   */
  lemma DifficultyFollowsPace(c: ChainState, parent: Hash)
    requires Linked(c) && ExpectedDifficulty(c, parent).Ok?
    ensures parent in c.meta
    ensures var bits := ExpectedDifficulty(c, parent).value;
            var m := c.meta[parent];
            if !RetargetDue(m.height + 1) then bits == m.bits
            else
              var span := IntervalSpan(c, parent);
              && (TargetValue(m.bits) > 0 ==>
                    (TargetValue(bits) < TargetValue(m.bits) <==> span < 86_400 || Overflows(m.bits, span, 86_400)))
              && (span <= 86_400 ==> TargetValue(bits) <= TargetValue(m.bits))
  {
    hide Retarget, TargetValue, Path, TreeOk, Overflows, WrapI64;
    var m := c.meta[parent];
    if RetargetDue(m.height + 1) {
      var span := IntervalSpan(c, parent);
      RetargetFollowsPace(m.bits, span, RETARGET_INTERVAL_BLOCKS * TARGET_BLOCK_TIME_SECS);
      if TargetValue(m.bits) > 0 {
        RetargetHarderExactly(m.bits, span, RETARGET_INTERVAL_BLOCKS * TARGET_BLOCK_TIME_SECS);
      }
    }
  }

  /** The last `n` steps of the path to `h` are five minutes each. */
  ghost predicate FiveMinutesApart(meta: MetaMap, h: Hash, n: nat)
    decreases n
  {
    n > 0 ==>
      && h in meta && meta[h].prev in meta && meta[h].timestamp == meta[meta[h].prev].timestamp + TARGET_BLOCK_TIME_SECS
      && FiveMinutesApart(meta, meta[h].prev, n - 1)
  }

  lemma {:induction false} StepsBack(meta: MetaMap, floor: Hash, h: Hash, n: nat)
    requires TreeOk(meta) && Path(meta, floor, h).Ok? && n < |Path(meta, floor, h).value| && FiveMinutesApart(meta, h, n)
    ensures var p := Path(meta, floor, h).value;
            p[|p| - 1 - n] in meta && h in meta && meta[h].timestamp == meta[p[|p| - 1 - n]].timestamp + n * TARGET_BLOCK_TIME_SECS
    decreases n
  {
    hide TreeOk;
    if n > 0 {
      assert LinkOk(meta, h) by { KnownLink(meta, h); }
      StepsBack(meta, floor, meta[h].prev, n - 1);
    }
  }

  lemma KnownLink(meta: MetaMap, h: Hash)
    requires TreeOk(meta) && h in meta
    ensures LinkOk(meta, h)
  {
  }

  /**
   An interval is measured from its first block to its last, one gap short of its length: if its blocks are
   exactly five minutes apart, the next expected target is strictly harder.
   */
  lemma FiveMinuteBlocksGetHarder(c: ChainState, parent: Hash)
    requires Linked(c) && ExpectedDifficulty(c, parent).Ok? && RetargetDue(c.meta[parent].height + 1)
    requires TargetValue(c.meta[parent].bits) > 0 && FiveMinutesApart(c.meta, parent, RETARGET_INTERVAL_BLOCKS - 1)
    ensures TargetValue(ExpectedDifficulty(c, parent).value) < TargetValue(c.meta[parent].bits)
  {
    hide Retarget, TargetValue, Path, TreeOk, Overflows, FiveMinutesApart;
    StepsBack(c.meta, c.floor, parent, RETARGET_INTERVAL_BLOCKS - 1);
    DifficultyFollowsPace(c, parent);
  }

  /** Once the expected target is zero, no block on that parent is valid at any time, whatever it holds. */
  lemma NoBlockMeetsZero(o: Oracle, c: ChainState, b: Block, now: nat)
    requires Linked(c) && ExpectedDifficulty(c, b.header.prev).Ok?
    requires TargetValue(ExpectedDifficulty(c, b.header.prev).value) == 0
    ensures ValidateBlock(o, c, b, now).Err? && TryApply(o, c, b, now).0 == c
  {
    hide TargetValue, ExpectedDifficulty, MedianTimePast, ValidateTransactions, BlockSize, TxCommitment;
    assert o.headerHash(b.header) != ZERO;
  }

  // ---- Raising the floor ------------------------------------------------------------------------

  /** `c2` sees the same ancestry as `c1`, cut at a higher floor on the parent's path. */
  ghost predicate CutView(c1: ChainState, c2: ChainState, parent: Hash)
    requires Linked(c1) && Linked(c2)
  {
    && Ancestors(c1, parent).Ok? && Ancestors(c2, parent).Ok?
    && c1.floorHeight <= c2.floorHeight
    && (var k := c2.floorHeight - c1.floorHeight;
        && k < |Ancestors(c1, parent).value|
        && Ancestors(c2, parent).value == Ancestors(c1, parent).value[k..])
    && SameFactsOn(c1.meta, c2.meta, Ancestors(c2, parent).value)
    && StateAt(c1, parent) == StateAt(c2, parent)
  }

  /** The difficulty rule agrees exactly when no retarget is due or its interval starts above the floor. */
  lemma CutDifficulty(c1: ChainState, c2: ChainState, parent: Hash)
    requires Linked(c1) && Linked(c2) && CutView(c1, c2, parent)
    ensures var due := RetargetDue(c2.meta[parent].height + 1);
            var seen := c2.meta[parent].height + 1 - RETARGET_INTERVAL_BLOCKS >= c2.floorHeight;
            && (!due || seen ==> ExpectedDifficulty(c1, parent) == ExpectedDifficulty(c2, parent))
            && (due && !seen ==> ExpectedDifficulty(c2, parent) == Err(UnknownBlock(parent)))
  {
    hide Retarget;
    var p1, p2 := Ancestors(c1, parent).value, Ancestors(c2, parent).value;
    var k := c2.floorHeight - c1.floorHeight;
    assert p2[|p2| - 1] == parent;
    assert SameFacts(c1.meta, c2.meta, p2[|p2| - 1]);
    var start := c2.meta[parent].height + 1 - RETARGET_INTERVAL_BLOCKS;
    if c2.floorHeight <= start {
      var x := p2[start - c2.floorHeight];
      assert p1[start - c1.floorHeight] == x;
      assert SameFacts(c1.meta, c2.meta, x);
    }
  }

  lemma CutMedian(c1: ChainState, c2: ChainState, parent: Hash)
    requires Linked(c1) && Linked(c2) && CutView(c1, c2, parent)
    requires |Ancestors(c2, parent).value| >= MEDIAN_TIME_PAST_WINDOW
    ensures MedianTimePast(c1, parent) == MedianTimePast(c2, parent)
  {
    var p1, p2 := Ancestors(c1, parent).value, Ancestors(c2, parent).value;
    assert Window(p1) == Window(p2);
    SameFactsOfSlice(c1.meta, c2.meta, p2, SatSub(|p2|, MEDIAN_TIME_PAST_WINDOW));
    SameTimestamps(c1.meta, c2.meta, Window(p2));
  }

  lemma DroppedByCut(p: seq<Hash>, k: nat, a: Hash) returns (i: nat)
    requires k <= |p| && a in p && a !in p[k..]
    ensures i < k && p[i] == a
  {
    i :| 0 <= i < |p| && p[i] == a;
    assert forall j :: k <= j < |p| ==> p[j] == p[k..][j - k];
  }

  /** Anchors young enough for a block this far above the floor are all still visible. */
  lemma CutAnchors(c1: ChainState, c2: ChainState, parent: Hash, height: nat)
    requires Linked(c1) && Linked(c2) && CutView(c1, c2, parent)
    requires height >= c2.floorHeight + ANCHOR_MAX_AGE_BLOCKS
    ensures SameAnchors(c1.meta, Ancestors(c1, parent).value, c2.meta, Ancestors(c2, parent).value, height)
  {
    hide Path, StateAt, TreeOk;
    var p1, p2 := Ancestors(c1, parent).value, Ancestors(c2, parent).value;
    var k := c2.floorHeight - c1.floorHeight;
    forall a: Hash ensures AnchorOk(c1.meta, p1, height, a) <==> AnchorOk(c2.meta, p2, height, a) {
      if a in p2 {
        var i :| 0 <= i < |p2| && p2[i] == a;
        assert SameFacts(c1.meta, c2.meta, p2[i]);
        assert p1[k + i] == a;
      } else if a in p1 {
        var i := DroppedByCut(p1, k, a);
        assert c1.meta[p1[i]].height == c1.floorHeight + i;
      }
    }
  }

  /**
   Raising the floor changes no verdict for a block whose parent is at least 287 above the new floor:
   the same retarget, the same median, the same anchor decisions, the same parent state, the same error.
   */
  lemma CutVerdict(o: Oracle, c1: ChainState, c2: ChainState, b: Block, now: nat)
    requires Linked(c1) && Linked(c2) && CutView(c1, c2, b.header.prev)
    requires c2.meta[b.header.prev].height >= c2.floorHeight + RETARGET_INTERVAL_BLOCKS - 1
    ensures ValidateBlock(o, c1, b, now) == ValidateBlock(o, c2, b, now)
  {
    hide TargetValue, TxCommitment, BlockSize, ExpectedDifficulty, MedianTimePast, StateAt, Path, LinkOk, TreeOk,
         RetargetDue, CheckTxs;
    var parent := b.header.prev;
    var p1, p2 := Ancestors(c1, parent).value, Ancestors(c2, parent).value;
    assert SameFacts(c1.meta, c2.meta, p2[|p2| - 1]);
    assert ExpectedDifficulty(c1, parent) == ExpectedDifficulty(c2, parent) by {
      CutDifficulty(c1, c2, parent);
    }
    CutMedian(c1, c2, parent);
    if b.header.height == c2.meta[parent].height + 1 && StateAt(c1, parent).Ok? {
      CutAnchors(c1, c2, parent, b.header.height);
      SameAnchorsSameChecks(o, c1.meta, p1, c2.meta, p2, b.header.height, StateAt(c1, parent).value, {}, b.txs);
    }
  }
}
