/**
 Catching up: a node asks a peer for its tip, then for the blocks above its own tip, and applies them in
 the order served. One round reaches the peer's chain when it extends ours, and otherwise stops at the
 first block whose parent is unknown.
 */
module Sync {
  import opened Prelude
  import opened Difficulty
  import opened LedgerTypes
  import opened ChainRules
  import opened ChainViews
  import opened ChainInvariant
  import opened ChainRuns
  import opened StoreRules
  import opened StoreReplay
  import opened Convergence

  const MAX_SYNC_BATCH: nat := 500

  /** The body at a canonical height, if it is still held. */
  function CanonicalBlockAt(c: ChainState, height: nat): Option<Block> {
    if height in c.index && c.index[height] in c.blocks then Some(c.blocks[c.index[height]]) else None
  }

  /** The bodies at `count` heights from `from` up; nothing at all if any is missing. */
  function Serve(c: ChainState, from: nat, count: nat): (r: Option<seq<Block>>)
    ensures r.Some? ==> |r.value| == count && forall k :: from <= k < from + count ==> CanonicalBlockAt(c, k) == Some(r.value[k - from])
    ensures r.None? ==> exists k :: from <= k < from + count && CanonicalBlockAt(c, k) == None
    decreases count
  {
    if count == 0 then Some([])
    else
      match Serve(c, from, count - 1)
      case None => None
      case Some(blocks) =>
        if CanonicalBlockAt(c, from + count - 1).None? then None
        else Some(blocks + [CanonicalBlockAt(c, from + count - 1).value])
  }

  /** The answer to a request for blocks. */
  function ServeBlocks(c: ChainState, from: nat, count: nat): Option<seq<Block>> { Serve(c, from, Min(count, MAX_SYNC_BATCH)) }

  /** How many blocks to ask for; the subtraction wraps when the peer's chain is the shorter one. */
  function BlocksToAskFor(peerHeight: nat, ownHeight: nat): nat { Min((peerHeight - ownHeight) % U64, MAX_SYNC_BATCH) }

  /** Applies served blocks in order, up to the first that is refused. */
  function ApplyServed(o: Oracle, c: ChainState, blocks: seq<Block>, now: nat): (ChainState, Result<(), LedgerError>)
    requires Linked(c)
    decreases |blocks|
  {
    if |blocks| == 0 then (c, Ok(()))
    else
      var (c2, r) := TryApply(o, c, blocks[0], now);
      if r.Err? then (c2, Err(r.error))
      else
        TryApplyLinked(o, c, blocks[0], now);
        ApplyServed(o, c2, blocks[1..], now)
  }

  datatype SyncResult = NothingToDo | NothingServed | Applied | Refused(error: LedgerError)

  /** One whole round against an unchanged peer: compare tips, ask, apply. */
  function SyncRound(o: Oracle, c: ChainState, peer: ChainState, now: nat): (ChainState, SyncResult)
    requires Linked(c) && Linked(peer)
  {
    var own, theirs := c.meta[c.tip], peer.meta[peer.tip];
    if theirs.work <= own.work then (c, NothingToDo)
    else
      match ServeBlocks(peer, own.height + 1, BlocksToAskFor(theirs.height, own.height))
      case None => (c, NothingServed)
      case Some(blocks) =>
        var (c2, r) := ApplyServed(o, c, blocks, now);
        (c2, if r.Err? then Refused(r.error) else Applied)
  }

  /** A request asks for as many blocks as the peer is ahead, wrapping in 64 bits if it is behind, at most 500. */
  lemma {:induction false} RequestExactly(peerHeight: nat, ownHeight: nat)
    requires peerHeight < 0x1_0000_0000_0000_0000 && ownHeight < 0x1_0000_0000_0000_0000
    ensures var n := BlocksToAskFor(peerHeight, ownHeight);
            var ahead := if peerHeight >= ownHeight then peerHeight - ownHeight else 0x1_0000_0000_0000_0000 + peerHeight - ownHeight;
            n <= 500 && n <= ahead && (n == 500 || n == ahead)
  {
  }

  /** An answer holds the canonical bodies of consecutive heights, at most 500, or there is none because one is missing. */
  lemma {:induction false} AnswerExactly(c: ChainState, from: nat, count: nat)
    ensures var r, n := ServeBlocks(c, from, count), if count < 500 then count else 500;
            && (r.Some? <==> forall k :: from <= k < from + n ==> k in c.index && c.index[k] in c.blocks)
            && (r.Some? ==> |r.value| == n && forall i :: 0 <= i < n ==> r.value[i] == c.blocks[c.index[from + i]])
  {
    var r, n := ServeBlocks(c, from, count), if count < 500 then count else 500;
    if r.Some? {
      forall k | from <= k < from + n ensures k in c.index && c.index[k] in c.blocks && r.value[k - from] == c.blocks[c.index[k]] {
        assert CanonicalBlockAt(c, k) == Some(r.value[k - from]);
      }
    } else {
      var k :| from <= k < from + n && CanonicalBlockAt(c, k) == None;
    }
  }

  // ---- What an unpruned peer serves --------------------------------------------------------------

  /** An unpruned peer holds every canonical body up to its tip, and none beyond. */
  lemma {:induction false} PeerHolds(o: Oracle, p: ChainState, gp: History, height: nat)
    requires Unpruned(o, p, gp) && height > 0
    ensures p.tip in p.meta && Linked(p) && Ancestors(p, p.tip).Ok?
    ensures |Ancestors(p, p.tip).value| == p.meta[p.tip].height + 1
    ensures height > p.meta[p.tip].height ==> CanonicalBlockAt(p, height) == None
    ensures height <= p.meta[p.tip].height ==>
              var h := Ancestors(p, p.tip).value[height];
              && CanonicalBlockAt(p, height).Some? && h in p.meta && h != gp.root
              && (var b := CanonicalBlockAt(p, height).value;
                  && BlockHash(o, b) == h && b.header.prev == Ancestors(p, p.tip).value[height - 1]
                  && b.header.txCommitment == TxCommitment(o, b.txs)
                  && |b.txs| <= MAX_TXS_PER_BLOCK && BlockSize(b) <= MAX_BLOCK_BYTES)
  {
    hide Inv, Path, StateAt, TreeOk, TimelyUntilPruned, WorkOf, TxCommitment, Genesis, BlockSize, ExpectedDifficulty,
         ValidateTransactions, TargetValue;
    InvIsLinked(o, p, gp);
    IndexFromFloor(o, p, gp, height);
    assert |Ancestors(p, p.tip).value| == p.meta[p.tip].height + 1;
    if height <= p.meta[p.tip].height {
      CanonicalBody(o, p, gp, height);
      InvParts(o, p, gp, Ancestors(p, p.tip).value[height], height - 1);
    }
  }

  /** A run of consecutive canonical blocks of the peer. */
  ghost predicate Consecutive(o: Oracle, p: ChainState, gp: History, from: nat, blocks: seq<Block>)
    requires Linked(p) && Ancestors(p, p.tip).Ok?
  {
    && from > 0 && from + |blocks| <= |Ancestors(p, p.tip).value|
    && (forall i :: 0 <= i < |blocks| ==> ServedAs(o, p, gp, from + i, blocks[i]))
  }

  ghost predicate ServedAs(o: Oracle, p: ChainState, gp: History, height: nat, b: Block)
    requires Linked(p) && Ancestors(p, p.tip).Ok? && 0 < height < |Ancestors(p, p.tip).value|
  {
    var path := Ancestors(p, p.tip).value;
    && BlockHash(o, b) == path[height] && b.header.prev == path[height - 1] && path[height] in p.meta
    && path[height] != gp.root && b.header.txCommitment == TxCommitment(o, b.txs)
    && |b.txs| <= MAX_TXS_PER_BLOCK && BlockSize(b) <= MAX_BLOCK_BYTES
  }

  lemma {:induction false} ServedAreConsecutive(o: Oracle, p: ChainState, gp: History, from: nat, count: nat)
    requires Unpruned(o, p, gp) && from > 0 && p.tip in p.meta && from + count <= p.meta[p.tip].height + 1
    ensures Linked(p) && Ancestors(p, p.tip).Ok? && Serve(p, from, count).Some?
    ensures Consecutive(o, p, gp, from, Serve(p, from, count).value)
  {
    hide Unpruned, Path, TxCommitment, BlockHash, CanonicalBlockAt, TreeOk, BlockSize;
    PeerHolds(o, p, gp, from);
    forall k | from <= k < from + count ensures CanonicalBlockAt(p, k).Some? && ServedAs(o, p, gp, k, CanonicalBlockAt(p, k).value) {
      PeerHolds(o, p, gp, k);
    }
    var blocks := Serve(p, from, count).value;
    forall i | 0 <= i < |blocks| ensures ServedAs(o, p, gp, from + i, blocks[i]) {
      assert CanonicalBlockAt(p, from + i) == Some(blocks[i]);
    }
  }

  // ---- Applying what was served ------------------------------------------------------------------

  ghost predicate InTime(blocks: seq<Block>, now: nat) {
    forall i :: 0 <= i < |blocks| ==> blocks[i].header.timestamp <= now + MAX_FUTURE_DRIFT_SECS
  }

  /** A served block whose parent we know is accepted or already known. */
  lemma {:induction false} ServedIsAccepted(
      o: Oracle, c: ChainState, g: History, p: ChainState, gp: History, height: nat, b: Block, now: nat)
    requires Injective(o) && Unpruned(o, c, g) && Unpruned(o, p, gp)
    requires Linked(p) && Ancestors(p, p.tip).Ok? && 0 < height < |Ancestors(p, p.tip).value| && ServedAs(o, p, gp, height, b)
    requires b.header.prev in c.meta && b.header.timestamp <= now + MAX_FUTURE_DRIFT_SECS
    ensures Linked(c) && TryApply(o, c, b, now).1.Ok? && BlockHash(o, b) in TryApply(o, c, b, now).0.meta
  {
    hide Unpruned, Path, TxCommitment, ValidateBlock, TryApply, Inv;
    ApplyKeepsUnpruned(o, c, g, b, now);
    AcceptedIsValidElsewhere(o, c, g, p, gp, b, now);
    UnprunedInv(o, c, g);
    ApplyIsAllOrNothing(o, c, g, b, now);
  }

  /** If the parent of the first served block is known, every served block is known at the end. */
  lemma {:induction false} BatchIsAccepted(
      o: Oracle, c: ChainState, g: History, p: ChainState, gp: History, from: nat, blocks: seq<Block>, now: nat) returns (g2: History)
    requires Injective(o) && Unpruned(o, c, g) && Unpruned(o, p, gp) && Linked(p) && Ancestors(p, p.tip).Ok?
    requires Consecutive(o, p, gp, from, blocks) && InTime(blocks, now)
    requires |blocks| > 0 ==> blocks[0].header.prev in c.meta
    ensures Linked(c) && ApplyServed(o, c, blocks, now).1 == Ok(())
    ensures Unpruned(o, ApplyServed(o, c, blocks, now).0, g2)
    ensures forall i :: 0 <= i < |blocks| ==> BlockHash(o, blocks[i]) in ApplyServed(o, c, blocks, now).0.meta
    ensures forall x :: x in c.meta ==> x in ApplyServed(o, c, blocks, now).0.meta
    decreases |blocks|
  {
    hide Unpruned, Path, TxCommitment, ValidateBlock, TryApply, Inv, BlockHash, TreeOk;
    g2 := g;
    UnprunedInv(o, c, g);
    InvIsLinked(o, c, g);
    if |blocks| > 0 {
      assert ServedAs(o, p, gp, from + 0, blocks[0]);
      ServedIsAccepted(o, c, g, p, gp, from, blocks[0], now);
      ApplyKeepsUnpruned(o, c, g, blocks[0], now);
      var rest := blocks[1..];
      forall i | 0 <= i < |rest| ensures ServedAs(o, p, gp, from + 1 + i, rest[i]) {
        assert ServedAs(o, p, gp, from + (i + 1), blocks[i + 1]);
      }
      if |rest| > 0 {
        assert ServedAs(o, p, gp, from + 1 + 0, rest[0]);
      }
      g2 := BatchIsAccepted(o, TryApply(o, c, blocks[0], now).0, HistoryAfter(o, c, g, blocks[0], now), p, gp, from + 1, rest, now);
      var final := ApplyServed(o, c, blocks, now).0;
      forall i | 0 <= i < |blocks| ensures BlockHash(o, blocks[i]) in final.meta {
        if i > 0 {
          assert blocks[i] == rest[i - 1];
        }
      }
    }
  }

  // ---- Catching up -------------------------------------------------------------------------------

  /** Every block, in turn, extends the tip. */
  ghost predicate AllExtend(o: Oracle, c: ChainState, blocks: seq<Block>, now: nat)
    requires Linked(c)
    decreases |blocks|
  {
    |blocks| > 0 ==>
      && TryApply(o, c, blocks[0], now).1 == Ok(ExtendedTip)
      && Linked(TryApply(o, c, blocks[0], now).0) && AllExtend(o, TryApply(o, c, blocks[0], now).0, blocks[1..], now)
  }

  /** A child of the tip cannot be known already: it would be heavier. */
  lemma {:induction false} ChildOfTipIsNew(o: Oracle, c: ChainState, g: History, b: Block)
    requires Injective(o) && Unpruned(o, c, g) && b.header.prev == c.tip && BlockHash(o, b) != g.root
    ensures BlockHash(o, b) !in c.meta
  {
    hide Lawful, LinkOk, TreeOk, TimelyUntilPruned, ViewsOk, Retained, AllLawful;
  }

  /** If the first served block is a child of the tip, the whole batch extends the tip. */
  lemma {:induction false} BatchExtendsTip(
      o: Oracle, c: ChainState, g: History, p: ChainState, gp: History, from: nat, blocks: seq<Block>, now: nat) returns (g2: History)
    requires Injective(o) && Unpruned(o, c, g) && Unpruned(o, p, gp) && Linked(p) && Ancestors(p, p.tip).Ok?
    requires Consecutive(o, p, gp, from, blocks) && InTime(blocks, now)
    requires from <= |Ancestors(p, p.tip).value| && c.tip == Ancestors(p, p.tip).value[from - 1]
    ensures Linked(c) && AllExtend(o, c, blocks, now) && ApplyServed(o, c, blocks, now).1 == Ok(())
    ensures Unpruned(o, ApplyServed(o, c, blocks, now).0, g2)
    ensures ApplyServed(o, c, blocks, now).0.tip == Ancestors(p, p.tip).value[from + |blocks| - 1]
    decreases |blocks|
  {
    hide Unpruned, Path, TxCommitment, ValidateBlock, TryApply, Inv, BlockHash, TreeOk, BlockSize;
    g2 := g;
    UnprunedInv(o, c, g);
    InvIsLinked(o, c, g);
    if |blocks| > 0 {
      assert ServedAs(o, p, gp, from + 0, blocks[0]);
      SameRoot(o, c, g, p, gp);
      ChildOfTipIsNew(o, c, g, blocks[0]);
      AcceptedIsValidElsewhere(o, c, g, p, gp, blocks[0], now);
      ForkChoice(o, c, g, blocks[0], now);
      ApplyKeepsUnpruned(o, c, g, blocks[0], now);
      var rest := blocks[1..];
      forall i | 0 <= i < |rest| ensures ServedAs(o, p, gp, from + 1 + i, rest[i]) {
        assert ServedAs(o, p, gp, from + (i + 1), blocks[i + 1]);
      }
      g2 := BatchExtendsTip(o, TryApply(o, c, blocks[0], now).0, HistoryAfter(o, c, g, blocks[0], now), p, gp, from + 1, rest, now);
    }
  }

  /** The blocks a node asks `p` for are all served, and are the right ones. */
  ghost predicate ServedInFull(o: Oracle, c: ChainState, p: ChainState, gp: History)
    requires Linked(c) && Linked(p) && Ancestors(p, p.tip).Ok?
  {
    var own, theirs := c.meta[c.tip].height, p.meta[p.tip].height;
    var blocks := ServeBlocks(p, own + 1, BlocksToAskFor(theirs, own));
    && BlocksToAskFor(theirs, own) == Min(theirs - own, MAX_SYNC_BATCH)
    && blocks.Some? && |blocks.value| == BlocksToAskFor(theirs, own)
    && Consecutive(o, p, gp, own + 1, blocks.value)
  }

  /** The request a node makes of a heavier peer with a taller chain is served in full. */
  lemma {:induction false} TallerPeerServes(o: Oracle, c: ChainState, p: ChainState, gp: History)
    requires Linked(c) && Unpruned(o, p, gp)
    requires p.tip in p.meta && c.meta[c.tip].height <= p.meta[p.tip].height < U64
    ensures Linked(p) && Ancestors(p, p.tip).Ok?
    ensures ServedInFull(o, c, p, gp)
  {
    hide Unpruned, Path, Serve, TreeOk;
    var own, theirs := c.meta[c.tip].height, p.meta[p.tip].height;
    ServedAreConsecutive(o, p, gp, own + 1, Min(theirs - own, MAX_SYNC_BATCH));
  }

  /** One round makes every served block a tip extension and ends `500` blocks further, or at the peer's tip. */
  ghost predicate CaughtUp(o: Oracle, c: ChainState, p: ChainState, now: nat)
    requires Linked(c) && Linked(p) && Ancestors(p, p.tip).Ok?
  {
    var own, theirs := c.meta[c.tip].height, p.meta[p.tip].height;
    var path := Ancestors(p, p.tip).value;
    var goal := Min(theirs, own + MAX_SYNC_BATCH);
    var blocks := ServeBlocks(p, own + 1, BlocksToAskFor(theirs, own));
    && own < theirs && 0 <= goal < |path|
    && SyncRound(o, c, p, now).1 == Applied && SyncRound(o, c, p, now).0.tip == path[goal]
    && blocks.Some? && AllExtend(o, c, blocks.value, now)
  }

  ghost predicate AllInTime(p: ChainState, now: nat) {
    forall k :: CanonicalBlockAt(p, k).Some? ==> CanonicalBlockAt(p, k).value.header.timestamp <= now + MAX_FUTURE_DRIFT_SECS
  }

  /**
   Catch-up: if our tip lies on the heavier peer's canonical path and the served timestamps pass the drift
   check, one round applies every served block as a tip extension and ends at the peer's canonical block
   of height min(peer height, our height + 500).
   */
  lemma {:induction false} CatchUp(o: Oracle, c: ChainState, g: History, p: ChainState, gp: History, now: nat) returns (g2: History)
    requires Injective(o) && Unpruned(o, c, g) && Unpruned(o, p, gp)
    requires Linked(c) && Linked(p) && Ancestors(p, p.tip).Ok? && c.tip in Ancestors(p, p.tip).value
    requires p.meta[p.tip].work > c.meta[c.tip].work && p.meta[p.tip].height < U64
    requires AllInTime(p, now)
    ensures CaughtUp(o, c, p, now) && Unpruned(o, SyncRound(o, c, p, now).0, g2)
  {
    hide Unpruned, Path, Serve, TreeOk, Consecutive, AllExtend, ApplyServed, StateAt;
    var own, theirs := c.meta[c.tip].height, p.meta[p.tip].height;
    TipOnPath(o, c, g, p, gp);
    TallerPeerServes(o, c, p, gp);
    var blocks := ServeBlocks(p, own + 1, BlocksToAskFor(theirs, own)).value;
    forall i | 0 <= i < |blocks| ensures blocks[i].header.timestamp <= now + MAX_FUTURE_DRIFT_SECS {
      assert CanonicalBlockAt(p, own + 1 + i) == Some(blocks[i]);
    }
    g2 := BatchExtendsTip(o, c, g, p, gp, own + 1, blocks, now);
  }

  lemma {:induction false} TipOnPath(o: Oracle, c: ChainState, g: History, p: ChainState, gp: History)
    requires Injective(o) && Unpruned(o, c, g) && Unpruned(o, p, gp)
    requires Linked(c) && Linked(p) && Ancestors(p, p.tip).Ok? && c.tip in Ancestors(p, p.tip).value
    requires p.meta[p.tip].work > c.meta[c.tip].work
    ensures c.meta[c.tip].height < p.meta[p.tip].height
    ensures |Ancestors(p, p.tip).value| == p.meta[p.tip].height + 1
    ensures Ancestors(p, p.tip).value[c.meta[c.tip].height] == c.tip
  {
    hide Inv, Path, TimelyUntilPruned, TreeOk, Genesis, BlockHash;
    PathPosition(p.meta, p.floor, p.tip, c.tip);
    AgreeOnCommon(o, c, g, p, gp, c.tip);
    assert |Ancestors(p, p.tip).value| == p.meta[p.tip].height + 1;
  }

  // ---- When a round makes no progress ------------------------------------------------------------

  /** A served block whose parent is unknown is refused for that reason, and nothing changes. */
  lemma {:induction false} UnknownParentRefused(o: Oracle, c: ChainState, g: History, p: ChainState, gp: History, height: nat, b: Block, now: nat)
    requires Injective(o) && Unpruned(o, c, g) && Unpruned(o, p, gp)
    requires Linked(p) && Ancestors(p, p.tip).Ok? && 0 < height < |Ancestors(p, p.tip).value| && ServedAs(o, p, gp, height, b)
    requires b.header.prev !in c.meta
    ensures Linked(c) && TryApply(o, c, b, now) == (c, Err(UnknownParent(b.header.prev)))
  {
    hide Unpruned, Path, TxCommitment, TreeOk, BlockSize, ExpectedDifficulty, MedianTimePast, ValidateTransactions, BlockHash;
    UnprunedInv(o, c, g);
    InvIsLinked(o, c, g);
    SameRoot(o, c, g, p, gp);
    if BlockHash(o, b) in c.meta {
      KnownParent(o, c, g, b);
    }
  }

  ghost predicate RoundCases(o: Oracle, c: ChainState, p: ChainState, now: nat)
    requires Linked(c) && Linked(p) && Ancestors(p, p.tip).Ok?
  {
    var own, theirs := c.meta[c.tip].height, p.meta[p.tip].height;
    var path := Ancestors(p, p.tip).value;
    && |path| == theirs + 1
    && (theirs < own ==> SyncRound(o, c, p, now) == (c, NothingServed))
    && (theirs == own ==> SyncRound(o, c, p, now) == (c, Applied))
    && (theirs > own && path[own] !in c.meta ==> SyncRound(o, c, p, now) == (c, Refused(UnknownParent(path[own]))))
    && (theirs > own && path[own] in c.meta ==>
          && SyncRound(o, c, p, now).1 == Applied
          && forall k :: own < k <= Min(theirs, own + MAX_SYNC_BATCH) ==> path[k] in SyncRound(o, c, p, now).0.meta)
  }

  /**
   What one round against a heavier peer does, in every case. A shorter peer serves nothing; an equally
   tall one an empty batch; a taller one is followed exactly when the parent of the first served block,
   its canonical block at our own height, is already known. Otherwise the round is refused for the
   unknown parent and leaves the chain as it was, however often it is repeated.
   */
  lemma {:induction false} SyncRoundExactly(o: Oracle, c: ChainState, g: History, p: ChainState, gp: History, now: nat)
    requires Injective(o) && Unpruned(o, c, g) && Unpruned(o, p, gp) && Linked(c) && Linked(p) && Ancestors(p, p.tip).Ok?
    requires p.meta[p.tip].work > c.meta[c.tip].work && p.meta[p.tip].height < U64 && c.meta[c.tip].height < U64 - MAX_SYNC_BATCH
    requires AllInTime(p, now)
    ensures RoundCases(o, c, p, now)
  {
    hide Unpruned, Path, TreeOk, ApplyServed, StateAt, Serve, CanonicalBlockAt;
    var own, theirs := c.meta[c.tip].height, p.meta[p.tip].height;
    var path := Ancestors(p, p.tip).value;
    assert |path| == theirs + 1 by {
      PeerHolds(o, p, gp, 1);
    }
    if theirs < own {
      ShorterPeer(o, p, gp, own, theirs);
    } else {
      TallerPeerServes(o, c, p, gp);
      var blocks := ServeBlocks(p, own + 1, BlocksToAskFor(theirs, own)).value;
      if theirs > own {
        TallerPeer(o, c, g, p, gp, own, blocks, now);
      } else {
        NoBlocks(o, c, blocks, now);
      }
    }
  }

  lemma {:induction false} NoBlocks(o: Oracle, c: ChainState, blocks: seq<Block>, now: nat)
    requires Linked(c) && |blocks| == 0
    ensures ApplyServed(o, c, blocks, now) == (c, Ok(()))
  {
  }

  lemma {:induction false} ShorterPeer(o: Oracle, p: ChainState, gp: History, own: nat, theirs: nat)
    requires Unpruned(o, p, gp) && p.tip in p.meta && theirs == p.meta[p.tip].height && theirs < own < U64 - MAX_SYNC_BATCH
    ensures ServeBlocks(p, own + 1, BlocksToAskFor(theirs, own)) == None
  {
    hide Unpruned, CanonicalBlockAt;
    assert (theirs - own) % U64 == theirs - own + U64;
    PeerHolds(o, p, gp, own + 1);
    assert CanonicalBlockAt(p, own + 1) == None;
  }

  lemma {:induction false} TallerPeer(
      o: Oracle, c: ChainState, g: History, p: ChainState, gp: History, own: nat, blocks: seq<Block>, now: nat)
    requires Injective(o) && Unpruned(o, c, g) && Unpruned(o, p, gp) && Linked(c) && Linked(p) && Ancestors(p, p.tip).Ok?
    requires Consecutive(o, p, gp, own + 1, blocks) && |blocks| > 0
    requires forall i :: 0 <= i < |blocks| ==> CanonicalBlockAt(p, own + 1 + i) == Some(blocks[i])
    requires AllInTime(p, now)
    ensures var path := Ancestors(p, p.tip).value;
            && (path[own] !in c.meta ==> ApplyServed(o, c, blocks, now) == (c, Err(UnknownParent(path[own]))))
            && (path[own] in c.meta ==>
                  && ApplyServed(o, c, blocks, now).1 == Ok(())
                  && forall k :: own < k <= own + |blocks| ==> path[k] in ApplyServed(o, c, blocks, now).0.meta)
  {
    hide Unpruned, Path, TreeOk, StateAt, TryApply, CanonicalBlockAt, TxCommitment, BlockSize;
    var path := Ancestors(p, p.tip).value;
    assert ServedAs(o, p, gp, own + 1 + 0, blocks[0]);
    if path[own] !in c.meta {
      UnknownParentRefused(o, c, g, p, gp, own + 1, blocks[0], now);
    } else {
      forall i | 0 <= i < |blocks| ensures blocks[i].header.timestamp <= now + MAX_FUTURE_DRIFT_SECS {
        assert CanonicalBlockAt(p, own + 1 + i) == Some(blocks[i]);
      }
      var g2 := BatchIsAccepted(o, c, g, p, gp, own + 1, blocks, now);
      forall k | own < k <= own + |blocks| ensures path[k] in ApplyServed(o, c, blocks, now).0.meta {
        assert ServedAs(o, p, gp, own + 1 + (k - own - 1), blocks[k - own - 1]);
      }
    }
  }

  // ---- Round after round -------------------------------------------------------------------------

  lemma {:induction false} ApplyServedLinked(o: Oracle, c: ChainState, blocks: seq<Block>, now: nat)
    requires Linked(c)
    ensures Linked(ApplyServed(o, c, blocks, now).0)
    decreases |blocks|
  {
    hide TryApply, TreeOk;
    if |blocks| > 0 {
      TryApplyLinked(o, c, blocks[0], now);
      if TryApply(o, c, blocks[0], now).1.Ok? {
        ApplyServedLinked(o, TryApply(o, c, blocks[0], now).0, blocks[1..], now);
      }
    }
  }

  lemma {:induction false} RoundLinked(o: Oracle, c: ChainState, peer: ChainState, now: nat)
    requires Linked(c) && Linked(peer)
    ensures Linked(SyncRound(o, c, peer, now).0)
  {
    hide ApplyServed, Serve, TreeOk;
    var blocks := ServeBlocks(peer, c.meta[c.tip].height + 1, BlocksToAskFor(peer.meta[peer.tip].height, c.meta[c.tip].height));
    if blocks.Some? {
      ApplyServedLinked(o, c, blocks.value, now);
    }
  }

  /** The chain after `n` rounds against an unchanged peer. */
  function Rounds(o: Oracle, c: ChainState, peer: ChainState, now: nat, n: nat): (r: ChainState)
    requires Linked(c) && Linked(peer)
    ensures Linked(r)
    decreases n
  {
    if n == 0 then c
    else
      RoundLinked(o, c, peer, now);
      Rounds(o, SyncRound(o, c, peer, now).0, peer, now, n - 1)
  }

  /** A block further up the tip's path has more work behind it. */
  lemma {:induction false} WorkGrows(o: Oracle, c: ChainState, g: History, i: nat, j: nat)
    requires Inv(o, c, g) && Linked(c) && Ancestors(c, c.tip).Ok? && i <= j < |Ancestors(c, c.tip).value|
    ensures var path := Ancestors(c, c.tip).value;
            path[i] in c.meta && path[j] in c.meta && (i < j ==> c.meta[path[i]].work < c.meta[path[j]].work)
    decreases j
  {
    hide Inv, Path, TreeOk, Lawful, WorkOf;
    if i < j {
      CanonicalBody(o, c, g, j);
      WorkGrows(o, c, g, i, j - 1);
    }
  }

  /** Where our tip sits on the peer's path, and how far from the end. */
  lemma {:induction false} TipPosition(o: Oracle, c: ChainState, g: History, p: ChainState, gp: History)
    requires Injective(o) && Unpruned(o, c, g) && Unpruned(o, p, gp)
    requires Linked(c) && Linked(p) && Ancestors(p, p.tip).Ok? && c.tip in Ancestors(p, p.tip).value
    ensures var own, theirs := c.meta[c.tip].height, p.meta[p.tip].height;
            && own <= theirs && |Ancestors(p, p.tip).value| == theirs + 1 && Ancestors(p, p.tip).value[own] == c.tip
            && Ancestors(p, p.tip).value[theirs] == p.tip
            && (own == theirs <==> p.meta[p.tip].work <= c.meta[c.tip].work)
  {
    hide Inv, Path, TimelyUntilPruned, TreeOk, Genesis, BlockHash;
    PathPosition(p.meta, p.floor, p.tip, c.tip);
    AgreeOnCommon(o, c, g, p, gp, c.tip);
    UnprunedInv(o, p, gp);
    assert |Ancestors(p, p.tip).value| == p.meta[p.tip].height + 1;
    WorkGrows(o, p, gp, c.meta[c.tip].height, p.meta[p.tip].height);
  }

  /** Rounds needed to climb `gap` heights, five hundred at a time. */
  function RoundsFor(gap: nat): nat { (gap + MAX_SYNC_BATCH - 1) / MAX_SYNC_BATCH }

  lemma RoundsForStep(gap: nat)
    requires gap > 0
    ensures RoundsFor(gap) > 0 && RoundsFor(gap - Min(gap, MAX_SYNC_BATCH)) == RoundsFor(gap) - 1
  {
  }

  /** As many rounds as the gap has batches reach the peer's tip, and from then on a round does nothing. */
  lemma {:induction false} CatchUpFully(o: Oracle, c: ChainState, g: History, p: ChainState, gp: History, now: nat) returns (g2: History)
    requires Injective(o) && Unpruned(o, c, g) && Unpruned(o, p, gp)
    requires Linked(c) && Linked(p) && Ancestors(p, p.tip).Ok? && c.tip in Ancestors(p, p.tip).value
    requires p.meta[p.tip].height < U64 && AllInTime(p, now)
    ensures c.meta[c.tip].height <= p.meta[p.tip].height
    ensures var final := Rounds(o, c, p, now, RoundsFor(p.meta[p.tip].height - c.meta[c.tip].height));
            && final.tip == p.tip && Unpruned(o, final, g2) && SyncRound(o, final, p, now) == (final, NothingToDo)
    decreases if c.meta[c.tip].height < p.meta[p.tip].height then p.meta[p.tip].height - c.meta[c.tip].height else 0
  {
    hide Unpruned, Ancestors, TreeOk, AllInTime, RoundsFor, ApplyServed, ServeBlocks, AllExtend;
    TipPosition(o, c, g, p, gp);
    var own, theirs := c.meta[c.tip].height, p.meta[p.tip].height;
    if own == theirs {
      g2 := g;
      assert RoundsFor(0) == 0 by { NoRounds(); }
    } else {
      var g1 := CatchUp(o, c, g, p, gp, now);
      var c2 := SyncRound(o, c, p, now).0;
      var goal := Min(theirs, own + MAX_SYNC_BATCH);
      RoundLinked(o, c, p, now);
      var path := Ancestors(p, p.tip).value;
      assert c2.tip == path[goal] && c2.tip in path;
      AgreedHeight(o, c2, g1, p, gp, goal);
      RoundsForStep(theirs - own);
      g2 := CatchUpFully(o, c2, g1, p, gp, now);
    }
  }

  lemma NoRounds()
    ensures RoundsFor(0) == 0
  {
  }

  lemma {:induction false} AgreedHeight(o: Oracle, c: ChainState, g: History, p: ChainState, gp: History, k: nat)
    requires Injective(o) && Unpruned(o, c, g) && Unpruned(o, p, gp) && Linked(c) && Linked(p) && Ancestors(p, p.tip).Ok?
    requires k < |Ancestors(p, p.tip).value| && c.tip == Ancestors(p, p.tip).value[k]
    ensures c.meta[c.tip].height == k
  {
    hide Inv, Path, TimelyUntilPruned, TreeOk, Genesis, BlockHash;
    AgreeOnCommon(o, c, g, p, gp, c.tip);
  }

  // ---- Which forks are followed ------------------------------------------------------------------

  lemma {:induction false} TipIsHeaviest(o: Oracle, c: ChainState, g: History, h: Hash)
    requires Unpruned(o, c, g) && h in c.meta
    ensures c.tip in c.meta && c.meta[h].work <= c.meta[c.tip].work
  {
  }

  lemma {:induction false} SameRecord(o: Oracle, c: ChainState, g: History, c2: ChainState, g2: History, h: Hash)
    requires Injective(o) && Unpruned(o, c, g) && Unpruned(o, c2, g2) && h in c.meta && h in c2.meta
    ensures c.meta[h] == c2.meta[h]
  {
    hide Inv, Path, TimelyUntilPruned, TreeOk, Genesis, BlockHash;
    AgreeOnCommon(o, c, g, c2, g2, h);
  }

  /** Applying a batch never lightens the tip, and replaces it only by a strictly heavier block. */
  lemma {:induction false} BatchTip(o: Oracle, c: ChainState, g: History, blocks: seq<Block>, now: nat) returns (g2: History)
    requires Unpruned(o, c, g)
    ensures Linked(c) && Unpruned(o, ApplyServed(o, c, blocks, now).0, g2)
    ensures var c2 := ApplyServed(o, c, blocks, now).0;
            && c2.tip in c2.meta && c2.meta[c2.tip].work >= c.meta[c.tip].work
            && (c2.tip != c.tip ==> c2.meta[c2.tip].work > c.meta[c.tip].work)
            && (forall x :: x in c2.meta ==> x in c.meta || exists i :: 0 <= i < |blocks| && BlockHash(o, blocks[i]) == x)
    decreases |blocks|
  {
    hide Unpruned, Path, TxCommitment, ValidateBlock, TryApply, Inv, BlockHash, TreeOk;
    g2 := g;
    UnprunedInv(o, c, g);
    InvIsLinked(o, c, g);
    if |blocks| > 0 {
      ApplyKeepsUnpruned(o, c, g, blocks[0], now);
      ForkChoice(o, c, g, blocks[0], now);
      var (c1, r) := TryApply(o, c, blocks[0], now);
      if r.Ok? {
        g2 := BatchTip(o, c1, HistoryAfter(o, c, g, blocks[0], now), blocks[1..], now);
        FromRest(o, c, c1, ApplyServed(o, c, blocks, now).0, blocks);
      } else {
        g2 := HistoryAfter(o, c, g, blocks[0], now);
        assert ApplyServed(o, c, blocks, now).0 == c1;
        assert forall x :: x in c1.meta && x !in c.meta ==> BlockHash(o, blocks[0]) == x;
      }
    }
  }

  lemma {:induction false} FromRest(o: Oracle, c: ChainState, c1: ChainState, c2: ChainState, blocks: seq<Block>)
    requires |blocks| > 0
    requires forall x :: x in c1.meta ==> x in c.meta || x == BlockHash(o, blocks[0])
    requires forall x :: x in c2.meta ==> x in c1.meta || exists i :: 0 <= i < |blocks| - 1 && BlockHash(o, blocks[1..][i]) == x
    ensures forall x :: x in c2.meta ==> x in c.meta || exists i :: 0 <= i < |blocks| && BlockHash(o, blocks[i]) == x
  {
    hide BlockHash;
    forall x | x in c2.meta && x !in c.meta ensures exists i :: 0 <= i < |blocks| && BlockHash(o, blocks[i]) == x {
      if x in c1.meta {
        assert BlockHash(o, blocks[0]) == x;
      } else {
        var i :| 0 <= i < |blocks| - 1 && BlockHash(o, blocks[1..][i]) == x;
        assert blocks[i + 1] == blocks[1..][i];
      }
    }
  }

  /**
   A batch of the peer's blocks on a known parent moves our tip exactly if its last block has more work behind
   it than our tip, and then to that block.
   */
  lemma {:induction false} BatchMovesTipExactly(
      o: Oracle, c: ChainState, g: History, p: ChainState, gp: History, from: nat, blocks: seq<Block>, now: nat) returns (g2: History)
    requires Injective(o) && Unpruned(o, c, g) && Unpruned(o, p, gp) && Linked(c) && Linked(p) && Ancestors(p, p.tip).Ok?
    requires Consecutive(o, p, gp, from, blocks) && InTime(blocks, now) && |blocks| > 0 && blocks[0].header.prev in c.meta
    ensures Unpruned(o, ApplyServed(o, c, blocks, now).0, g2) && ApplyServed(o, c, blocks, now).1 == Ok(())
    ensures var c2, last := ApplyServed(o, c, blocks, now).0, Ancestors(p, p.tip).value[from + |blocks| - 1];
            && last in p.meta && last in c2.meta
            && (forall i :: 0 <= i < |blocks| ==> BlockHash(o, blocks[i]) in c2.meta)
            && c2.tip == if p.meta[last].work > c.meta[c.tip].work then last else c.tip
  {
    hide Unpruned, Ancestors, TryApply, ApplyServed, BlockHash, TreeOk, ServedAs, Inv, Injective;
    var g3 := BatchIsAccepted(o, c, g, p, gp, from, blocks, now);
    g2 := BatchTip(o, c, g, blocks, now);
    var c2 := ApplyServed(o, c, blocks, now).0;
    var path, n := Ancestors(p, p.tip).value, |blocks|;
    ServedPlace(o, p, gp, from, blocks, n - 1);
    var last := path[from + n - 1];
    TipIsHeaviest(o, c2, g2, last);
    SameRecord(o, c2, g2, p, gp, last);
    if c2.tip !in c.meta {
      var i :| 0 <= i < n && BlockHash(o, blocks[i]) == c2.tip;
      ServedPlace(o, p, gp, from, blocks, i);
      SameRecord(o, c2, g2, p, gp, c2.tip);
    } else {
      TipIsHeaviest(o, c, g, c2.tip);
      SameRecord(o, c, g, c2, g2, c2.tip);
    }
  }

  /** Where a served block sits on the peer's path, and that the batch's last one outweighs it. */
  lemma {:induction false} ServedPlace(o: Oracle, p: ChainState, gp: History, from: nat, blocks: seq<Block>, i: nat)
    requires Unpruned(o, p, gp) && Linked(p) && Ancestors(p, p.tip).Ok? && Consecutive(o, p, gp, from, blocks) && i < |blocks|
    ensures var path, n := Ancestors(p, p.tip).value, |blocks|;
            && BlockHash(o, blocks[i]) == path[from + i] && path[from + i] in p.meta && path[from + n - 1] in p.meta
            && (i < n - 1 ==> p.meta[path[from + i]].work < p.meta[path[from + n - 1]].work)
  {
    hide Unpruned, Inv, Ancestors, TreeOk, BlockHash, TxCommitment, BlockSize;
    assert ServedAs(o, p, gp, from + i, blocks[i]);
    UnprunedInv(o, p, gp);
    WorkGrows(o, p, gp, from + i, from + |blocks| - 1);
  }

  /** The peer's canonical block where a round's batch ends. */
  function BatchEnd(c: ChainState, p: ChainState): nat
    requires Linked(c) && Linked(p)
  {
    Min(p.meta[p.tip].height, c.meta[c.tip].height + MAX_SYNC_BATCH)
  }

  /** A round makes progress: the peer is taller, its block at our height is known, and the batch outweighs our tip. */
  ghost predicate Followable(c: ChainState, p: ChainState)
    requires Linked(c) && Linked(p) && Ancestors(p, p.tip).Ok?
  {
    var own, path := c.meta[c.tip].height, Ancestors(p, p.tip).value;
    && own < p.meta[p.tip].height && BatchEnd(c, p) < |path| && own < |path|
    && path[own] in c.meta && path[BatchEnd(c, p)] in p.meta
    && p.meta[path[BatchEnd(c, p)]].work > c.meta[c.tip].work
  }

  /**
   One round against a heavier peer moves our tip exactly if it is followable, and then to the peer's block where
   the batch ends. Otherwise the round leaves a chain on which a further round changes nothing.
   */
  lemma {:induction false} RoundMovesTipExactly(o: Oracle, c: ChainState, g: History, p: ChainState, gp: History, now: nat)
    returns (g2: History)
    requires Injective(o) && Unpruned(o, c, g) && Unpruned(o, p, gp) && Linked(c) && Linked(p) && Ancestors(p, p.tip).Ok?
    requires p.meta[p.tip].work > c.meta[c.tip].work && p.meta[p.tip].height < U64 && c.meta[c.tip].height < U64 - MAX_SYNC_BATCH
    requires AllInTime(p, now)
    ensures var c2 := SyncRound(o, c, p, now).0;
            && Unpruned(o, c2, g2) && Linked(c2)
            && (if Followable(c, p) then c2.tip == Ancestors(p, p.tip).value[BatchEnd(c, p)]
                else c2.tip == c.tip && SyncRound(o, c2, p, now).0 == c2)
  {
    hide Unpruned, Ancestors, TreeOk, ApplyServed, StateAt, Serve, CanonicalBlockAt, Consecutive, WorkOf;
    SyncRoundExactly(o, c, g, p, gp, now);
    var own, theirs := c.meta[c.tip].height, p.meta[p.tip].height;
    var path := Ancestors(p, p.tip).value;
    RoundLinked(o, c, p, now);
    g2 := g;
    if theirs > own && path[own] in c.meta {
      TallerPeerServes(o, c, p, gp);
      var blocks := ServeBlocks(p, own + 1, BlocksToAskFor(theirs, own)).value;
      BatchInTime(o, p, gp, own + 1, blocks, now);
      g2 := BatchMovesTipExactly(o, c, g, p, gp, own + 1, blocks, now);
      var c2 := ApplyServed(o, c, blocks, now).0;
      if c2.tip == c.tip {
        SameRecord(o, c, g, c2, g2, c.tip);
        KnownBatch(o, c2, blocks, now);
      }
      if Followable(c, p) {
        assert c2.tip == path[BatchEnd(c, p)];
      } else {
        assert c2.tip == c.tip;
      }
    }
  }

  lemma {:induction false} BatchInTime(o: Oracle, p: ChainState, gp: History, from: nat, blocks: seq<Block>, now: nat)
    requires Linked(p) && Ancestors(p, p.tip).Ok? && Consecutive(o, p, gp, from, blocks) && |blocks| > 0
    requires forall i :: 0 <= i < |blocks| ==> CanonicalBlockAt(p, from + i) == Some(blocks[i])
    requires AllInTime(p, now)
    ensures InTime(blocks, now) && from < |Ancestors(p, p.tip).value| && blocks[0].header.prev == Ancestors(p, p.tip).value[from - 1]
  {
    hide Ancestors, TreeOk, CanonicalBlockAt, TxCommitment, BlockSize;
    assert ServedAs(o, p, gp, from + 0, blocks[0]);
    forall i | 0 <= i < |blocks| ensures blocks[i].header.timestamp <= now + MAX_FUTURE_DRIFT_SECS {
      assert CanonicalBlockAt(p, from + i) == Some(blocks[i]);
    }
  }

  lemma {:induction false} KnownBatch(o: Oracle, c: ChainState, blocks: seq<Block>, now: nat)
    requires Linked(c) && forall i :: 0 <= i < |blocks| ==> BlockHash(o, blocks[i]) in c.meta
    ensures ApplyServed(o, c, blocks, now) == (c, Ok(()))
    decreases |blocks|
  {
    hide ValidateBlock, TreeOk;
    if |blocks| > 0 {
      assert TryApply(o, c, blocks[0], now) == (c, Ok(AlreadyKnown));
      KnownBatch(o, c, blocks[1..], now);
    }
  }

  /**
   Whole runs. Against an unchanged heavier peer some number of rounds reaches the peer's tip exactly if the
   first one makes progress: the peer is taller, its block at our height is known, and its block where the
   first batch ends outweighs our tip. Then as many rounds as the gap has batches do it; otherwise our tip
   never moves.
   */
  lemma {:induction false} FollowedExactly(o: Oracle, c: ChainState, g: History, p: ChainState, gp: History, now: nat)
    requires Injective(o) && Unpruned(o, c, g) && Unpruned(o, p, gp) && Linked(c) && Linked(p) && Ancestors(p, p.tip).Ok?
    requires p.meta[p.tip].work > c.meta[c.tip].work && p.meta[p.tip].height < U64 && c.meta[c.tip].height < U64 - MAX_SYNC_BATCH
    requires AllInTime(p, now)
    ensures (exists n :: Rounds(o, c, p, now, n).tip == p.tip) <==> Followable(c, p)
    ensures Followable(c, p) ==> Rounds(o, c, p, now, RoundsFor(p.meta[p.tip].height - c.meta[c.tip].height)).tip == p.tip
    ensures !Followable(c, p) ==> forall n :: Rounds(o, c, p, now, n).tip == c.tip
  {
    hide Unpruned, Ancestors, TreeOk, SyncRound, RoundsFor, AllInTime, Inv, WorkOf;
    var g2 := RoundMovesTipExactly(o, c, g, p, gp, now);
    var c2 := SyncRound(o, c, p, now).0;
    if Followable(c, p) {
      var own, theirs, path := c.meta[c.tip].height, p.meta[p.tip].height, Ancestors(p, p.tip).value;
      assert c2.tip == path[BatchEnd(c, p)] && c2.tip in path;
      AgreedHeight(o, c2, g2, p, gp, BatchEnd(c, p));
      RoundsForStep(theirs - own);
      var g3 := CatchUpFully(o, c2, g2, p, gp, now);
      var n := RoundsFor(theirs - own);
      assert Rounds(o, c, p, now, n).tip == p.tip;
    } else {
      NotThePeersTip(o, c, g, p, gp);
      forall n: nat ensures Rounds(o, c, p, now, n).tip == c.tip {
        if n > 0 {
          FixedPoint(o, c2, p, now, n - 1);
        }
      }
    }
  }

  lemma {:induction false} NotThePeersTip(o: Oracle, c: ChainState, g: History, p: ChainState, gp: History)
    requires Injective(o) && Unpruned(o, c, g) && Unpruned(o, p, gp) && Linked(c) && Linked(p)
    requires p.meta[p.tip].work > c.meta[c.tip].work
    ensures c.tip != p.tip
  {
    hide Unpruned, TreeOk;
    if c.tip == p.tip {
      SameRecord(o, c, g, p, gp, c.tip);
    }
  }

  lemma {:induction false} FixedPoint(o: Oracle, c: ChainState, p: ChainState, now: nat, n: nat)
    requires Linked(c) && Linked(p) && SyncRound(o, c, p, now).0 == c
    ensures Rounds(o, c, p, now, n) == c
  {
    hide SyncRound;
    if n > 0 {
      FixedPoint(o, c, p, now, n - 1);
    }
  }
}
