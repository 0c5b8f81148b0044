/** The ledger part of a running node: the durable chain, the mempool, mining candidates and chain sync. */
module LedgerNodeObject {
  import opened Prelude
  import opened Difficulty
  import opened Sorting
  import opened LedgerTypes
  import opened ChainRules
  import opened ChainInvariant
  import opened ChainRuns
  import opened ChainObject
  import opened StoreRules
  import opened StoreObject
  import opened StoreReplay
  import Runs = StoreRuns
  import opened Mining
  import S = Sync

  ghost predicate MempoolOk(o: Oracle, mempool: Mempool) {
    forall id :: id in mempool ==> TxId(o, mempool[id]) == id
  }

  /** The mempool's claims in ascending order of id. */
  ghost predicate InIdOrder(o: Oracle, mempool: Mempool, candidates: seq<Tx>) {
    && Sorted(Ids(o, candidates)) && multiset(Ids(o, candidates)) == multiset(mempool.Keys)
    && (forall i :: 0 <= i < |candidates| ==>
          TxId(o, candidates[i]) in mempool && mempool[TxId(o, candidates[i])] == candidates[i])
  }

  /** The order is determined by the mempool, so nodes with the same mempool consider the same candidates. */
  lemma {:induction false} IdOrderIsUnique(o: Oracle, mempool: Mempool, s: seq<Tx>, t: seq<Tx>)
    requires InIdOrder(o, mempool, s) && InIdOrder(o, mempool, t)
    ensures s == t
  {
    SortedIsUnique(Ids(o, s), Ids(o, t));
    forall i | 0 <= i < |s| ensures s[i] == t[i] {
      assert Ids(o, s)[i] == Ids(o, t)[i];
    }
  }

  /** A set's elements, in some order. */
  method Enumerate(keys: set<Hash>) returns (list: seq<Hash>)
    ensures multiset(list) == multiset(keys)
  {
    var remaining := keys;
    list := [];
    while remaining != {}
      invariant remaining <= keys && multiset(list) == multiset(keys - remaining)
      decreases |remaining|
    {
      var id :| id in remaining;
      assert keys - (remaining - {id}) == (keys - remaining) + {id};
      remaining := remaining - {id};
      list := list + [id];
    }
    assert keys - {} == keys;
  }

  method SortById(o: Oracle, mempool: Mempool) returns (candidates: seq<Tx>)
    requires MempoolOk(o, mempool)
    ensures InIdOrder(o, mempool, candidates)
  {
    var keys := Enumerate(mempool.Keys);
    var ids := Sort(keys);
    SortIsSort(keys);
    forall i | 0 <= i < |ids| ensures ids[i] in mempool {
      assert ids[i] in multiset(ids);
    }
    candidates := [];
    for i := 0 to |ids|
      invariant |candidates| == i && forall j :: 0 <= j < i ==> candidates[j] == mempool[ids[j]]
    {
      candidates := candidates + [mempool[ids[i]]];
    }
    assert Ids(o, candidates) == ids;
  }

  /** Claims no longer waiting once `txs` are in a block. */
  function WithoutClaims(o: Oracle, mempool: Mempool, txs: seq<Tx>): Mempool
    decreases |txs|
  {
    if |txs| == 0 then mempool else WithoutClaims(o, mempool, txs[..|txs| - 1]) - {TxId(o, txs[|txs| - 1])}
  }

  /** Exactly the block's own claims leave the mempool. */
  lemma {:induction false} WithoutClaimsExactly(o: Oracle, mempool: Mempool, txs: seq<Tx>, id: Hash)
    ensures id in WithoutClaims(o, mempool, txs) <==> id in mempool && forall i :: 0 <= i < |txs| ==> TxId(o, txs[i]) != id
    ensures id in WithoutClaims(o, mempool, txs) ==> WithoutClaims(o, mempool, txs)[id] == mempool[id]
    decreases |txs|
  {
    if |txs| > 0 {
      WithoutClaimsExactly(o, mempool, txs[..|txs| - 1], id);
    }
  }

  /** The mempool after a served batch: every block tried, the refused one included, takes its claims with it. */
  function MempoolAfter(o: Oracle, c: ChainState, mempool: Mempool, blocks: seq<Block>, now: nat): Mempool
    requires Linked(c)
    decreases |blocks|
  {
    if |blocks| == 0 then mempool
    else
      var less := WithoutClaims(o, mempool, blocks[0].txs);
      var (c2, r) := TryApply(o, c, blocks[0], now);
      TryApplyLinked(o, c, blocks[0], now);
      if r.Err? then less else MempoolAfter(o, c2, less, blocks[1..], now)
  }

  /** `k` blocks of a batch were tried: all before the last of them were accepted, and then came the end or a refusal. */
  ghost predicate Tried(o: Oracle, c: ChainState, blocks: seq<Block>, now: nat, k: nat)
    requires Linked(c)
  {
    && k <= |blocks|
    && (forall j :: 0 <= j < k ==> S.ApplyServed(o, c, blocks[..j], now).1.Ok?)
    && (k == |blocks| || (k > 0 && S.ApplyServed(o, c, blocks[..k], now).1.Err?))
  }

  /** Some claim of the first `k` blocks has this id. */
  ghost predicate ClaimedIn(o: Oracle, blocks: seq<Block>, k: nat, id: Hash)
    requires k <= |blocks|
  {
    exists j, i :: 0 <= j < k && 0 <= i < |blocks[j].txs| && TxId(o, blocks[j].txs[i]) == id
  }

  lemma {:induction false} ServedPrefix(o: Oracle, c: ChainState, blocks: seq<Block>, now: nat, j: nat)
    requires Linked(c) && 0 < j <= |blocks|
    ensures TryApply(o, c, blocks[0], now).1.Err? ==> S.ApplyServed(o, c, blocks[..j], now).1.Err?
    ensures Linked(TryApply(o, c, blocks[0], now).0)
    ensures TryApply(o, c, blocks[0], now).1.Ok? ==>
              S.ApplyServed(o, c, blocks[..j], now) == S.ApplyServed(o, TryApply(o, c, blocks[0], now).0, blocks[1..][..j - 1], now)
  {
    hide TryApply;
    TryApplyLinked(o, c, blocks[0], now);
    assert blocks[..j][0] == blocks[0] && blocks[..j][1..] == blocks[1..][..j - 1];
  }

  /** The blocks tried first, and those tried after it. */
  lemma {:induction false} TriedStep(o: Oracle, c: ChainState, blocks: seq<Block>, now: nat, k: nat)
    requires Linked(c) && |blocks| > 0 && TryApply(o, c, blocks[0], now).1.Ok? && Linked(TryApply(o, c, blocks[0], now).0)
    requires Tried(o, TryApply(o, c, blocks[0], now).0, blocks[1..], now, k)
    ensures Tried(o, c, blocks, now, k + 1)
  {
    hide TryApply;
    forall j | 0 <= j < k + 1 ensures S.ApplyServed(o, c, blocks[..j], now).1.Ok? {
      if j > 0 {
        ServedPrefix(o, c, blocks, now, j);
      }
    }
    ServedPrefix(o, c, blocks, now, k + 1);
  }

  /**
   After a batch exactly those claims have left the mempool that were in some block tried, the refused one
   included; the others are as they were.
   */
  lemma {:induction false} MempoolAfterExactly(o: Oracle, c: ChainState, mempool: Mempool, blocks: seq<Block>, now: nat) returns (k: nat)
    requires Linked(c)
    ensures Tried(o, c, blocks, now, k) && k <= |blocks|
    ensures forall id :: id in MempoolAfter(o, c, mempool, blocks, now) <==> id in mempool && !ClaimedIn(o, blocks, k, id)
    ensures forall id :: id in MempoolAfter(o, c, mempool, blocks, now) ==> MempoolAfter(o, c, mempool, blocks, now)[id] == mempool[id]
    decreases |blocks|
  {
    hide TryApply, WithoutClaims, Tried, ClaimedIn;
    k := 0;
    if |blocks| == 0 {
      NoneTried(o, c, blocks, now);
      forall id ensures !ClaimedIn(o, blocks, 0, id) {
        ClaimedInNone(o, blocks, id);
      }
      return;
    }
    var less := WithoutClaims(o, mempool, blocks[0].txs);
    TryApplyLinked(o, c, blocks[0], now);
    if TryApply(o, c, blocks[0], now).1.Err? {
      k := 1;
      OneTried(o, c, blocks, now);
    } else {
      var k1 := MempoolAfterExactly(o, TryApply(o, c, blocks[0], now).0, less, blocks[1..], now);
      TriedFits(o, TryApply(o, c, blocks[0], now).0, blocks[1..], now, k1);
      k := k1 + 1;
      TriedStep(o, c, blocks, now, k1);
    }
    forall id
      ensures id in less <==> id in mempool && !ClaimedIn(o, blocks, 1, id)
      ensures id in less ==> less[id] == mempool[id]
      ensures ClaimedIn(o, blocks, k, id) <==> ClaimedIn(o, blocks, 1, id) || ClaimedIn(o, blocks[1..], k - 1, id)
    {
      WithoutClaimsExactly(o, mempool, blocks[0].txs, id);
      ClaimedInFirst(o, blocks, id);
      ClaimedInRest(o, blocks, k - 1, id);
    }
    if TryApply(o, c, blocks[0], now).1.Err? {
      forall id ensures !ClaimedIn(o, blocks[1..], 0, id) {
        ClaimedInNone(o, blocks[1..], id);
      }
    }
  }

  lemma TriedFits(o: Oracle, c: ChainState, blocks: seq<Block>, now: nat, k: nat)
    requires Linked(c) && Tried(o, c, blocks, now, k)
    ensures k <= |blocks|
  {
  }

  lemma ClaimedInNone(o: Oracle, blocks: seq<Block>, id: Hash)
    ensures !ClaimedIn(o, blocks, 0, id)
  {
  }

  lemma ClaimedInFirst(o: Oracle, blocks: seq<Block>, id: Hash)
    requires |blocks| > 0
    ensures ClaimedIn(o, blocks, 1, id) <==> exists i :: 0 <= i < |blocks[0].txs| && TxId(o, blocks[0].txs[i]) == id
  {
    if i :| 0 <= i < |blocks[0].txs| && TxId(o, blocks[0].txs[i]) == id {
      assert 0 <= 0 < 1 && TxId(o, blocks[0].txs[i]) == id;
    }
  }

  /** A claim of the first `k + 1` blocks is one of the first block or of the `k` after it. */
  lemma {:induction false} ClaimedInRest(o: Oracle, blocks: seq<Block>, k: nat, id: Hash)
    requires k < |blocks|
    ensures ClaimedIn(o, blocks, k + 1, id) <==> ClaimedIn(o, blocks, 1, id) || ClaimedIn(o, blocks[1..], k, id)
  {
    if ClaimedIn(o, blocks, k + 1, id) {
      var j, i :| 0 <= j < k + 1 && 0 <= i < |blocks[j].txs| && TxId(o, blocks[j].txs[i]) == id;
      if j > 0 {
        assert blocks[1..][j - 1] == blocks[j] && TxId(o, blocks[1..][j - 1].txs[i]) == id;
      }
    }
    if ClaimedIn(o, blocks[1..], k, id) {
      var j, i :| 0 <= j < k && 0 <= i < |blocks[1..][j].txs| && TxId(o, blocks[1..][j].txs[i]) == id;
      assert TxId(o, blocks[j + 1].txs[i]) == id;
    }
  }

  lemma {:induction false} NoneTried(o: Oracle, c: ChainState, blocks: seq<Block>, now: nat)
    requires Linked(c) && |blocks| == 0
    ensures Tried(o, c, blocks, now, 0)
  {
  }

  lemma {:induction false} OneTried(o: Oracle, c: ChainState, blocks: seq<Block>, now: nat)
    requires Linked(c) && |blocks| > 0 && TryApply(o, c, blocks[0], now).1.Err?
    ensures Tried(o, c, blocks, now, 1)
  {
    hide TryApply;
    ServedPrefix(o, c, blocks, now, 1);
  }

  /** The header and claims of a candidate for the tip, chosen from `candidates`. */
  ghost function Candidate(o: Oracle, c: ChainState, candidates: seq<Tx>, now: nat, miner: nat): Option<(Header, seq<Tx>)>
    requires Linked(c)
  {
    var selected := Select(o, c, c.meta[c.tip].height + 1, candidates, {}, []);
    var header := CandidateHeader(o, c, selected, now, miner);
    if header.Some? then Some((header.value, selected)) else None
  }

  class LedgerNode {
    const store: ChainStore
    var mempool: Mempool
    ghost var history: History

    ghost function ChainValue(): ChainState
      reads this, store.chain
    {
      store.chain.Value()
    }

    ghost predicate Valid()
      reads this, store.db, store.chain
    {
      && store.chain.o == store.o && MempoolOk(store.o, mempool)
      && Runs.Sound(store.o, Runs.Node(store.db.Value(), Some(ChainValue())), ChainValue(), history)
    }

    /** A node on a freshly opened store. */
    constructor (store: ChainStore, ghost history: History)
      requires store.chain.o == store.o
      requires Runs.Sound(store.o, Runs.Node(store.db.Value(), Some(store.chain.Value())), store.chain.Value(), history)
      ensures Valid() && this.store == store && mempool == map[] && this.history == history
    {
      hide Runs.Sound;
      this.store, this.history := store, history;
      mempool := map[];
    }

    /** A claim that passes on its own waits for a block. */
    method SubmitClaim(tx: Tx) returns (r: Result<(), LedgerError>)
      requires Valid()
      modifies this`mempool
      ensures Valid() && r == VerifySelfContained(store.o, tx)
      ensures mempool == if r.Ok? then old(mempool)[TxId(store.o, tx) := tx] else old(mempool)
    {
      hide Runs.Sound, VerifySelfContained;
      r := VerifySelfContained(store.o, tx);
      if r.Ok? {
        mempool := mempool[TxId(store.o, tx) := tx];
      }
    }

    method IsValidForMempool(tx: Tx, candidateHeight: nat) returns (ok: bool)
      requires Valid()
      ensures Linked(ChainValue()) && ok == MempoolValid(store.o, ChainValue(), tx, candidateHeight)
    {
      hide Runs.Sound, Inv, VerifySelfContained, Path, StateAt, TreeOk;
      ChainIsLinked();
      if VerifySelfContained(store.o, tx).Err? {
        return false;
      }
      var ancestry := store.chain.AncestorsOf(store.chain.tipHash);
      if ancestry.Err? || tx.claim.anchor !in ancestry.value || tx.claim.anchor !in store.chain.meta {
        return false;
      }
      if SatSub(candidateHeight, store.chain.meta[tx.claim.anchor].height) > ANCHOR_MAX_AGE_BLOCKS {
        return false;
      }
      var state := store.chain.StateOf(store.chain.tipHash);
      ok := state.Ok? && tx.claim.username !in state.value;
    }

    lemma ChainIsLinked()
      requires Valid()
      ensures Linked(ChainValue()) && Inv(store.o, ChainValue(), history)
    {
      hide Inv, Mirrors, TimelyUntilPruned;
      InvIsLinked(store.o, ChainValue(), history);
    }

    /** Goes through the candidates until the block is full, trying each name once. */
    method SelectClaims(candidates: seq<Tx>, height: nat) returns (selected: seq<Tx>)
      requires Valid()
      ensures Linked(ChainValue()) && selected == Select(store.o, ChainValue(), height, candidates, {}, [])
    {
      hide Runs.Sound, Inv, MempoolValid, Path, StateAt, TreeOk;
      ChainIsLinked();
      ghost var c := ChainValue();
      selected := [];
      var used: set<Username> := {};
      var i := 0;
      assert candidates[0..] == candidates;
      while i < |candidates| && |selected| < MAX_TXS_PER_BLOCK
        invariant 0 <= i <= |candidates|
        invariant Select(store.o, c, height, candidates, {}, []) == Select(store.o, c, height, candidates[i..], used, selected)
      {
        var tx := candidates[i];
        assert candidates[i..][1..] == candidates[i + 1..];
        i := i + 1;
        if tx.claim.username !in used {
          used := used + {tx.claim.username};
          var ok := IsValidForMempool(tx, height);
          if ok {
            selected := selected + [tx];
          }
        }
      }
    }

    /** The candidate a mining attempt starts from; nothing if the tip's difficulty or median cannot be computed. */
    method AssembleCandidate(now: nat, miner: nat) returns (r: Option<(Header, seq<Tx>)>)
      requires Valid()
      ensures Linked(ChainValue())
      ensures exists candidates ::
                InIdOrder(store.o, mempool, candidates) && r == Candidate(store.o, ChainValue(), candidates, now, miner)
    {
      hide Runs.Sound, Inv, MempoolOk, Path, TreeOk, StateAt, MempoolValid, TxCommitment, ExpectedDifficulty, MedianTimePast, InIdOrder, Select;
      ChainIsLinked();
      ghost var c := ChainValue();
      var sorted := SortById(store.o, mempool);
      assert InIdOrder(store.o, mempool, sorted);
      var bits := store.chain.ExpectedDifficultyOf(store.chain.tipHash);
      var median := store.chain.MedianTimePastOf(store.chain.tipHash);
      if bits.Err? || median.Err? {
        r := None;
        assert r == Candidate(store.o, c, sorted, now, miner);
        return;
      }
      var height := store.chain.meta[store.chain.tipHash].height + 1;
      var selected := SelectClaims(sorted, height);
      assert selected == Select(store.o, c, c.meta[c.tip].height + 1, sorted, {}, []);
      r := Some((Header(1, height, store.chain.tipHash, Max(now, median.value + 1), TxCommitment(store.o, selected),
                        bits.value, 0, miner), selected));
      assert r == Candidate(store.o, c, sorted, now, miner);
    }

    /** Applies a block mined here or gossiped; one newly accepted takes its claims out of the mempool. */
    method ApplyAndBroadcast(block: Block, now: nat) returns (r: Option<Outcome>)
      requires Valid()
      modifies this, store.db, store.chain
      ensures Valid() && old(Linked(ChainValue()))
      ensures var (c2, outcome) := TryApply(store.o, old(ChainValue()), block, now);
              && ChainValue() == c2 && r == (if outcome.Ok? then Some(outcome.value) else None)
              && mempool == (if outcome.Ok? && !outcome.value.AlreadyKnown? then WithoutClaims(store.o, old(mempool), block.txs)
                             else old(mempool))
    {
      hide TryApply, Inv, Mirrors, TimelyUntilPruned, StoreRules.PersistAfterApply, HistoryAfter;
      ChainIsLinked();
      ghost var before := Runs.Node(store.db.Value(), Some(ChainValue()));
      ghost var c := ChainValue();
      Runs.AcceptKeepsSound(store.o, before, c, history, block, now);
      var outcome := store.TryApply(block, now);
      history := HistoryAfter(store.o, c, history, block, now);
      if outcome.Err? {
        return None;
      }
      if outcome.value != AlreadyKnown {
        RemoveClaims(block.txs);
      }
      r := Some(outcome.value);
    }

    /** Takes claims out of the mempool one by one. */
    method RemoveClaims(txs: seq<Tx>)
      requires MempoolOk(store.o, mempool)
      modifies this`mempool
      ensures mempool == WithoutClaims(store.o, old(mempool), txs) && MempoolOk(store.o, mempool)
    {
      for i := 0 to |txs|
        invariant mempool == WithoutClaims(store.o, old(mempool), txs[..i]) && MempoolOk(store.o, mempool)
      {
        assert txs[..i + 1][..i] == txs[..i];
        mempool := mempool - {TxId(store.o, txs[i])};
      }
      assert txs[..|txs|] == txs;
    }

    /** Answers a request for blocks, all of them or nothing. */
    method BuildBlocksResponse(from: nat, count: nat) returns (r: Option<seq<Block>>)
      ensures r == S.ServeBlocks(store.chain.Value(), from, count)
    {
      var wanted := Min(count, S.MAX_SYNC_BATCH);
      var blocks: seq<Block> := [];
      for i := 0 to wanted
        invariant S.Serve(store.chain.Value(), from, i) == Some(blocks)
      {
        var height := from + i;
        if height !in store.chain.canonicalIndex || store.chain.canonicalIndex[height] !in store.chain.blocks {
          GapServesNothing(store.chain.Value(), from, i, wanted);
          return None;
        }
        blocks := blocks + [store.chain.blocks[store.chain.canonicalIndex[height]]];
      }
      r := Some(blocks);
    }

    /** Applies the served blocks in order, stopping at the first refused. */
    method HandleBlocks(blocks: seq<Block>, now: nat) returns (r: Result<(), LedgerError>)
      requires Valid()
      modifies this, store.db, store.chain
      ensures Valid() && old(Linked(ChainValue()))
      ensures (ChainValue(), r) == S.ApplyServed(store.o, old(ChainValue()), blocks, now)
      ensures mempool == MempoolAfter(store.o, old(ChainValue()), old(mempool), blocks, now)
    {
      hide TryApply, Inv, Mirrors, TimelyUntilPruned, StoreRules.PersistAfterApply, HistoryAfter;
      ChainIsLinked();
      ghost var c0, m0 := ChainValue(), mempool;
      var i := 0;
      assert blocks[0..] == blocks;
      while i < |blocks|
        invariant 0 <= i <= |blocks| && Valid() && Linked(ChainValue())
        invariant S.ApplyServed(store.o, c0, blocks, now) == S.ApplyServed(store.o, ChainValue(), blocks[i..], now)
        invariant MempoolAfter(store.o, c0, m0, blocks, now) == MempoolAfter(store.o, ChainValue(), mempool, blocks[i..], now)
      {
        assert blocks[i..][1..] == blocks[i + 1..];
        RemoveClaims(blocks[i].txs);
        ghost var before := Runs.Node(store.db.Value(), Some(ChainValue()));
        ghost var c := ChainValue();
        Runs.AcceptKeepsSound(store.o, before, c, history, blocks[i], now);
        TryApplyLinked(store.o, c, blocks[i], now);
        var applied := store.TryApply(blocks[i], now);
        history := HistoryAfter(store.o, c, history, blocks[i], now);
        if applied.Err? {
          return Err(applied.error);
        }
        i := i + 1;
      }
      r := Ok(());
    }
  }

  lemma {:induction false} GapServesNothing(c: ChainState, from: nat, i: nat, count: nat)
    requires i < count && S.CanonicalBlockAt(c, from + i) == None
    ensures S.Serve(c, from, count) == None
    decreases count
  {
    if count - 1 > i {
      GapServesNothing(c, from, i, count - 1);
    }
  }
}
