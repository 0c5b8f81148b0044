/**
 The rules of claims and blocks in plain terms, with every bound written out, and that the checks of the
 program decide exactly these rules and report the first one broken.
 */
module LedgerLaw {
  import opened Prelude
  import opened Difficulty
  import opened Sorting
  import opened LedgerTypes
  import opened LedgerBytes
  import opened ChainRules
  import opened ChainViews
  import opened ChainInvariant
  import opened StoreReplay
  import opened Convergence
  import opened Mining
  import C = SameClaims

  // ---- One claim ---------------------------------------------------------------------------------

  /** Lower-case letters, digits and the underscore, in ASCII. */
  predicate NameByte(b: byte) { 97 <= b <= 122 || 48 <= b <= 57 || b == 95 }

  /** Five to thirty-two of them. */
  predicate NameOk(u: Username) { 5 <= |u| <= 32 && forall i :: 0 <= i < |u| ==> NameByte(u[i]) }

  predicate SignatureOk(o: Oracle, tx: Tx) { |tx.claim.signature| == 64 && o.verifies(tx.claim) }

  /** The anchor is among the ancestors, at most 144 blocks below `height`. */
  ghost predicate AnchorYoung(c: ChainState, p: seq<Hash>, height: nat, anchor: Hash) {
    anchor in p && anchor in c.meta && height - c.meta[anchor].height <= 144
  }

  /** What a claim must satisfy to go into a block at `height` on the ancestry `p`, where `owners` are the names taken. */
  ghost predicate ClaimAllowed(o: Oracle, c: ChainState, p: seq<Hash>, owners: Owners, height: nat, tx: Tx) {
    && NameOk(tx.claim.username) && SignatureOk(o, tx) && AnchorYoung(c, p, height, tx.claim.anchor)
    && tx.claim.username !in owners
  }

  lemma {:induction false} SelfContainedError(o: Oracle, tx: Tx)
    ensures VerifySelfContained(o, tx) ==
              if !NameOk(tx.claim.username) then Err(InvalidUsername)
              else if !SignatureOk(o, tx) then Err(SignatureInvalid)
              else Ok(())
  {
    var u := tx.claim.username;
    assert forall b: byte :: NameByte(b) <==> UsernameByte(b);
    assert NameOk(u) <==> ValidFormat(u) by {
      if NameOk(u) {
        forall i | 0 <= i < |u| ensures UsernameByte(u[i]) {
          assert NameByte(u[i]);
        }
      }
      if ValidFormat(u) {
        forall i | 0 <= i < |u| ensures NameByte(u[i]) {
          assert UsernameByte(u[i]);
        }
      }
    }
    if ValidFormat(u) {
      ValidFormatIsNormalized(u);
    }
  }

  /** A claim alone in a block passes the claim checks exactly if it is allowed there. */
  lemma {:induction false} ClaimAllowedExactly(o: Oracle, c: ChainState, p: seq<Hash>, owners: Owners, height: nat, tx: Tx)
    ensures CheckTxs(o, c.meta, height, p, owners, {}, [tx]).Ok? <==> ClaimAllowed(o, c, p, owners, height, tx)
  {
    hide VerifySelfContained, NameOk, SignatureOk;
    SelfContainedError(o, tx);
    assert [tx][1..] == [];
  }

  /** The first claim that breaks a rule decides, by the first rule it breaks. */
  ghost predicate ClaimRefused(o: Oracle, c: ChainState, p: seq<Hash>, owners: Owners, height: nat, txs: seq<Tx>, i: nat, e: LedgerError)
    requires i < |txs|
  {
    var tx := txs[i];
    var repeated := exists j :: 0 <= j < i && txs[j].claim.username == tx.claim.username;
    || (e == InvalidUsername && !NameOk(tx.claim.username))
    || (e == SignatureInvalid && NameOk(tx.claim.username) && !SignatureOk(o, tx))
    || (e == AnchorInvalid && NameOk(tx.claim.username) && SignatureOk(o, tx) && !AnchorYoung(c, p, height, tx.claim.anchor))
    || (e == UsernameAlreadyClaimed(tx.claim.username) && NameOk(tx.claim.username) && SignatureOk(o, tx)
        && AnchorYoung(c, p, height, tx.claim.anchor) && tx.claim.username in owners)
    || (e == DuplicateClaimInBlock(tx.claim.username) && ClaimAllowed(o, c, p, owners, height, tx) && repeated)
  }

  ghost predicate NamesAre(txs: seq<Tx>, k: nat, claimed: set<Username>)
    requires k <= |txs|
  {
    forall u: Username :: u in claimed <==> exists j :: 0 <= j < k && txs[j].claim.username == u
  }

  lemma {:induction false} OneClaim(o: Oracle, c: ChainState, p: seq<Hash>, owners: Owners, height: nat, txs: seq<Tx>, k: nat, claimed: set<Username>)
    requires k < |txs| && NamesAre(txs, k, claimed)
    ensures var r := CheckTx(o, c.meta, height, p, owners, claimed, txs[k]);
            && (r.Ok? ==> ClaimAllowed(o, c, p, owners, height, txs[k]) && txs[k].claim.username !in claimed)
            && (r.Err? ==> ClaimRefused(o, c, p, owners, height, txs, k, r.error))
    ensures NamesAre(txs, k + 1, claimed + {txs[k].claim.username})
  {
    hide VerifySelfContained, NameOk, SignatureOk;
    SelfContainedError(o, txs[k]);
    forall u: Username
      ensures u in claimed + {txs[k].claim.username} <==> exists j :: 0 <= j < k + 1 && txs[j].claim.username == u
    {
      if u in claimed {
        var j :| 0 <= j < k && txs[j].claim.username == u;
      }
    }
  }

  lemma {:induction false} ClaimsFrom(o: Oracle, c: ChainState, p: seq<Hash>, owners: Owners, height: nat, txs: seq<Tx>, k: nat, claimed: set<Username>)
    returns (i: nat)
    requires k <= |txs| && NamesAre(txs, k, claimed)
    ensures var r := CheckTxs(o, c.meta, height, p, owners, claimed, txs[k..]);
            && (forall j :: k <= j < (if r.Err? then i else |txs|) ==>
                  j < |txs| && ClaimAllowed(o, c, p, owners, height, txs[j])
                  && forall j2 :: 0 <= j2 < j ==> txs[j2].claim.username != txs[j].claim.username)
            && (r.Err? ==> k <= i < |txs| && ClaimRefused(o, c, p, owners, height, txs, i, r.error))
    decreases |txs| - k
  {
    hide CheckTx, ClaimAllowed, ClaimRefused, NamesAre;
    i := k;
    if k < |txs| {
      assert txs[k..][0] == txs[k] && txs[k..][1..] == txs[k + 1..];
      OneClaim(o, c, p, owners, height, txs, k, claimed);
      NamesBeforeDiffer(txs, k, claimed);
      if CheckTx(o, c.meta, height, p, owners, claimed, txs[k]).Ok? {
        i := ClaimsFrom(o, c, p, owners, height, txs, k + 1, claimed + {txs[k].claim.username});
      }
    }
  }

  lemma NamesBeforeDiffer(txs: seq<Tx>, k: nat, claimed: set<Username>)
    requires k < |txs| && NamesAre(txs, k, claimed)
    ensures txs[k].claim.username !in claimed ==> forall j :: 0 <= j < k ==> txs[j].claim.username != txs[k].claim.username
  {
  }

  /**
   A body's claims: they pass exactly if each is allowed and no name repeats; otherwise the error is that of the
   first claim that breaks a rule.
   */
  lemma {:induction false} ClaimsExactly(o: Oracle, c: ChainState, p: seq<Hash>, owners: Owners, height: nat, txs: seq<Tx>) returns (i: nat)
    ensures var r := CheckTxs(o, c.meta, height, p, owners, {}, txs);
            && (r.Ok? <==> (forall j :: 0 <= j < |txs| ==> ClaimAllowed(o, c, p, owners, height, txs[j])) && DistinctNames(txs))
            && (r.Err? ==>
                  && i < |txs| && ClaimRefused(o, c, p, owners, height, txs, i, r.error)
                  && forall j :: 0 <= j < i ==> ClaimAllowed(o, c, p, owners, height, txs[j]))
  {
    hide CheckTx, ClaimAllowed;
    assert txs[0..] == txs;
    i := ClaimsFrom(o, c, p, owners, height, txs, 0, {});
    if CheckTxs(o, c.meta, height, p, owners, {}, txs).Err? {
      RefusedIsNotAllowed(o, c, p, owners, height, txs, i, CheckTxs(o, c.meta, height, p, owners, {}, txs).error);
    }
  }

  lemma {:induction false} RefusedIsNotAllowed(o: Oracle, c: ChainState, p: seq<Hash>, owners: Owners, height: nat, txs: seq<Tx>, i: nat, e: LedgerError)
    requires i < |txs| && ClaimRefused(o, c, p, owners, height, txs, i, e)
    ensures !(ClaimAllowed(o, c, p, owners, height, txs[i]) && DistinctNames(txs))
  {
    hide NameOk, SignatureOk, AnchorYoung;
  }

  // ---- Claims for mining -------------------------------------------------------------------------

  /** The mempool check decides exactly whether the claim would pass alone in a block on the tip. */
  lemma {:induction false} MempoolValidExactly(o: Oracle, c: ChainState, g: History, tx: Tx, height: nat)
    requires Inv(o, c, g)
    ensures Linked(c) && Ancestors(c, c.tip).Ok? && StateAt(c, c.tip) == Ok(c.owners)
    ensures MempoolValid(o, c, tx, height) <==>
              CheckTxs(o, c.meta, height, Ancestors(c, c.tip).value, StateAt(c, c.tip).value, {}, [tx]).Ok?
    ensures MempoolValid(o, c, tx, height) <==> ClaimAllowed(o, c, Ancestors(c, c.tip).value, c.owners, height, tx)
  {
    hide Inv, VerifySelfContained, NameOk, SignatureOk, Path, StateAt, TreeOk;
    InvIsLinked(o, c, g);
    TipOwners(o, c, g);
    SelfContainedError(o, tx);
    ClaimAllowedExactly(o, c, Ancestors(c, c.tip).value, c.owners, height, tx);
  }

  lemma {:induction false} TipOwners(o: Oracle, c: ChainState, g: History)
    requires Inv(o, c, g)
    ensures Linked(c) && StateAt(c, c.tip) == Ok(c.owners)
  {
    hide Lawful, BodyOk, Path, StateAt;
    RetainedReplayIsComplete(o, c, g, c.tip);
  }

  /** A candidate that is allowed on the tip, with no earlier candidate to its name. */
  ghost predicate FirstAllowed(o: Oracle, c: ChainState, height: nat, candidates: seq<Tx>, i: nat)
    requires Linked(c) && Ancestors(c, c.tip).Ok? && i < |candidates|
  {
    && ClaimAllowed(o, c, Ancestors(c, c.tip).value, c.owners, height, candidates[i])
    && forall j :: 0 <= j < i ==> candidates[j].claim.username != candidates[i].claim.username
  }

  /** How many of the first `k` candidates are so. */
  ghost function CountAllowed(o: Oracle, c: ChainState, height: nat, candidates: seq<Tx>, k: nat): nat
    requires Linked(c) && Ancestors(c, c.tip).Ok? && k <= |candidates|
  {
    if k == 0 then 0
    else CountAllowed(o, c, height, candidates, k - 1) + if FirstAllowed(o, c, height, candidates, k - 1) then 1 else 0
  }

  lemma {:induction false} EligibleCount(o: Oracle, c: ChainState, g: History, height: nat, candidates: seq<Tx>, k: nat)
    requires Inv(o, c, g) && k <= |candidates|
    ensures Linked(c) && Ancestors(c, c.tip).Ok?
    ensures |EligibleAmong(o, c, height, candidates, k)| == CountAllowed(o, c, height, candidates, k)
    ensures k < |candidates| ==> (Eligible(o, c, height, candidates, k) <==> FirstAllowed(o, c, height, candidates, k))
  {
    hide Inv, MempoolValid, ClaimAllowed, Path, TreeOk, StateAt, CheckTxs;
    InvIsLinked(o, c, g);
    if k < |candidates| {
      MempoolValidExactly(o, c, g, candidates[k], height);
    }
    if k > 0 {
      EligibleCount(o, c, g, height, candidates, k - 1);
    }
  }

  /**
   Of distinct candidates exactly those are mined that are allowed on the tip, are the first to their name, allowed
   or not, and have fewer than 64 such candidates before them.
   */
  lemma {:induction false} MinedClaimsExactly(o: Oracle, c: ChainState, g: History, height: nat, candidates: seq<Tx>, i: nat)
    requires Inv(o, c, g) && i < |candidates|
    requires forall j :: 0 <= j < |candidates| && j != i ==> candidates[j] != candidates[i]
    ensures Linked(c) && Ancestors(c, c.tip).Ok?
    ensures candidates[i] in Select(o, c, height, candidates, {}, []) <==>
              FirstAllowed(o, c, height, candidates, i) && CountAllowed(o, c, height, candidates, i) < 64
  {
    hide Inv, MempoolValid, ClaimAllowed, Path, TreeOk, StateAt, Select, Eligible, EligibleAmong, FirstAllowed;
    EligibleCount(o, c, g, height, candidates, i);
    LeftOutExactly(o, c, height, candidates, i);
  }

  // ---- One block ---------------------------------------------------------------------------------

  /** The timestamps of the last eleven ancestors, or of all. */
  ghost predicate RecentTimes(c: ChainState, p: seq<Hash>, times: seq<nat>) {
    && |times| == (if |p| < 11 then |p| else 11)
    && (forall i :: 0 <= i < |times| ==> p[|p| - |times| + i] in c.meta && times[i] == c.meta[p[|p| - |times| + i]].timestamp)
  }

  /** `m` has half of `times` at or below it, and lies among the rest, all at or above it. */
  ghost predicate Splits(times: seq<nat>, m: nat, lower: seq<nat>, upper: seq<nat>) {
    && multiset(times) == multiset(lower) + multiset(upper) && |lower| == |times| / 2 && m in upper
    && (forall t :: t in lower ==> t <= m) && (forall t :: t in upper ==> t >= m)
  }

  /** There is only one such middle. */
  lemma {:induction false} MiddleIsUnique(times: seq<nat>, m: nat, lower: seq<nat>, upper: seq<nat>)
    requires Splits(times, m, lower, upper)
    ensures |times| > 0 && m == Median(times)
  {
    hide Sort;
    SortIsSort(times);
    SortIsSort(lower);
    SortIsSort(upper);
    var l, u := Sort(lower), Sort(upper);
    forall i | 0 <= i < |l| ensures l[i] <= m {
      assert l[i] in multiset(l) && l[i] in multiset(lower) && l[i] in lower;
    }
    forall i | 0 <= i < |u| ensures u[i] >= m {
      assert u[i] in multiset(u) && u[i] in multiset(upper) && u[i] in upper;
    }
    assert Sorted(l + u);
    SizesAdd(times, lower, upper);
    SortIsSort(times);
    SortedIsUnique(l + u, Sort(times));
    assert m in multiset(u);
    var j :| 0 <= j < |u| && u[j] == m;
    assert u[0] <= u[j];
    assert (l + u)[|l|] == u[0];
  }

  lemma {:induction false} SizesAdd(times: seq<nat>, lower: seq<nat>, upper: seq<nat>)
    requires multiset(times) == multiset(lower) + multiset(upper)
    ensures |times| == |lower| + |upper|
  {
    assert |multiset(times)| == |times| && |multiset(lower)| == |lower| && |multiset(upper)| == |upper|;
  }

  /** Later than the middle of the recent timestamps. */
  ghost predicate Later(c: ChainState, p: seq<Hash>, timestamp: nat) {
    exists times, m, lower, upper :: RecentTimes(c, p, times) && Splits(times, m, lower, upper) && timestamp > m
  }

  lemma {:induction false} LaterExactly(c: ChainState, parent: Hash, p: seq<Hash>, timestamp: nat)
    requires Linked(c) && Ancestors(c, parent) == Ok(p)
    ensures MedianTimePast(c, parent).Ok? && (timestamp > MedianTimePast(c, parent).value <==> Later(c, p, timestamp))
  {
    hide MedianTimePast, Path, TreeOk, Sort;
    var times, lower, upper := MedianTimePastExactly(c, parent, p);
    var median := MedianTimePast(c, parent).value;
    assert RecentTimes(c, p, times) && Splits(times, median, lower, upper);
    MiddleIsUnique(times, median, lower, upper);
    if Later(c, p, timestamp) {
      var times2, m2, lower2, upper2 :| RecentTimes(c, p, times2) && Splits(times2, m2, lower2, upper2) && timestamp > m2;
      assert times2 == times;
      MiddleIsUnique(times2, m2, lower2, upper2);
    }
  }

  /** The bytes of all claims together. */
  function ClaimBytes(txs: seq<Tx>): nat { if |txs| == 0 then 0 else |CanonicalBytes(txs[0])| + ClaimBytes(txs[1..]) }

  lemma {:induction false} SizeIsBytes(txs: seq<Tx>)
    ensures TxsSize(txs) == ClaimBytes(txs)
  {
    hide CanonicalBytes, TxSize;
    if |txs| > 0 {
      CanonicalLength(txs[0]);
      SizeIsBytes(txs[1..]);
    }
  }

  ghost predicate SizeOk(b: Block) { |HeaderBytes(b.header)| + ClaimBytes(b.txs) <= 16_384 }

  /** The commitment is the hash of the claims' ids in ascending order. */
  ghost predicate CommitmentOk(o: Oracle, b: Block) {
    exists ids: seq<Hash> :: Sorted(ids) && multiset(ids) == multiset(Ids(o, b.txs)) && b.header.txCommitment == o.listHash(ids)
  }

  lemma {:induction false} CommitmentExactly(o: Oracle, b: Block)
    ensures b.header.txCommitment == TxCommitment(o, b.txs) <==> CommitmentOk(o, b)
  {
    hide Sort;
    var s := Sort(Ids(o, b.txs));
    SortIsSort(Ids(o, b.txs));
    if CommitmentOk(o, b) {
      var ids: seq<Hash> :| Sorted(ids) && multiset(ids) == multiset(Ids(o, b.txs)) && b.header.txCommitment == o.listHash(ids);
      SortedIsUnique(ids, s);
    }
  }

  lemma {:induction false} BlockSizeExactly(b: Block)
    ensures BlockSize(b) <= MAX_BLOCK_BYTES <==> SizeOk(b)
    ensures |HeaderBytes(b.header)| == 125
  {
    SizeIsBytes(b.txs);
  }

  /** At most 64 claims, at most 16384 bytes, and the commitment of just these claims. */
  ghost predicate ShapeOk(o: Oracle, b: Block) { |b.txs| <= 64 && SizeOk(b) && CommitmentOk(o, b) }

  ghost predicate PlaceOk(c: ChainState, b: Block) {
    b.header.prev in c.meta && b.header.height == c.meta[b.header.prev].height + 1
  }

  /** The expected difficulty, and a hash that meets it. */
  ghost predicate WorkOk(o: Oracle, c: ChainState, b: Block)
    requires Linked(c)
  {
    ExpectedDifficulty(c, b.header.prev) == Ok(b.header.bits) && o.headerHash(b.header) <= TargetValue(b.header.bits)
  }

  /**
   A block is valid exactly if it has the right shape and place, does the expected work, is later than the middle
   of the recent timestamps and no more than two hours ahead of the clock, and each of its claims is allowed on its
   parent and the first to its name.
   */
  lemma {:induction false} BlockValidExactly(o: Oracle, c: ChainState, g: History, b: Block, now: nat)
    requires Inv(o, c, g)
    ensures Linked(c)
    ensures ValidateBlock(o, c, b, now).Ok? <==>
              && ShapeOk(o, b) && PlaceOk(c, b) && WorkOk(o, c, b)
              && Ancestors(c, b.header.prev).Ok? && StateAt(c, b.header.prev).Ok?
              && (var p, owners := Ancestors(c, b.header.prev).value, StateAt(c, b.header.prev).value;
                  && Later(c, p, b.header.timestamp) && b.header.timestamp <= now + 7_200
                  && (forall i :: 0 <= i < |b.txs| ==> ClaimAllowed(o, c, p, owners, b.header.height, b.txs[i]))
                  && DistinctNames(b.txs))
  {
    hide Inv, Path, StateAt, TreeOk, ExpectedDifficulty, MedianTimePast, TxCommitment, BlockSize, TargetValue, CheckTxs, ClaimAllowed,
         SizeOk, CommitmentOk, Later;
    InvIsLinked(o, c, g);
    BlockSizeExactly(b);
    CommitmentExactly(o, b);
    ParentSeen(o, c, g, b);
    if Ancestors(c, b.header.prev).Ok? && StateAt(c, b.header.prev).Ok? {
      var p, owners := Ancestors(c, b.header.prev).value, StateAt(c, b.header.prev).value;
      LaterExactly(c, b.header.prev, p, b.header.timestamp);
      var i := ClaimsExactly(o, c, p, owners, b.header.height, b.txs);
    }
  }

  /** Where the parent's ancestry is visible so are its owners, and where it is not there is no median. */
  lemma {:induction false} ParentSeen(o: Oracle, c: ChainState, g: History, b: Block)
    requires Inv(o, c, g)
    ensures Linked(c)
    ensures Ancestors(c, b.header.prev).Ok? ==> StateAt(c, b.header.prev).Ok?
    ensures Ancestors(c, b.header.prev).Err? ==> MedianTimePast(c, b.header.prev).Err?
  {
    hide Lawful, BodyOk, Path, StateAt;
    if Ancestors(c, b.header.prev).Ok? {
      RetainedReplayIsComplete(o, c, g, b.header.prev);
    }
  }

  /** Which error a block gets: that of the first rule it breaks, in this order. */
  lemma {:induction false} BlockErrorExactly(o: Oracle, c: ChainState, g: History, b: Block, now: nat)
    requires Inv(o, c, g)
    ensures Linked(c)
    ensures var r, prev := ValidateBlock(o, c, b, now), b.header.prev;
            && (|b.txs| > 64 ==> r == Err(TooManyTransactions))
            && (|b.txs| <= 64 && !SizeOk(b) ==> r == Err(BlockTooLarge))
            && (|b.txs| <= 64 && SizeOk(b) && !CommitmentOk(o, b) ==> r == Err(TxCommitmentMismatch))
            && (ShapeOk(o, b) && prev !in c.meta ==> r == Err(UnknownParent(prev)))
            && (ShapeOk(o, b) && prev in c.meta && !PlaceOk(c, b) ==> r == Err(HeightMismatch))
            && (ShapeOk(o, b) && PlaceOk(c, b) ==>
                  var d := ExpectedDifficulty(c, prev);
                  && (d.Err? ==> r == Err(d.error))
                  && (d.Ok? && d.value != b.header.bits ==> r == Err(DifficultyMismatch))
                  && (d == Ok(b.header.bits) && !WorkOk(o, c, b) ==> r == Err(ProofOfWorkInvalid)))
            && (ShapeOk(o, b) && PlaceOk(c, b) && WorkOk(o, c, b) && Ancestors(c, prev).Err? ==> r == Err(Ancestors(c, prev).error))
            && (ShapeOk(o, b) && PlaceOk(c, b) && WorkOk(o, c, b) && Ancestors(c, prev).Ok? ==>
                  var p := Ancestors(c, prev).value;
                  && (!Later(c, p, b.header.timestamp) ==> r == Err(TimestampTooOld))
                  && (Later(c, p, b.header.timestamp) && b.header.timestamp > now + 7_200 ==> r == Err(TimestampTooFarInFuture))
                  && (Later(c, p, b.header.timestamp) && b.header.timestamp <= now + 7_200 ==>
                        StateAt(c, prev).Ok? && r == CheckTxs(o, c.meta, b.header.height, p, StateAt(c, prev).value, {}, b.txs)))
  {
    hide Inv, Path, StateAt, TreeOk, ExpectedDifficulty, TxCommitment, BlockSize, TargetValue, SizeOk, CommitmentOk, Later, CheckTx, Median, Timestamps;
    InvIsLinked(o, c, g);
    BlockSizeExactly(b);
    CommitmentExactly(o, b);
    ParentSeen(o, c, g, b);
    if Ancestors(c, b.header.prev).Ok? {
      LaterExactly(c, b.header.prev, Ancestors(c, b.header.prev).value, b.header.timestamp);
    }
  }

  /** A new chain: genesis alone, at its fixed time and target, with no work behind it and no owners. */
  lemma {:induction false} GenesisExactly(o: Oracle)
    ensures var c := Fresh(o);
            && c.meta.Keys == {c.tip} && c.blocks.Keys == {c.tip} && c.index == map[0 := c.tip] && c.owners == map[]
            && c.meta[c.tip] == Meta(0, 0, 1_750_000_000, 0x1eff_ffff, 0.0) && c.floor == c.tip && c.floorHeight == 0
            && (var b := c.blocks[c.tip];
                && o.headerHash(b.header) == c.tip && b.txs == [] && CommitmentOk(o, b)
                && b.header.version == 1 && b.header.height == 0 && b.header.prev == 0 && b.header.timestamp == 1_750_000_000
                && b.header.bits == 0x1eff_ffff && b.header.nonce == 0 && b.header.miner == 0)
  {
    hide CommitmentOk;
    CommitmentExactly(o, Genesis(o));
  }

  /** The signed reading of a 64-bit difference is congruent to it and in range. */
  lemma {:induction false} WrapExactly(x: int)
    ensures -0x8000_0000_0000_0000 <= WrapI64(x) < 0x8000_0000_0000_0000 && (WrapI64(x) - x) % 0x1_0000_0000_0000_0000 == 0
  {
  }

  // ---- Who owns a name ---------------------------------------------------------------------------

  /** A claim to `u` in the body of some block of the path after the first, and the record it makes. */
  ghost predicate ClaimedOn(g: History, p: seq<Hash>, u: Username, record: Owner) {
    exists j, i :: 0 < j < |p| && p[j] in g.bodies && 0 <= i < |g.bodies[p[j]].txs| && ClaimAt(g, p, j, i, u, record)
  }

  ghost predicate ClaimAt(g: History, p: seq<Hash>, j: nat, i: nat, u: Username, record: Owner)
    requires j < |p| && p[j] in g.bodies && i < |g.bodies[p[j]].txs|
  {
    var b := g.bodies[p[j]];
    b.txs[i].claim.username == u && record == Owner(b.txs[i].claim.owner, b.header.height, p[j])
  }

  /** What one more block does to the owner of a name. */
  lemma {:induction false} OwnersStep(owners: Owners, txs: seq<Tx>, height: nat, h: Hash, u: Username)
    requires DistinctNames(txs)
    ensures var after := ApplyClaims(owners, txs, height, h);
            && (forall i :: 0 <= i < |txs| && txs[i].claim.username == u ==>
                  u in after && after[u] == Owner(txs[i].claim.owner, height, h))
            && ((forall i :: 0 <= i < |txs| ==> txs[i].claim.username != u) ==>
                  (u in after <==> u in owners) && (u in owners ==> after[u] == owners[u]))
  {
    hide ApplyClaims;
    if i :| 0 <= i < |txs| && txs[i].claim.username == u {
      C.ClaimedName(owners, txs, height, h, i);
    } else {
      C.UnclaimedName(owners, txs, height, h, u);
    }
  }

  /** A known block's body, lawful on its parent, in terms of its claims. */
  lemma {:induction false} BodyLaw(o: Oracle, c: ChainState, g: History, h: Hash)
    requires Inv(o, c, g) && h in c.meta && h != g.root
    ensures var w := Whole(c, g);
            && c.meta[h].prev in c.meta && h in g.bodies && Linked(w)
            && Ancestors(w, h).Ok? && Ancestors(w, c.meta[h].prev).Ok? && StateAt(w, c.meta[h].prev).Ok?
            && Ancestors(w, h).value == Ancestors(w, c.meta[h].prev).value + [h]
            && StateAt(w, h) == Ok(ApplyClaims(StateAt(w, c.meta[h].prev).value, g.bodies[h].txs, g.bodies[h].header.height, h))
            && DistinctNames(g.bodies[h].txs)
            && (forall i :: 0 <= i < |g.bodies[h].txs| ==>
                  g.bodies[h].txs[i].claim.username !in StateAt(w, c.meta[h].prev).value)
  {
    hide Path, StateAt, WorkOf, ApplyClaims, ClaimAllowed, TreeOk, LinkOk, ExpectedDifficulty, TargetValue, TxCommitment, BlockSize, CheckTxs,
         TipHeaviest, ViewsOk, Retained;
    WholeStep(o, c, g, h);
    var w, b := Whole(c, g), g.bodies[h];
    assert BodyOk(o, c.meta, g, h);
    assert Lawful(o, w, b) && b.header.prev == c.meta[h].prev;
    var p, owners := Ancestors(w, b.header.prev).value, StateAt(w, b.header.prev).value;
    var i := ClaimsExactly(o, w, p, owners, b.header.height, b.txs);
    forall i | 0 <= i < |b.txs| ensures b.txs[i].claim.username !in owners {
      assert ClaimAllowed(o, w, p, owners, b.header.height, b.txs[i]);
      AllowedIsNew(o, w, p, owners, b.header.height, b.txs[i]);
    }
  }

  lemma AllowedIsNew(o: Oracle, c: ChainState, p: seq<Hash>, owners: Owners, height: nat, tx: Tx)
    requires ClaimAllowed(o, c, p, owners, height, tx)
    ensures tx.claim.username !in owners
  {
  }

  /**
   The owner map as of any known block: the names of the root, each with its record, and every name claimed in a
   block of the path, with exactly the record of that claim.
   */
  lemma {:induction false} OwnersExactly(o: Oracle, c: ChainState, g: History, h: Hash, u: Username)
    requires Inv(o, c, g) && h in c.meta
    ensures Linked(Whole(c, g)) && Ancestors(Whole(c, g), h).Ok? && StateAt(Whole(c, g), h).Ok?
    ensures var p, owners := Ancestors(Whole(c, g), h).value, StateAt(Whole(c, g), h).value;
            && (u in owners ==> (u in g.rootOwners && owners[u] == g.rootOwners[u]) || ClaimedOn(g, p, u, owners[u]))
            && (u in g.rootOwners ==> u in owners && owners[u] == g.rootOwners[u])
            && (forall record :: ClaimedOn(g, p, u, record) ==> u in owners && owners[u] == record)
    decreases c.meta[h].height
  {
    hide Inv, Path, ApplyClaims, TreeOk, LinkOk, DistinctNames;
    WholeRooted(o, c, g, h);
    var w := Whole(c, g);
    if h == g.root {
      assert Ancestors(w, h) == Ok([h]) && StateAt(w, h) == Ok(g.rootOwners) by { RootView(w); }
    } else {
      BodyLaw(o, c, g, h);
      ParentLower(c, h);
      OwnersExactly(o, c, g, c.meta[h].prev, u);
      var p0, owners0 := Ancestors(w, c.meta[h].prev).value, StateAt(w, c.meta[h].prev).value;
      var b := g.bodies[h];
      OwnersStep(owners0, b.txs, b.header.height, h, u);
      PathStep(g, p0, h, u, owners0, ApplyClaims(owners0, b.txs, b.header.height, h));
    }
  }

  lemma RootView(w: ChainState)
    requires Linked(w)
    ensures Ancestors(w, w.floor) == Ok([w.floor]) && StateAt(w, w.floor) == Ok(w.floorOwners)
  {
  }

  lemma ParentLower(c: ChainState, h: Hash)
    requires Linked(c) && h in c.meta && c.meta[h].prev in c.meta
    ensures c.meta[c.meta[h].prev].height < c.meta[h].height
  {
    assert LinkOk(c.meta, h);
  }

  lemma {:induction false} WholeRooted(o: Oracle, c: ChainState, g: History, h: Hash)
    requires Inv(o, c, g) && h in c.meta
    ensures Linked(c) && g.root in c.meta && Linked(Whole(c, g)) && Ancestors(Whole(c, g), h).Ok? && StateAt(Whole(c, g), h).Ok?
  {
    hide Lawful, BodyOk, StateAt, Path, LinkOk;
    EveryBlockIsRooted(o, c, g, h);
  }

  /** One more block at the end of the path. */
  lemma {:induction false} PathStep(g: History, p: seq<Hash>, h: Hash, u: Username, owners: Owners, after: Owners)
    requires |p| > 0 && h in g.bodies && DistinctNames(g.bodies[h].txs)
    requires forall i :: 0 <= i < |g.bodies[h].txs| ==> g.bodies[h].txs[i].claim.username !in owners
    requires u in owners ==> (u in g.rootOwners && owners[u] == g.rootOwners[u]) || ClaimedOn(g, p, u, owners[u])
    requires u in g.rootOwners ==> u in owners && owners[u] == g.rootOwners[u]
    requires forall record :: ClaimedOn(g, p, u, record) ==> u in owners && owners[u] == record
    requires var txs := g.bodies[h].txs;
             && (forall i :: 0 <= i < |txs| && txs[i].claim.username == u ==>
                   u in after && after[u] == Owner(txs[i].claim.owner, g.bodies[h].header.height, h))
             && ((forall i :: 0 <= i < |txs| ==> txs[i].claim.username != u) ==>
                   (u in after <==> u in owners) && (u in owners ==> after[u] == owners[u]))
    ensures u in after ==> (u in g.rootOwners && after[u] == g.rootOwners[u]) || ClaimedOn(g, p + [h], u, after[u])
    ensures u in g.rootOwners ==> u in after && after[u] == g.rootOwners[u]
    ensures forall record :: ClaimedOn(g, p + [h], u, record) ==> u in after && after[u] == record
  {
    var q, txs := p + [h], g.bodies[h].txs;
    if i :| 0 <= i < |txs| && txs[i].claim.username == u {
      assert q[|p|] == h && ClaimAt(g, q, |p|, i, u, after[u]);
    }
    if u in after && ClaimedOn(g, p, u, after[u]) {
      var j, i :| 0 < j < |p| && p[j] in g.bodies && 0 <= i < |g.bodies[p[j]].txs| && ClaimAt(g, p, j, i, u, after[u]);
      assert q[j] == p[j] && ClaimAt(g, q, j, i, u, after[u]);
    }
    forall record | ClaimedOn(g, q, u, record) ensures u in after && after[u] == record {
      var j, i :| 0 < j < |q| && q[j] in g.bodies && 0 <= i < |g.bodies[q[j]].txs| && ClaimAt(g, q, j, i, u, record);
      if j < |p| {
        assert q[j] == p[j] && ClaimAt(g, p, j, i, u, record);
        assert ClaimedOn(g, p, u, record);
      }
    }
  }

  /** So it is with the owners the chain shows. */
  lemma {:induction false} TipOwnersExactly(o: Oracle, c: ChainState, g: History, u: Username)
    requires Inv(o, c, g)
    ensures Linked(Whole(c, g)) && Ancestors(Whole(c, g), c.tip).Ok?
    ensures var p := Ancestors(Whole(c, g), c.tip).value;
            && (u in c.owners ==> (u in g.rootOwners && c.owners[u] == g.rootOwners[u]) || ClaimedOn(g, p, u, c.owners[u]))
            && (u in g.rootOwners ==> u in c.owners && c.owners[u] == g.rootOwners[u])
            && (forall record :: ClaimedOn(g, p, u, record) ==> u in c.owners && c.owners[u] == record)
  {
    hide Inv, Path, StateAt, TreeOk, ClaimedOn;
    InvIsLinked(o, c, g);
    WholeTip(o, c, g);
    OwnersExactly(o, c, g, c.tip, u);
  }

  lemma WholeTip(o: Oracle, c: ChainState, g: History)
    requires Inv(o, c, g)
    ensures Linked(Whole(c, g)) && StateAt(Whole(c, g), c.tip) == Ok(c.owners)
  {
    hide Lawful, BodyOk, Path, StateAt;
  }
}
