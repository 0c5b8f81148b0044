/**
 Mining: choosing mempool claims for a candidate on the tip, assembling its header, and the nonce search.
 What the search emits is valid on the chain it was built from, and stays valid as more blocks arrive.
 */
module Mining {
  import opened Prelude
  import opened Difficulty
  import opened Sorting
  import opened LedgerTypes
  import opened ChainRules
  import opened ChainViews
  import opened ChainInvariant
  import opened ChainRuns
  import opened StoreRules
  import opened StoreReplay
  import opened Convergence

  const CHECK_INTERVAL: nat := 50_000

  type Mempool = map<Hash, Tx>

  // ---- Choosing claims ---------------------------------------------------------------------------

  /** Whether a claim could go into a block at `height` on the tip. */
  ghost predicate MempoolValid(o: Oracle, c: ChainState, tx: Tx, height: nat)
    requires Linked(c)
  {
    && VerifySelfContained(o, tx).Ok?
    && Ancestors(c, c.tip).Ok? && tx.claim.anchor in Ancestors(c, c.tip).value
    && tx.claim.anchor in c.meta && SatSub(height, c.meta[tx.claim.anchor].height) <= ANCHOR_MAX_AGE_BLOCKS
    && StateAt(c, c.tip).Ok? && tx.claim.username !in StateAt(c, c.tip).value
  }

  /** Takes candidates in order until the block is full; a name is used up by the first claim to it, valid or not. */
  ghost function Select(o: Oracle, c: ChainState, height: nat, candidates: seq<Tx>, used: set<Username>, selected: seq<Tx>): seq<Tx>
    requires Linked(c)
    decreases |candidates|
  {
    if |candidates| == 0 || |selected| >= MAX_TXS_PER_BLOCK then selected
    else
      var tx := candidates[0];
      if tx.claim.username in used then Select(o, c, height, candidates[1..], used, selected)
      else Select(o, c, height, candidates[1..], used + {tx.claim.username},
                  if MempoolValid(o, c, tx, height) then selected + [tx] else selected)
  }

  /** Candidate `i` is valid and is the first to its name. */
  ghost predicate Eligible(o: Oracle, c: ChainState, height: nat, candidates: seq<Tx>, i: nat)
    requires Linked(c) && i < |candidates|
  {
    && MempoolValid(o, c, candidates[i], height)
    && forall j :: 0 <= j < i ==> candidates[j].claim.username != candidates[i].claim.username
  }

  /** The eligible ones among the first `k` candidates. */
  ghost function EligibleAmong(o: Oracle, c: ChainState, height: nat, candidates: seq<Tx>, k: nat): seq<Tx>
    requires Linked(c) && k <= |candidates|
  {
    if k == 0 then []
    else
      var before := EligibleAmong(o, c, height, candidates, k - 1);
      if Eligible(o, c, height, candidates, k - 1) then before + [candidates[k - 1]] else before
  }

  function FirstFew(s: seq<Tx>): seq<Tx> { s[..Min(|s|, MAX_TXS_PER_BLOCK)] }

  lemma {:induction false} EligibleGrows(o: Oracle, c: ChainState, height: nat, candidates: seq<Tx>, k: nat, n: nat)
    requires Linked(c) && k <= n <= |candidates|
    ensures EligibleAmong(o, c, height, candidates, k) <= EligibleAmong(o, c, height, candidates, n)
    decreases n
  {
    hide MempoolValid;
    if k < n {
      EligibleGrows(o, c, height, candidates, k, n - 1);
    }
  }

  ghost predicate NamesBefore(candidates: seq<Tx>, k: nat, used: set<Username>)
    requires k <= |candidates|
  {
    forall u: Username :: u in used <==> exists j :: 0 <= j < k && candidates[j].claim.username == u
  }

  lemma {:induction false} NameUsed(candidates: seq<Tx>, k: nat, used: set<Username>)
    requires k < |candidates| && NamesBefore(candidates, k, used)
    ensures NamesBefore(candidates, k + 1, used + {candidates[k].claim.username})
    ensures candidates[k].claim.username in used ==> NamesBefore(candidates, k + 1, used)
    ensures candidates[k].claim.username in used <==>
              !(forall j :: 0 <= j < k ==> candidates[j].claim.username != candidates[k].claim.username)
  {
    forall u: Username
      ensures u in used + {candidates[k].claim.username} <==> exists j :: 0 <= j < k + 1 && candidates[j].claim.username == u
    {
      if u in used {
        var j :| 0 <= j < k && candidates[j].claim.username == u;
      }
    }
    if candidates[k].claim.username in used {
      assert used + {candidates[k].claim.username} == used;
    }
  }

  /** The selection loop, from position `k` on, completes the first sixty-four eligible candidates. */
  lemma {:induction false} SelectRest(o: Oracle, c: ChainState, height: nat, candidates: seq<Tx>, k: nat, used: set<Username>)
    requires Linked(c) && k <= |candidates| && NamesBefore(candidates, k, used)
    requires |EligibleAmong(o, c, height, candidates, k)| <= MAX_TXS_PER_BLOCK
    ensures Select(o, c, height, candidates[k..], used, EligibleAmong(o, c, height, candidates, k))
         == FirstFew(EligibleAmong(o, c, height, candidates, |candidates|))
    decreases |candidates| - k
  {
    hide MempoolValid, NamesBefore;
    var selected := EligibleAmong(o, c, height, candidates, k);
    EligibleGrows(o, c, height, candidates, k, |candidates|);
    if k < |candidates| && |selected| < MAX_TXS_PER_BLOCK {
      var rest := candidates[k..];
      assert rest[0] == candidates[k] && rest[1..] == candidates[k + 1..];
      NameUsed(candidates, k, used);
      if candidates[k].claim.username in used {
        SelectRest(o, c, height, candidates, k + 1, used);
      } else {
        SelectRest(o, c, height, candidates, k + 1, used + {candidates[k].claim.username});
      }
    }
  }

  /** The candidates' selection is exactly the first sixty-four that are valid and first to their name. */
  lemma {:induction false} SelectionExactly(o: Oracle, c: ChainState, height: nat, candidates: seq<Tx>)
    requires Linked(c)
    ensures Select(o, c, height, candidates, {}, []) == FirstFew(EligibleAmong(o, c, height, candidates, |candidates|))
  {
    hide MempoolValid;
    assert candidates[0..] == candidates;
    SelectRest(o, c, height, candidates, 0, {});
  }

  /** Eligible claims are valid and have distinct names. */
  lemma {:induction false} EligibleAreLawful(o: Oracle, c: ChainState, height: nat, candidates: seq<Tx>, k: nat)
    requires Linked(c) && k <= |candidates|
    ensures var e := EligibleAmong(o, c, height, candidates, k);
            && (forall i :: 0 <= i < |e| ==> MempoolValid(o, c, e[i], height))
            && DistinctNames(e)
            && (forall i :: 0 <= i < |e| ==> exists j :: 0 <= j < k && candidates[j] == e[i])
  {
    hide MempoolValid;
    if k > 0 {
      EligibleAreLawful(o, c, height, candidates, k - 1);
      var before := EligibleAmong(o, c, height, candidates, k - 1);
      var e := EligibleAmong(o, c, height, candidates, k);
      forall i | 0 <= i < |e| ensures exists j :: 0 <= j < k && candidates[j] == e[i] {
        if i < |before| {
          var j :| 0 <= j < k - 1 && candidates[j] == before[i];
        }
      }
    }
  }

  lemma {:induction false} SelectionIsLawful(o: Oracle, c: ChainState, height: nat, candidates: seq<Tx>)
    requires Linked(c)
    ensures var s := Select(o, c, height, candidates, {}, []);
            |s| <= MAX_TXS_PER_BLOCK && DistinctNames(s) && forall i :: 0 <= i < |s| ==> MempoolValid(o, c, s[i], height)
  {
    hide MempoolValid, EligibleAmong;
    SelectionExactly(o, c, height, candidates);
    EligibleAreLawful(o, c, height, candidates, |candidates|);
  }

  /** A claim is left out exactly if it is ineligible or the block is full before it. */
  lemma {:induction false} LeftOutExactly(o: Oracle, c: ChainState, height: nat, candidates: seq<Tx>, i: nat)
    requires Linked(c) && i < |candidates|
    requires forall j :: 0 <= j < |candidates| && j != i ==> candidates[j] != candidates[i]
    ensures candidates[i] in Select(o, c, height, candidates, {}, []) <==>
              Eligible(o, c, height, candidates, i) && |EligibleAmong(o, c, height, candidates, i)| < MAX_TXS_PER_BLOCK
  {
    hide MempoolValid;
    SelectionExactly(o, c, height, candidates);
    var before, all := EligibleAmong(o, c, height, candidates, i), EligibleAmong(o, c, height, candidates, |candidates|);
    EligibleGrows(o, c, height, candidates, i, i + 1);
    EligibleGrows(o, c, height, candidates, i + 1, |candidates|);
    if Eligible(o, c, height, candidates, i) {
      assert all[|before|] == candidates[i];
      OnlyOnce(o, c, height, candidates, i, |candidates|);
    } else {
      NeverEligible(o, c, height, candidates, i, |candidates|);
    }
  }

  lemma {:induction false} NeverEligible(o: Oracle, c: ChainState, height: nat, candidates: seq<Tx>, i: nat, k: nat)
    requires Linked(c) && i < |candidates| && k <= |candidates| && !Eligible(o, c, height, candidates, i)
    requires forall j :: 0 <= j < |candidates| && j != i ==> candidates[j] != candidates[i]
    ensures candidates[i] !in EligibleAmong(o, c, height, candidates, k)
  {
    hide Eligible;
    if k > 0 {
      NeverEligible(o, c, height, candidates, i, k - 1);
    }
  }

  lemma {:induction false} OnlyOnce(o: Oracle, c: ChainState, height: nat, candidates: seq<Tx>, i: nat, k: nat)
    requires Linked(c) && i < k <= |candidates|
    requires forall j :: 0 <= j < |candidates| && j != i ==> candidates[j] != candidates[i]
    ensures var before, all := EligibleAmong(o, c, height, candidates, i), EligibleAmong(o, c, height, candidates, k);
            forall n :: 0 <= n < |all| && all[n] == candidates[i] ==> n == |before|
  {
    hide Eligible;
    var before, all := EligibleAmong(o, c, height, candidates, i), EligibleAmong(o, c, height, candidates, k);
    if k == i + 1 {
      EligibleAreFrom(o, c, height, candidates, i);
    } else {
      OnlyOnce(o, c, height, candidates, i, k - 1);
      assert candidates[k - 1] != candidates[i];
      assert all == EligibleAmong(o, c, height, candidates, k - 1)
          || all == EligibleAmong(o, c, height, candidates, k - 1) + [candidates[k - 1]];
    }
  }

  lemma {:induction false} EligibleAreFrom(o: Oracle, c: ChainState, height: nat, candidates: seq<Tx>, k: nat)
    requires Linked(c) && k <= |candidates|
    ensures var e := EligibleAmong(o, c, height, candidates, k);
            forall i :: 0 <= i < |e| ==> exists j :: 0 <= j < k && candidates[j] == e[i]
  {
    EligibleAreLawful(o, c, height, candidates, k);
  }

  // ---- The candidate header and the nonce search -------------------------------------------------

  /** The header a search starts from, if the tip's difficulty and median can be computed. */
  ghost function CandidateHeader(o: Oracle, c: ChainState, selected: seq<Tx>, now: nat, miner: nat): Option<Header>
    requires Linked(c)
  {
    if ExpectedDifficulty(c, c.tip).Err? || MedianTimePast(c, c.tip).Err? then None
    else Some(Header(1, c.meta[c.tip].height + 1, c.tip, Max(now, MedianTimePast(c, c.tip).value + 1),
                     TxCommitment(o, selected), ExpectedDifficulty(c, c.tip).value, 0, miner))
  }

  /** What the search reads every `CHECK_INTERVAL` attempts: whether to stop, and the clock. */
  datatype Reading = Reading(stop: bool, now: nat)

  /** All the readings a search would make if it never ended. */
  type Readings = nat -> Reading

  /** The timestamp after `k` readings of the clock. */
  function RefreshedTime(start: nat, readings: Readings, k: nat): (t: nat)
    ensures t >= start
  {
    if k == 0 then start else Max(RefreshedTime(start, readings, k - 1), readings(k - 1).now)
  }

  lemma {:induction false} RefreshedTimeBounded(start: nat, readings: Readings, k: nat, bound: nat)
    requires start <= bound && forall i: nat :: i < k ==> readings(i).now <= bound
    ensures RefreshedTime(start, readings, k) <= bound
  {
    if k > 0 {
      RefreshedTimeBounded(start, readings, k - 1, bound);
    }
  }

  /** The header of attempt `a`. */
  function HeaderAt(h: Header, readings: Readings, a: nat): Header
  {
    h.(nonce := (h.nonce + a) % U64, timestamp := RefreshedTime(h.timestamp, readings, a / CHECK_INTERVAL))
  }

  lemma {:induction false} NextAttempt(a: nat)
    ensures (a + 1) % CHECK_INTERVAL == 0 ==> (a + 1) / CHECK_INTERVAL == a / CHECK_INTERVAL + 1
    ensures (a + 1) % CHECK_INTERVAL != 0 ==> (a + 1) / CHECK_INTERVAL == a / CHECK_INTERVAL
  {
  }

  lemma {:induction false} FirstHeader(h: Header, readings: Readings)
    requires h.nonce < U64
    ensures HeaderAt(h, readings, 0) == h
  {
  }

  /** The next header to try: one more on the nonce, and at each check the clock. */
  lemma {:induction false} NextHeader(h: Header, readings: Readings, a: nat)
    ensures (a + 1) % CHECK_INTERVAL != 0 ==>
              && (a + 1) / CHECK_INTERVAL == a / CHECK_INTERVAL
              && HeaderAt(h, readings, a + 1) ==
                   HeaderAt(h, readings, a).(nonce := (HeaderAt(h, readings, a).nonce + 1) % U64)
    ensures (a + 1) % CHECK_INTERVAL == 0 ==>
              HeaderAt(h, readings, a + 1) ==
                HeaderAt(h, readings, a).(
                  nonce := (HeaderAt(h, readings, a).nonce + 1) % U64,
                  timestamp := Max(HeaderAt(h, readings, a).timestamp, readings((a + 1) / CHECK_INTERVAL - 1).now))
  {
    NextAttempt(a);
    NextNonce(h.nonce, a);
  }

  lemma {:induction false} NextNonce(start: nat, a: nat)
    ensures (start + (a + 1)) % U64 == ((start + a) % U64 + 1) % U64
  {
  }

  /** The time is the latest of the start and the readings so far. */
  lemma {:induction false} RefreshedTimeExactly(start: nat, readings: Readings, k: nat)
    ensures forall i: nat :: i < k ==> readings(i).now <= RefreshedTime(start, readings, k)
    ensures RefreshedTime(start, readings, k) == start || exists i: nat :: i < k && RefreshedTime(start, readings, k) == readings(i).now
  {
    if k > 0 {
      RefreshedTimeExactly(start, readings, k - 1);
    }
  }

  /**
   The header of attempt `a`: the nonce is `a` further, modulo 2^64; the time is the latest of its own and one
   reading for every 50 000 attempts made; nothing else changes.
   */
  lemma {:induction false} AttemptExactly(h: Header, readings: Readings, a: nat)
    ensures var x, k := HeaderAt(h, readings, a), a / 50_000;
            && x == h.(nonce := x.nonce, timestamp := x.timestamp) && x.nonce == (h.nonce + a) % 0x1_0000_0000_0000_0000
            && x.timestamp >= h.timestamp && (forall i: nat :: i < k ==> readings(i).now <= x.timestamp)
            && (x.timestamp == h.timestamp || exists i: nat :: i < k && x.timestamp == readings(i).now)
  {
    RefreshedTimeExactly(h.timestamp, readings, a / 50_000);
  }

  /** Attempt `a` meets the target. */
  predicate Hits(o: Oracle, h: Header, readings: Readings, a: nat) {
    o.headerHash(HeaderAt(h, readings, a)) <= TargetValue(h.bits)
  }

  /** Told to stop at the check that follows attempt `a - 1`. */
  predicate StopsAt(readings: Readings, a: nat) {
    a > 0 && a % CHECK_INTERVAL == 0 && readings(a / CHECK_INTERVAL - 1).stop
  }

  /**
   The nonce search, given that it ends: some attempt hits or it is told to stop at some check. It emits the
   first attempt whose hash meets the target, or nothing if it is told to stop before that.
   */
  method Mine(o: Oracle, header: Header, txs: seq<Tx>, readings: Readings) returns (r: Option<Block>, attempts: nat)
    requires header.nonce < U64
    requires exists a: nat :: Hits(o, header, readings, a) || StopsAt(readings, a)
    ensures forall a: nat :: a < attempts ==> !Hits(o, header, readings, a) && !StopsAt(readings, a)
    ensures r.Some? ==> r.value == Block(HeaderAt(header, readings, attempts), txs)
    ensures r.Some? <==> Hits(o, header, readings, attempts) && !StopsAt(readings, attempts)
    ensures r.None? <==> StopsAt(readings, attempts)
  {
    hide HeaderAt, TargetValue, StopsAt;
    ghost var last: nat :| Hits(o, header, readings, last) || StopsAt(readings, last);
    var target := TargetValue(header.bits);
    var current := header;
    FirstHeader(header, readings);
    StopsExactly(readings, 0);
    attempts := 0;
    while true
      invariant attempts <= last && current == HeaderAt(header, readings, attempts)
      invariant forall a: nat :: a < attempts ==> !Hits(o, header, readings, a)
      invariant forall a: nat :: a <= attempts ==> !StopsAt(readings, a)
      decreases last - attempts
    {
      if o.headerHash(current) <= target {
        return Some(Block(current, txs)), attempts;
      }
      assert !Hits(o, header, readings, attempts);
      NextHeader(header, readings, attempts);
      current := current.(nonce := (current.nonce + 1) % U64);
      attempts := attempts + 1;
      StopsExactly(readings, attempts);
      if attempts % CHECK_INTERVAL == 0 {
        if readings(attempts / CHECK_INTERVAL - 1).stop {
          return None, attempts;
        }
        current := current.(timestamp := Max(current.timestamp, readings(attempts / CHECK_INTERVAL - 1).now));
      }
    }
  }

  lemma StopsExactly(readings: Readings, a: nat)
    ensures StopsAt(readings, a) <==> a > 0 && a % 50_000 == 0 && readings(a / 50_000 - 1).stop
  {
  }

  // ---- What the search emits is valid ------------------------------------------------------------

  /** A claim that passes on its own takes at most 204 bytes, so a full block of them fits. */
  lemma {:induction false} ClaimsFit(o: Oracle, txs: seq<Tx>)
    requires forall i :: 0 <= i < |txs| ==> VerifySelfContained(o, txs[i]).Ok?
    ensures TxsSize(txs) <= 204 * |txs|
  {
    if |txs| > 0 {
      assert VerifySelfContained(o, txs[0]).Ok?;
      ClaimsFit(o, txs[1..]);
    }
  }

  lemma {:induction false} SelectionPasses(o: Oracle, c: ChainState, candidates: seq<Tx>)
    requires Linked(c) && Ancestors(c, c.tip).Ok? && StateAt(c, c.tip).Ok?
    ensures var s := Select(o, c, c.meta[c.tip].height + 1, candidates, {}, []);
            && |s| <= MAX_TXS_PER_BLOCK && TxsSize(s) <= 204 * |s|
            && CheckTxs(o, c.meta, c.meta[c.tip].height + 1, Ancestors(c, c.tip).value, StateAt(c, c.tip).value, {}, s).Ok?
  {
    hide VerifySelfContained, Path, StateAt, Select, TreeOk;
    var height := c.meta[c.tip].height + 1;
    var s := Select(o, c, height, candidates, {}, []);
    SelectionIsLawful(o, c, height, candidates);
    forall i | 0 <= i < |s|
      ensures TxLawful(o, c.meta, height, Ancestors(c, c.tip).value, StateAt(c, c.tip).value, s[i])
    {
      assert MempoolValid(o, c, s[i], height);
    }
    ClaimsFit(o, s);
    ChecksPassExactly(o, c.meta, height, Ancestors(c, c.tip).value, StateAt(c, c.tip).value, {}, s);
  }

  /** A block as `Mine` emits it, from a candidate for the tip of `c`. */
  ghost predicate Mined(o: Oracle, c: ChainState, candidates: seq<Tx>, start: nat, miner: nat, readings: Readings, a: nat, b: Block)
    requires Linked(c)
  {
    var selected := Select(o, c, c.meta[c.tip].height + 1, candidates, {}, []);
    && CandidateHeader(o, c, selected, start, miner).Some?
    && b == Block(HeaderAt(CandidateHeader(o, c, selected, start, miner).value, readings, a), selected)
    && BlockHash(o, b) <= TargetValue(b.header.bits)
  }

  lemma {:induction false} MinedIsLawful(
      o: Oracle, c: ChainState, g: History, candidates: seq<Tx>, start: nat, miner: nat, readings: Readings, a: nat, b: Block)
    requires Inv(o, c, g) && Mined(o, c, candidates, start, miner, readings, a, b)
    ensures Lawful(o, c, b) && Timely(c, b) && b.header.prev == c.tip
  {
    hide Inv, VerifySelfContained, Path, StateAt, Select, TreeOk, ExpectedDifficulty, TxCommitment, CheckTxs, TargetValue,
         Median, Timestamps;
    InvIsLinked(o, c, g);
    TipState(o, c, g);
    SelectionPasses(o, c, candidates);
  }

  lemma {:induction false} TipState(o: Oracle, c: ChainState, g: History)
    requires Inv(o, c, g)
    ensures Ancestors(c, c.tip).Ok? && StateAt(c, c.tip).Ok?
  {
    hide Lawful, BodyOk, Path, StateAt;
    RetainedReplayIsComplete(o, c, g, c.tip);
  }

  /** The chain after more blocks have been given to it. */
  function ApplyAll(o: Oracle, c: ChainState, s: seq<Delivery>): ChainState
    requires Linked(c)
    decreases |s|
  {
    if |s| == 0 then c
    else
      TryApplyLinked(o, c, s[0].block, s[0].now);
      ApplyAll(o, TryApply(o, c, s[0].block, s[0].now).0, s[1..])
  }

  lemma {:induction false} ApplyKeepsView(o: Oracle, c: ChainState, g: History, b: Block, now: nat, x: Hash)
    requires Inv(o, c, g) && x in c.meta && Ancestors(c, x).Ok?
    ensures Linked(TryApply(o, c, b, now).0) && SameView(c, TryApply(o, c, b, now).0, x)
  {
    hide ValidateBlock, TryApply, Lawful, AllLawful, BodyOk, Path, StateAt, LinkOk, TreeOk, Retained, TipHeaviest, IndexOk, WorkOf;
    TryApplyLinked(o, c, b, now);
    SameMetaSameFacts(c.meta, Ancestors(c, x).value);
    if BlockHash(o, b) !in c.meta && ValidateBlock(o, c, b, now).Ok? {
      ApplyOutcome(o, c, g, b, now);
      var c2, c3 := Recorded(o, c, b), TryApply(o, c, b, now).0;
      RecordedIsExtension(o, c, g, b);
      ExtensionKeepsView(c, c2, BlockHash(o, b), x);
      SameBodiesSameState(c2, c3, x);
    } else {
      ApplyIsAllOrNothing(o, c, g, b, now);
    }
  }

  lemma {:induction false} SameViewTransitive(c1: ChainState, c2: ChainState, c3: ChainState, x: Hash)
    requires Linked(c1) && Linked(c2) && Linked(c3) && SameView(c1, c2, x) && SameView(c2, c3, x)
    ensures SameView(c1, c3, x)
  {
    hide Path, StateAt, TreeOk;
    var path := Ancestors(c1, x).value;
    forall i | 0 <= i < |path| ensures SameFacts(c1.meta, c3.meta, path[i]) {
      assert SameFacts(c1.meta, c2.meta, path[i]) && SameFacts(c2.meta, c3.meta, path[i]);
    }
  }

  /** Whatever else is applied, a known block keeps its view, so its children keep their verdicts. */
  lemma {:induction false} ApplyAllKeepsView(o: Oracle, c: ChainState, g: History, s: seq<Delivery>, x: Hash)
    requires Inv(o, c, g) && x in c.meta && Ancestors(c, x).Ok?
    ensures Linked(ApplyAll(o, c, s)) && SameView(c, ApplyAll(o, c, s), x)
    decreases |s|
  {
    hide Inv, TryApply, Path, StateAt, TreeOk, HistoryAfter;
    InvIsLinked(o, c, g);
    SameMetaSameFacts(c.meta, Ancestors(c, x).value);
    if |s| > 0 {
      var c2 := TryApply(o, c, s[0].block, s[0].now).0;
      ApplyKeepsView(o, c, g, s[0].block, s[0].now, x);
      ApplyKeepsInv(o, c, g, s[0].block, s[0].now);
      ApplyAllKeepsView(o, c2, HistoryAfter(o, c, g, s[0].block, s[0].now), s[1..], x);
      SameViewTransitive(c, c2, ApplyAll(o, c, s), x);
    }
  }

  lemma {:induction false} MinedTime(
      o: Oracle, c: ChainState, candidates: seq<Tx>, start: nat, miner: nat, readings: Readings, a: nat, b: Block)
    requires Linked(c) && Mined(o, c, candidates, start, miner, readings, a, b)
    ensures MedianTimePast(c, c.tip).Ok?
    ensures b.header.timestamp == RefreshedTime(Max(start, MedianTimePast(c, c.tip).value + 1), readings, a / CHECK_INTERVAL)
  {
    hide Linked, Select, ExpectedDifficulty, MedianTimePast, TxCommitment, TargetValue, RefreshedTime;
  }

  lemma {:induction false} MinedIsTimely(
      o: Oracle, c: ChainState, g: History, candidates: seq<Tx>, start: nat, miner: nat, readings: Readings, a: nat, b: Block, now: nat)
    requires Inv(o, c, g) && Mined(o, c, candidates, start, miner, readings, a, b)
    requires start <= now && forall i: nat :: i < a / CHECK_INTERVAL ==> readings(i).now <= now
    requires MedianTimePast(c, c.tip).value + 1 <= now + MAX_FUTURE_DRIFT_SECS
    ensures Linked(c) && Lawful(o, c, b) && Timely(c, b) && b.header.prev == c.tip
    ensures b.header.timestamp <= now + MAX_FUTURE_DRIFT_SECS
  {
    hide Inv, Ancestors, StateAt, TreeOk, Lawful, Timely, Mined, MedianTimePast;
    MinedIsLawful(o, c, g, candidates, start, miner, readings, a, b);
    InvIsLinked(o, c, g);
    MinedTime(o, c, candidates, start, miner, readings, a, b);
    InvIsLinked(o, c, g);
    RefreshedTimeBounded(Max(start, MedianTimePast(c, c.tip).value + 1), readings, a / CHECK_INTERVAL, now + MAX_FUTURE_DRIFT_SECS);
  }

  /**
   Every block the search emits is valid on the chain its candidate was built from, and still valid after
   any further blocks, as long as the clock has not gone back since the search began and the median was
   no further ahead of it than the drift limit.
   */
  lemma {:induction false} MinedBlockIsValid(
      o: Oracle, c: ChainState, g: History, candidates: seq<Tx>, start: nat, miner: nat, readings: Readings, a: nat, b: Block,
      later: seq<Delivery>, now: nat)
    requires Inv(o, c, g) && Mined(o, c, candidates, start, miner, readings, a, b)
    requires start <= now && forall i: nat :: i < a / CHECK_INTERVAL ==> readings(i).now <= now
    requires MedianTimePast(c, c.tip).value + 1 <= now + MAX_FUTURE_DRIFT_SECS
    ensures Linked(ApplyAll(o, c, later)) && ValidateBlock(o, ApplyAll(o, c, later), b, now).Ok?
  {
    hide Inv, Path, StateAt, TreeOk, Lawful, Timely, Mined, MedianTimePast, ApplyAll, ValidateBlock;
    MinedIsTimely(o, c, g, candidates, start, miner, readings, a, b, now);
    TipState(o, c, g);
    ApplyAllKeepsView(o, c, g, later, c.tip);
    SameViewSameLaw(o, c, ApplyAll(o, c, later), b);
    SameViewSameTime(c, ApplyAll(o, c, later), b);
    LawfulAndTimelyIsValid(o, ApplyAll(o, c, later), b, now);
  }

  // ---- Pruning before the block is submitted -----------------------------------------------------

  /** Chains that differ at most in tip, index and owners give the same view of every block. */
  lemma {:induction false} SameTreeSameView(c1: ChainState, c2: ChainState, x: Hash)
    requires Linked(c1) && Linked(c2) && Ancestors(c1, x).Ok?
    requires c1.meta == c2.meta && c1.blocks == c2.blocks && c1.floor == c2.floor && c1.floorOwners == c2.floorOwners
    ensures SameView(c1, c2, x)
  {
    hide StateAt, TreeOk, LinkOk;
    SameBodiesSameState(c1, c2, x);
    SameMetaSameFacts(c1.meta, Ancestors(c1, x).value);
  }

  lemma {:induction false} WholeLinked(o: Oracle, c: ChainState, g: History, x: Hash)
    requires Inv(o, c, g) && x in c.meta
    ensures Linked(Whole(c, g)) && Ancestors(Whole(c, g), x).Ok?
  {
    hide Lawful, BodyOk, StateAt, Path, LinkOk;
    EveryBlockIsRooted(o, c, g, x);
  }

  lemma {:induction false} ApplyKeepsWholeView(o: Oracle, c: ChainState, g: History, b: Block, now: nat, x: Hash)
    requires Inv(o, c, g) && x in c.meta
    ensures var c2, g2 := TryApply(o, c, b, now).0, HistoryAfter(o, c, g, b, now);
            && x in c2.meta && g.root in c.meta && g2.root in c2.meta && Linked(Whole(c, g)) && Linked(Whole(c2, g2))
            && SameView(Whole(c, g), Whole(c2, g2), x)
  {
    hide ValidateBlock, TryApply, Lawful, AllLawful, BodyOk, Path, StateAt, LinkOk, TreeOk, Retained, TipHeaviest, IndexOk, WorkOf;
    WholeLinked(o, c, g, x);
    ApplyKeepsInv(o, c, g, b, now);
    var c2, g2 := TryApply(o, c, b, now).0, HistoryAfter(o, c, g, b, now);
    if BlockHash(o, b) !in c.meta && ValidateBlock(o, c, b, now).Ok? {
      ApplyOutcome(o, c, g, b, now);
      RecordedIsExtension(o, c, g, b);
      var w, w2 := Whole(c, g), Whole(Recorded(o, c, b), g2);
      ExtensionKeepsView(w, w2, BlockHash(o, b), x);
      SameTreeSameView(w2, Whole(c2, g2), x);
      SameViewTransitive(w, w2, Whole(c2, g2), x);
    } else {
      ApplyIsAllOrNothing(o, c, g, b, now);
      SameTreeSameView(Whole(c, g), Whole(c2, g2), x);
    }
  }

  lemma {:induction false} PruneKeepsWholeView(o: Oracle, c: ChainState, g: History, height: nat, x: Hash)
    requires Inv(o, c, g) && x in c.meta
    ensures Linked(c) && Inv(o, Prune(c, height).0, g)
    ensures var c2 := Prune(c, height).0;
            && x in c2.meta && g.root in c.meta && g.root in c2.meta && Linked(Whole(c, g)) && Linked(Whole(c2, g))
            && SameView(Whole(c, g), Whole(c2, g), x)
  {
    hide Lawful, AllLawful, BodyOk, Path, StateAt, LinkOk, TreeOk, Retained, TipHeaviest, IndexOk, BodiesAbove;
    WholeLinked(o, c, g, x);
    PruneKeepsInv(o, c, g, height);
    assert Prune(c, height).0.meta == c.meta;
    SameTreeSameView(Whole(c, g), Whole(Prune(c, height).0, g), x);
  }

  /** Through any run of applying and pruning, the complete ancestry of a known block stays what it was. */
  lemma {:induction false} RunKeepsWholeView(o: Oracle, c: ChainState, g: History, ops: seq<Op>, c2: ChainState, g2: History, x: Hash)
    requires Inv(o, c, g) && Leads(o, c, g, ops, c2, g2) && x in c.meta
    ensures Inv(o, c2, g2) && x in c2.meta && g.root in c.meta && g2.root in c2.meta
    ensures Linked(Whole(c, g)) && Linked(Whole(c2, g2)) && SameView(Whole(c, g), Whole(c2, g2), x)
    decreases |ops|
  {
    hide Inv, TryApply, Prune, HistoryAfter, SameView, TreeOk;
    WholeLinked(o, c, g, x);
    RootKnown(o, c, g);
    if |ops| == 0 {
      SameTreeSameView(Whole(c, g), Whole(c2, g2), x);
    } else {
      var c1, g1 := Do(o, c, ops[0]), DoHistory(o, c, g, ops[0]);
      match ops[0] {
        case Apply(b, now) =>
          ApplyKeepsWholeView(o, c, g, b, now, x);
          ApplyKeepsInv(o, c, g, b, now);
        case PruneTo(height) =>
          PruneKeepsWholeView(o, c, g, height, x);
      }
      RunKeepsWholeView(o, c1, g1, ops[1..], c2, g2, x);
      SameViewTransitive(Whole(c, g), Whole(c1, g1), Whole(c2, g2), x);
    }
  }

  lemma RootKnown(o: Oracle, c: ChainState, g: History)
    requires Inv(o, c, g)
    ensures g.root in c.meta && Linked(c)
  {
  }

  /**
   The same through any run of applying, reorganising and pruning: the block is still valid exactly if its
   parent still descends from the floor, its retarget interval and its anchors are still visible, and it
   is later than the median of the blocks still visible.
   */
  lemma {:induction false} MinedBlockValidExactly(
      o: Oracle, c: ChainState, g: History, candidates: seq<Tx>, start: nat, miner: nat, readings: Readings, a: nat, b: Block,
      ops: seq<Op>, c2: ChainState, g2: History, now: nat)
    requires Inv(o, c, g) && Mined(o, c, candidates, start, miner, readings, a, b) && Leads(o, c, g, ops, c2, g2)
    requires start <= now && forall i: nat :: i < a / CHECK_INTERVAL ==> readings(i).now <= now
    requires MedianTimePast(c, c.tip).value + 1 <= now + MAX_FUTURE_DRIFT_SECS
    ensures Linked(c2)
    ensures ValidateBlock(o, c2, b, now).Ok? <==>
              && Ancestors(c2, c.tip).Ok?
              && IntervalSeen(b.header.height, c2.floorHeight)
              && LaterThan(b.header.timestamp, c2.meta, Ancestors(c2, c.tip).value)
              && AnchorsIn(b.txs, Ancestors(c2, c.tip).value)
  {
    hide Inv, Path, StateAt, TreeOk, Lawful, Timely, Mined, ExpectedDifficulty, ValidateBlock, Leads, CutView, SameView, LaterThan, AnchorsIn, IntervalSeen;
    MinedIsTimely(o, c, g, candidates, start, miner, readings, a, b, now);
    InvIsLinked(o, c, g);
    LawfulAndTimelyIsValid(o, c, b, now);
    AcceptedIsLawful(o, c, g, b, now);
    RunKeepsWholeView(o, c, g, ops, c2, g2, c.tip);
    SameViewSameLaw(o, Whole(c, g), Whole(c2, g2), b);
    InvIsLinked(o, c2, g2);
    if Ancestors(c2, c.tip).Ok? {
      SeesCut(o, c2, g2, c.tip);
      CutVerdictExactly(o, Whole(c2, g2), c2, b, now);
    } else if ValidateBlock(o, c2, b, now).Ok? {
      AcceptedIsLawful(o, c2, g2, b, now);
    }
  }

  lemma {:induction false} SeesCut(o: Oracle, c: ChainState, g: History, x: Hash)
    requires Inv(o, c, g) && Linked(c) && Ancestors(c, x).Ok?
    ensures g.root in c.meta && Linked(Whole(c, g)) && CutView(Whole(c, g), c, x)
  {
    hide Lawful, BodyOk, StateAt, Path, LinkOk, CutView;
    ChainSeesCut(o, c, g, x);
  }

  /** The header a search starts from: the tip's child, now or just after the median, with this miner and nonce zero. */
  lemma {:induction false} CandidateFields(o: Oracle, c: ChainState, selected: seq<Tx>, now: nat, miner: nat)
    requires Linked(c) && CandidateHeader(o, c, selected, now, miner).Some?
    ensures var h := CandidateHeader(o, c, selected, now, miner).value;
            && h.version == 1 && h.height == c.meta[c.tip].height + 1 && h.prev == c.tip && h.miner == miner && h.nonce == 0
            && h.txCommitment == TxCommitment(o, selected) && ExpectedDifficulty(c, c.tip) == Ok(h.bits)
            && MedianTimePast(c, c.tip).Ok? && h.timestamp >= now && h.timestamp > MedianTimePast(c, c.tip).value
            && (h.timestamp == now || h.timestamp == MedianTimePast(c, c.tip).value + 1)
  {
    hide Linked, TxCommitment, ExpectedDifficulty, MedianTimePast;
  }

  /** A candidate can be assembled exactly when the retarget interval the tip's child may need is visible. */
  lemma {:induction false} CandidateExactly(o: Oracle, c: ChainState, g: History, selected: seq<Tx>, now: nat, miner: nat)
    requires Inv(o, c, g)
    ensures Linked(c) && c.tip in c.meta
    ensures CandidateHeader(o, c, selected, now, miner).Some? <==> IntervalSeen(c.meta[c.tip].height + 1, c.floorHeight)
  {
    hide Inv, Path, StateAt, TreeOk, TxCommitment, Retarget, Median, Timestamps;
    InvIsLinked(o, c, g);
  }
}
