/**
 A block's hash fixes the multiset of its claims, through the sorted ids it commits to, but not their
 order. Nothing the ledger derives from a block depends on that order.
 */
module SameClaims {
  import opened Prelude
  import opened Difficulty
  import opened Sorting
  import opened LedgerTypes
  import opened ChainRules
  import opened ChainViews
  import opened ChainInvariant

  function ClaimsOf(txs: seq<Tx>): (claims: seq<Claim>)
    ensures |claims| == |txs| && forall i :: 0 <= i < |txs| ==> claims[i] == txs[i].claim
  {
    if |txs| == 0 then [] else [txs[0].claim] + ClaimsOf(txs[1..])
  }

  ghost predicate SameBody(t1: seq<Tx>, t2: seq<Tx>) { multiset(ClaimsOf(t1)) == multiset(ClaimsOf(t2)) }

  /** Occurrences of a claim and of its id are counted alike. */
  lemma {:induction false} CountById(o: Oracle, txs: seq<Tx>, claim: Claim)
    requires Injective(o)
    ensures multiset(ClaimsOf(txs))[claim] == multiset(Ids(o, txs))[o.claimHash(claim)]
  {
    if |txs| > 0 {
      CountById(o, txs[1..], claim);
      assert ClaimsOf(txs) == [txs[0].claim] + ClaimsOf(txs[1..]);
      assert Ids(o, txs) == [TxId(o, txs[0])] + Ids(o, txs[1..]);
    }
  }

  lemma {:induction false} SameIdsSameClaims(o: Oracle, t1: seq<Tx>, t2: seq<Tx>)
    requires Injective(o) && multiset(Ids(o, t1)) == multiset(Ids(o, t2))
    ensures SameBody(t1, t2)
  {
    forall c: Claim ensures multiset(ClaimsOf(t1))[c] == multiset(ClaimsOf(t2))[c] {
      CountById(o, t1, c);
      CountById(o, t2, c);
    }
  }

  lemma {:induction false} SameCountOfId(o: Oracle, t1: seq<Tx>, t2: seq<Tx>, id: Hash)
    requires Injective(o) && SameBody(t1, t2) && id in Ids(o, t1)
    ensures multiset(Ids(o, t1))[id] == multiset(Ids(o, t2))[id]
  {
    var i :| 0 <= i < |t1| && Ids(o, t1)[i] == id;
    CountById(o, t1, t1[i].claim);
    CountById(o, t2, t1[i].claim);
  }

  lemma {:induction false} SameClaimsSameIds(o: Oracle, t1: seq<Tx>, t2: seq<Tx>)
    requires Injective(o) && SameBody(t1, t2)
    ensures multiset(Ids(o, t1)) == multiset(Ids(o, t2))
  {
    hide Ids, ClaimsOf;
    forall id: Hash ensures multiset(Ids(o, t1))[id] == multiset(Ids(o, t2))[id] {
      if id in Ids(o, t1) {
        SameCountOfId(o, t1, t2, id);
      } else if id in Ids(o, t2) {
        SameCountOfId(o, t2, t1, id);
      }
    }
  }

  /** Two bodies have the same commitment exactly when they hold the same claims, with multiplicity. */
  lemma {:induction false} CommitmentFixesClaims(o: Oracle, t1: seq<Tx>, t2: seq<Tx>)
    requires Injective(o)
    ensures TxCommitment(o, t1) == TxCommitment(o, t2) <==> SameBody(t1, t2)
  {
    SortIsCanonical(Ids(o, t1), Ids(o, t2));
    if multiset(Ids(o, t1)) == multiset(Ids(o, t2)) {
      SameIdsSameClaims(o, t1, t2);
    }
    if SameBody(t1, t2) {
      SameClaimsSameIds(o, t1, t2);
    }
  }

  function Without(txs: seq<Tx>, j: nat): seq<Tx>
    requires j < |txs|
  {
    txs[..j] + txs[j + 1..]
  }

  lemma {:induction false} MultisetWithout(s: seq<Claim>, j: nat)
    requires j < |s|
    ensures multiset(s) == multiset(s[..j] + s[j + 1..]) + multiset{s[j]}
  {
    assert s == (s[..j] + [s[j]]) + s[j + 1..];
  }

  lemma {:induction false} ClaimsWithout(txs: seq<Tx>, j: nat)
    requires j < |txs|
    ensures multiset(ClaimsOf(txs)) == multiset(ClaimsOf(Without(txs, j))) + multiset{txs[j].claim}
  {
    hide ClaimsOf;
    var claims := ClaimsOf(txs);
    MultisetWithout(claims, j);
    assert ClaimsOf(Without(txs, j)) == claims[..j] + claims[j + 1..];
  }

  lemma {:induction false} SizeWithout(txs: seq<Tx>, j: nat)
    requires j < |txs|
    ensures TxsSize(txs) == TxSize(txs[j]) + TxsSize(Without(txs, j))
  {
    if j > 0 {
      SizeWithout(txs[1..], j - 1);
      assert Without(txs, j)[1..] == Without(txs[1..], j - 1);
    } else {
      assert Without(txs, 0) == txs[1..];
    }
  }

  /** Position of a claim of one body in the other. */
  lemma {:induction false} Twin(t1: seq<Tx>, t2: seq<Tx>, i: nat) returns (j: nat)
    requires SameBody(t1, t2) && i < |t1|
    ensures j < |t2| && t2[j].claim == t1[i].claim
  {
    assert ClaimsOf(t1)[i] in multiset(ClaimsOf(t2));
    assert t1[i].claim in ClaimsOf(t2);
    j :| 0 <= j < |t2| && ClaimsOf(t2)[j] == t1[i].claim;
  }

  lemma {:induction false} SameWithout(t1: seq<Tx>, t2: seq<Tx>, i: nat, j: nat)
    requires SameBody(t1, t2) && i < |t1| && j < |t2| && t1[i].claim == t2[j].claim
    ensures SameBody(Without(t1, i), Without(t2, j))
  {
    hide ClaimsOf, Without;
    ClaimsWithout(t1, i);
    ClaimsWithout(t2, j);
    var c := multiset{t1[i].claim};
    assert multiset(ClaimsOf(Without(t1, i))) == multiset(ClaimsOf(t1)) - c;
    assert multiset(ClaimsOf(Without(t2, j))) == multiset(ClaimsOf(t2)) - c;
  }

  lemma {:induction false} SameSize(t1: seq<Tx>, t2: seq<Tx>)
    requires SameBody(t1, t2)
    ensures TxsSize(t1) == TxsSize(t2) && |t1| == |t2|
    decreases |t1|
  {
    hide ClaimsOf;
    assert |t1| == |multiset(ClaimsOf(t1))| == |multiset(ClaimsOf(t2))| == |t2|;
    if |t1| > 0 {
      var j := Twin(t1, t2, 0);
      SameWithout(t1, t2, 0, j);
      SameSize(Without(t1, 0), Without(t2, j));
      SizeWithout(t1, 0);
      SizeWithout(t2, j);
    }
  }

  /** With no name repeated, no claim is repeated, in either order. */
  lemma {:induction false} SameDistinct(t1: seq<Tx>, t2: seq<Tx>)
    requires SameBody(t1, t2) && DistinctNames(t1)
    ensures DistinctNames(t2)
  {
    forall i, j | 0 <= i < j < |t2| ensures t2[i].claim.username != t2[j].claim.username {
      var i1 := Twin(t2, t1, i);
      var j1 := Twin(t2, t1, j);
      if i1 == j1 {
        RepeatedClaim(t2, i, j);
        SingleClaim(t1, i1);
      }
    }
  }

  lemma {:induction false} RepeatedClaim(txs: seq<Tx>, i: nat, j: nat)
    requires i < j < |txs| && txs[i].claim == txs[j].claim
    ensures multiset(ClaimsOf(txs))[txs[i].claim] >= 2
  {
    ClaimsWithout(txs, j);
    assert Without(txs, j)[i] == txs[i];
    assert ClaimsOf(Without(txs, j))[i] in multiset(ClaimsOf(Without(txs, j)));
  }

  lemma {:induction false} OthersDiffer(txs: seq<Tx>, i: nat, k: nat)
    requires i < |txs| && DistinctNames(txs) && k < |Without(txs, i)|
    ensures Without(txs, i)[k].claim != txs[i].claim
  {
    var j := if k < i then k else k + 1;
    assert Without(txs, i)[k] == txs[j] && txs[j].claim.username != txs[i].claim.username;
  }

  lemma {:induction false} SingleClaim(txs: seq<Tx>, i: nat)
    requires i < |txs| && DistinctNames(txs)
    ensures multiset(ClaimsOf(txs))[txs[i].claim] == 1
  {
    hide ClaimsOf, Without, DistinctNames;
    ClaimsWithout(txs, i);
    var rest := ClaimsOf(Without(txs, i));
    forall k | 0 <= k < |rest| ensures rest[k] != txs[i].claim {
      OthersDiffer(txs, i, k);
    }
    assert txs[i].claim !in rest;
    assert multiset(rest)[txs[i].claim] == 0;
  }

  /** A body's claims pass whatever their order. */
  lemma {:induction false} SameChecks(o: Oracle, meta: MetaMap, height: nat, path: seq<Hash>, owners: Owners, t1: seq<Tx>, t2: seq<Tx>)
    requires SameBody(t1, t2) && CheckTxs(o, meta, height, path, owners, {}, t1).Ok?
    ensures CheckTxs(o, meta, height, path, owners, {}, t2).Ok?
  {
    ChecksPassExactly(o, meta, height, path, owners, {}, t1);
    ChecksPassExactly(o, meta, height, path, owners, {}, t2);
    SameDistinct(t1, t2);
    forall i | 0 <= i < |t2| ensures TxLawful(o, meta, height, path, owners, t2[i]) {
      var j := Twin(t2, t1, i);
      assert TxLawful(o, meta, height, path, owners, t1[j]);
    }
  }

  lemma {:induction false} ClaimedName(owners: Owners, txs: seq<Tx>, height: nat, hash: Hash, i: nat)
    requires DistinctNames(txs) && i < |txs|
    ensures var u := txs[i].claim.username;
            u in ApplyClaims(owners, txs, height, hash)
            && ApplyClaims(owners, txs, height, hash)[u] == Owner(txs[i].claim.owner, height, hash)
    decreases |txs|
  {
    if i < |txs| - 1 {
      ClaimedName(owners, txs[..|txs| - 1], height, hash, i);
    }
  }

  lemma {:induction false} UnclaimedName(owners: Owners, txs: seq<Tx>, height: nat, hash: Hash, u: Username)
    requires forall i :: 0 <= i < |txs| ==> txs[i].claim.username != u
    ensures u in ApplyClaims(owners, txs, height, hash) <==> u in owners
    ensures u in owners ==> ApplyClaims(owners, txs, height, hash)[u] == owners[u]
    decreases |txs|
  {
    if |txs| > 0 {
      UnclaimedName(owners, txs[..|txs| - 1], height, hash, u);
    }
  }

  lemma {:induction false} SameLookup(owners: Owners, t1: seq<Tx>, t2: seq<Tx>, height: nat, hash: Hash, u: Username)
    requires SameBody(t1, t2) && DistinctNames(t1)
    ensures var a1, a2 := ApplyClaims(owners, t1, height, hash), ApplyClaims(owners, t2, height, hash);
            (u in a1 <==> u in a2) && (u in a1 ==> a1[u] == a2[u])
  {
    SameDistinct(t1, t2);
    if i :| 0 <= i < |t1| && t1[i].claim.username == u {
      ClaimedName(owners, t1, height, hash, i);
      var j := Twin(t1, t2, i);
      ClaimedName(owners, t2, height, hash, j);
    } else {
      forall j | 0 <= j < |t2| ensures t2[j].claim.username != u {
        var i := Twin(t2, t1, j);
      }
      UnclaimedName(owners, t1, height, hash, u);
      UnclaimedName(owners, t2, height, hash, u);
    }
  }

  /** The owner map after a body does not depend on the order of its claims. */
  lemma {:induction false} SameOwners(owners: Owners, t1: seq<Tx>, t2: seq<Tx>, height: nat, hash: Hash)
    requires SameBody(t1, t2) && DistinctNames(t1)
    ensures ApplyClaims(owners, t1, height, hash) == ApplyClaims(owners, t2, height, hash)
  {
    var a1, a2 := ApplyClaims(owners, t1, height, hash), ApplyClaims(owners, t2, height, hash);
    forall u: Username ensures (u in a1 <==> u in a2) && (u in a1 ==> a1[u] == a2[u]) {
      SameLookup(owners, t1, t2, height, hash, u);
    }
  }
}
