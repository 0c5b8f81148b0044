/**
 The bytes that ledger hashes are taken of. Equal bytes mean equal headers; for claims they mean equal
 everything but the version, which the bytes do not carry.
 */
module LedgerBytes {
  import opened Prelude
  import opened BigEndian
  import opened LedgerTypes

  /** The low `n` bytes of an integer, least significant first. */
  function LittleEndian(v: nat, n: nat): (s: Bytes)
    ensures |s| == n
  {
    if n == 0 then [] else [v % 256] + LittleEndian(v / 256, n - 1)
  }

  lemma {:induction false} LittleEndianInjective(u: nat, v: nat, n: nat)
    requires u < Pow256(n) && v < Pow256(n) && LittleEndian(u, n) == LittleEndian(v, n)
    ensures u == v
  {
    if n > 0 {
      var a, b := LittleEndian(u, n), LittleEndian(v, n);
      assert a[0] == u % 256 && b[0] == v % 256;
      assert a[1..] == LittleEndian(u / 256, n - 1) && b[1..] == LittleEndian(v / 256, n - 1);
      LittleEndianInjective(u / 256, v / 256, n - 1);
    }
  }

  /** The integer fields fit the widths the program stores them in. */
  predicate HeaderSized(h: Header) {
    && h.version < Pow256(1) && h.height < Pow256(8) && h.prev < Pow256(32) && h.timestamp < Pow256(8)
    && h.txCommitment < Pow256(32) && h.bits < Pow256(4) && h.nonce < Pow256(8) && h.miner < Pow256(32)
  }

  /** The fields in order, each of fixed width; hashes and keys are written as they stand. */
  function HeaderBytes(h: Header): (s: Bytes)
    ensures |s| == HEADER_LEN
  {
    LittleEndian(h.version, 1) + (LittleEndian(h.height, 8) + (ToBytes(h.prev, 32) + (LittleEndian(h.timestamp, 8)
    + (ToBytes(h.txCommitment, 32) + (LittleEndian(h.bits, 4) + (LittleEndian(h.nonce, 8) + ToBytes(h.miner, 32)))))))
  }

  lemma SplitConcat(a: Bytes, x: Bytes, b: Bytes, y: Bytes)
    requires |a| == |b| && a + x == b + y
    ensures a == b && x == y
  {
    assert (a + x)[..|a|] == a && (b + y)[..|b|] == b;
    assert (a + x)[|a|..] == x && (b + y)[|b|..] == y;
  }

  lemma {:induction false} BigEndianInjective(u: nat, v: nat, n: nat)
    requires u < Pow256(n) && v < Pow256(n) && ToBytes(u, n) == ToBytes(v, n)
    ensures u == v
  {
    ValueOfToBytes(u, n);
    ValueOfToBytes(v, n);
  }

  /** Two headers have the same bytes exactly if they are the same. */
  lemma {:induction false} HeaderBytesExact(h: Header, k: Header)
    requires HeaderSized(h) && HeaderSized(k)
    ensures HeaderBytes(h) == HeaderBytes(k) <==> h == k
  {
    hide LittleEndian, ToBytes, Pow256;
    if HeaderBytes(h) == HeaderBytes(k) {
      var h7, k7 := ToBytes(h.miner, 32), ToBytes(k.miner, 32);
      var h6, k6 := LittleEndian(h.nonce, 8) + h7, LittleEndian(k.nonce, 8) + k7;
      var h5, k5 := LittleEndian(h.bits, 4) + h6, LittleEndian(k.bits, 4) + k6;
      var h4, k4 := ToBytes(h.txCommitment, 32) + h5, ToBytes(k.txCommitment, 32) + k5;
      var h3, k3 := LittleEndian(h.timestamp, 8) + h4, LittleEndian(k.timestamp, 8) + k4;
      var h2, k2 := ToBytes(h.prev, 32) + h3, ToBytes(k.prev, 32) + k3;
      var h1, k1 := LittleEndian(h.height, 8) + h2, LittleEndian(k.height, 8) + k2;
      SplitConcat(LittleEndian(h.version, 1), h1, LittleEndian(k.version, 1), k1);
      SplitConcat(LittleEndian(h.height, 8), h2, LittleEndian(k.height, 8), k2);
      SplitConcat(ToBytes(h.prev, 32), h3, ToBytes(k.prev, 32), k3);
      SplitConcat(LittleEndian(h.timestamp, 8), h4, LittleEndian(k.timestamp, 8), k4);
      SplitConcat(ToBytes(h.txCommitment, 32), h5, ToBytes(k.txCommitment, 32), k5);
      SplitConcat(LittleEndian(h.bits, 4), h6, LittleEndian(k.bits, 4), k6);
      SplitConcat(LittleEndian(h.nonce, 8), h7, LittleEndian(k.nonce, 8), k7);
      LittleEndianInjective(h.version, k.version, 1);
      LittleEndianInjective(h.height, k.height, 8);
      BigEndianInjective(h.prev, k.prev, 32);
      LittleEndianInjective(h.timestamp, k.timestamp, 8);
      BigEndianInjective(h.txCommitment, k.txCommitment, 32);
      LittleEndianInjective(h.bits, k.bits, 4);
      LittleEndianInjective(h.nonce, k.nonce, 8);
      BigEndianInjective(h.miner, k.miner, 32);
    }
  }

  // ---- Claims ------------------------------------------------------------------------------------

  /** The domain tag every claim's bytes begin with. */
  const CLAIM_DOMAIN_TAG: Bytes := [
    's' as int, 'p' as int, 'i' as int, 'r' as int, 'i' as int, 't' as int, 'c' as int, 'h' as int, 'a' as int, 't' as int,
    '-' as int, 'l' as int, 'e' as int, 'd' as int, 'g' as int, 'e' as int, 'r' as int, '-' as int,
    'c' as int, 'l' as int, 'a' as int, 'i' as int, 'm' as int, '-' as int, 'v' as int, '1' as int]

  predicate ClaimSized(c: Claim) {
    && |c.username| < Pow256(2) && c.owner < Pow256(32) && c.heightHint < Pow256(8)
    && c.anchor < Pow256(32) && c.nonce < Pow256(8)
  }

  function ClaimTail(c: Claim): Bytes {
    ToBytes(c.owner, 32) + (LittleEndian(c.heightHint, 8) + (ToBytes(c.anchor, 32) + (ToBytes(c.nonce, 8) + c.signature)))
  }

  /** What a transaction's id is the hash of: the name with a 16-bit length, fixed fields, the signature; no version. */
  function CanonicalBytes(tx: Tx): Bytes {
    CLAIM_DOMAIN_TAG + (LittleEndian(|tx.claim.username| % Pow256(2), 2) + (tx.claim.username + ClaimTail(tx.claim)))
  }

  lemma {:induction false} ClaimTailExact(c: Claim, d: Claim)
    requires ClaimSized(c) && ClaimSized(d) && ClaimTail(c) == ClaimTail(d)
    ensures c.owner == d.owner && c.heightHint == d.heightHint && c.anchor == d.anchor && c.nonce == d.nonce && c.signature == d.signature
  {
    hide LittleEndian, ToBytes, Pow256;
    var c3, d3 := ToBytes(c.nonce, 8) + c.signature, ToBytes(d.nonce, 8) + d.signature;
    var c2, d2 := ToBytes(c.anchor, 32) + c3, ToBytes(d.anchor, 32) + d3;
    var c1, d1 := LittleEndian(c.heightHint, 8) + c2, LittleEndian(d.heightHint, 8) + d2;
    SplitConcat(ToBytes(c.owner, 32), c1, ToBytes(d.owner, 32), d1);
    SplitConcat(LittleEndian(c.heightHint, 8), c2, LittleEndian(d.heightHint, 8), d2);
    SplitConcat(ToBytes(c.anchor, 32), c3, ToBytes(d.anchor, 32), d3);
    SplitConcat(ToBytes(c.nonce, 8), c.signature, ToBytes(d.nonce, 8), d.signature);
    BigEndianInjective(c.owner, d.owner, 32);
    LittleEndianInjective(c.heightHint, d.heightHint, 8);
    BigEndianInjective(c.anchor, d.anchor, 32);
    BigEndianInjective(c.nonce, d.nonce, 8);
  }

  /** Two transactions have the same bytes, hence the same id, exactly if they agree on every field but the version. */
  lemma {:induction false} CanonicalBytesExact(t: Tx, u: Tx)
    requires ClaimSized(t.claim) && ClaimSized(u.claim)
    ensures CanonicalBytes(t) == CanonicalBytes(u) <==> t.claim == u.claim
  {
    hide LittleEndian, Pow256, ClaimTail;
    if CanonicalBytes(t) == CanonicalBytes(u) {
      var c, d := t.claim, u.claim;
      var c2, d2 := c.username + ClaimTail(c), d.username + ClaimTail(d);
      var c1, d1 := LittleEndian(|c.username| % Pow256(2), 2) + c2, LittleEndian(|d.username| % Pow256(2), 2) + d2;
      SplitConcat(CLAIM_DOMAIN_TAG, c1, CLAIM_DOMAIN_TAG, d1);
      SplitConcat(LittleEndian(|c.username| % Pow256(2), 2), c2, LittleEndian(|d.username| % Pow256(2), 2), d2);
      SameLength(c, d);
      SplitConcat(c.username, ClaimTail(c), d.username, ClaimTail(d));
      ClaimTailExact(c, d);
    }
  }

  lemma {:induction false} SameLength(c: Claim, d: Claim)
    requires ClaimSized(c) && ClaimSized(d)
    requires LittleEndian(|c.username| % Pow256(2), 2) == LittleEndian(|d.username| % Pow256(2), 2)
    ensures |c.username| == |d.username|
  {
    hide LittleEndian, Pow256;
    SmallMod(|c.username|, Pow256(2));
    SmallMod(|d.username|, Pow256(2));
    LittleEndianInjective(|c.username|, |d.username|, 2);
  }

  lemma SmallMod(x: nat, m: nat)
    requires x < m
    ensures x % m == x
  {
  }

  /** The bytes of a transaction are as many as its size counts. */
  lemma {:induction false} CanonicalLength(tx: Tx)
    ensures |CanonicalBytes(tx)| == TxSize(tx)
  {
  }

  // ---- Where each field lies ---------------------------------------------------------------------

  /** The integer a byte string denotes, least significant byte first. */
  function LittleValue(s: Bytes): nat { if |s| == 0 then 0 else s[0] + 256 * LittleValue(s[1..]) }

  lemma {:induction false} LittleValueOf(v: nat, n: nat)
    requires v < Pow256(n)
    ensures LittleValue(LittleEndian(v, n)) == v
  {
    if n > 0 {
      LittleValueOf(v / 256, n - 1);
      assert LittleEndian(v, n)[1..] == LittleEndian(v / 256, n - 1);
    }
  }

  /** The 125 bytes of a header, field by field: counters little-endian, hashes and the key as they stand. */
  lemma {:induction false} HeaderLayout(h: Header)
    requires HeaderSized(h)
    ensures var s := HeaderBytes(h);
            && |s| == 125 && s[0] == h.version
            && LittleValue(s[1..9]) == h.height && Value(s[9..41]) == h.prev && LittleValue(s[41..49]) == h.timestamp
            && Value(s[49..81]) == h.txCommitment && LittleValue(s[81..85]) == h.bits && LittleValue(s[85..93]) == h.nonce
            && Value(s[93..125]) == h.miner
  {
    hide LittleEndian, ToBytes, Pow256, LittleValue, Value;
    var s := HeaderBytes(h);
    assert s[0] == h.version by { FirstByte(h); }
    assert s[1..9] == LittleEndian(h.height, 8) && s[9..41] == ToBytes(h.prev, 32) && s[41..49] == LittleEndian(h.timestamp, 8);
    assert s[49..81] == ToBytes(h.txCommitment, 32) && s[81..85] == LittleEndian(h.bits, 4);
    assert s[85..93] == LittleEndian(h.nonce, 8) && s[93..125] == ToBytes(h.miner, 32);
    LittleValueOf(h.height, 8);
    ValueOfToBytes(h.prev, 32);
    LittleValueOf(h.timestamp, 8);
    ValueOfToBytes(h.txCommitment, 32);
    LittleValueOf(h.bits, 4);
    LittleValueOf(h.nonce, 8);
    ValueOfToBytes(h.miner, 32);
  }

  lemma FirstByte(h: Header)
    requires HeaderSized(h)
    ensures HeaderBytes(h)[0] == h.version
  {
    assert LittleEndian(h.version, 1) == [h.version % 256] + LittleEndian(h.version / 256, 0);
  }

  /** The bytes of a claim, field by field, after the domain tag; the version is nowhere. */
  lemma {:induction false} ClaimLayout(tx: Tx)
    requires ClaimSized(tx.claim)
    ensures var s, c, n := CanonicalBytes(tx), tx.claim, |tx.claim.username|;
            && |s| == 108 + n + |c.signature| && s[..26] == CLAIM_DOMAIN_TAG
            && LittleValue(s[26..28]) == n && s[28..28 + n] == c.username
            && Value(s[28 + n..60 + n]) == c.owner && LittleValue(s[60 + n..68 + n]) == c.heightHint
            && Value(s[68 + n..100 + n]) == c.anchor && Value(s[100 + n..108 + n]) == c.nonce && s[108 + n..] == c.signature
  {
    hide LittleEndian, ToBytes, Pow256, LittleValue, Value;
    var s, c, n := CanonicalBytes(tx), tx.claim, |tx.claim.username|;
    SmallMod(n, Pow256(2));
    assert s[26..28] == LittleEndian(n, 2) && s[28..28 + n] == c.username;
    assert s[28 + n..] == ClaimTail(c);
    assert s[28 + n..60 + n] == ToBytes(c.owner, 32) && s[60 + n..68 + n] == LittleEndian(c.heightHint, 8);
    assert s[68 + n..100 + n] == ToBytes(c.anchor, 32) && s[100 + n..108 + n] == ToBytes(c.nonce, 8);
    LittleValueOf(n, 2);
    ValueOfToBytes(c.owner, 32);
    LittleValueOf(c.heightHint, 8);
    ValueOfToBytes(c.anchor, 32);
    ValueOfToBytes(c.nonce, 8);
  }
}
