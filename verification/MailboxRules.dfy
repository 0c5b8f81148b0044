/**
 The mailbox cache as a value. Its table of deposits iterates in byte order of 40-byte keys: eight
 big-endian bytes of the deposit time, then a 32-byte digest.
 */
module MailboxRules {
  import opened Prelude
  import opened BigEndian

  const RETENTION_SECS: nat := 14 * 24 * 60 * 60
  const TIME_LEN: nat := 8
  const DIGEST_LEN: nat := 32
  const DEPOSIT_KEY_LEN: nat := TIME_LEN + DIGEST_LEN
  const TAG_LEN: nat := 32
  type Time = t: nat | t < U64

  type Tag = t: Bytes | |t| == TAG_LEN witness seq(TAG_LEN, _ => 0)

  datatype Deposit = Deposit(tag: Tag, envelope: Bytes, depositedAt: Time, nonce: Time)

  /** The digest of a deposit's proof-of-work preimage, which covers all of it. */
  type Digest = f: Deposit -> Bytes | forall x: Deposit :: |f(x)| == DIGEST_LEN
    witness (_: Deposit) => seq(DIGEST_LEN, _ => 0)

  datatype Stored = Stored(tag: Bytes, envelope: Bytes)

  datatype Entry = Entry(key: Bytes, stored: Stored)

  /** The deposits in key order, the index from tags to keys, and the running byte counter. */
  datatype Cache = Cache(deposits: seq<Entry>, byTag: set<(Bytes, Bytes)>, total: nat, limit: nat)

  function DepositKey(digest: Digest, x: Deposit): (key: Bytes)
    ensures |key| == DEPOSIT_KEY_LEN
  {
    ToBytes(x.depositedAt, TIME_LEN) + digest(x)
  }

  /** No two different ones of these deposits share a key: all a cache that is offered them needs of the hash. */
  ghost predicate NoCollision(digest: Digest, offered: set<Deposit>) {
    forall x, y :: x in offered && y in offered && DepositKey(digest, x) == DepositKey(digest, y) ==> x == y
  }

  /** The serialized length: the tag, an eight-byte length, the envelope. */
  function StoredLen(s: Stored): nat { TAG_LEN + 8 + |s.envelope| }

  function StoredBytes(s: seq<Entry>): nat {
    if |s| == 0 then 0 else StoredLen(s[0].stored) + StoredBytes(s[1..])
  }

  /** Table insertion: in key order, replacing an entry with the same key. */
  function Insert(s: seq<Entry>, e: Entry): seq<Entry>
    requires |e.key| == DEPOSIT_KEY_LEN && forall i :: 0 <= i < |s| ==> |s[i].key| == DEPOSIT_KEY_LEN
  {
    if |s| == 0 then [e]
    else if s[0].key == e.key then [e] + s[1..]
    else if LexLess(e.key, s[0].key) then [e] + s
    else [s[0]] + Insert(s[1..], e)
  }

  ghost predicate Keyed(s: seq<Entry>) { forall i :: 0 <= i < |s| ==> |s[i].key| == DEPOSIT_KEY_LEN }

  ghost predicate Ordered(s: seq<Entry>)
    requires Keyed(s)
  {
    forall i, j :: 0 <= i < j < |s| ==> LexLess(s[i].key, s[j].key)
  }

  function KeyTime(key: Bytes): nat
    requires |key| == DEPOSIT_KEY_LEN
  {
    Value(key[..TIME_LEN])
  }

  /** Drops the entry at a position, its index pair, and its envelope's length from the counter. */
  function RemoveAt(c: Cache, i: nat): Cache
    requires i < |c.deposits|
  {
    var e := c.deposits[i];
    Cache(c.deposits[..i] + c.deposits[i + 1..], c.byTag - {(e.stored.tag, e.key)}, SatSub(c.total, |e.stored.envelope|), c.limit)
  }

  function EvictOldest(c: Cache): (Cache, bool) {
    if |c.deposits| == 0 then (c, false) else (RemoveAt(c, 0), true)
  }

  function EvictUntilRoomFor(c: Cache, additional: nat): Cache
    decreases |c.deposits|
  {
    if c.total + additional <= c.limit then c
    else
      var (c2, evicted) := EvictOldest(c);
      if evicted then EvictUntilRoomFor(c2, additional) else c2
  }

  /** Stores a deposit, evicting the oldest until it fits or nothing is left. */
  function Accept(digest: Digest, c: Cache, x: Deposit): Cache
    requires Keyed(c.deposits)
  {
    var key, stored := DepositKey(digest, x), Stored(x.tag, x.envelope);
    var roomy := EvictUntilRoomFor(c, StoredLen(stored));
    EvictionKeepsKeys(c, StoredLen(stored));
    Cache(Insert(roomy.deposits, Entry(key, stored)), roomy.byTag + {(x.tag, key)}, roomy.total + StoredLen(stored), roomy.limit)
  }

  lemma {:induction false} EvictionKeepsKeys(c: Cache, additional: nat)
    requires Keyed(c.deposits)
    ensures Keyed(EvictUntilRoomFor(c, additional).deposits)
    decreases |c.deposits|
  {
    if c.total + additional > c.limit && |c.deposits| > 0 {
      EvictionKeepsKeys(RemoveAt(c, 0), additional);
    }
  }

  /** Where a key sits in the table, or its length if nowhere. */
  function Position(s: seq<Entry>, key: Bytes): (i: nat)
    ensures i <= |s| && (i < |s| ==> s[i].key == key) && forall j :: 0 <= j < i ==> s[j].key != key
  {
    if |s| == 0 || s[0].key == key then 0 else 1 + Position(s[1..], key)
  }

  function Remove(c: Cache, key: Bytes): Cache {
    var i := Position(c.deposits, key);
    if i == |c.deposits| then c else RemoveAt(c, i)
  }

  predicate Expired(key: Bytes, now: nat)
    requires |key| == DEPOSIT_KEY_LEN
  {
    SatSub(now, KeyTime(key)) > RETENTION_SECS
  }

  /** Evicts from the front until the first deposit young enough. */
  function EvictExpired(c: Cache, now: nat): Cache
    requires Keyed(c.deposits)
    decreases |c.deposits|
  {
    if |c.deposits| == 0 || !Expired(c.deposits[0].key, now) then c else EvictExpired(RemoveAt(c, 0), now)
  }

  /** The deposits stored under a tag, in key order. */
  function UnderTag(s: seq<Entry>, tag: Bytes): seq<Entry> {
    if |s| == 0 then []
    else (if s[0].stored.tag == tag then [s[0]] else []) + UnderTag(s[1..], tag)
  }

  // ---- The invariant -----------------------------------------------------------------------------

  /** The entry is that of some deposit offered, under its key. */
  ghost predicate Genuine(digest: Digest, offered: set<Deposit>, e: Entry) {
    exists x :: x in offered && DepositKey(digest, x) == e.key && e.stored == Stored(x.tag, x.envelope)
  }

  ghost predicate AllGenuine(digest: Digest, offered: set<Deposit>, s: seq<Entry>) {
    forall i :: 0 <= i < |s| ==> Genuine(digest, offered, s[i])
  }

  /** The index holds exactly the pairs of the stored deposits. */
  ghost predicate IndexExact(c: Cache) {
    forall p :: p in c.byTag <==> PairOf(c.deposits, p)
  }

  ghost predicate PairOf(s: seq<Entry>, p: (Bytes, Bytes)) {
    exists i :: 0 <= i < |s| && p == (s[i].stored.tag, s[i].key)
  }

  /** The invariant of a cache to which no deposits but these have been offered. */
  ghost predicate Inv(digest: Digest, offered: set<Deposit>, c: Cache) {
    && Keyed(c.deposits) && Ordered(c.deposits) && AllGenuine(digest, offered, c.deposits) && IndexExact(c)
    && StoredBytes(c.deposits) <= c.total
  }

  lemma {:induction false} LexTransitive(a: Bytes, b: Bytes, c: Bytes)
    requires |a| == |b| == |c| && LexLess(a, b) && LexLess(b, c)
    ensures LexLess(a, c)
  {
    LexIsIntegerOrder(a, b);
    LexIsIntegerOrder(b, c);
    LexIsIntegerOrder(a, c);
  }

  lemma {:induction false} LexTotal(a: Bytes, b: Bytes)
    requires |a| == |b|
    ensures LexLess(a, b) || LexLess(b, a) || a == b
    ensures !(LexLess(a, b) && LexLess(b, a)) && !LexLess(a, a)
  {
    LexIsIntegerOrder(a, b);
    LexIsIntegerOrder(b, a);
    LexIsIntegerOrder(a, a);
    if Value(a) == Value(b) {
      ValueInjective(a, b);
    }
  }

  /** Below the head's key there is nothing, and the head's key occurs once. */
  lemma {:induction false} HeadIsLeast(s: seq<Entry>, key: Bytes)
    requires Keyed(s) && Ordered(s) && |s| > 0 && |key| == DEPOSIT_KEY_LEN
    ensures forall i :: 0 < i < |s| ==> s[i].key != s[0].key
    ensures LexLess(key, s[0].key) ==> forall i :: 0 <= i < |s| ==> s[i].key != key
  {
    forall i | 0 <= i < |s|
      ensures 0 < i ==> s[i].key != s[0].key
      ensures LexLess(key, s[0].key) ==> s[i].key != key
    {
      LexTotal(s[0].key, s[i].key);
      LexTotal(key, s[0].key);
      assert 0 < i ==> LexLess(s[0].key, s[i].key);
    }
  }

  /** What an insertion leaves in the table: the new entry, and every other key's entry. */
  lemma {:induction false} InsertExactly(s: seq<Entry>, e: Entry, y: Entry)
    requires Keyed(s) && Ordered(s) && |e.key| == DEPOSIT_KEY_LEN
    ensures y in Insert(s, e) <==> y == e || (y in s && y.key != e.key)
  {
    if |s| > 0 {
      LexTotal(e.key, s[0].key);
      HeadIsLeast(s, e.key);
      assert s == [s[0]] + s[1..];
      if s[0].key != e.key && !LexLess(e.key, s[0].key) {
        InsertExactly(s[1..], e, y);
      }
    }
  }

  lemma {:induction false} InsertOrdered(s: seq<Entry>, e: Entry)
    requires Keyed(s) && Ordered(s) && |e.key| == DEPOSIT_KEY_LEN
    ensures Keyed(Insert(s, e)) && Ordered(Insert(s, e))
  {
    if |s| > 0 {
      LexTotal(e.key, s[0].key);
      if s[0].key == e.key {
      } else if LexLess(e.key, s[0].key) {
        forall j | 0 < j < |s| ensures LexLess(e.key, s[j].key) {
          LexTransitive(e.key, s[0].key, s[j].key);
        }
      } else {
        InsertOrdered(s[1..], e);
        var t := Insert(s[1..], e);
        forall j | 0 <= j < |t| ensures LexLess(s[0].key, t[j].key) {
          InsertExactly(s[1..], e, t[j]);
          assert t[j] == e || t[j] in s[1..];
        }
      }
    }
  }

  /** A new key adds its bytes; re-inserting a stored entry changes nothing. */
  lemma {:induction false} InsertBytes(s: seq<Entry>, e: Entry)
    requires Keyed(s) && Ordered(s) && |e.key| == DEPOSIT_KEY_LEN
    ensures (forall i :: 0 <= i < |s| ==> s[i].key != e.key) ==>
              StoredBytes(Insert(s, e)) == StoredBytes(s) + StoredLen(e.stored) && |Insert(s, e)| == |s| + 1
    ensures e in s ==> Insert(s, e) == s
  {
    if |s| > 0 {
      HeadIsLeast(s, e.key);
      assert s == [s[0]] + s[1..];
      if s[0].key != e.key && !LexLess(e.key, s[0].key) {
        InsertBytes(s[1..], e);
        assert forall i :: 0 <= i < |s[1..]| ==> s[1..][i] == s[i + 1];
      }
    }
  }
}
