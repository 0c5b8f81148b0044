/** What every mailbox operation keeps, and what the byte counter, eviction and lookups amount to. */
module MailboxRuns {
  import opened Prelude
  import opened BigEndian
  import opened MailboxRules

  /** How far the counter is above the bytes actually stored. */
  function Slack(c: Cache): int { c.total - StoredBytes(c.deposits) }

  lemma {:induction false} BytesSplit(s: seq<Entry>, i: nat)
    requires i < |s|
    ensures StoredBytes(s) == StoredLen(s[i].stored) + StoredBytes(s[..i] + s[i + 1..])
  {
    if i > 0 {
      BytesSplit(s[1..], i - 1);
      var rest := s[..i] + s[i + 1..];
      assert rest[0] == s[0] && rest[1..] == s[1..][..i - 1] + s[1..][i..];
    } else {
      assert s[..0] + s[1..] == s[1..];
    }
  }

  // ---- Removing one entry ------------------------------------------------------------------------

  lemma {:induction false} KeysDiffer(s: seq<Entry>, i: nat, j: nat)
    requires Keyed(s) && Ordered(s) && i < |s| && j < |s| && i != j
    ensures s[i].key != s[j].key
  {
    LexTotal(s[i].key, s[j].key);
    assert if i < j then LexLess(s[i].key, s[j].key) else LexLess(s[j].key, s[i].key);
  }

  /** The pairs of a table without its entry `i`. */
  lemma {:induction false} RemovedPair(s: seq<Entry>, i: nat, p: (Bytes, Bytes))
    requires Keyed(s) && Ordered(s) && i < |s|
    ensures PairOf(s[..i] + s[i + 1..], p) <==> PairOf(s, p) && p != (s[i].stored.tag, s[i].key)
  {
    hide Ordered;
    var after := s[..i] + s[i + 1..];
    if PairOf(after, p) {
      var k :| 0 <= k < |after| && p == (after[k].stored.tag, after[k].key);
      var j := if k < i then k else k + 1;
      assert s[j] == after[k];
      KeysDiffer(s, i, j);
    }
    if PairOf(s, p) && p != (s[i].stored.tag, s[i].key) {
      var j :| 0 <= j < |s| && p == (s[j].stored.tag, s[j].key);
      assert after[if j < i then j else j - 1] == s[j];
    }
  }

  lemma {:induction false} RemovedIndex(digest: Digest, offered: set<Deposit>, c: Cache, i: nat)
    requires Inv(digest, offered, c) && i < |c.deposits|
    ensures IndexExact(RemoveAt(c, i))
  {
    hide PairOf, Ordered;
    forall p ensures p in RemoveAt(c, i).byTag <==> PairOf(RemoveAt(c, i).deposits, p) {
      RemovedPair(c.deposits, i, p);
    }
  }

  lemma {:induction false} RemovedOrder(s: seq<Entry>, i: nat)
    requires Keyed(s) && Ordered(s) && i < |s|
    ensures Keyed(s[..i] + s[i + 1..]) && Ordered(s[..i] + s[i + 1..])
  {
    hide LexLess;
    var t := s[..i] + s[i + 1..];
    forall j, k | 0 <= j < k < |t| ensures LexLess(t[j].key, t[k].key) {
      assert t[j] == s[if j < i then j else j + 1] && t[k] == s[if k < i then k else k + 1];
    }
  }

  lemma {:induction false} RemovedGenuine(digest: Digest, offered: set<Deposit>, s: seq<Entry>, i: nat)
    requires AllGenuine(digest, offered, s) && i < |s|
    ensures AllGenuine(digest, offered, s[..i] + s[i + 1..])
  {
    hide Genuine;
    var t := s[..i] + s[i + 1..];
    forall j | 0 <= j < |t| ensures Genuine(digest, offered, t[j]) {
      assert t[j] == s[if j < i then j else j + 1];
    }
  }

  /** Removal keeps the invariant, and leaves the counter forty bytes further off. */
  lemma {:induction false} RemoveKeepsInv(digest: Digest, offered: set<Deposit>, c: Cache, i: nat)
    requires Inv(digest, offered, c) && i < |c.deposits|
    ensures Inv(digest, offered, RemoveAt(c, i)) && Slack(RemoveAt(c, i)) == Slack(c) + 40
  {
    hide IndexExact, Ordered, AllGenuine, StoredBytes;
    BytesSplit(c.deposits, i);
    RemovedIndex(digest, offered, c, i);
    RemovedOrder(c.deposits, i);
    RemovedGenuine(digest, offered, c.deposits, i);
  }

  // ---- Eviction ----------------------------------------------------------------------------------

  /** The cache without its `k` oldest deposits. */
  function DropOldest(c: Cache, k: nat): Cache
    requires k <= |c.deposits|
    decreases k
  {
    if k == 0 then c else DropOldest(RemoveAt(c, 0), k - 1)
  }

  lemma {:induction false} DropKeepsInv(digest: Digest, offered: set<Deposit>, c: Cache, k: nat)
    requires Inv(digest, offered, c) && k <= |c.deposits|
    ensures Inv(digest, offered, DropOldest(c, k)) && DropOldest(c, k).deposits == c.deposits[k..]
    ensures Slack(DropOldest(c, k)) == Slack(c) + 40 * k && DropOldest(c, k).limit == c.limit
    decreases k
  {
    hide Inv;
    if k > 0 {
      RemoveKeepsInv(digest, offered, c, 0);
      assert RemoveAt(c, 0).deposits == c.deposits[1..];
      DropKeepsInv(digest, offered, RemoveAt(c, 0), k - 1);
    }
  }

  /** Making room drops the shortest oldest-first prefix that suffices, or everything. */
  lemma {:induction false} EvictionExactly(c: Cache, additional: nat) returns (k: nat)
    ensures k <= |c.deposits| && EvictUntilRoomFor(c, additional) == DropOldest(c, k)
    ensures DropOldest(c, k).total + additional <= c.limit || k == |c.deposits|
    ensures forall j :: 0 <= j < k ==> DropOldest(c, j).total + additional > c.limit
    decreases |c.deposits|
  {
    k := 0;
    if c.total + additional > c.limit && |c.deposits| > 0 {
      var m := EvictionExactly(RemoveAt(c, 0), additional);
      k := m + 1;
      forall j | 0 <= j < k ensures DropOldest(c, j).total + additional > c.limit {
        if j > 0 {
          assert DropOldest(c, j) == DropOldest(RemoveAt(c, 0), j - 1);
        }
      }
    }
  }

  // ---- Accepting ---------------------------------------------------------------------------------

  function NewEntry(digest: Digest, x: Deposit): Entry { Entry(DepositKey(digest, x), Stored(x.tag, x.envelope)) }

  /** The cache after eviction, before the new deposit is stored. */
  function Roomy(c: Cache, x: Deposit): Cache { EvictUntilRoomFor(c, StoredLen(Stored(x.tag, x.envelope))) }

  /** A stored entry with the new deposit's key is that very deposit. */
  lemma {:induction false} SameKeySameEntry(digest: Digest, offered: set<Deposit>, s: seq<Entry>, x: Deposit, i: nat)
    requires NoCollision(digest, offered) && x in offered && AllGenuine(digest, offered, s) && i < |s| && s[i].key == DepositKey(digest, x)
    ensures s[i] == NewEntry(digest, x)
  {
    assert Genuine(digest, offered, s[i]);
    var y :| y in offered && DepositKey(digest, y) == s[i].key && s[i].stored == Stored(y.tag, y.envelope);
  }

  lemma {:induction false} PairAt(s: seq<Entry>, e: Entry)
    requires e in s
    ensures PairOf(s, (e.stored.tag, e.key))
  {
    var i :| 0 <= i < |s| && s[i] == e;
  }

  /** The pairs of a table after an insertion: those before, and the new one. */
  lemma {:induction false} StoredPair(digest: Digest, offered: set<Deposit>, s: seq<Entry>, x: Deposit, p: (Bytes, Bytes))
    requires NoCollision(digest, offered) && x in offered && Keyed(s) && Ordered(s) && AllGenuine(digest, offered, s)
    ensures PairOf(Insert(s, NewEntry(digest, x)), p) <==> PairOf(s, p) || p == (x.tag, DepositKey(digest, x))
  {
    hide Insert, Ordered;
    var n := NewEntry(digest, x);
    var after := Insert(s, n);
    InsertExactly(s, n, n);
    PairAt(after, n);
    if PairOf(after, p) {
      var k :| 0 <= k < |after| && p == (after[k].stored.tag, after[k].key);
      InsertExactly(s, n, after[k]);
      if after[k] in s {
        PairAt(s, after[k]);
      }
    }
    if PairOf(s, p) {
      var j :| 0 <= j < |s| && p == (s[j].stored.tag, s[j].key);
      if s[j].key == n.key {
        SameKeySameEntry(digest, offered, s, x, j);
      }
      InsertExactly(s, n, s[j]);
      PairAt(after, s[j]);
    }
  }

  lemma {:induction false} StoredIndex(digest: Digest, offered: set<Deposit>, c: Cache, x: Deposit)
    requires NoCollision(digest, offered) && Inv(digest, offered, c) && x in offered
    ensures IndexExact(c.(deposits := Insert(c.deposits, NewEntry(digest, x)), byTag := c.byTag + {(x.tag, DepositKey(digest, x))}))
  {
    hide Insert, PairOf, Ordered;
    forall p
      ensures p in c.byTag + {(x.tag, DepositKey(digest, x))} <==> PairOf(Insert(c.deposits, NewEntry(digest, x)), p)
    {
      StoredPair(digest, offered, c.deposits, x, p);
    }
  }

  lemma {:induction false} StoredGenuine(digest: Digest, offered: set<Deposit>, c: Cache, x: Deposit)
    requires Inv(digest, offered, c) && x in offered
    ensures AllGenuine(digest, offered, Insert(c.deposits, NewEntry(digest, x)))
  {
    var e := NewEntry(digest, x);
    var after := Insert(c.deposits, e);
    assert Genuine(digest, offered, e);
    forall k | 0 <= k < |after| ensures Genuine(digest, offered, after[k]) {
      InsertExactly(c.deposits, e, after[k]);
      if after[k] != e {
        var j :| 0 <= j < |c.deposits| && c.deposits[j] == after[k];
      }
    }
  }

  /** Bytes counted twice: those of a deposit that was stored already. */
  function Recounted(digest: Digest, c: Cache, x: Deposit): nat {
    if NewEntry(digest, x) in Roomy(c, x).deposits then StoredLen(Stored(x.tag, x.envelope)) else 0
  }

  /** Accepting keeps the invariant: the index stays exact and the counter never falls below the bytes stored. */
  lemma {:induction false} AcceptKeepsInv(digest: Digest, offered: set<Deposit>, c: Cache, x: Deposit)
    requires NoCollision(digest, offered) && Inv(digest, offered, c) && x in offered
    ensures Inv(digest, offered, Accept(digest, c, x)) && Keyed(Roomy(c, x).deposits)
    ensures Accept(digest, c, x).deposits == Insert(Roomy(c, x).deposits, NewEntry(digest, x))
    ensures Slack(Accept(digest, c, x)) == Slack(c) + 40 * (|c.deposits| - |Roomy(c, x).deposits|) + Recounted(digest, c, x)
  {
    var added := StoredLen(Stored(x.tag, x.envelope));
    var k := EvictionExactly(c, added);
    DropKeepsInv(digest, offered, c, k);
    var roomy, e := Roomy(c, x), NewEntry(digest, x);
    InsertOrdered(roomy.deposits, e);
    StoredIndex(digest, offered, roomy, x);
    StoredGenuine(digest, offered, roomy, x);
    InsertBytes(roomy.deposits, e);
    if e !in roomy.deposits {
      forall i | 0 <= i < |roomy.deposits| ensures roomy.deposits[i].key != e.key {
        if roomy.deposits[i].key == e.key {
          SameKeySameEntry(digest, offered, roomy.deposits, x, i);
        }
      }
    }
  }

  /**
   After accepting, the cache holds the new deposit and the suffix that eviction left; either the stored
   bytes are within the limit or the new deposit is the only one.
   */
  lemma {:induction false} AcceptExactly(digest: Digest, offered: set<Deposit>, c: Cache, x: Deposit) returns (k: nat)
    requires NoCollision(digest, offered) && Inv(digest, offered, c) && x in offered
    ensures var c2 := Accept(digest, c, x);
            && k <= |c.deposits|
            && (forall e :: e in c2.deposits <==> e == NewEntry(digest, x) || e in c.deposits[k..])
            && (StoredBytes(c2.deposits) <= c.limit || c2.deposits == [NewEntry(digest, x)])
            && (k > 0 ==> DropOldest(c, k - 1).total + StoredLen(Stored(x.tag, x.envelope)) > c.limit)
  {
    AcceptKeepsInv(digest, offered, c, x);
    k := EvictionExactly(c, StoredLen(Stored(x.tag, x.envelope)));
    DropKeepsInv(digest, offered, c, k);
    var c2, roomy, n := Accept(digest, c, x), Roomy(c, x), NewEntry(digest, x);
    forall e ensures e in c2.deposits <==> e == n || e in c.deposits[k..] {
      InsertExactly(roomy.deposits, n, e);
      if e in roomy.deposits && e.key == n.key {
        var i :| 0 <= i < |roomy.deposits| && roomy.deposits[i] == e;
        SameKeySameEntry(digest, offered, roomy.deposits, x, i);
      }
    }
  }

  lemma {:induction false} InvGrows(digest: Digest, offered: set<Deposit>, more: set<Deposit>, c: Cache)
    requires Inv(digest, offered, c) && offered <= more
    ensures Inv(digest, more, c)
  {
    hide IndexExact, Ordered, StoredBytes;
    forall i | 0 <= i < |c.deposits| ensures Genuine(digest, more, c.deposits[i]) {
      assert Genuine(digest, offered, c.deposits[i]);
    }
  }

  // ---- Expiry and lookup -------------------------------------------------------------------------

  /** Key order is time order, and a deposit's key carries its time. */
  lemma {:induction false} KeyOrderIsTimeOrder(a: Bytes, b: Bytes)
    requires |a| == |b| == DEPOSIT_KEY_LEN && LexLess(a, b)
    ensures KeyTime(a) <= KeyTime(b)
  {
    LexOfPairs(a[..TIME_LEN], a[TIME_LEN..], b[..TIME_LEN], b[TIME_LEN..]);
    assert a == a[..TIME_LEN] + a[TIME_LEN..] && b == b[..TIME_LEN] + b[TIME_LEN..];
  }

  lemma {:induction false} KeyCarriesTime(digest: Digest, x: Deposit)
    ensures KeyTime(DepositKey(digest, x)) == x.depositedAt
    ensures |DepositKey(digest, x)| == 40 && Value(DepositKey(digest, x)[..8]) == x.depositedAt && DepositKey(digest, x)[8..] == digest(x)
  {
    EightBytes();
    ValueOfToBytes(x.depositedAt, TIME_LEN);
    assert DepositKey(digest, x)[..TIME_LEN] == ToBytes(x.depositedAt, TIME_LEN);
  }

  lemma {:induction false} EightBytes()
    ensures Pow256(TIME_LEN) == U64
  {
    assert Pow256(1) == 256 * Pow256(0);
    assert Pow256(2) == 256 * Pow256(1);
    assert Pow256(3) == 256 * Pow256(2);
    assert Pow256(4) == 256 * Pow256(3);
    assert Pow256(5) == 256 * Pow256(4);
    assert Pow256(6) == 256 * Pow256(5);
    assert Pow256(7) == 256 * Pow256(6);
    assert Pow256(8) == 256 * Pow256(7);
  }

  lemma {:induction false} ExpiryDropsPrefix(digest: Digest, offered: set<Deposit>, c: Cache, now: nat) returns (k: nat)
    requires Inv(digest, offered, c)
    ensures k <= |c.deposits| && EvictExpired(c, now) == DropOldest(c, k)
    ensures forall i :: 0 <= i < k ==> |c.deposits[i].key| == DEPOSIT_KEY_LEN && Expired(c.deposits[i].key, now)
    ensures k < |c.deposits| ==> |c.deposits[k].key| == DEPOSIT_KEY_LEN && !Expired(c.deposits[k].key, now)
    decreases |c.deposits|
  {
    hide IndexExact, AllGenuine, StoredBytes, LexLess, Expired, Ordered, KeyTime;
    k := 0;
    if |c.deposits| > 0 && Expired(c.deposits[0].key, now) {
      RemoveKeepsInv(digest, offered, c, 0);
      assert RemoveAt(c, 0).deposits == c.deposits[1..];
      var m := ExpiryDropsPrefix(digest, offered, RemoveAt(c, 0), now);
      k := m + 1;
      forall i | 0 <= i < k ensures |c.deposits[i].key| == DEPOSIT_KEY_LEN && Expired(c.deposits[i].key, now) {
        assert i > 0 ==> c.deposits[i] == RemoveAt(c, 0).deposits[i - 1];
      }
    }
  }

  /** After the first fresh deposit every deposit is fresh. */
  lemma {:induction false} FreshFromHere(s: seq<Entry>, k: nat, now: nat)
    requires Keyed(s) && Ordered(s) && k < |s| && !Expired(s[k].key, now)
    ensures forall i :: k <= i < |s| ==> !Expired(s[i].key, now)
  {
    forall i | k <= i < |s| ensures !Expired(s[i].key, now) {
      if k < i {
        KeyOrderIsTimeOrder(s[k].key, s[i].key);
      }
    }
  }

  predicate Kept(e: Entry, now: nat) { |e.key| == DEPOSIT_KEY_LEN && !Expired(e.key, now) }

  /** Two weeks, by the first eight bytes of the key. */
  lemma KeptExactly(e: Entry, now: nat)
    ensures Kept(e, now) <==> |e.key| == 40 && now - Value(e.key[..8]) <= 14 * 24 * 60 * 60
  {
  }

  /** Stopping at the first fresh key misses nothing: exactly the deposits young enough remain. */
  lemma {:induction false} ExpiryExactly(digest: Digest, offered: set<Deposit>, c: Cache, now: nat) returns (k: nat)
    requires Inv(digest, offered, c)
    ensures k <= |c.deposits| && EvictExpired(c, now) == DropOldest(c, k) && EvictExpired(c, now).deposits == c.deposits[k..]
    ensures Inv(digest, offered, EvictExpired(c, now)) && Slack(EvictExpired(c, now)) == Slack(c) + 40 * k
    ensures forall e :: e in EvictExpired(c, now).deposits <==>
              e in c.deposits && |e.key| == 40 && now - Value(e.key[..8]) <= 14 * 24 * 60 * 60
  {
    hide IndexExact, AllGenuine, StoredBytes, LexLess, Expired, EvictExpired, DropOldest, Ordered, Value;
    k := ExpiryDropsPrefix(digest, offered, c, now);
    DropKeepsInv(digest, offered, c, k);
    var s := c.deposits;
    if k < |s| {
      FreshFromHere(s, k, now);
    }
    forall e ensures e in s[k..] <==> e in s && |e.key| == 40 && now - Value(e.key[..8]) <= 14 * 24 * 60 * 60 {
      KeptExactly(e, now);
      if e in s[k..] {
        var i :| 0 <= i < |s[k..]| && s[k..][i] == e;
        assert s[k + i] == e;
      }
      if e in s && Kept(e, now) {
        var i :| 0 <= i < |s| && s[i] == e;
        assert k <= i && s[k..][i - k] == e;
      }
    }
  }

  /** A stored deposit stays exactly while it is at most two weeks old. */
  lemma {:induction false} DepositExpiry(digest: Digest, offered: set<Deposit>, c: Cache, now: nat, x: Deposit)
    requires Inv(digest, offered, c) && NewEntry(digest, x) in c.deposits
    ensures NewEntry(digest, x) in EvictExpired(c, now).deposits <==> now - x.depositedAt <= 1_209_600
  {
    hide Inv, EvictExpired, DepositKey, Value;
    var k := ExpiryExactly(digest, offered, c, now);
    KeyCarriesTime(digest, x);
    NewEntryKey(digest, x);
  }

  /** A lookup returns exactly the tag's deposits, oldest first. */
  lemma {:induction false} LookupExactly(s: seq<Entry>, tag: Bytes)
    requires Keyed(s) && Ordered(s)
    ensures var u := UnderTag(s, tag);
            && (forall e :: e in u <==> e in s && e.stored.tag == tag)
            && Keyed(u) && Ordered(u)
            && (forall i, j :: 0 <= i < j < |u| ==> KeyTime(u[i].key) <= KeyTime(u[j].key))
  {
    LookupContents(s, tag);
    var u := UnderTag(s, tag);
    forall i, j | 0 <= i < j < |u| ensures KeyTime(u[i].key) <= KeyTime(u[j].key) {
      KeyOrderIsTimeOrder(u[i].key, u[j].key);
    }
  }

  lemma {:induction false} LookupContents(s: seq<Entry>, tag: Bytes)
    requires Keyed(s) && Ordered(s)
    ensures var u := UnderTag(s, tag);
            && (forall e :: e in u <==> e in s && e.stored.tag == tag) && Keyed(u) && Ordered(u)
  {
    hide LexLess;
    if |s| > 0 {
      LookupContents(s[1..], tag);
      var rest := UnderTag(s[1..], tag);
      assert s == [s[0]] + s[1..];
      forall j | 0 <= j < |rest| ensures LexLess(s[0].key, rest[j].key) {
        assert rest[j] in s[1..];
        var i :| 0 <= i < |s[1..]| && s[1..][i] == rest[j];
        assert s[i + 1] == rest[j];
      }
    }
  }

  // ---- What the tables hold, in plain terms ------------------------------------------------------

  function EnvelopeBytes(s: seq<Entry>): nat { if |s| == 0 then 0 else |s[0].stored.envelope| + EnvelopeBytes(s[1..]) }

  /** The bytes stored: forty for each deposit beside its envelope. */
  lemma {:induction false} StoredBytesExactly(s: seq<Entry>)
    ensures StoredBytes(s) == 40 * |s| + EnvelopeBytes(s)
  {
    if |s| > 0 {
      StoredBytesExactly(s[1..]);
    }
  }

  /** Removing a key takes away its entry, its index pair and its envelope's length, and nothing else. */
  lemma {:induction false} RemoveExactly(digest: Digest, offered: set<Deposit>, c: Cache, key: Bytes)
    requires Inv(digest, offered, c)
    ensures var c2 := Remove(c, key);
            && (forall e :: e in c2.deposits <==> e in c.deposits && e.key != key)
            && (forall p :: p in c2.byTag <==> p in c.byTag && p.1 != key)
            && (forall e :: e in c.deposits && e.key == key ==> c2.total == c.total - |e.stored.envelope|)
            && ((forall e :: e in c.deposits ==> e.key != key) ==> c2 == c) && c2.limit == c.limit
  {
    var s, i := c.deposits, Position(c.deposits, key);
    if i < |s| {
      RemoveKeepsInv(digest, offered, c, i);
      BytesSplit(s, i);
      forall e ensures e in s[..i] + s[i + 1..] <==> e in s && e.key != key {
        EntriesWithout(s, i, e);
      }
      forall p ensures p in RemoveAt(c, i).byTag <==> p in c.byTag && p.1 != key {
        PairsWithout(c, i, p);
      }
      forall e | e in s && e.key == key ensures e == s[i] {
        EntriesWithout(s, i, e);
      }
    }
  }

  lemma {:induction false} EntriesWithout(s: seq<Entry>, i: nat, e: Entry)
    requires Keyed(s) && Ordered(s) && i < |s|
    ensures e in s[..i] + s[i + 1..] <==> e in s && e.key != s[i].key
    ensures e in s && e.key == s[i].key ==> e == s[i]
  {
    hide Ordered;
    var t := s[..i] + s[i + 1..];
    if e in t {
      var k :| 0 <= k < |t| && t[k] == e;
      var j := if k < i then k else k + 1;
      assert s[j] == e;
      KeysDiffer(s, i, j);
    }
    if e in s {
      var j :| 0 <= j < |s| && s[j] == e;
      if j != i {
        KeysDiffer(s, i, j);
        assert t[if j < i then j else j - 1] == e;
      }
    }
  }

  lemma {:induction false} PairsWithout(c: Cache, i: nat, p: (Bytes, Bytes))
    requires Keyed(c.deposits) && Ordered(c.deposits) && IndexExact(c) && i < |c.deposits|
    ensures p in RemoveAt(c, i).byTag <==> p in c.byTag && p.1 != c.deposits[i].key
  {
    hide Ordered;
    if p in c.byTag && p.1 == c.deposits[i].key {
      assert PairOf(c.deposits, p);
      var j :| 0 <= j < |c.deposits| && p == (c.deposits[j].stored.tag, c.deposits[j].key);
      EntriesWithout(c.deposits, i, c.deposits[j]);
    }
  }

  /** A deposit just accepted is found under its tag, with its time, its digest and its envelope. */
  lemma {:induction false} AcceptedIsFound(digest: Digest, offered: set<Deposit>, c: Cache, x: Deposit) returns (e: Entry)
    requires NoCollision(digest, offered) && Inv(digest, offered, c) && x in offered
    ensures e in UnderTag(Accept(digest, c, x).deposits, x.tag) && e.stored.envelope == x.envelope && e.stored.tag == x.tag
    ensures |e.key| == 40 && Value(e.key[..8]) == x.depositedAt && e.key[8..] == digest(x)
  {
    hide NoCollision, Accept, UnderTag, DepositKey, Value, Ordered, IndexExact, AllGenuine, StoredBytes;
    e := NewEntry(digest, x);
    AcceptKeepsInv(digest, offered, c, x);
    var k := AcceptExactly(digest, offered, c, x);
    LookupExactly(Accept(digest, c, x).deposits, x.tag);
    KeyCarriesTime(digest, x);
  }

  // ---- Runs --------------------------------------------------------------------------------------

  datatype Op = Store(deposit: Deposit) | Deliver(key: Bytes) | Sweep(now: nat) | SetLimit(limit: nat)

  function Do(digest: Digest, c: Cache, op: Op): Cache
    requires Keyed(c.deposits)
  {
    match op
    case Store(x) => Accept(digest, c, x)
    case Deliver(key) => Remove(c, key)
    case Sweep(now) => EvictExpired(c, now)
    case SetLimit(limit) => c.(limit := limit)
  }

  /** How many deposits an operation removes. */
  function Removals(digest: Digest, c: Cache, op: Op): nat
    requires Keyed(c.deposits)
  {
    match op
    case Store(x) => Max(|c.deposits| - |Roomy(c, x).deposits|, 0)
    case Deliver(key) => if Position(c.deposits, key) < |c.deposits| then 1 else 0
    case Sweep(now) => Max(|c.deposits| - |EvictExpired(c, now).deposits|, 0)
    case SetLimit(_) => 0
  }

  /** How many bytes an operation counts although they are stored already. */
  function CountedTwice(digest: Digest, c: Cache, op: Op): nat {
    if op.Store? then Recounted(digest, c, op.deposit) else 0
  }

  /** The operation offers no deposit but these. */
  predicate Offers(op: Op, offered: set<Deposit>) { op.Store? ==> op.deposit in offered }

  /** Each removal leaves the counter forty bytes too high, each re-acceptance a whole deposit too high, nothing else. */
  lemma {:induction false} StepKeepsInv(digest: Digest, offered: set<Deposit>, c: Cache, op: Op)
    requires NoCollision(digest, offered) && Inv(digest, offered, c) && Offers(op, offered)
    ensures Inv(digest, offered, Do(digest, c, op))
    ensures Slack(Do(digest, c, op)) == Slack(c) + 40 * Removals(digest, c, op) + CountedTwice(digest, c, op)
  {
    hide Ordered, AllGenuine, IndexExact, StoredBytes, NoCollision;
    match op
    case Store(x) => {
      AcceptKeepsInv(digest, offered, c, x);
      var k := EvictionExactly(c, StoredLen(Stored(x.tag, x.envelope)));
      DropKeepsInv(digest, offered, c, k);
    }
    case Deliver(key) => {
      if Position(c.deposits, key) < |c.deposits| {
        RemoveKeepsInv(digest, offered, c, Position(c.deposits, key));
      }
    }
    case Sweep(now) => {
      var k := ExpiryExactly(digest, offered, c, now);
    }
    case SetLimit(limit) => {
      LimitIrrelevant(digest, offered, c, limit);
    }
  }

  lemma {:induction false} LimitIrrelevant(digest: Digest, offered: set<Deposit>, c: Cache, limit: nat)
    requires Inv(digest, offered, c)
    ensures Inv(digest, offered, c.(limit := limit))
  {
  }

  lemma {:induction false} InsertKeyed(s: seq<Entry>, e: Entry)
    requires Keyed(s) && |e.key| == DEPOSIT_KEY_LEN
    ensures Keyed(Insert(s, e))
  {
    if |s| > 0 {
      InsertKeyed(s[1..], e);
    }
  }

  lemma {:induction false} ExpiryKeepsKeys(c: Cache, now: nat)
    requires Keyed(c.deposits)
    ensures Keyed(EvictExpired(c, now).deposits)
    decreases |c.deposits|
  {
    if |c.deposits| > 0 && Expired(c.deposits[0].key, now) {
      ExpiryKeepsKeys(RemoveAt(c, 0), now);
    }
  }

  lemma {:induction false} DoKeepsKeys(digest: Digest, c: Cache, op: Op)
    requires Keyed(c.deposits)
    ensures Keyed(Do(digest, c, op).deposits)
  {
    match op
    case Store(x) => {
      EvictionKeepsKeys(c, StoredLen(Stored(x.tag, x.envelope)));
      InsertKeyed(Roomy(c, x).deposits, NewEntry(digest, x));
    }
    case Deliver(_) => {
    }
    case Sweep(now) => {
      ExpiryKeepsKeys(c, now);
    }
    case SetLimit(_) => {
    }
  }

  function Play(digest: Digest, c: Cache, ops: seq<Op>): (r: Cache)
    requires Keyed(c.deposits)
    ensures Keyed(r.deposits)
    decreases |ops|
  {
    if |ops| == 0 then c
    else
      DoKeepsKeys(digest, c, ops[0]);
      Play(digest, Do(digest, c, ops[0]), ops[1..])
  }

  function TotalRemovals(digest: Digest, c: Cache, ops: seq<Op>): nat
    requires Keyed(c.deposits)
    decreases |ops|
  {
    if |ops| == 0 then 0
    else
      DoKeepsKeys(digest, c, ops[0]);
      Removals(digest, c, ops[0]) + TotalRemovals(digest, Do(digest, c, ops[0]), ops[1..])
  }

  function TotalCountedTwice(digest: Digest, c: Cache, ops: seq<Op>): nat
    requires Keyed(c.deposits)
    decreases |ops|
  {
    if |ops| == 0 then 0
    else
      DoKeepsKeys(digest, c, ops[0]);
      CountedTwice(digest, c, ops[0]) + TotalCountedTwice(digest, Do(digest, c, ops[0]), ops[1..])
  }

  /** The run offers no deposits but these. */
  predicate AllOffers(ops: seq<Op>, offered: set<Deposit>) { forall i :: 0 <= i < |ops| ==> Offers(ops[i], offered) }

  /** Over any run the index stays exact and ordered, and the counter's excess obeys an exact conservation law. */
  lemma {:induction false} CounterOverRuns(digest: Digest, offered: set<Deposit>, c: Cache, ops: seq<Op>)
    requires NoCollision(digest, offered) && Inv(digest, offered, c) && AllOffers(ops, offered)
    ensures Inv(digest, offered, Play(digest, c, ops))
    ensures Slack(Play(digest, c, ops)) == Slack(c) + 40 * TotalRemovals(digest, c, ops) + TotalCountedTwice(digest, c, ops)
    decreases |ops|
  {
    hide Ordered, AllGenuine, IndexExact, StoredBytes, Do, Removals, CountedTwice, Slack, NoCollision;
    if |ops| > 0 {
      StepKeepsInv(digest, offered, c, ops[0]);
      CounterOverRuns(digest, offered, Do(digest, c, ops[0]), ops[1..]);
    }
  }

  const EMPTY: Cache := Cache([], {}, 0, 50 * 1024 * 1024)

  lemma {:induction false} EmptyInv(digest: Digest, offered: set<Deposit>)
    ensures Inv(digest, offered, EMPTY) && Slack(EMPTY) == 0
  {
  }

  /** The deposits a run offers. */
  function Offered(ops: seq<Op>): (offered: set<Deposit>)
    ensures AllOffers(ops, offered)
  {
    set i | 0 <= i < |ops| && ops[i].Store? :: ops[i].deposit
  }

  /** The counter is the running total it is meant to be exactly as long as nothing was removed or re-accepted. */
  lemma {:induction false} CounterExactly(digest: Digest, ops: seq<Op>)
    requires NoCollision(digest, Offered(ops))
    ensures Play(digest, EMPTY, ops).total == StoredBytes(Play(digest, EMPTY, ops).deposits) <==>
              TotalRemovals(digest, EMPTY, ops) == 0 && TotalCountedTwice(digest, EMPTY, ops) == 0
  {
    hide Inv, NoCollision;
    EmptyInv(digest, Offered(ops));
    CounterOverRuns(digest, Offered(ops), EMPTY, ops);
  }

  // ---- Starvation --------------------------------------------------------------------------------

  lemma {:induction false} BytesOfLast(s: seq<Entry>)
    requires |s| > 0
    ensures StoredBytes(s[|s| - 1..]) == StoredLen(s[|s| - 1].stored)
  {
    assert s[|s| - 1..] == [s[|s| - 1]];
    assert StoredBytes(s[|s| - 1..][1..]) == 0;
  }

  /** Dropping more never raises the counter. */
  lemma {:induction false} DroppingLowers(c: Cache, j: nat, k: nat)
    requires j <= k <= |c.deposits|
    ensures DropOldest(c, k).total <= DropOldest(c, j).total
    decreases k
  {
    if j > 0 {
      DroppingLowers(RemoveAt(c, 0), j - 1, k - 1);
    } else if k > 0 {
      DroppingLowers(RemoveAt(c, 0), 0, k - 1);
    }
  }

  /** What accepting leaves is the new deposit alone exactly if eviction dropped every other. */
  lemma {:induction false} AloneIfAllDropped(digest: Digest, offered: set<Deposit>, c: Cache, x: Deposit)
    requires NoCollision(digest, offered) && Inv(digest, offered, c) && x in offered
    ensures Roomy(c, x).deposits == [] ==> Accept(digest, c, x).deposits == [NewEntry(digest, x)]
    ensures |Roomy(c, x).deposits| > 0 && NewEntry(digest, x) !in c.deposits ==>
              Accept(digest, c, x).deposits != [NewEntry(digest, x)]
  {
    hide NoCollision, NewEntry, IndexExact, StoredBytes;
    AcceptKeepsInv(digest, offered, c, x);
    NewEntryKey(digest, x);
    var e, roomy := NewEntry(digest, x), Roomy(c, x).deposits;
    var k := EvictionExactly(c, StoredLen(Stored(x.tag, x.envelope)));
    DropKeepsInv(digest, offered, c, k);
    assert Keyed(roomy) && Ordered(roomy);
    if |roomy| > 0 && e !in c.deposits {
      assert roomy[0] == c.deposits[k];
      InsertExactly(roomy, e, roomy[0]);
      if roomy[0].key == e.key {
        SameKeySameEntry(digest, offered, c.deposits, x, k);
      }
    }
  }

  lemma InvKeyed(digest: Digest, offered: set<Deposit>, c: Cache)
    requires Inv(digest, offered, c)
    ensures Keyed(c.deposits)
  {
  }

  lemma NewEntryKey(digest: Digest, x: Deposit)
    ensures NewEntry(digest, x).key == DepositKey(digest, x) && |NewEntry(digest, x).key| == DEPOSIT_KEY_LEN
  {
  }

  /** Eviction drops everything exactly if even the newest deposit does not fit beside the excess. */
  lemma {:induction false} DropsAllExactly(digest: Digest, offered: set<Deposit>, c: Cache, added: nat)
    requires Inv(digest, offered, c) && |c.deposits| > 0
    ensures var n := |c.deposits|;
            EvictUntilRoomFor(c, added).deposits == [] <==>
              Slack(c) + 40 * (n - 1) + StoredLen(c.deposits[n - 1].stored) + added > c.limit
  {
    hide Inv, StoredBytes, StoredLen;
    var n := |c.deposits|;
    var k := EvictionExactly(c, added);
    DropKeepsInv(digest, offered, c, k);
    DropKeepsInv(digest, offered, c, n - 1);
    BytesOfLast(c.deposits);
    if k < n {
      DroppingLowers(c, k, n - 1);
      assert |c.deposits[k..]| > 0;
    }
  }

  /**
   Accepting a deposit that is not stored yet leaves it alone in the cache exactly if the newest deposit
   stored, the last one eviction would reach, does not fit beside it and the counter's excess.
   */
  lemma {:induction false} StarvesExactly(digest: Digest, offered: set<Deposit>, c: Cache, x: Deposit)
    requires NoCollision(digest, offered) && Inv(digest, offered, c) && x in offered
    requires |c.deposits| > 0 && NewEntry(digest, x) !in c.deposits
    ensures var n := |c.deposits|;
            Accept(digest, c, x).deposits == [NewEntry(digest, x)] <==>
              Slack(c) + 40 * (n - 1) + (40 + |c.deposits[n - 1].stored.envelope|) + (40 + |x.envelope|) > c.limit
  {
    hide Inv, NoCollision, Accept;
    AloneIfAllDropped(digest, offered, c, x);
    DropsAllExactly(digest, offered, c, StoredLen(Stored(x.tag, x.envelope)));
  }

  /** The deposits that validation lets through have an envelope. */
  predicate NonEmpty(offered: set<Deposit>) { forall x :: x in offered ==> |x.envelope| > 0 }

  const NO_TAG: Tag := seq(TAG_LEN, _ => 0)

  /** The serialized length of the smallest deposit. */
  const SMALLEST: nat := TAG_LEN + 8 + 1

  lemma {:induction false} StoredIsNonEmpty(digest: Digest, offered: set<Deposit>, c: Cache, i: nat)
    requires Inv(digest, offered, c) && NonEmpty(offered) && i < |c.deposits|
    ensures StoredLen(c.deposits[i].stored) >= SMALLEST
  {
    assert Genuine(digest, offered, c.deposits[i]);
    var x :| x in offered && DepositKey(digest, x) == c.deposits[i].key && c.deposits[i].stored == Stored(x.tag, x.envelope);
  }

  /** Once two deposits of the smallest size no longer fit beside the excess, accepting leaves one. */
  lemma {:induction false} ExcessStarves(digest: Digest, offered: set<Deposit>, c: Cache, x: Deposit)
    requires NoCollision(digest, offered) && Inv(digest, offered, c) && x in offered && NonEmpty(offered)
    requires Slack(c) + 2 * SMALLEST > c.limit
    ensures Accept(digest, c, x).deposits == [NewEntry(digest, x)]
  {
    hide Inv, NoCollision, Accept;
    var n := |c.deposits|;
    AloneIfAllDropped(digest, offered, c, x);
    if n > 0 {
      StoredIsNonEmpty(digest, offered, c, n - 1);
      DropsAllExactly(digest, offered, c, StoredLen(Stored(x.tag, x.envelope)));
    }
  }

  /** A run under an unchanged limit, and a deposit accepted after it, all of them valid and without a collision. */
  ghost predicate Ordinary(digest: Digest, offered: set<Deposit>, ops: seq<Op>, x: Deposit) {
    && NoCollision(digest, offered) && NonEmpty(offered) && AllOffers(ops, offered) && x in offered
    && forall i :: 0 <= i < |ops| ==> !ops[i].SetLimit?
  }

  /** A mailbox whose excess leaves no room for two deposits never again holds two after accepting one. */
  lemma {:induction false} StarvedForever(digest: Digest, offered: set<Deposit>, c: Cache, ops: seq<Op>, x: Deposit)
    requires Inv(digest, offered, c) && Ordinary(digest, offered, ops, x) && Slack(c) + 2 * SMALLEST > c.limit
    ensures Accept(digest, Play(digest, c, ops), x).deposits == [NewEntry(digest, x)]
  {
    hide Inv, Slack, NewEntry, NoCollision, Accept, NonEmpty;
    InvKeyed(digest, offered, c);
    CounterOverRuns(digest, offered, c, ops);
    LimitStays(digest, offered, c, ops);
    ExcessStarves(digest, offered, Play(digest, c, ops), x);
  }

  /** Whatever valid deposits come, under this limit no two are ever held after accepting one. */
  ghost predicate Starved(digest: Digest, c: Cache)
    requires Keyed(c.deposits)
  {
    forall offered, ops, x :: Ordinary(digest, offered, ops, x) ==>
      Accept(digest, Play(digest, c, ops), x).deposits == [NewEntry(digest, x)]
  }

  /** An emptied mailbox is starved for ever exactly if its excess leaves no room for two of the smallest deposits. */
  lemma {:induction false} StarvedExactly(digest: Digest, c: Cache)
    requires Inv(digest, {}, c) && c.deposits == []
    ensures Starved(digest, c) <==> Slack(c) + 2 * SMALLEST > c.limit
  {
    hide Inv, NoCollision, NewEntry, Accept, NonEmpty, AllOffers, Slack;
    if Slack(c) + 2 * SMALLEST > c.limit {
      forall offered, ops, x | Ordinary(digest, offered, ops, x)
        ensures Accept(digest, Play(digest, c, ops), x).deposits == [NewEntry(digest, x)]
      {
        EmptiedInv(digest, offered, c);
        StarvedForever(digest, offered, c, ops, x);
      }
    } else {
      var x, y := RoomForTwo(digest, c);
      assert Ordinary(digest, {x, y}, [Store(x)], y);
    }
  }

  lemma {:induction false} EmptiedInv(digest: Digest, offered: set<Deposit>, c: Cache)
    requires Inv(digest, {}, c) && c.deposits == []
    ensures Inv(digest, offered, c) && Slack(c) >= 0
  {
  }

  /** Two one-byte deposits of different times stay side by side. */
  lemma {:induction false} RoomForTwo(digest: Digest, c: Cache) returns (x: Deposit, y: Deposit)
    requires Inv(digest, {}, c) && c.deposits == [] && Slack(c) + 2 * SMALLEST <= c.limit
    ensures Ordinary(digest, {x, y}, [Store(x)], y)
    ensures Accept(digest, Play(digest, c, [Store(x)]), y).deposits != [NewEntry(digest, y)]
  {
    hide Inv, Accept, Slack;
    x, y := Deposit(NO_TAG, [0], 0, 0), Deposit(NO_TAG, [0], 1, 0);
    KeyCarriesTime(digest, x);
    KeyCarriesTime(digest, y);
    var offered := {x, y};
    EmptiedInv(digest, offered, c);
    FirstAlone(digest, offered, c, x);
    var c2 := Accept(digest, c, x);
    assert Play(digest, c, [Store(x)]) == c2 by { PlayOne(digest, c, Store(x)); }
    StarvesExactly(digest, offered, c2, y);
  }

  /** A deposit stored and delivered, `n` times over. */
  function Pairs(digest: Digest, x: Deposit, n: nat): (ops: seq<Op>)
    ensures |ops| == 2 * n && AllOffers(ops, {x})
  {
    if n == 0 then [] else [Store(x)] + ([Deliver(DepositKey(digest, x))] + Pairs(digest, x, n - 1))
  }

  lemma {:induction false} OnePair(digest: Digest, x: Deposit, c: Cache)
    requires Inv(digest, {x}, c) && c.deposits == []
    ensures Keyed(c.deposits) && Keyed(Do(digest, c, Store(x)).deposits)
    ensures var c2 := Do(digest, Do(digest, c, Store(x)), Deliver(DepositKey(digest, x)));
            Inv(digest, {x}, c2) && c2.deposits == [] && Slack(c2) == Slack(c) + 40 && c2.limit == c.limit
  {
    hide Ordered, AllGenuine, IndexExact, StoredBytes, Accept, Slack;
    FirstAlone(digest, {x}, c, x);
    var c1 := Accept(digest, c, x);
    StepKeepsInv(digest, {x}, c1, Deliver(DepositKey(digest, x)));
  }

  lemma {:induction false} PairsLeak(digest: Digest, x: Deposit, c: Cache, n: nat)
    requires Inv(digest, {x}, c) && c.deposits == []
    ensures Keyed(c.deposits)
    ensures var c2 := Play(digest, c, Pairs(digest, x, n));
            Inv(digest, {x}, c2) && c2.deposits == [] && Slack(c2) == Slack(c) + 40 * n && c2.limit == c.limit
    decreases n
  {
    hide Inv, Slack, Do, DepositKey;
    InvKeyed(digest, {x}, c);
    if n > 0 {
      OnePair(digest, x, c);
      var c1 := Do(digest, c, Store(x));
      var deliver := Deliver(DepositKey(digest, x));
      FirstOp(digest, c, Store(x), [deliver] + Pairs(digest, x, n - 1));
      FirstOp(digest, c1, deliver, Pairs(digest, x, n - 1));
      PairsLeak(digest, x, Do(digest, c1, deliver), n - 1);
    }
  }

  /**
   Under the default limit, delivering the same deposit again and again starves the mailbox for ever after exactly
   1 310 718 deliveries, whatever the deposit and the hash.
   */
  lemma {:induction false} DeliveriesStarve(digest: Digest, x: Deposit, n: nat)
    ensures Play(digest, EMPTY, Pairs(digest, x, n)).deposits == []
    ensures Starved(digest, Play(digest, EMPTY, Pairs(digest, x, n))) <==> n >= 1_310_718
  {
    hide Inv, Slack, Starved, Play, Pairs;
    EmptyInv(digest, {x});
    PairsLeak(digest, x, EMPTY, n);
    var c := Play(digest, EMPTY, Pairs(digest, x, n));
    NothingStored(digest, {x}, c);
    StarvedExactly(digest, c);
  }

  lemma NothingStored(digest: Digest, offered: set<Deposit>, c: Cache)
    requires Inv(digest, offered, c) && c.deposits == []
    ensures Inv(digest, {}, c)
  {
  }

  lemma PlayOne(digest: Digest, c: Cache, op: Op)
    requires Keyed(c.deposits)
    ensures Play(digest, c, [op]) == Do(digest, c, op)
  {
    DoKeepsKeys(digest, c, op);
    assert [op][1..] == [];
  }

  /** A deposit accepted into an empty cache is alone there, and adds nothing to the excess. */
  lemma {:induction false} FirstAlone(digest: Digest, offered: set<Deposit>, c: Cache, x: Deposit)
    requires NoCollision(digest, offered) && Inv(digest, offered, c) && x in offered && c.deposits == []
    ensures Inv(digest, offered, Accept(digest, c, x)) && Accept(digest, c, x).deposits == [NewEntry(digest, x)]
    ensures Slack(Accept(digest, c, x)) == Slack(c) && Accept(digest, c, x).limit == c.limit
  {
    AcceptKeepsInv(digest, offered, c, x);
  }

  lemma {:induction false} LimitStays(digest: Digest, offered: set<Deposit>, c: Cache, ops: seq<Op>)
    requires NoCollision(digest, offered) && Inv(digest, offered, c) && AllOffers(ops, offered)
    requires forall i :: 0 <= i < |ops| ==> !ops[i].SetLimit?
    ensures Play(digest, c, ops).limit == c.limit
    decreases |ops|
  {
    hide Ordered, AllGenuine, IndexExact, StoredBytes, Do, NoCollision;
    if |ops| > 0 {
      StepKeepsInv(digest, offered, c, ops[0]);
      assert !ops[0].SetLimit?;
      StepKeepsLimit(digest, offered, c, ops[0]);
      LimitStays(digest, offered, Do(digest, c, ops[0]), ops[1..]);
    }
  }

  lemma {:induction false} StepKeepsLimit(digest: Digest, offered: set<Deposit>, c: Cache, op: Op)
    requires Inv(digest, offered, c) && !op.SetLimit?
    ensures Do(digest, c, op).limit == c.limit
  {
    hide Ordered, AllGenuine, IndexExact, StoredBytes;
    match op
    case Store(x) => {
      var k := EvictionExactly(c, StoredLen(Stored(x.tag, x.envelope)));
      DropKeepsInv(digest, offered, c, k);
    }
    case Deliver(_) => {
    }
    case Sweep(now) => {
      var k := ExpiryExactly(digest, offered, c, now);
      DropKeepsInv(digest, offered, c, k);
    }
  }

  // ---- A run that meets every hypothesis above -----------------------------------------------------

  /**
   Two deposits stored and one of them delivered, under a digest that reads off the nonce: no collision, the
   invariant throughout, one removal, and a counter forty bytes too high.
   */
  lemma {:induction false} StoredTwiceDeliveredOnce() returns (digest: Digest, x: Deposit, y: Deposit, ops: seq<Op>)
    ensures ops == [Store(x), Store(y), Deliver(DepositKey(digest, x))] && x != y
    ensures digest(x) == ToBytes(x.nonce, DIGEST_LEN) && x.nonce <= 1 && |x.envelope| == 1 && x.depositedAt <= 1
    ensures digest(y) == ToBytes(y.nonce, DIGEST_LEN) && y.nonce <= 1 && |y.envelope| == 1 && y.depositedAt <= 1
    ensures NoCollision(digest, Offered(ops)) && NonEmpty(Offered(ops)) && Inv(digest, Offered(ops), EMPTY)
    ensures TotalRemovals(digest, EMPTY, ops) == 1 && TotalCountedTwice(digest, EMPTY, ops) == 0
    ensures Play(digest, EMPTY, ops).deposits == [NewEntry(digest, y)]
    ensures Play(digest, EMPTY, ops).total == StoredBytes(Play(digest, EMPTY, ops).deposits) + 40
  {
    hide NoCollision, Inv, Play, TotalRemovals, TotalCountedTwice, NonEmpty, Offered, NewEntry, DepositKey, StoredBytes, Keyed,
         ToBytes, Pow256;
    digest := (d: Deposit) => ToBytes(d.nonce, DIGEST_LEN);
    x, y := Deposit(NO_TAG, [7], 0, 0), Deposit(NO_TAG, [8], 1, 1);
    ops := [Store(x), Store(y), Deliver(DepositKey(digest, x))];
    TimesApart(digest, x, y);
    OfferedTwo(x, y, DepositKey(digest, x));
    EmptyInv(digest, {x, y});
    BothStored(digest, x, y);
    ThenDelivered(digest, x, y);
    CounterOverRuns(digest, {x, y}, EMPTY, ops);
  }

  lemma {:induction false} TimesApart(digest: Digest, x: Deposit, y: Deposit)
    requires x.depositedAt != y.depositedAt && |x.envelope| > 0 && |y.envelope| > 0
    ensures NoCollision(digest, {x, y}) && NonEmpty({x, y})
  {
    KeyCarriesTime(digest, x);
    KeyCarriesTime(digest, y);
  }

  lemma OfferedTwo(x: Deposit, y: Deposit, key: Bytes)
    ensures Offered([Store(x), Store(y), Deliver(key)]) == {x, y}
  {
    var ops := [Store(x), Store(y), Deliver(key)];
    assert ops[0] == Store(x) && ops[1] == Store(y);
  }

  lemma {:induction false} BothStored(digest: Digest, x: Deposit, y: Deposit)
    requires NoCollision(digest, {x, y}) && x != y && |x.envelope| == |y.envelope| == 1
    ensures var c1 := Accept(digest, EMPTY, x);
            && Keyed(c1.deposits)
            && Roomy(EMPTY, x) == EMPTY && NewEntry(digest, x) !in EMPTY.deposits
            && Roomy(c1, y) == c1 && NewEntry(digest, y) !in c1.deposits
            && NewEntry(digest, x).key != NewEntry(digest, y).key
            && Accept(digest, c1, y).deposits == Insert([NewEntry(digest, x)], NewEntry(digest, y))
  {
    hide NoCollision;
    EmptyInv(digest, {x, y});
    FirstAlone(digest, {x, y}, EMPTY, x);
    assert NewEntry(digest, x).key != NewEntry(digest, y).key by {
      assert x in {x, y} && y in {x, y};
      KeysOfTwo(digest, x, y);
    }
    var c1 := Accept(digest, EMPTY, x);
    AcceptKeepsInv(digest, {x, y}, c1, y);
  }

  lemma KeysOfTwo(digest: Digest, x: Deposit, y: Deposit)
    requires NoCollision(digest, {x, y}) && x != y
    ensures DepositKey(digest, x) != DepositKey(digest, y)
  {
  }

  lemma {:induction false} ThenDelivered(digest: Digest, x: Deposit, y: Deposit)
    requires NoCollision(digest, {x, y}) && x != y && |x.envelope| == |y.envelope| == 1
    ensures var ops := [Store(x), Store(y), Deliver(DepositKey(digest, x))];
            && TotalRemovals(digest, EMPTY, ops) == 1 && TotalCountedTwice(digest, EMPTY, ops) == 0
            && Play(digest, EMPTY, ops).deposits == [NewEntry(digest, y)]
  {
    hide NoCollision, Accept, Roomy, Recounted;
    BothStored(digest, x, y);
    var key := DepositKey(digest, x);
    var c1 := Accept(digest, EMPTY, x);
    var c2 := Accept(digest, c1, y);
    var ops := [Store(x), Store(y), Deliver(key)];
    OneDelivered(digest, c2, x, y);
    NothingRecounted(digest, EMPTY, x);
    NothingRecounted(digest, c1, y);
    FirstOp(digest, EMPTY, Store(x), [Store(y), Deliver(key)]);
    FirstOp(digest, c1, Store(y), [Deliver(key)]);
    FirstOp(digest, c2, Deliver(key), []);
    assert ops == [Store(x)] + [Store(y), Deliver(key)] && [Store(y), Deliver(key)] == [Store(y)] + [Deliver(key)];
    assert [Deliver(key)] == [Deliver(key)] + [];
  }

  lemma {:induction false} FirstOp(digest: Digest, c: Cache, op: Op, rest: seq<Op>)
    requires Keyed(c.deposits)
    ensures Keyed(Do(digest, c, op).deposits)
    ensures Play(digest, c, [op] + rest) == Play(digest, Do(digest, c, op), rest)
    ensures TotalRemovals(digest, c, [op] + rest) == Removals(digest, c, op) + TotalRemovals(digest, Do(digest, c, op), rest)
    ensures TotalCountedTwice(digest, c, [op] + rest) ==
              CountedTwice(digest, c, op) + TotalCountedTwice(digest, Do(digest, c, op), rest)
  {
    hide Do;
    DoKeepsKeys(digest, c, op);
    assert ([op] + rest)[1..] == rest;
  }

  lemma {:induction false} NothingRecounted(digest: Digest, c: Cache, x: Deposit)
    requires Roomy(c, x) == c && NewEntry(digest, x) !in c.deposits
    ensures Recounted(digest, c, x) == 0 && |Roomy(c, x).deposits| == |c.deposits|
  {
  }

  lemma {:induction false} OneDelivered(digest: Digest, c: Cache, x: Deposit, y: Deposit)
    requires NewEntry(digest, x).key != NewEntry(digest, y).key
    requires c.deposits == Insert([NewEntry(digest, x)], NewEntry(digest, y))
    ensures Position(c.deposits, DepositKey(digest, x)) < |c.deposits|
    ensures Remove(c, DepositKey(digest, x)).deposits == [NewEntry(digest, y)]
  {
  }
}
