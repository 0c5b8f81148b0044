/** The mailbox cache as the program holds it: a table iterated in key order, an index, a counter, changed in place. */
module MailboxObject {
  import opened Prelude
  import opened BigEndian
  import opened MailboxRules
  import R = MailboxRuns

  datatype CachedDeposit = CachedDeposit(key: Bytes, envelope: Bytes)

  ghost predicate KeysOrdered(s: seq<Bytes>) {
    && (forall i :: 0 <= i < |s| ==> |s[i]| == DEPOSIT_KEY_LEN)
    && (forall i, j :: 0 <= i < j < |s| ==> LexLess(s[i], s[j]))
  }

  function InsertKey(s: seq<Bytes>, key: Bytes): seq<Bytes>
    requires |key| == DEPOSIT_KEY_LEN && forall i :: 0 <= i < |s| ==> |s[i]| == DEPOSIT_KEY_LEN
  {
    if |s| == 0 || LexLess(key, s[0]) then [key] + s else [s[0]] + InsertKey(s[1..], key)
  }

  lemma {:induction false} InsertKeyOrdered(s: seq<Bytes>, key: Bytes)
    requires KeysOrdered(s) && |key| == DEPOSIT_KEY_LEN && key !in s
    ensures KeysOrdered(InsertKey(s, key)) && forall k :: k in InsertKey(s, key) <==> k == key || k in s
  {
    if |s| > 0 {
      assert s == [s[0]] + s[1..];
      if LexLess(key, s[0]) {
        forall j | 0 < j < |s| ensures LexLess(key, s[j]) {
          LexTransitive(key, s[0], s[j]);
        }
      } else {
        LexTotal(key, s[0]);
        InsertKeyOrdered(s[1..], key);
        var t := InsertKey(s[1..], key);
        forall j | 0 <= j < |t| ensures LexLess(s[0], t[j]) {
          assert t[j] == key || t[j] in s[1..];
        }
      }
    }
  }

  method SortKeys(keys: set<Bytes>) returns (s: seq<Bytes>)
    requires forall k :: k in keys ==> |k| == DEPOSIT_KEY_LEN
    ensures KeysOrdered(s) && forall k :: k in s <==> k in keys
  {
    s := [];
    var remaining := keys;
    while remaining != {}
      invariant remaining <= keys && KeysOrdered(s)
      invariant forall k :: k in s <==> k in keys && k !in remaining
      decreases |remaining|
    {
      var key :| key in remaining;
      InsertKeyOrdered(s, key);
      s := InsertKey(s, key);
      remaining := remaining - {key};
    }
  }

  /** Tables in key order with the same entries are the same. */
  lemma {:induction false} OrderedIsUnique(s: seq<Entry>, t: seq<Entry>)
    requires Keyed(s) && Ordered(s) && Keyed(t) && Ordered(t) && forall e :: e in s <==> e in t
    ensures s == t
    decreases |s|
  {
    EmptyTogether(s, t);
    if |s| > 0 {
      LeastFirst(s, t);
      TailExactly(s);
      TailExactly(t);
      OrderedIsUnique(s[1..], t[1..]);
    }
  }

  lemma {:induction false} EmptyTogether(s: seq<Entry>, t: seq<Entry>)
    requires forall e :: e in s <==> e in t
    ensures |s| == 0 <==> |t| == 0
    ensures |s| > 0 ==> s[0] in t && t[0] in s
  {
    if |s| > 0 {
      assert s[0] in t;
    }
    if |t| > 0 {
      assert t[0] in s;
    }
  }

  lemma {:induction false} FirstIsLeast(s: seq<Entry>, e: Entry)
    requires Keyed(s) && Ordered(s) && |s| > 0 && e in s
    ensures |e.key| == DEPOSIT_KEY_LEN && (e == s[0] || LexLess(s[0].key, e.key))
  {
    var i :| 0 <= i < |s| && s[i] == e;
  }

  lemma {:induction false} LeastFirst(s: seq<Entry>, t: seq<Entry>)
    requires Keyed(s) && Ordered(s) && Keyed(t) && Ordered(t) && |s| > 0 && |t| > 0 && s[0] in t && t[0] in s
    ensures s[0] == t[0]
  {
    hide LexLess, Ordered;
    FirstIsLeast(s, t[0]);
    FirstIsLeast(t, s[0]);
    LexTotal(s[0].key, t[0].key);
  }

  /** The tail holds everything but the head. */
  lemma {:induction false} TailExactly(s: seq<Entry>)
    requires Keyed(s) && Ordered(s) && |s| > 0
    ensures forall e :: e in s[1..] <==> e in s && e != s[0]
  {
    assert s == [s[0]] + s[1..];
    HeadIsLeast(s, s[0].key);
    forall i | 0 <= i < |s[1..]| ensures s[1..][i] != s[0] {
      assert s[1..][i] == s[i + 1];
    }
  }

  lemma {:induction false} KeyDeterminesEntry(s: seq<Entry>, d: Entry, e: Entry)
    requires Keyed(s) && Ordered(s) && d in s && e in s && d.key == e.key
    ensures d == e
  {
    hide LexLess, Ordered;
    var a :| 0 <= a < |s| && s[a] == d;
    var b :| 0 <= b < |s| && s[b] == e;
    if a != b {
      R.KeysDiffer(s, a, b);
    }
  }

  class MailboxStore {
    const digest: Digest
    ghost var offered: set<Deposit>
    var deposits: seq<Entry>
    var byTag: set<(Bytes, Bytes)>
    var totalBytes: nat
    var limitBytes: nat

    function Value(): Cache
      reads this
    {
      Cache(deposits, byTag, totalBytes, limitBytes)
    }

    ghost predicate Valid()
      reads this
    {
      NoCollision(digest, offered) && Inv(digest, offered, Value())
    }

    constructor (digest: Digest)
      ensures Valid() && this.digest == digest && Value() == R.EMPTY && offered == {}
    {
      this.digest, offered := digest, {};
      deposits, byTag, totalBytes, limitBytes := [], {}, 0, 50 * 1024 * 1024;
      new;
      R.EmptyInv(digest, offered);
    }

    method SetLimitBytes(limit: nat)
      requires Valid()
      modifies this`limitBytes
      ensures Valid() && Value() == old(Value()).(limit := limit)
    {
      R.LimitIrrelevant(digest, offered, Value(), limit);
      limitBytes := limit;
    }

    /** Takes one entry out of both tables and its envelope's length off the counter. */
    method RemoveLocked(i: nat)
      requires i < |deposits|
      modifies this`deposits, this`byTag, this`totalBytes
      ensures Value() == RemoveAt(old(Value()), i)
    {
      var e := deposits[i];
      deposits := deposits[..i] + deposits[i + 1..];
      byTag := byTag - {(e.stored.tag, e.key)};
      totalBytes := SatSub(totalBytes, |e.stored.envelope|);
    }

    method EvictOldest() returns (evicted: bool)
      modifies this`deposits, this`byTag, this`totalBytes
      ensures (Value(), evicted) == MailboxRules.EvictOldest(old(Value()))
    {
      if |deposits| == 0 {
        return false;
      }
      RemoveLocked(0);
      evicted := true;
    }

    method EvictUntilRoomFor(additional: nat)
      modifies this`deposits, this`byTag, this`totalBytes
      ensures Value() == MailboxRules.EvictUntilRoomFor(old(Value()), additional)
    {
      while totalBytes + additional > limitBytes
        invariant MailboxRules.EvictUntilRoomFor(old(Value()), additional) == MailboxRules.EvictUntilRoomFor(Value(), additional)
        decreases |deposits|
      {
        var evicted := EvictOldest();
        if !evicted {
          return;
        }
      }
    }

    /** The deposit's key must differ from those of all other deposits so far. */
    method Accept(x: Deposit)
      requires Valid() && NoCollision(digest, offered + {x})
      modifies this`deposits, this`byTag, this`totalBytes, this`offered
      ensures Valid() && Value() == MailboxRules.Accept(digest, old(Value()), x) && offered == old(offered) + {x}
    {
      hide Inv, Insert, NoCollision;
      R.InvGrows(digest, offered, offered + {x}, Value());
      offered := offered + {x};
      R.AcceptKeepsInv(digest, offered, Value(), x);
      var key, stored := DepositKey(digest, x), Stored(x.tag, x.envelope);
      EvictUntilRoomFor(StoredLen(stored));
      deposits := Insert(deposits, Entry(key, stored));
      byTag := byTag + {(x.tag, key)};
      totalBytes := totalBytes + StoredLen(stored);
    }

    method Remove(key: Bytes)
      requires Valid()
      modifies this`deposits, this`byTag, this`totalBytes
      ensures Valid() && Value() == MailboxRules.Remove(old(Value()), key)
    {
      hide Inv, Position;
      var i := Position(deposits, key);
      if i < |deposits| {
        R.RemoveKeepsInv(digest, offered, Value(), i);
        RemoveLocked(i);
      }
    }

    method EvictExpired(now: nat)
      requires Valid()
      modifies this`deposits, this`byTag, this`totalBytes
      ensures Valid() && Value() == MailboxRules.EvictExpired(old(Value()), now)
    {
      while |deposits| > 0
        invariant Valid()
        invariant MailboxRules.EvictExpired(old(Value()), now) == MailboxRules.EvictExpired(Value(), now)
        decreases |deposits|
      {
        if SatSub(now, KeyTime(deposits[0].key)) <= RETENTION_SECS {
          return;
        }
        R.RemoveKeepsInv(digest, offered, Value(), 0);
        RemoveLocked(0);
      }
    }

    /** Looks up each key in turn. */
    method LookUp(tag: Bytes, keys: seq<Bytes>) returns (out: seq<CachedDeposit>, ghost entries: seq<Entry>)
      requires Valid() && forall i :: 0 <= i < |keys| ==> PairOf(deposits, (tag, keys[i]))
      ensures LookedUp(tag, keys, entries) && |out| == |keys|
      ensures forall i :: 0 <= i < |out| ==> out[i] == CachedDeposit(entries[i].key, entries[i].stored.envelope)
    {
      hide Inv, PairOf, Position;
      out, entries := [], [];
      for i := 0 to |keys|
        invariant |out| == |entries| == i
        invariant LookedUp(tag, keys[..i], entries)
        invariant forall j :: 0 <= j < i ==> out[j] == CachedDeposit(entries[j].key, entries[j].stored.envelope)
      {
        var at := Position(deposits, keys[i]);
        EntryOfKey(tag, keys[i]);
        out := out + [CachedDeposit(keys[i], deposits[at].stored.envelope)];
        entries := entries + [deposits[at]];
      }
      assert keys[..|keys|] == keys;
    }

    /** Collects the tag's keys from the index, sorts them, and looks each one up. */
    method ForTag(tag: Bytes) returns (out: seq<CachedDeposit>)
      requires Valid()
      ensures var u := UnderTag(deposits, tag);
              |out| == |u| && forall i :: 0 <= i < |out| ==> out[i] == CachedDeposit(u[i].key, u[i].stored.envelope)
    {
      hide Inv, PairOf, UnderTag;
      var wanted := set p | p in byTag && p.0 == tag :: p.1;
      WantedKeys(tag, wanted);
      var keys := SortKeys(wanted);
      forall i | 0 <= i < |keys| ensures PairOf(deposits, (tag, keys[i])) {
        assert keys[i] in wanted;
      }
      ghost var entries;
      out, entries := LookUp(tag, keys);
      AllLookedUp(tag, keys, entries);
    }

    /** The entries of `keys`, each under the tag. */
    ghost predicate LookedUp(tag: Bytes, keys: seq<Bytes>, entries: seq<Entry>)
      reads this
    {
      |entries| == |keys|
      && forall j :: 0 <= j < |keys| ==> entries[j] in deposits && entries[j].key == keys[j] && entries[j].stored.tag == tag
    }

    /** The keys the index holds for a tag are the keys of its deposits. */
    lemma WantedKeys(tag: Bytes, wanted: set<Bytes>)
      requires Valid() && wanted == set p | p in byTag && p.0 == tag :: p.1
      ensures forall k :: k in wanted ==> |k| == DEPOSIT_KEY_LEN && PairOf(deposits, (tag, k))
      ensures forall e :: e in deposits && e.stored.tag == tag ==> e.key in wanted
    {
      forall k | k in wanted ensures |k| == DEPOSIT_KEY_LEN && PairOf(deposits, (tag, k)) {
        assert (tag, k) in byTag;
      }
      forall e | e in deposits && e.stored.tag == tag ensures e.key in wanted {
        R.PairAt(deposits, e);
        assert (tag, e.key) in byTag;
      }
    }

    lemma EntryOfKey(tag: Bytes, key: Bytes)
      requires Valid() && PairOf(deposits, (tag, key))
      ensures Position(deposits, key) < |deposits| && deposits[Position(deposits, key)].stored.tag == tag
    {
      var i :| 0 <= i < |deposits| && (tag, key) == (deposits[i].stored.tag, deposits[i].key);
      var at := Position(deposits, key);
      if at != i {
        R.KeysDiffer(deposits, at, i);
      }
    }

    lemma AllLookedUp(tag: Bytes, keys: seq<Bytes>, entries: seq<Entry>)
      requires Valid() && KeysOrdered(keys) && LookedUp(tag, keys, entries)
      requires forall e :: e in deposits && e.stored.tag == tag ==> e.key in keys
      ensures entries == UnderTag(deposits, tag)
    {
      hide LexLess, UnderTag, AllGenuine, IndexExact;
      R.LookupExactly(deposits, tag);
      forall e | e in deposits && e.stored.tag == tag ensures e in entries {
        var j :| 0 <= j < |keys| && keys[j] == e.key;
        KeyDeterminesEntry(deposits, e, entries[j]);
      }
      OrderedIsUnique(entries, UnderTag(deposits, tag));
    }

    lemma IndexedTags(all: set<Bytes>)
      requires Valid() && all == set p | p in byTag :: p.0
      ensures forall t :: t in all <==> exists e :: e in deposits && e.stored.tag == t
    {
      forall t ensures t in all <==> exists e :: e in deposits && e.stored.tag == t {
        if t in all {
          var p :| p in byTag && p.0 == t;
          assert PairOf(deposits, p);
          var i :| 0 <= i < |deposits| && p == (deposits[i].stored.tag, deposits[i].key);
          assert deposits[i] in deposits;
        }
        if e :| e in deposits && e.stored.tag == t {
          R.PairAt(deposits, e);
          assert (t, e.key) in byTag;
        }
      }
    }

    /** Each tag with a deposit, once. */
    method DistinctTags() returns (tags: seq<Bytes>)
      requires Valid()
      ensures forall i, j :: 0 <= i < j < |tags| ==> tags[i] != tags[j]
      ensures forall t :: t in tags <==> exists e :: e in deposits && e.stored.tag == t
    {
      var remaining := set p | p in byTag :: p.0;
      ghost var all := remaining;
      tags := [];
      while remaining != {}
        invariant remaining <= all
        invariant forall i, j :: 0 <= i < j < |tags| ==> tags[i] != tags[j]
        invariant forall t :: t in tags <==> t in all && t !in remaining
        decreases |remaining|
      {
        var t :| t in remaining;
        tags := tags + [t];
        remaining := remaining - {t};
      }
      IndexedTags(all);
    }
  }
}
