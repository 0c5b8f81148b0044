/** Sorting naturals: the order in which ids are committed to and timestamps are medianed. */
module Sorting {

  predicate Sorted(s: seq<nat>) {
    forall i, j :: 0 <= i < j < |s| ==> s[i] <= s[j]
  }

  function InsertInOrder(x: nat, s: seq<nat>): seq<nat> {
    if |s| == 0 || x <= s[0] then [x] + s else [s[0]] + InsertInOrder(x, s[1..])
  }

  function Sort(s: seq<nat>): seq<nat> {
    if |s| == 0 then [] else InsertInOrder(s[0], Sort(s[1..]))
  }

  lemma {:induction false} InsertContents(x: nat, s: seq<nat>)
    ensures multiset(InsertInOrder(x, s)) == multiset(s) + multiset{x}
    ensures |InsertInOrder(x, s)| == |s| + 1
  {
    if |s| > 0 && x > s[0] {
      InsertContents(x, s[1..]);
      assert s == [s[0]] + s[1..];
    }
  }

  lemma {:induction false} InsertSorted(x: nat, s: seq<nat>)
    requires Sorted(s)
    ensures Sorted(InsertInOrder(x, s))
  {
    if |s| > 0 && x > s[0] {
      InsertSorted(x, s[1..]);
      var t := InsertInOrder(x, s[1..]);
      InsertContents(x, s[1..]);
      forall i | 0 <= i < |t| ensures s[0] <= t[i] {
        assert t[i] in multiset(t);
        assert t[i] == x || t[i] in s[1..];
      }
    }
  }

  /** Sorting keeps the contents, with multiplicity, and puts them in order. */
  lemma {:induction false} SortIsSort(s: seq<nat>)
    ensures multiset(Sort(s)) == multiset(s) && Sorted(Sort(s)) && |Sort(s)| == |s|
  {
    if |s| > 0 {
      SortIsSort(s[1..]);
      InsertContents(s[0], Sort(s[1..]));
      InsertSorted(s[0], Sort(s[1..]));
      assert s == [s[0]] + s[1..];
    }
  }

  lemma HeadAndTail(s: seq<nat>)
    requires |s| > 0
    ensures multiset(s) == multiset{s[0]} + multiset(s[1..]) && s[0] in multiset(s)
  {
    assert s == [s[0]] + s[1..];
  }

  lemma LeastIsFirst(s: seq<nat>, x: nat)
    requires Sorted(s) && |s| > 0 && x in multiset(s)
    ensures s[0] <= x
  {
    assert x in s;
  }

  lemma SameHead(s: seq<nat>, t: seq<nat>)
    requires Sorted(s) && Sorted(t) && |s| > 0 && |t| > 0 && s[0] in multiset(t) && t[0] in multiset(s)
    ensures s[0] == t[0]
  {
    LeastIsFirst(s, t[0]);
    LeastIsFirst(t, s[0]);
  }

  lemma SameTail(s: seq<nat>, t: seq<nat>)
    requires |s| > 0 && |t| > 0 && s[0] == t[0] && multiset(s) == multiset(t)
    ensures multiset(s[1..]) == multiset(t[1..])
  {
    HeadAndTail(s);
    HeadAndTail(t);
    assert multiset(s[1..]) == multiset(s) - multiset{s[0]};
    assert multiset(t[1..]) == multiset(t) - multiset{t[0]};
  }

  lemma {:induction false} SortedIsUnique(s: seq<nat>, t: seq<nat>)
    requires Sorted(s) && Sorted(t) && multiset(s) == multiset(t)
    ensures s == t
  {
    assert |s| == |multiset(s)| == |multiset(t)| == |t|;
    if |s| > 0 {
      assert s[0] in multiset(t) && t[0] in multiset(s) by {
        HeadAndTail(s);
        HeadAndTail(t);
      }
      SameHead(s, t);
      SameTail(s, t);
      SortedIsUnique(s[1..], t[1..]);
      assert s == [s[0]] + s[1..] && t == [t[0]] + t[1..];
    }
  }

  /** Sorting depends only on the multiset of what is sorted. */
  lemma {:induction false} SortIsCanonical(s: seq<nat>, t: seq<nat>)
    ensures multiset(s) == multiset(t) <==> Sort(s) == Sort(t)
  {
    SortIsSort(s);
    SortIsSort(t);
    if multiset(s) == multiset(t) {
      SortedIsUnique(Sort(s), Sort(t));
    }
  }
}
