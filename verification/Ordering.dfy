/** Sorting a participant set by device identity, and looking one device up in it. */
module Ordering {
  import opened Wrappers

  ghost predicate SortedBy<T(!new)>(key: T -> nat, s: seq<T>) {
    forall i, j | 0 <= i < j < |s| :: key(s[i]) <= key(s[j])
  }

  ghost predicate DistinctBy<T(!new)>(key: T -> nat, s: seq<T>) {
    forall i, j | 0 <= i < j < |s| :: key(s[i]) != key(s[j])
  }

  function Insert<T>(key: T -> nat, x: T, s: seq<T>): (r: seq<T>) {
    if s == [] || key(x) <= key(s[0]) then [x] + s else [s[0]] + Insert(key, x, s[1..])
  }

  /** The library sort by key. */
  function Sort<T>(key: T -> nat, s: seq<T>): (r: seq<T>) {
    if s == [] then [] else Insert(key, s[0], Sort(key, s[1..]))
  }

  lemma {:induction false} InsertPermutes<T>(key: T -> nat, x: T, s: seq<T>)
    ensures multiset(Insert(key, x, s)) == multiset(s) + multiset{x}
  {
    if s == [] || key(x) <= key(s[0]) {
    } else {
      InsertPermutes(key, x, s[1..]);
      assert s == [s[0]] + s[1..];
    }
  }

  lemma {:induction false} InsertSorts<T(!new)>(key: T -> nat, x: T, s: seq<T>)
    requires SortedBy(key, s)
    ensures SortedBy(key, Insert(key, x, s))
  {
    if s == [] || key(x) <= key(s[0]) {
    } else {
      InsertSorts(key, x, s[1..]);
      var r := Insert(key, x, s[1..]);
      forall i | 0 <= i < |r|
        ensures key(s[0]) <= key(r[i])
      {
        InsertPermutes(key, x, s[1..]);
        assert r[i] in multiset(r);
        assert r[i] == x || r[i] in s[1..];
      }
    }
  }

  lemma {:induction false} SortSorts<T(!new)>(key: T -> nat, s: seq<T>)
    ensures SortedBy(key, Sort(key, s))
    ensures multiset(Sort(key, s)) == multiset(s)
  {
    if s == [] {
    } else {
      SortSorts(key, s[1..]);
      InsertSorts(key, s[0], Sort(key, s[1..]));
      InsertPermutes(key, s[0], Sort(key, s[1..]));
      assert s == [s[0]] + s[1..];
    }
  }

  lemma SortMember<T(!new)>(key: T -> nat, s: seq<T>, i: nat)
    requires i < |Sort(key, s)|
    ensures Sort(key, s)[i] in s
  {
    SortSorts(key, s);
    assert Sort(key, s)[i] in multiset(Sort(key, s));
  }

  lemma DistinctFromMultiset<T(!new)>(key: T -> nat, a: seq<T>, b: seq<T>)
    requires DistinctBy(key, a) && multiset(a) == multiset(b)
    ensures DistinctBy(key, b)
  {
    assert |a| == |multiset(a)| == |b|;
    forall i, j | 0 <= i < j < |b|
      ensures key(b[i]) != key(b[j])
    {
      if key(b[i]) == key(b[j]) {
        assert b[i] in multiset(b) && b[j] in multiset(b);
        var k :| 0 <= k < |a| && a[k] == b[i];
        var l :| 0 <= l < |a| && a[l] == b[j];
        assert k == l;
        Twice(b, i, j);
        Once(key, a, k);
      }
    }
  }

  lemma Twice<T>(s: seq<T>, i: nat, j: nat)
    requires i < j < |s| && s[i] == s[j]
    ensures multiset(s)[s[i]] >= 2
  {
    assert s == s[..i] + [s[i]] + s[i+1..j] + [s[j]] + s[j+1..];
  }

  lemma Once<T(!new)>(key: T -> nat, s: seq<T>, k: nat)
    requires k < |s| && DistinctBy(key, s)
    ensures multiset(s)[s[k]] == 1
  {
    assert s == s[..k] + [s[k]] + s[k+1..];
    assert s[k] !in s[..k] && s[k] !in s[k+1..];
  }

  lemma SameHead<T(!new)>(key: T -> nat, a: seq<T>, b: seq<T>)
    requires SortedBy(key, a) && SortedBy(key, b) && DistinctBy(key, a)
    requires multiset(a) == multiset(b) && a != [] && b != []
    ensures a[0] == b[0]
  {
    assert a[0] in multiset(b) && b[0] in multiset(a);
    var k :| 0 <= k < |b| && b[k] == a[0];
    var l :| 0 <= l < |a| && a[l] == b[0];
    assert key(b[0]) <= key(b[k]) && key(a[0]) <= key(a[l]);
    assert l == 0;
  }

  lemma SameLength<T>(a: seq<T>, b: seq<T>)
    requires multiset(a) == multiset(b)
    ensures |a| == |b|
  {
    assert |a| == |multiset(a)| == |multiset(b)| == |b|;
  }

  lemma HeadAndTail<T>(a: seq<T>, b: seq<T>)
    requires a != [] && b != [] && a[0] == b[0] && a[1..] == b[1..]
    ensures a == b
  {
    assert a == [a[0]] + a[1..] && b == [b[0]] + b[1..];
  }

  /** A strictly sorted arrangement of a set of keyed values is unique. */
  lemma {:induction false} SortedIsUnique<T(!new)>(key: T -> nat, a: seq<T>, b: seq<T>)
    requires SortedBy(key, a) && SortedBy(key, b) && DistinctBy(key, a)
    requires multiset(a) == multiset(b)
    ensures a == b
  {
    hide SortedBy, DistinctBy;
    SameLength(a, b);
    if a != [] {
      SameHead(key, a, b);
      TailMultiset(a);
      TailMultiset(b);
      TailKeepsOrder(key, a);
      TailKeepsOrder(key, b);
      SortedIsUnique(key, a[1..], b[1..]);
      HeadAndTail(a, b);
    }
  }

  lemma TailKeepsOrder<T(!new)>(key: T -> nat, s: seq<T>)
    requires s != []
    ensures SortedBy(key, s) ==> SortedBy(key, s[1..])
    ensures DistinctBy(key, s) ==> DistinctBy(key, s[1..])
  {
  }

  lemma TailMultiset<T>(s: seq<T>)
    requires s != []
    ensures multiset(s[1..]) == multiset(s) - multiset{s[0]}
  {
    assert s == [s[0]] + s[1..];
  }

  /** Sorting forgets the order in which the caller listed a set of distinct keys. */
  lemma SortIgnoresOrder<T(!new)>(key: T -> nat, a: seq<T>, b: seq<T>)
    requires multiset(a) == multiset(b) && DistinctBy(key, a)
    ensures Sort(key, a) == Sort(key, b)
  {
    SortSorts(key, a);
    SortSorts(key, b);
    DistinctFromMultiset(key, a, Sort(key, a));
    SortedIsUnique(key, Sort(key, a), Sort(key, b));
  }

  lemma SortKeepsStrict<T(!new)>(key: T -> nat, s: seq<T>)
    requires forall i, j | 0 <= i < j < |s| :: key(s[i]) < key(s[j])
    ensures Sort(key, s) == s
  {
    SortSorts(key, s);
    SortedIsUnique(key, s, Sort(key, s));
  }
}
