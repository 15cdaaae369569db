/** Insertion sort by a string key, ascending or descending: the model of
    Go's sort.Strings and of sort.Slice with a `Date >` comparison. Only the
    resulting order matters to the modelled code, not the algorithm. */
module Sorting {

  import opened Strings

  /** `a` may come before `b` in the requested direction. */
  predicate InOrder(a: string, b: string, descending: bool) {
    if descending then StrLe(b, a) else StrLe(a, b)
  }

  ghost predicate SortedBy<T>(s: seq<T>, key: T -> string, descending: bool) {
    forall i, j :: 0 <= i < j < |s| ==> InOrder(key(s[i]), key(s[j]), descending)
  }

  lemma InOrderTransitive(a: string, b: string, c: string, descending: bool)
    requires InOrder(a, b, descending) && InOrder(b, c, descending)
    ensures InOrder(a, c, descending)
  {
    if descending { StrLeTransitive(c, b, a); } else { StrLeTransitive(a, b, c); }
  }

  lemma InOrderTotal(a: string, b: string, descending: bool)
    ensures InOrder(a, b, descending) || InOrder(b, a, descending)
  {
    StrLeTotal(a, b);
  }

  /** `x` inserted into a sorted sequence in front of the first element it may precede. */
  function Insert<T>(x: T, s: seq<T>, key: T -> string, descending: bool): (r: seq<T>)
    requires SortedBy(s, key, descending)
    ensures SortedBy(r, key, descending)
    ensures multiset(r) == multiset(s) + multiset{x}
    ensures |r| == |s| + 1
    decreases |s|
  {
    if |s| == 0 then [x]
    else if InOrder(key(x), key(s[0]), descending) then
      forall j | 0 <= j < |s| ensures InOrder(key(x), key(s[j]), descending) {
        if j > 0 { InOrderTransitive(key(x), key(s[0]), key(s[j]), descending); }
      }
      ConsSorted(x, s, key, descending);
      [x] + s
    else
      InOrderTotal(key(x), key(s[0]), descending);
      var rest := Insert(x, s[1..], key, descending);
      HeadBeforeInserted(s, x, rest, key, descending);
      ConsSorted(s[0], rest, key, descending);
      assert s == [s[0]] + s[1..];
      [s[0]] + rest
  }

  /** A sorted sequence stays sorted behind an element that may precede
      every one of its elements. */
  lemma ConsSorted<T>(h: T, t: seq<T>, key: T -> string, descending: bool)
    requires SortedBy(t, key, descending)
    requires forall j :: 0 <= j < |t| ==> InOrder(key(h), key(t[j]), descending)
    ensures SortedBy([h] + t, key, descending)
  {
    var r := [h] + t;
    forall i, j | 0 <= i < j < |r| ensures InOrder(key(r[i]), key(r[j]), descending) {
      assert r[j] == t[j - 1];
      if i > 0 { assert r[i] == t[i - 1]; }
    }
  }

  /** The head of a sorted sequence may precede everything of its tail with
      `x` inserted, when it may precede `x`. */
  lemma HeadBeforeInserted<T>(s: seq<T>, x: T, rest: seq<T>, key: T -> string, descending: bool)
    requires |s| > 0 && SortedBy(s, key, descending) && InOrder(key(s[0]), key(x), descending)
    requires multiset(rest) == multiset(s[1..]) + multiset{x}
    ensures forall j :: 0 <= j < |rest| ==> InOrder(key(s[0]), key(rest[j]), descending)
  {
    forall j | 0 <= j < |rest| ensures InOrder(key(s[0]), key(rest[j]), descending) {
      assert rest[j] in multiset(rest);
      if rest[j] != x {
        assert rest[j] in multiset(s[1..]);
        var k :| 0 <= k < |s[1..]| && s[1..][k] == rest[j];
        assert s[k + 1] == rest[j];
      }
    }
  }

  function Sort<T>(s: seq<T>, key: T -> string, descending: bool): (r: seq<T>)
    ensures SortedBy(r, key, descending)
    ensures multiset(r) == multiset(s)
    ensures |r| == |s|
    decreases |s|
  {
    if |s| == 0 then []
    else
      var t := Sort(s[1..], key, descending);
      MultisetCons(s);
      Insert(s[0], t, key, descending)
  }

  function Id(s: string): string { s }

  /** Go's sort.Strings: ascending byte order. */
  function SortStrings(s: seq<string>): (r: seq<string>)
    ensures SortedBy(r, Id, false)
    ensures multiset(r) == multiset(s)
  {
    Sort(s, Id, false)
  }

  lemma MultisetCons<T>(a: seq<T>)
    requires |a| > 0
    ensures multiset(a) == multiset(a[1..]) + multiset{a[0]}
  {
    assert a == [a[0]] + a[1..];
  }

  lemma MultisetTail<T>(a: seq<T>)
    requires |a| > 0
    ensures multiset(a[1..]) == multiset(a) - multiset{a[0]}
  {
    assert a == [a[0]] + a[1..];
    assert multiset(a) == multiset([a[0]]) + multiset(a[1..]);
  }

  /** Two sequences of strings sorted ascending with the same elements are
      equal: the sorted order is independent of the order of the input. */
  lemma {:induction false} SortedUnique(a: seq<string>, b: seq<string>)
    requires SortedBy(a, Id, false) && SortedBy(b, Id, false)
    requires multiset(a) == multiset(b)
    ensures a == b
    decreases |a|
  {
    assert |a| == |multiset(a)| == |b|;
    if |a| > 0 {
      assert a[0] in multiset(b);
      var k :| 0 <= k < |b| && b[k] == a[0];
      assert b[0] in multiset(a);
      var m :| 0 <= m < |a| && a[m] == b[0];
      assert StrLe(b[0], b[k]) by { if k > 0 { assert InOrder(Id(b[0]), Id(b[k]), false); } else { StrLeTotal(b[0], b[0]); } }
      assert StrLe(a[0], a[m]) by { if m > 0 { assert InOrder(Id(a[0]), Id(a[m]), false); } else { StrLeTotal(a[0], a[0]); } }
      assert StrLe(b[0], a[0]) && StrLe(a[0], b[0]);
      StrLeAntisymmetric(a[0], b[0]);
      assert a[0] == b[0];
      MultisetTail(a);
      MultisetTail(b);
      SortedUnique(a[1..], b[1..]);
    }
  }
}
