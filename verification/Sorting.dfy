/** A stable sort by a key, as `sort_by_key`. */
module Sorting {

  ghost predicate SortedBy<T>(key: T -> int, s: seq<T>) {
    forall i, j :: 0 <= i < j < |s| ==> key(s[i]) <= key(s[j])
  }

  /** `x` after every element whose key is at most its own. */
  function Insert<T>(key: T -> int, s: seq<T>, x: T): seq<T> {
    if s == [] || key(s[|s| - 1]) <= key(x) then s + [x]
    else Insert(key, s[..|s| - 1], x) + [s[|s| - 1]]
  }

  function SortBy<T>(key: T -> int, s: seq<T>): seq<T> {
    if s == [] then [] else Insert(key, SortBy(key, s[..|s| - 1]), s[|s| - 1])
  }

  lemma {:induction false} InsertKeeps<T>(key: T -> int, s: seq<T>, x: T)
    ensures multiset(Insert(key, s, x)) == multiset(s) + multiset{x}
  {
    if s != [] && key(s[|s| - 1]) > key(x) {
      InsertKeeps(key, s[..|s| - 1], x);
      assert s == s[..|s| - 1] + [s[|s| - 1]];
    }
  }

  lemma {:induction false} InsertSorted<T>(key: T -> int, s: seq<T>, x: T)
    requires SortedBy(key, s)
    ensures SortedBy(key, Insert(key, s, x))
  {
    if s != [] && key(s[|s| - 1]) > key(x) {
      var front, last := s[..|s| - 1], s[|s| - 1];
      InsertSorted(key, front, x);
      InsertKeeps(key, front, x);
      var t := Insert(key, front, x);
      forall i | 0 <= i < |t| ensures key(t[i]) <= key(last) {
        assert t[i] in multiset(t);
        assert t[i] == x || t[i] in front;
      }
    }
  }

  lemma {:induction false} SortBySorted<T>(key: T -> int, s: seq<T>)
    ensures SortedBy(key, SortBy(key, s))
    ensures multiset(SortBy(key, s)) == multiset(s)
    ensures |SortBy(key, s)| == |s|
  {
    if s != [] {
      var front := s[..|s| - 1];
      assert s == front + [s[|s| - 1]];
      SortBySorted(key, front);
      InsertSorted(key, SortBy(key, front), s[|s| - 1]);
      InsertKeeps(key, SortBy(key, front), s[|s| - 1]);
      assert |multiset(SortBy(key, s))| == |SortBy(key, s)|;
      assert |multiset(s)| == |s|;
    }
  }

  lemma SortByMember<T>(key: T -> int, s: seq<T>, i: nat)
    requires i < |SortBy(key, s)|
    ensures SortBy(key, s)[i] in s
  {
    SortBySorted(key, s);
    assert SortBy(key, s)[i] in multiset(s);
  }

  /** Sorting leaves a sorted sequence as it is. */
  lemma {:induction false} SortBySame<T>(key: T -> int, s: seq<T>)
    requires SortedBy(key, s)
    ensures SortBy(key, s) == s
  {
    if s != [] {
      SortBySame(key, s[..|s| - 1]);
    }
  }
}
