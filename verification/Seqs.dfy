/** Sequence helpers: concatenation and prefix sums. */
module Seqs {

  function AtLeastOne(n: nat): nat { if n == 0 then 1 else n }

  function Concat<T>(ss: seq<seq<T>>): seq<T> {
    if ss == [] then [] else ss[0] + Concat(ss[1..])
  }

  lemma {:induction false} ConcatAppend<T>(a: seq<seq<T>>, b: seq<seq<T>>)
    ensures Concat(a + b) == Concat(a) + Concat(b)
  {
    if a == [] {
      assert a + b == b;
    } else {
      assert (a + b)[1..] == a[1..] + b;
      ConcatAppend(a[1..], b);
    }
  }

  lemma ConcatSnoc<T>(a: seq<seq<T>>, x: seq<T>)
    ensures Concat(a + [x]) == Concat(a) + x
  {
    ConcatAppend(a, [x]);
    assert Concat([x]) == x;
  }

  /** One part of a concatenation is the slice at its prefix length. */
  lemma ConcatPart<T>(ss: seq<seq<T>>, k: nat)
    requires k < |ss|
    ensures |Concat(ss[..k + 1])| == |Concat(ss[..k])| + |ss[k]|
    ensures |Concat(ss[..k + 1])| <= |Concat(ss)|
    ensures Concat(ss)[|Concat(ss[..k])|..|Concat(ss[..k + 1])|] == ss[k]
  {
    ConcatSnoc(ss[..k], ss[k]);
    assert ss[..k] + [ss[k]] == ss[..k + 1];
    ConcatAppend(ss[..k + 1], ss[k + 1..]);
    assert ss[..k + 1] + ss[k + 1..] == ss;
  }

  lemma {:induction false} MulOrder(a: nat, b: nat, m: nat)
    requires a <= b
    ensures a * m <= b * m
    decreases b
  {
    if a < b {
      MulOrder(a, b - 1, m);
      assert b * m == (b - 1) * m + m;
    }
  }

  lemma ConcatNext<T>(ss: seq<seq<T>>, k: nat)
    requires k < |ss|
    ensures Concat(ss[..k + 1]) == Concat(ss[..k]) + ss[k]
  {
    hide Concat;
    assert ss[..k] + [ss[k]] == ss[..k + 1];
    ConcatSnoc(ss[..k], ss[k]);
  }

  lemma ConcatTake<T>(ss: seq<seq<T>>, m: nat)
    requires m <= |ss|
    ensures |Concat(ss[..m])| <= |Concat(ss)| && Concat(ss[..m]) == Concat(ss)[..|Concat(ss[..m])|]
  {
    hide Concat;
    ConcatAppend(ss[..m], ss[m..]);
    assert ss[..m] + ss[m..] == ss;
  }

  lemma SliceThen<T>(s: seq<T>, lo: nat, mid: nat, hi: nat)
    requires lo <= mid <= hi <= |s|
    ensures s[lo..hi] == s[lo..mid] + s[mid..hi]
  {}

  lemma SliceSlice<T>(s: seq<T>, lo: nat, hi: nat, i: nat, j: nat)
    requires lo <= hi <= |s| && i <= j <= hi - lo
    ensures s[lo..hi][i..j] == s[lo + i..lo + j]
  {
    var a, b := s[lo..hi][i..j], s[lo + i..lo + j];
    assert |a| == |b|;
    assert forall k :: 0 <= k < |a| ==> a[k] == b[k];
  }

  function Sum(ns: seq<nat>): nat {
    if ns == [] then 0 else ns[0] + Sum(ns[1..])
  }

  lemma {:induction false} SumAppend(a: seq<nat>, b: seq<nat>)
    ensures Sum(a + b) == Sum(a) + Sum(b)
  {
    if a == [] {
      assert a + b == b;
    } else {
      assert (a + b)[1..] == a[1..] + b;
      SumAppend(a[1..], b);
    }
  }

  /** The sum of the first `k + 1` numbers, as a loop adds them up. */
  lemma SumNext(ns: seq<nat>, k: nat)
    requires k < |ns|
    ensures Sum(ns[..k + 1]) == Sum(ns[..k]) + ns[k]
  {
    SumAppend(ns[..k], [ns[k]]);
    assert ns[..k] + [ns[k]] == ns[..k + 1];
  }

  lemma SumMonotone(ns: seq<nat>, i: nat, j: nat)
    requires i <= j <= |ns|
    ensures Sum(ns[..i]) <= Sum(ns[..j]) <= Sum(ns)
  {
    SumAppend(ns[..i], ns[i..j]);
    assert ns[..i] + ns[i..j] == ns[..j];
    SumAppend(ns[..j], ns[j..]);
    assert ns[..j] + ns[j..] == ns;
  }

  function Lengths<T>(ss: seq<seq<T>>): seq<nat> {
    seq(|ss|, i requires 0 <= i < |ss| => |ss[i]|)
  }

  /** A concatenation is as long as its parts together. */
  lemma {:induction false} ConcatLength<T>(ss: seq<seq<T>>)
    ensures |Concat(ss)| == Sum(Lengths(ss))
  {
    if ss != [] {
      ConcatLength(ss[1..]);
      assert Lengths(ss)[1..] == Lengths(ss[1..]);
    }
  }

  lemma ConcatPrefixLength<T>(ss: seq<seq<T>>, k: nat)
    requires k <= |ss|
    ensures |Concat(ss[..k])| == Sum(Lengths(ss)[..k]) <= |Concat(ss)|
  {
    ConcatLength(ss[..k]);
    assert Lengths(ss[..k]) == Lengths(ss)[..k];
    ConcatAppend(ss[..k], ss[k..]);
    assert ss[..k] + ss[k..] == ss;
  }
}
