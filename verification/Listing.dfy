/** Lists of files: filtering, finding by path, and order. */
module Listings {
  import opened Clonepack

  function Filter<T>(s: seq<T>, keep: T -> bool): seq<T> {
    if s == [] then [] else
      Filter(s[..|s| - 1], keep) + if keep(s[|s| - 1]) then [s[|s| - 1]] else []
  }

  lemma {:induction false} FilterHas<T>(s: seq<T>, keep: T -> bool, x: T)
    ensures x in Filter(s, keep) <==> x in s && keep(x)
  {
    if s != [] {
      FilterHas(s[..|s| - 1], keep, x);
      assert s == s[..|s| - 1] + [s[|s| - 1]];
    }
  }

  /** An element kept is found after those kept before it. */
  lemma {:induction false} FilterAt<T>(s: seq<T>, keep: T -> bool, i: nat)
    requires i < |s|
    ensures var k := |Filter(s[..i], keep)|;
      && Filter(s[..i], keep) <= Filter(s, keep)
      && (keep(s[i]) ==> k < |Filter(s, keep)| && Filter(s, keep)[k] == s[i])
  {
    var n := |s| - 1;
    if i < n {
      FilterAt(s[..n], keep, i);
      assert s[..n][..i] == s[..i];
    }
  }

  /** Everything kept comes from somewhere. */
  lemma {:induction false} FilterFrom<T>(s: seq<T>, keep: T -> bool, k: nat) returns (i: nat)
    requires k < |Filter(s, keep)|
    ensures i < |s| && keep(s[i]) && Filter(s, keep)[k] == s[i] && Filter(s[..i], keep) == Filter(s, keep)[..k]
  {
    var n := |s| - 1;
    if k < |Filter(s[..n], keep)| {
      i := FilterFrom(s[..n], keep, k);
      assert s[..n][..i] == s[..i];
    } else {
      i := n;
    }
  }

  ghost predicate Increasing<T>(s: seq<T>, key: T -> int) {
    forall i, j :: 0 <= i < j < |s| ==> key(s[i]) < key(s[j])
  }

  /** Filtering keeps the order. */
  lemma {:induction false} FilterIncreasing<T>(s: seq<T>, keep: T -> bool, key: T -> int)
    requires forall i, j :: 0 <= i < j < |s| && keep(s[i]) && keep(s[j]) ==> key(s[i]) < key(s[j])
    ensures Increasing(Filter(s, keep), key)
  {
    if s != [] {
      var n := |s| - 1;
      FilterIncreasing(s[..n], keep, key);
      var front := Filter(s[..n], keep);
      if keep(s[n]) {
        forall a | 0 <= a < |front| ensures key(front[a]) < key(s[n]) {
          FilterHas(s[..n], keep, front[a]);
        }
      }
    }
  }

  lemma LastSame<T>(a: seq<T>, b: seq<T>, key: T -> int)
    requires Increasing(a, key) && Increasing(b, key) && a != [] && b != []
    requires forall x :: x in a <==> x in b
    ensures a[|a| - 1] == b[|b| - 1]
  {
    var m, n := |a| - 1, |b| - 1;
    LastIsGreatest(a, b, key);
    LastIsGreatest(b, a, key);
    assert a[m] in b;
    var k :| 0 <= k < |b| && b[k] == a[m];
  }

  /** One list has one increasing order. */
  lemma {:induction false} IncreasingSame<T>(a: seq<T>, b: seq<T>, key: T -> int)
    requires Increasing(a, key) && Increasing(b, key)
    requires forall x :: x in a <==> x in b
    ensures a == b
  {
    if a == [] {
      HasMember(b);
    } else {
      assert a[0] in b;
      var m, n := |a| - 1, |b| - 1;
      LastSame(a, b, key);
      forall x ensures x in a[..m] <==> x in b[..n] {
        FrontHas(a, key, x);
        FrontHas(b, key, x);
      }
      FrontIncreasing(a, key);
      FrontIncreasing(b, key);
      hide Increasing;
      IncreasingSame(a[..m], b[..n], key);
      assert a == a[..m] + [a[m]] && b == b[..n] + [b[n]];
    }
  }

  lemma HasMember<T>(s: seq<T>)
    ensures s == [] || exists x :: x in s
  {
    if s != [] {
      assert s[0] in s;
    }
  }

  lemma FrontIncreasing<T>(a: seq<T>, key: T -> int)
    requires Increasing(a, key) && a != []
    ensures Increasing(a[..|a| - 1], key)
  {}

  lemma LastIsGreatest<T>(a: seq<T>, b: seq<T>, key: T -> int)
    requires Increasing(b, key) && a != [] && b != []
    requires forall x :: x in a ==> x in b
    ensures key(a[|a| - 1]) <= key(b[|b| - 1])
  {
    assert a[|a| - 1] in b;
  }

  lemma FrontHas<T>(a: seq<T>, key: T -> int, x: T)
    requires Increasing(a, key) && a != []
    ensures x in a[..|a| - 1] <==> x in a && x != a[|a| - 1]
  {
    var n := |a| - 1;
    if x in a[..n] {
      var k :| 0 <= k < n && a[k] == x;
      assert key(a[k]) < key(a[n]);
    }
  }

  ghost function PathSet(files: seq<FileEntry>): set<Bytes> {
    set i | 0 <= i < |files| :: files[i].path
  }

  ghost predicate DistinctFiles(files: seq<FileEntry>) {
    forall i, j :: 0 <= i < j < |files| ==> files[i].path != files[j].path
  }

  /** The file at a path; a later one hides an earlier one. */
  function Lookup(files: seq<FileEntry>, path: Bytes): Option<FileEntry> {
    if files == [] then None
    else if files[|files| - 1].path == path then Some(files[|files| - 1])
    else Lookup(files[..|files| - 1], path)
  }

  lemma {:induction false} LookupSound(files: seq<FileEntry>, path: Bytes)
    ensures Lookup(files, path).None? <==> path !in PathSet(files)
    ensures Lookup(files, path).Some? ==> Lookup(files, path).value in files && Lookup(files, path).value.path == path
  {
    if files != [] {
      var n := |files| - 1;
      LookupSound(files[..n], path);
      assert PathSet(files) == PathSet(files[..n]) + {files[n].path} by {
        assert forall i :: 0 <= i < n ==> files[i] == files[..n][i];
      }
    }
  }

  /** With distinct paths the file at a path is the one listed. */
  lemma {:induction false} LookupIs(files: seq<FileEntry>, x: FileEntry)
    requires DistinctFiles(files)
    ensures Lookup(files, x.path) == Some(x) <==> x in files
  {
    LookupSound(files, x.path);
    if x in files {
      var y := Lookup(files, x.path).value;
      assert x.path in PathSet(files);
    }
  }

  /** Filtering a list of distinct paths filters what is found. */
  lemma LookupFiltered(files: seq<FileEntry>, keep: FileEntry -> bool, path: Bytes)
    requires DistinctFiles(files)
    ensures DistinctFiles(Filter(files, keep))
    ensures var found := Lookup(files, path);
      Lookup(Filter(files, keep), path) == if found.Some? && keep(found.value) then found else None
  {
    FilterDistinct(files, keep);
    var kept := Filter(files, keep);
    LookupSound(files, path);
    LookupSound(kept, path);
    var a, b := Lookup(files, path), Lookup(kept, path);
    if b.Some? {
      FilterHas(files, keep, b.value);
      LookupIs(files, b.value);
    } else if a.Some? && keep(a.value) {
      FilterHas(files, keep, a.value);
      LookupIs(kept, a.value);
    }
  }

  lemma {:induction false} FilterDistinct(files: seq<FileEntry>, keep: FileEntry -> bool)
    requires DistinctFiles(files)
    ensures DistinctFiles(Filter(files, keep))
  {
    if files != [] {
      var n := |files| - 1;
      FilterDistinct(files[..n], keep);
      var front := Filter(files[..n], keep);
      forall i | 0 <= i < |front| ensures front[i].path != files[n].path {
        FilterHas(files[..n], keep, front[i]);
      }
    }
  }

  /** Where a path is listed; the length of the list when it is not. */
  function Position(files: seq<FileEntry>, path: Bytes): (n: nat)
    ensures n <= |files|
    ensures n < |files| ==> files[n].path == path
    ensures n == |files| <==> path !in PathSet(files)
    ensures forall i :: 0 <= i < n ==> files[i].path != path
  {
    if files == [] then 0 else
      var n := Position(files[..|files| - 1], path);
      if n < |files| - 1 || files[|files| - 1].path == path then n else |files|
  }
}
