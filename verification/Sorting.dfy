/** Stable insertion sort by a key, largest key first. */
module Sorting {
  import opened Text

  /** Put `x` behind everything whose key is at least its own. */
  function Insert<T>(s: seq<T>, x: T, key: T -> int): (r: seq<T>)
    ensures |r| == |s| + 1
  {
    var n := |s| - 1;
    if s == [] || key(s[n]) >= key(x) then s + [x] else Insert(s[..n], x, key) + [s[n]]
  }

  function Sorted<T>(s: seq<T>, key: T -> int): (r: seq<T>)
    ensures |r| == |s|
  {
    if s == [] then [] else Insert(Sorted(s[..|s| - 1], key), s[|s| - 1], key)
  }

  ghost predicate Descending<T>(s: seq<T>, key: T -> int) {
    forall i, j :: 0 <= i < j < |s| ==> key(s[i]) >= key(s[j])
  }

  lemma {:induction false} InsertKeeps<T>(s: seq<T>, x: T, key: T -> int)
    ensures multiset(Insert(s, x, key)) == multiset(s) + multiset{x}
  {
    var n := |s| - 1;
    if s != [] && key(s[n]) < key(x) {
      InsertKeeps(s[..n], x, key);
      assert s == s[..n] + [s[n]];
    }
  }

  /** Sorting only rearranges. */
  lemma {:induction false} SortedKeeps<T>(s: seq<T>, key: T -> int)
    ensures multiset(Sorted(s, key)) == multiset(s)
  {
    if s != [] {
      var n := |s| - 1;
      SortedKeeps(s[..n], key);
      InsertKeeps(Sorted(s[..n], key), s[n], key);
      assert s == s[..n] + [s[n]];
    }
  }

  lemma SortedMembers<T(!new)>(s: seq<T>, key: T -> int)
    ensures forall x :: x in Sorted(s, key) <==> x in s
  {
    SortedKeeps(s, key);
    forall x ensures x in Sorted(s, key) <==> x in s {
      assert x in Sorted(s, key) <==> x in multiset(Sorted(s, key));
      assert x in s <==> x in multiset(s);
    }
  }

  lemma {:induction false} InsertDescending<T>(s: seq<T>, x: T, key: T -> int)
    requires Descending(s, key)
    ensures var r := Insert(s, x, key);
      && Descending(r, key)
      && (forall i :: 0 <= i < |r| ==> key(r[i]) >= key(x) || key(r[i]) >= key(s[|s| - 1]))
      && r[0] == if s == [] || key(x) > key(s[0]) then x else s[0]
  {
    var n := |s| - 1;
    if s != [] && key(s[n]) < key(x) {
      InsertDescending(s[..n], x, key);
    }
  }

  lemma {:induction false} SortedDescending<T>(s: seq<T>, key: T -> int)
    ensures Descending(Sorted(s, key), key)
  {
    if s != [] {
      SortedDescending(s[..|s| - 1], key);
      InsertDescending(Sorted(s[..|s| - 1], key), s[|s| - 1], key);
    }
  }

  // ---------- rearrangements ----------

  lemma RemoveOne<T>(es: seq<T>, k: nat)
    requires k < |es|
    ensures multiset(es) == multiset(es[..k] + es[k + 1..]) + multiset{es[k]}
  {
    assert es == es[..k] + [es[k]] + es[k + 1..];
  }

  lemma FindIn<T>(ds: seq<T>, es: seq<T>) returns (k: nat)
    requires multiset(ds) == multiset(es) && ds != []
    ensures k < |es| && es[k] == ds[|ds| - 1]
    ensures multiset(ds[..|ds| - 1]) == multiset(es[..k] + es[k + 1..])
  {
    var d := ds[|ds| - 1];
    RemoveOne(ds, |ds| - 1);
    assert ds[..|ds| - 1] + ds[|ds|..] == ds[..|ds| - 1];
    assert d in multiset(es);
    k :| 0 <= k < |es| && es[k] == d;
    RemoveOne(es, k);
    var a, b := multiset(ds[..|ds| - 1]), multiset(es[..k] + es[k + 1..]);
    assert a == (a + multiset{d}) - multiset{d} == (b + multiset{d}) - multiset{d} == b;
  }

  // ---------- in place, by swapping neighbours ----------

  /** `x` on its way to the front: `j` elements of `s` are still before it. */
  function Layout<T>(s: seq<T>, x: T, j: nat, tail: seq<T>): (r: seq<T>)
    requires j <= |s|
    ensures |r| == |s| + 1 + |tail| && r[j] == x && (j > 0 ==> r[j - 1] == s[j - 1])
  {
    s[..j] + [x] + s[j..] + tail
  }

  lemma SwapBack<T>(s: seq<T>, x: T, j: nat, tail: seq<T>)
    requires 0 < j <= |s|
    ensures Layout(s, x, j, tail)[j := s[j - 1]][j - 1 := x] == Layout(s, x, j - 1, tail)
  {
    var a, b := Layout(s, x, j, tail)[j := s[j - 1]][j - 1 := x], Layout(s, x, j - 1, tail);
    forall i | 0 <= i < |a| ensures a[i] == b[i] {
      if i < j - 1 {} else if i == j - 1 {} else if i == j {} else if i <= |s| {} else {}
    }
  }

  lemma InsertStep<T>(s: seq<T>, x: T, j: nat, key: T -> int)
    requires 0 < j <= |s| && key(s[j - 1]) < key(x)
    ensures Insert(s[..j], x, key) == Insert(s[..j - 1], x, key) + [s[j - 1]]
  {
    assert s[..j][..j - 1] == s[..j - 1];
  }

  lemma Regroup<T>(r: seq<T>, a: seq<T>, s: seq<T>, j: nat)
    requires 0 < j <= |s| && r == (a + [s[j - 1]]) + s[j..]
    ensures r == a + s[j - 1..]
  {
  }

  lemma InsertFurther<T>(s: seq<T>, x: T, j: nat, r: seq<T>, key: T -> int)
    requires 0 < j <= |s| && key(s[j - 1]) < key(x) && r == Insert(s[..j], x, key) + s[j..]
    ensures r == Insert(s[..j - 1], x, key) + s[j - 1..]
  {
    InsertStep(s, x, j, key);
    Regroup(r, Insert(s[..j - 1], x, key), s, j);
  }

  lemma Inserted<T>(s: seq<T>, x: T, j: nat, tail: seq<T>, key: T -> int)
    requires j <= |s| && (j == 0 || key(s[j - 1]) >= key(x))
    ensures Layout(s, x, j, tail) == (Insert(s[..j], x, key) + s[j..]) + tail
  {
  }

  /** Move the element at `i` to its place among the sorted ones before it. */
  method SiftBack<T>(a: array<T>, i: nat, key: T -> int, ghost s: seq<T>, ghost tail: seq<T>)
    requires i < a.Length && |s| == i && a[..] == Layout(s, a[i], i, tail)
    modifies a
    ensures a[..] == Insert(s, old(a[i]), key) + tail
  {
    ghost var x := a[i];
    ghost var r := Insert(s, x, key);
    var j := i;
    assert s[..i] == s && s[i..] == [];
    while j > 0 && key(a[j]) > key(a[j - 1])
      invariant 0 <= j <= i && a[..] == Layout(s, x, j, tail)
      invariant r == Insert(s[..j], x, key) + s[j..]
    {
      assert a[..][j] == x && a[..][j - 1] == s[j - 1];
      InsertFurther(s, x, j, r, key);
      SwapBack(s, x, j, tail);
      a[j], a[j - 1] := a[j - 1], a[j];
      j := j - 1;
    }
    assert a[..][j] == x && (j > 0 ==> a[..][j - 1] == s[j - 1]);
    Inserted(s, x, j, tail, key);
  }

  method SortInPlace<T>(a: array<T>, key: T -> int)
    modifies a
    ensures a[..] == Sorted(old(a[..]), key)
  {
    ghost var was := a[..];
    if a.Length == 0 { return; }
    var i := 1;
    assert was[..1] == [was[0]] && was[..1][..0] == [];
    while i < a.Length
      invariant 1 <= i <= a.Length == |was| && a[..] == Sorted(was[..i], key) + was[i..]
    {
      ghost var s := Sorted(was[..i], key);
      assert a[..][i] == was[i];
      assert s[..i] == s && s[i..] == [];
      assert a[..] == Layout(s, was[i], i, was[i + 1..]);
      SiftBack(a, i, key, s, was[i + 1..]);
      assert was[..i + 1][..i] == was[..i];
      i := i + 1;
    }
    TakeAll(was);
  }
}
