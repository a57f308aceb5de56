/** The statistics over a parsed heap: totals and the top classes. */
module HeapStats {
  import opened Text
  import opened HprofFormat
  import opened HprofDecode
  import opened HprofRoundTrip
  import opened HprofParser
  import opened Sorting

  datatype ClassStats = ClassStats(name: Bytes, instanceCount: nat, totalSize: nat, avgSize: nat)

  datatype Stats = Stats(totalObjects: nat, totalSize: nat, classCount: nat, instanceCount: nat, arrayCount: nat,
                         gcRoots: nat, topClasses: seq<ClassStats>, topSizes: seq<ClassStats>)

  type Classes = map<nat, ClassInfo>

  function CountOf(c: ClassInfo): nat { c.instanceCount }
  function SizeOf(c: ClassInfo): nat { c.totalSize }

  /** Sum over all classes. */
  ghost function Sum(m: Classes, f: ClassInfo -> nat): nat {
    if m == map[] then 0
    else
      var k :| k in m;
      Sum(m - {k}, f) + f(m[k])
  }

  lemma {:induction false} SumRemove(m: Classes, k: nat, f: ClassInfo -> nat)
    requires k in m
    ensures Sum(m, f) == Sum(m - {k}, f) + f(m[k])
    decreases |m|
  {
    var l :| l in m && Sum(m, f) == Sum(m - {l}, f) + f(m[l]);
    if l != k {
      SumRemove(m - {l}, k, f);
      SumRemove(m - {k}, l, f);
      assert m - {l} - {k} == m - {k} - {l};
    }
  }

  lemma SumUpdate(m: Classes, k: nat, c: ClassInfo, f: ClassInfo -> nat)
    ensures Sum(m[k := c], f) == f(c) + Sum(m, f) - if k in m then f(m[k]) else 0
  {
    SumRemove(m[k := c], k, f);
    assert m[k := c] - {k} == m - {k};
    if k in m { SumRemove(m, k, f); } else { assert m - {k} == m; }
  }

  // ---------- what the classes account for ----------

  ghost predicate Introduces(e: Event, id: nat) {
    (e.LoadEvent? && e.classId == id) || (e.ClassEvent? && e.id == id)
  }

  /** Every instance comes after a record that introduces its class. */
  ghost predicate Introduced(es: seq<Event>) {
    forall i :: 0 <= i < |es| && es[i].InstanceEvent? ==> IntroducedBefore(es, i, es[i].classId)
  }

  ghost predicate IntroducedBefore(es: seq<Event>, i: nat, id: nat)
    requires i <= |es|
  {
    exists j :: 0 <= j < i && Introduces(es[j], id)
  }

  function HeapAfter(es: seq<Event>): Heap {
    if es == [] then EMPTY else Apply(HeapAfter(es[..|es| - 1]), es[|es| - 1])
  }

  lemma {:induction false} HeapAfterIsApplyAll(es: seq<Event>)
    ensures HeapAfter(es) == ApplyAll(EMPTY, es)
  {
    if es != [] {
      var n := |es| - 1;
      HeapAfterIsApplyAll(es[..n]);
      assert es == es[..n] + [es[n]] && [es[n]][1..] == [];
      ApplyConcat(EMPTY, es[..n], [es[n]]);
    }
  }

  /** The classes known are those introduced so far. */
  lemma {:induction false} KnownClasses(es: seq<Event>, id: nat)
    ensures id in HeapAfter(es).classes <==> IntroducedBefore(es, |es|, id)
  {
    if es != [] {
      var n := |es| - 1;
      KnownClasses(es[..n], id);
      if IntroducedBefore(es, |es|, id) {
        var j :| 0 <= j < |es| && Introduces(es[j], id);
        assert j < n ==> Introduces(es[..n][j], id);
      }
      if IntroducedBefore(es[..n], n, id) {
        var j :| 0 <= j < n && Introduces(es[..n][j], id);
        assert Introduces(es[j], id);
      }
      assert Introduces(es[n], id) ==> IntroducedBefore(es, |es|, id);
    }
  }

  // ---------- each class ----------

  /** Instances of a class that come after a record that introduces it, and their bytes. */
  ghost function Credited(es: seq<Event>, id: nat): (nat, nat) {
    if es == [] then (0, 0)
    else
      var n := |es| - 1;
      var (count, size) := Credited(es[..n], id);
      if es[n].InstanceEvent? && es[n].classId == id && IntroducedBefore(es[..n], n, id)
      then (count + 1, size + es[n].size) else (count, size)
  }

  /** Every class has its own instances, and no other's. */
  lemma {:induction false} ClassShares(es: seq<Event>, id: nat)
    requires id in HeapAfter(es).classes
    ensures var c := HeapAfter(es).classes[id]; (c.instanceCount, c.totalSize) == Credited(es, id)
  {
    var n := |es| - 1;
    KnownClasses(es[..n], id);
    if id in HeapAfter(es[..n]).classes { ClassShares(es[..n], id); } else { NothingCredited(es[..n], id); }
  }

  lemma {:induction false} NothingCredited(es: seq<Event>, id: nat)
    requires !IntroducedBefore(es, |es|, id)
    ensures Credited(es, id) == (0, 0)
  {
    if es != [] {
      var n := |es| - 1;
      SameBefore(es, n, n, id);
      assert !IntroducedBefore(es, n, id);
      NothingCredited(es[..n], id);
    }
  }

  /** No text is given for the string between these positions. */
  ghost predicate NoText(es: seq<Event>, lo: int, hi: nat, n: nat)
    requires hi <= |es|
  {
    forall j :: lo <= j < hi && 0 <= j && es[j].TextEvent? ==> es[j].id != n
  }

  /** `text` is the last text given for the string before position `k`, or empty if there is
      none. */
  ghost predicate LastText(es: seq<Event>, k: nat, n: nat, text: Bytes)
    requires k <= |es|
  {
    if NoText(es, 0, k, n) then text == []
    else exists j :: 0 <= j < k && es[j] == TextEvent(n, text) && NoText(es, j + 1, k, n)
  }

  function StringOf(h: Heap, n: nat): Bytes { if n in h.strings then h.strings[n] else [] }

  lemma {:induction false} StringsAreLast(es: seq<Event>, n: nat)
    ensures LastText(es, |es|, n, StringOf(HeapAfter(es), n))
  {
    if es != [] {
      var k := |es| - 1;
      StringsAreLast(es[..k], n);
      LastTextSnoc(es, n, StringOf(HeapAfter(es[..k]), n));
    }
  }

  lemma LastTextSnoc(es: seq<Event>, n: nat, text: Bytes)
    requires es != [] && LastText(es[..|es| - 1], |es| - 1, n, text)
    ensures var e := es[|es| - 1]; LastText(es, |es|, n, if e.TextEvent? && e.id == n then e.text else text)
  {
    var k := |es| - 1;
    LastTextWithin(es, k, k, n, text);
    if es[k].TextEvent? && es[k].id == n {
      assert es[k] == TextEvent(n, es[k].text) && NoText(es, k + 1, |es|, n);
    } else if !NoText(es, 0, k, n) {
      var j :| 0 <= j < k && es[j] == TextEvent(n, text) && NoText(es, j + 1, k, n);
      assert NoText(es, j + 1, |es|, n);
    }
  }

  lemma LastTextWithin(es: seq<Event>, k: nat, m: nat, n: nat, text: Bytes)
    requires k <= m <= |es| && LastText(es[..m], k, n, text)
    ensures LastText(es, k, n, text)
  {
    assert forall j :: 0 <= j < k ==> es[..m][j] == es[j];
    if !NoText(es[..m], 0, k, n) {
      var j :| 0 <= j < k && es[..m][j] == TextEvent(n, text) && NoText(es[..m], j + 1, k, n);
      assert es[j] == TextEvent(n, text) && NoText(es, j + 1, k, n);
    }
  }

  /** A class is named by the last record that loads it, with the text its name had then,
      and with dots for slashes. */
  lemma {:induction false} NamedByLastLoad(es: seq<Event>, id: nat, k: nat) returns (text: Bytes)
    requires k < |es| && es[k].LoadEvent? && es[k].classId == id
    requires forall l :: k < l < |es| && es[l].LoadEvent? ==> es[l].classId != id
    ensures LastText(es, k, es[k].nameId, text)
    ensures id in HeapAfter(es).classes && HeapAfter(es).classes[id].name == Dotted(text)
  {
    var n := |es| - 1;
    if k == n {
      text := StringOf(HeapAfter(es[..n]), es[k].nameId);
      StringsAreLast(es[..n], es[k].nameId);
    } else {
      text := NamedByLastLoad(es[..n], id, k);
      NameStays(HeapAfter(es[..n]), es[n], id);
    }
    LastTextWithin(es, k, n, es[k].nameId, text);
  }

  lemma NameStays(h: Heap, e: Event, id: nat)
    requires id in h.classes && (e.LoadEvent? ==> e.classId != id)
    ensures id in Apply(h, e).classes && Apply(h, e).classes[id].name == h.classes[id].name
  {
  }

  /** A class has the fields and the instance size of the last record that dumps it. */
  lemma {:induction false} LaidOutByLastDump(es: seq<Event>, id: nat, k: nat)
    requires k < |es| && es[k].ClassEvent? && es[k].id == id
    requires forall l :: k < l < |es| && es[l].ClassEvent? ==> es[l].id != id
    ensures id in HeapAfter(es).classes
    ensures var c := HeapAfter(es).classes[id]; c.fields == es[k].fields && c.instanceSize == es[k].size
  {
    if k < |es| - 1 { LaidOutByLastDump(es[..|es| - 1], id, k); }
  }

  /** A class that is never loaded has no name, one that is never dumped no fields. */
  lemma {:induction false} NeverToldOf(es: seq<Event>, id: nat)
    requires id in HeapAfter(es).classes
    ensures var c := HeapAfter(es).classes[id];
      && ((forall e :: e in es && e.LoadEvent? ==> e.classId != id) ==> c.name == [])
      && ((forall e :: e in es && e.ClassEvent? ==> e.id != id) ==> c.fields == [] && c.instanceSize == 0)
  {
    var n := |es| - 1;
    assert es[n] in es;
    if id in HeapAfter(es[..n]).classes { NeverToldOf(es[..n], id); }
  }

  // ---------- all classes together ----------

  function InstanceSizes(s: seq<InstanceInfo>): nat {
    if s == [] then 0 else InstanceSizes(s[..|s| - 1]) + s[|s| - 1].size
  }

  function ArraySizes(s: seq<ArrayInfo>): nat {
    if s == [] then 0 else ArraySizes(s[..|s| - 1]) + s[|s| - 1].size
  }

  /** Instances whose class was not known when they were read: how many, and how large. */
  function LostCount(es: seq<Event>): nat {
    if es == [] then 0 else LostCount(es[..|es| - 1]) + if LostLast(es) then 1 else 0
  }

  function LostSize(es: seq<Event>): nat {
    if es == [] then 0 else LostSize(es[..|es| - 1]) + if LostLast(es) then es[|es| - 1].size else 0
  }

  predicate LostLast(es: seq<Event>)
    requires es != []
    ensures LostLast(es) ==> es[|es| - 1].InstanceEvent?
  {
    var e := es[|es| - 1];
    e.InstanceEvent? && e.classId !in HeapAfter(es[..|es| - 1]).classes
  }

  lemma ApplyTotals(h: Heap, e: Event)
    ensures var h' := Apply(h, e);
      var known := e.InstanceEvent? && e.classId in h.classes;
      && Sum(h'.classes, CountOf) == Sum(h.classes, CountOf) + (if known then 1 else 0)
      && Sum(h'.classes, SizeOf) == Sum(h.classes, SizeOf) + (if known then e.size else 0)
  {
    match e {
      case LoadEvent(classId, nameId) =>
        var c := Apply(h, e).classes[classId];
        SumUpdate(h.classes, classId, c, CountOf);
        SumUpdate(h.classes, classId, c, SizeOf);
      case ClassEvent(id, _, _) =>
        var c := Apply(h, e).classes[id];
        SumUpdate(h.classes, id, c, CountOf);
        SumUpdate(h.classes, id, c, SizeOf);
      case InstanceEvent(classId, size) =>
        if classId in h.classes {
          SumUpdate(h.classes, classId, Credit(h.classes[classId], size), CountOf);
          SumUpdate(h.classes, classId, Credit(h.classes[classId], size), SizeOf);
        }
      case TextEvent(_, _) =>
      case RootEvent =>
      case ArrayEvent(_) =>
    }
  }

  lemma ApplyInstances(h: Heap, e: Event)
    ensures var h' := Apply(h, e);
      && |h'.instances| == |h.instances| + (if e.InstanceEvent? then 1 else 0)
      && InstanceSizes(h'.instances) == InstanceSizes(h.instances) + (if e.InstanceEvent? then e.size else 0)
  {
    if e.InstanceEvent? {
      var x := InstanceInfo(e.classId, e.size);
      assert (h.instances + [x])[..|h.instances|] == h.instances;
    }
  }

  /** The classes account for every instance except the lost ones. */
  lemma {:induction false} ClassTotals(es: seq<Event>)
    ensures var h := HeapAfter(es);
      && Sum(h.classes, CountOf) + LostCount(es) == |h.instances|
      && Sum(h.classes, SizeOf) + LostSize(es) == InstanceSizes(h.instances)
  {
    if es != [] {
      var n := |es| - 1;
      ClassTotals(es[..n]);
      ApplyTotals(HeapAfter(es[..n]), es[n]);
      ApplyInstances(HeapAfter(es[..n]), es[n]);
    }
  }

  ghost predicate PositiveSizes(es: seq<Event>) {
    forall i :: 0 <= i < |es| && es[i].InstanceEvent? ==> es[i].size > 0
  }

  lemma IntroducedSnoc(es: seq<Event>)
    requires es != []
    ensures Introduced(es) <==> Introduced(es[..|es| - 1]) && !LostLast(es)
  {
    var n := |es| - 1;
    forall i | 0 <= i <= n && es[i].InstanceEvent?
      ensures IntroducedBefore(es, i, es[i].classId) <==> IntroducedBefore(es[..n], i, es[i].classId)
    {
      SameBefore(es, n, i, es[i].classId);
    }
    if es[n].InstanceEvent? { KnownClasses(es[..n], es[n].classId); }
    if Introduced(es) {
      forall i | 0 <= i < n && es[..n][i].InstanceEvent? ensures IntroducedBefore(es[..n], i, es[..n][i].classId) {
        assert es[i].InstanceEvent?;
      }
    }
    if Introduced(es[..n]) && !LostLast(es) {
      forall i | 0 <= i < |es| && es[i].InstanceEvent? ensures IntroducedBefore(es, i, es[i].classId) {
        assert i < n ==> es[..n][i].InstanceEvent?;
      }
    }
  }

  lemma SameBefore(es: seq<Event>, n: nat, i: nat, id: nat)
    requires i <= n <= |es|
    ensures IntroducedBefore(es, i, id) <==> IntroducedBefore(es[..n], i, id)
  {
    if IntroducedBefore(es, i, id) {
      var j :| 0 <= j < i && Introduces(es[j], id);
      assert Introduces(es[..n][j], id);
    }
    if IntroducedBefore(es[..n], i, id) {
      var j :| 0 <= j < i && Introduces(es[..n][j], id);
      assert Introduces(es[j], id);
    }
  }

  lemma {:induction false} NothingLost(es: seq<Event>)
    requires PositiveSizes(es)
    ensures LostCount(es) == 0 <==> Introduced(es)
    ensures LostSize(es) == 0 <==> Introduced(es)
  {
    if es != [] {
      NothingLost(es[..|es| - 1]);
      IntroducedSnoc(es);
    }
  }

  lemma {:induction false} EventSizesPositive(rs: seq<Record>, w: nat)
    ensures PositiveSizes(Events(rs, w))
  {
    if rs != [] {
      EventSizesPositive(rs[1..], w);
      var a, b := BodyEvents(rs[0].body, w), Events(rs[1..], w);
      var es: seq<Event> := a + b;
      forall i | 0 <= i < |es| && es[i].InstanceEvent? ensures es[i].size > 0 {
        assert i >= |a| ==> es[i] == b[i - |a|];
      }
    }
  }

  function InstancesIn(es: seq<Event>): seq<InstanceInfo> {
    if es == [] then []
    else
      var e := es[|es| - 1];
      InstancesIn(es[..|es| - 1]) + if e.InstanceEvent? then [InstanceInfo(e.classId, e.size)] else []
  }

  function ArraysIn(es: seq<Event>): seq<ArrayInfo> {
    if es == [] then []
    else
      var e := es[|es| - 1];
      ArraysIn(es[..|es| - 1]) + if e.ArrayEvent? then [e.info] else []
  }

  function RootsIn(es: seq<Event>): nat {
    if es == [] then 0 else RootsIn(es[..|es| - 1]) + if es[|es| - 1].RootEvent? then 1 else 0
  }

  /** No instance or array is ever dropped from the lists, and every root is counted. */
  lemma {:induction false} AllListed(es: seq<Event>)
    ensures HeapAfter(es).instances == InstancesIn(es) && HeapAfter(es).arrays == ArraysIn(es)
    ensures HeapAfter(es).gcRoots == RootsIn(es)
  {
    if es != [] { AllListed(es[..|es| - 1]); }
  }

  // ---------- the report ----------

  /** Only classes with instances are reported. */
  function ReportedSize(c: ClassInfo): nat { if c.instanceCount > 0 then c.totalSize else 0 }

  ghost predicate Consistent(m: Classes) {
    forall k :: k in m && m[k].instanceCount == 0 ==> m[k].totalSize == 0
  }

  lemma {:induction false} ParsedConsistent(es: seq<Event>)
    ensures Consistent(HeapAfter(es).classes)
  {
    if es != [] { ParsedConsistent(es[..|es| - 1]); }
  }

  lemma {:induction false} SameSum(m: Classes, f: ClassInfo -> nat, g: ClassInfo -> nat)
    requires forall k :: k in m ==> f(m[k]) == g(m[k])
    ensures Sum(m, f) == Sum(m, g)
    decreases |m|
  {
    if k :| k in m {
      SumRemove(m, k, f);
      SumRemove(m, k, g);
      SameSum(m - {k}, f, g);
    }
  }

  /** In a parsed heap the reported sizes are all sizes. */
  lemma ReportedIsAll(es: seq<Event>)
    ensures var m := HeapAfter(es).classes; Sum(m, ReportedSize) == Sum(m, SizeOf)
  {
    ParsedConsistent(es);
    SameSum(HeapAfter(es).classes, ReportedSize, SizeOf);
  }

  function StatsOf(c: ClassInfo): ClassStats
    requires c.instanceCount > 0
  {
    ClassStats(c.name, c.instanceCount, c.totalSize, c.totalSize / c.instanceCount)
  }

  /** The average is rounded down. */
  lemma AverageIsFloor(c: ClassInfo)
    requires c.instanceCount > 0
    ensures var a := StatsOf(c).avgSize; a * c.instanceCount <= c.totalSize < (a + 1) * c.instanceCount
  {
  }

  function ByInstances(c: ClassStats): int { c.instanceCount }
  function BySize(c: ClassStats): int { c.totalSize }

  const TOP := 20

  /** The classes with instances, each once. */
  ghost predicate ListsClasses(list: seq<ClassStats>, keys: seq<nat>, m: Classes) {
    && |list| == |keys| && (forall i, j :: 0 <= i < j < |keys| ==> keys[i] != keys[j])
    && (forall k :: k in keys <==> k in m && m[k].instanceCount > 0)
    && (forall i :: 0 <= i < |keys| ==> keys[i] in m && m[keys[i]].instanceCount > 0 && list[i] == StatsOf(m[keys[i]]))
  }

  ghost predicate Listing(list: seq<ClassStats>, keys: seq<nat>, m: Classes, done: set<nat>) {
    && |list| == |keys| && (forall i, j :: 0 <= i < j < |keys| ==> keys[i] != keys[j])
    && (forall k :: k in keys <==> k in done && k in m && m[k].instanceCount > 0)
    && (forall i :: 0 <= i < |keys| ==> keys[i] in m && m[keys[i]].instanceCount > 0 && list[i] == StatsOf(m[keys[i]]))
  }

  lemma ListNext(list: seq<ClassStats>, keys: seq<nat>, m: Classes, done: set<nat>, k: nat)
    requires Listing(list, keys, m, done) && k in m && k !in done
    ensures m[k].instanceCount == 0 ==> Listing(list, keys, m, done + {k})
    ensures m[k].instanceCount > 0 ==> Listing(list + [StatsOf(m[k])], keys + [k], m, done + {k})
  {
    forall i | 0 <= i < |keys| ensures keys[i] != k { assert keys[i] in keys; }
  }

  /** The loop over the class map, in any order. */
  method CollectClasses(classes: Classes) returns (count: nat, size: nat, list: seq<ClassStats>, ghost keys: seq<nat>)
    ensures count == Sum(classes, CountOf) && size == Sum(classes, ReportedSize)
    ensures ListsClasses(list, keys, classes)
  {
    count, size, list, keys := 0, 0, [], [];
    var todo := classes.Keys;
    ghost var done: set<nat> := {};
    assert classes - done == classes;
    while todo != {}
      invariant todo == classes.Keys - done && done <= classes.Keys
      invariant count + Sum(classes - done, CountOf) == Sum(classes, CountOf)
      invariant size + Sum(classes - done, ReportedSize) == Sum(classes, ReportedSize)
      invariant Listing(list, keys, classes, done)
    {
      var k :| k in todo;
      var c := classes[k];
      SumRemove(classes - done, k, CountOf);
      SumRemove(classes - done, k, ReportedSize);
      assert classes - done - {k} == classes - (done + {k});
      ListNext(list, keys, classes, done, k);
      if c.instanceCount > 0 {
        count, size := count + c.instanceCount, size + c.totalSize;
        list, keys := list + [ClassStats(c.name, c.instanceCount, c.totalSize, c.totalSize / c.instanceCount)], keys + [k];
      }
      todo, done := todo - {k}, done + {k};
    }
    assert classes - done == map[];
  }

  method SortedList(list: seq<ClassStats>, key: ClassStats -> int) returns (r: seq<ClassStats>)
    ensures r == Sorted(list, key)
  {
    var a := new ClassStats[|list|](i requires 0 <= i < |list| => list[i]);
    assert a[..] == list;
    SortInPlace(a, key);
    r := a[..];
  }

  function Capped(list: seq<ClassStats>): seq<ClassStats> { if |list| > TOP then list[..TOP] else list }

  /** The totals of a report. */
  ghost predicate Totals(s: Stats, h: Heap) {
    && s.instanceCount == Sum(h.classes, CountOf)
    && s.totalObjects == Sum(h.classes, CountOf) + |h.arrays|
    && s.totalSize == Sum(h.classes, ReportedSize) + ArraySizes(h.arrays)
  }

  /** Totals and top lists of a parsed heap. */
  method BuildStats(h: Heap) returns (s: Stats, ghost list: seq<ClassStats>, ghost keys: seq<nat>)
    ensures s.gcRoots == h.gcRoots && s.classCount == |h.classes| && s.arrayCount == |h.arrays|
    ensures Totals(s, h)
    ensures ListsClasses(list, keys, h.classes)
    ensures s.topClasses == Capped(Sorted(list, ByInstances))
    ensures s.topSizes == Sorted(s.topClasses, BySize)
  {
    var count, size;
    var classList;
    count, size, classList, keys := CollectClasses(h.classes);
    list := classList;
    var objects, total := count, size;
    for i := 0 to |h.arrays|
      invariant objects == count + i && total == size + ArraySizes(h.arrays[..i])
    {
      assert h.arrays[..i + 1][..i] == h.arrays[..i];
      objects, total := objects + 1, total + h.arrays[i].size;
    }
    TakeAll(h.arrays);
    classList := SortedList(classList, ByInstances);
    if |classList| > TOP { classList := classList[..TOP]; }
    var topSizes := SortedList(classList, BySize);
    s := Stats(objects, total, |h.classes|, count, |h.arrays|, h.gcRoots, classList, Capped(topSizes));
  }

  /** The top classes are in descending order and no omitted class has more instances
      than a kept one; the top sizes are the same classes by size, not the largest of all. */
  lemma TopLists(list: seq<ClassStats>)
    ensures var full := Sorted(list, ByInstances);
      var top := Capped(full);
      && multiset(full) == multiset(list) && |top| == (if |list| < 20 then |list| else 20) && top <= full
      && Descending(top, ByInstances)
      && (forall i, j :: 0 <= i < |top| <= j < |full| ==> full[j].instanceCount <= top[i].instanceCount)
      && multiset(Sorted(top, BySize)) == multiset(top) && Descending(Sorted(top, BySize), BySize)
  {
    var full := Sorted(list, ByInstances);
    SortedKeeps(list, ByInstances);
    SortedDescending(list, ByInstances);
    SortedKeeps(Capped(full), BySize);
    SortedDescending(Capped(full), BySize);
  }

  // ---------- what the reported totals mean ----------

  /** The report counts every instance and array of these events, and all their bytes. */
  ghost predicate CountsAll(s: Stats, es: seq<Event>) {
    s.totalObjects == |InstancesIn(es)| + |ArraysIn(es)|
  }

  ghost predicate SizesAll(s: Stats, es: seq<Event>) {
    s.totalSize == InstanceSizes(InstancesIn(es)) + ArraySizes(ArraysIn(es))
  }

  /** The reported number of objects, and the reported size, are those of all instance
      and array sub-records exactly when every instance's class was introduced before it. */
  lemma TotalsExact(es: seq<Event>, s: Stats)
    requires PositiveSizes(es) && Totals(s, ApplyAll(EMPTY, es))
    ensures (CountsAll(s, es) <==> Introduced(es)) && (SizesAll(s, es) <==> Introduced(es))
  {
    HeapAfterIsApplyAll(es);
    ClassTotals(es);
    NothingLost(es);
    AllListed(es);
    ReportedIsAll(es);
  }

  /** The same for every well-formed file, from its bytes to the report. */
  lemma FileTotals(f: File, s: Stats)
    requires FileOk(f) && Decode(EncodeFile(f)).Some? && Totals(s, Decode(EncodeFile(f)).value.heap)
    ensures var es := Events(f.records, f.w);
      (CountsAll(s, es) <==> Introduced(es)) && (SizesAll(s, es) <==> Introduced(es))
  {
    FileRoundTrip(f);
    EventSizesPositive(f.records, f.w);
    TotalsExact(Events(f.records, f.w), s);
  }

  /** A file whose totals miss an instance: its class is only loaded after it. */
  function LateClass(): File {
    File([], 4, 0, [Record(0, HeapDump(false, [InstanceDump(1, 0, 7, [9])])), Record(0, LoadClass(0, 7, 0, 1))])
  }

  lemma TotalsMissLateClass(s: Stats)
    requires Decode(EncodeFile(LateClass())).Some? ==> Totals(s, Decode(EncodeFile(LateClass())).value.heap)
    ensures FileOk(LateClass()) && Decode(EncodeFile(LateClass())).Some?
    ensures var es := Events(LateClass().records, 4); !CountsAll(s, es) && !SizesAll(s, es)
  {
    var f := LateClass();
    LateClassOk();
    LateClassEvents();
    FileRoundTrip(f);
    FileTotals(f, s);
  }

  lemma LateClassOk()
    ensures FileOk(LateClass())
  {
    Pow256Values();
  }

  lemma LateClassEvents()
    ensures !Introduced(Events(LateClass().records, 4))
  {
    var rs := LateClass().records;
    var es := Events(rs, 4);
    assert Events(rs[1..], 4) == BodyEvents(rs[1].body, 4) + Events(rs[1..][1..], 4);
    assert BodyEvents(rs[0].body, 4)[0].InstanceEvent?;
    assert es[0].InstanceEvent? && !IntroducedBefore(es, 0, es[0].classId);
  }

  /** Parse a file and report. On the bytes of any well-formed file the reported totals
      cover all its instances and arrays if and only if every instance's class was
      introduced before it. */
  method AnalyzeHprof(data: Bytes) returns (s: Option<Stats>)
    ensures s.None? <==> Decode(data).None?
    ensures s.Some? ==> Totals(s.value, Decode(data).value.heap)
    ensures forall f :: FileOk(f) && data == EncodeFile(f) ==>
              s.Some? && var es := Events(f.records, f.w);
              (CountsAll(s.value, es) <==> Introduced(es)) && (SizesAll(s.value, es) <==> Introduced(es))
  {
    var parser := new Parser(data);
    var parsed := parser.Parse();
    if parsed.None? {
      s := None;
    } else {
      var stats;
      ghost var list, keys;
      stats, list, keys := BuildStats(parser.Collected());
      s := Some(stats);
    }
    forall f | FileOk(f) && data == EncodeFile(f)
      ensures s.Some? && var es := Events(f.records, f.w);
              (CountsAll(s.value, es) <==> Introduced(es)) && (SizesAll(s.value, es) <==> Introduced(es))
    {
      FileRoundTrip(f);
      FileTotals(f, s.value);
    }
  }
}
