/** The hottest functions of a profile: counts per function, the top list, the shares of
    its first entries and its tiers. */
module TopN {
  import opened Text
  import opened FoldedStacks
  import opened Sorting

  datatype Func = Func(name: string, self: int, total: int)

  function Frames(e: Entry): (fs: seq<string>)
    ensures fs != []
  {
    Split(e.stack, ';')
  }

  function Leaf(e: Entry): string { Frames(e)[|Frames(e)| - 1] }

  // ---------- what the counts mean ----------

  function Samples(es: seq<Entry>): int {
    if es == [] then 0 else Samples(es[..|es| - 1]) + es[|es| - 1].count
  }

  /** Samples taken in `f` itself. */
  function SelfOf(es: seq<Entry>, f: string): int {
    if es == [] then 0
    else SelfOf(es[..|es| - 1], f) + if Leaf(es[|es| - 1]) == f then es[|es| - 1].count else 0
  }

  function Occurrences(fs: seq<string>, f: string): nat { multiset(fs)[f] }

  /** Samples with `f` on the stack, once for every frame that is `f`. */
  function TotalOf(es: seq<Entry>, f: string): int {
    if es == [] then 0
    else TotalOf(es[..|es| - 1], f) + es[|es| - 1].count * Occurrences(Frames(es[|es| - 1]), f)
  }

  /** What one stack with count `c` adds to `f`, frame by frame. */
  function Credit(fs: seq<string>, f: string, c: int): int {
    if fs == [] then 0 else Credit(fs[..|fs| - 1], f, c) + if fs[|fs| - 1] == f then c else 0
  }

  lemma CreditSnoc(fs: seq<string>, k: nat, f: string, c: int)
    requires k < |fs|
    ensures Credit(fs[..k + 1], f, c) == Credit(fs[..k], f, c) + if fs[k] == f then c else 0
  {
    assert fs[..k + 1][..k] == fs[..k];
  }

  lemma MoreTimes(c: int, n: int)
    ensures c * (n + 1) == c * n + c
  {
  }

  lemma {:induction false} CreditIsProduct(fs: seq<string>, f: string, c: int)
    ensures Credit(fs, f, c) == c * Occurrences(fs, f)
  {
    if fs != [] {
      var n := |fs| - 1;
      CreditIsProduct(fs[..n], f, c);
      assert fs == fs[..n] + [fs[n]];
      MoreTimes(c, Occurrences(fs[..n], f));
    }
  }

  // ---------- counting ----------

  /** Leaf functions in order of first appearance. */
  function LeafOrder(es: seq<Entry>): seq<string> {
    if es == [] then [] else WithLeaf(LeafOrder(es[..|es| - 1]), Leaf(es[|es| - 1]))
  }

  function WithLeaf(order: seq<string>, f: string): seq<string> { if f in order then order else order + [f] }

  ghost predicate NoDoubles(order: seq<string>) { forall i, j :: 0 <= i < j < |order| ==> order[i] != order[j] }

  lemma {:induction false} LeavesOnce(es: seq<Entry>)
    ensures NoDoubles(LeafOrder(es)) && forall i :: 0 <= i < |es| ==> Leaf(es[i]) in LeafOrder(es)
  {
    if es != [] {
      var n := |es| - 1;
      LeavesOnce(es[..n]);
      forall i | 0 <= i < |es| ensures Leaf(es[i]) in LeafOrder(es) { assert i < n ==> es[..n][i] == es[i]; }
    }
  }

  ghost predicate Counted(es: seq<Entry>, order: seq<string>, selfCount: map<string, int>, totalCount: map<string, int>) {
    && order == LeafOrder(es) && (forall f :: f in selfCount <==> f in order)
    && (forall f :: Get(selfCount, f) == SelfOf(es, f))
    && (forall f :: Get(totalCount, f) == TotalOf(es, f))
  }

  lemma SelfSnoc(es: seq<Entry>, e: Entry, selfCount: map<string, int>)
    requires forall f :: Get(selfCount, f) == SelfOf(es, f)
    ensures forall f :: Get(selfCount[Leaf(e) := Get(selfCount, Leaf(e)) + e.count], f) == SelfOf(es + [e], f)
  {
    assert (es + [e])[..|es|] == es;
  }

  lemma TotalSnoc(es: seq<Entry>, e: Entry, totalCount: map<string, int>, totalCount': map<string, int>)
    requires forall f :: Get(totalCount, f) == TotalOf(es, f)
    requires forall f :: Get(totalCount', f) == Get(totalCount, f) + Credit(Frames(e), f, e.count)
    ensures forall f :: Get(totalCount', f) == TotalOf(es + [e], f)
  {
    assert (es + [e])[..|es|] == es;
    forall f ensures Get(totalCount', f) == TotalOf(es + [e], f) { CreditIsProduct(Frames(e), f, e.count); }
  }

  lemma CountedSnoc(es: seq<Entry>, e: Entry, order: seq<string>, selfCount: map<string, int>,
                    totalCount: map<string, int>, totalCount': map<string, int>)
    requires Counted(es, order, selfCount, totalCount)
    requires forall f :: Get(totalCount', f) == Get(totalCount, f) + Credit(Frames(e), f, e.count)
    ensures Counted(es + [e], WithLeaf(order, Leaf(e)), selfCount[Leaf(e) := Get(selfCount, Leaf(e)) + e.count], totalCount')
  {
    OrderSnoc(es, e);
    SelfSnoc(es, e, selfCount);
    TotalSnoc(es, e, totalCount, totalCount');
  }

  lemma OrderSnoc(es: seq<Entry>, e: Entry)
    ensures LeafOrder(es + [e]) == WithLeaf(LeafOrder(es), Leaf(e))
  {
    assert (es + [e])[..|es|] == es;
  }

  /** The inner loop: every frame of a stack is credited. */
  method AddFrames(totalCount: map<string, int>, e: Entry) returns (r: map<string, int>)
    ensures forall f :: Get(r, f) == Get(totalCount, f) + Credit(Frames(e), f, e.count)
  {
    r := totalCount;
    var frames := Split(e.stack, ';');
    for k := 0 to |frames|
      invariant forall f :: Get(r, f) == Get(totalCount, f) + Credit(frames[..k], f, e.count)
    {
      var before := r;
      r := r[frames[k] := Get(r, frames[k]) + e.count];
      forall f ensures Get(r, f) == Get(totalCount, f) + Credit(frames[..k + 1], f, e.count) {
        CreditSnoc(frames, k, f, e.count);
        assert Get(before, f) == Get(totalCount, f) + Credit(frames[..k], f, e.count);
      }
    }
    TakeAll(frames);
  }

  /** The outer loop's body. */
  method CountStack(e: Entry, ghost es: seq<Entry>, order: seq<string>, selfCount: map<string, int>, totalCount: map<string, int>)
    returns (order': seq<string>, selfCount': map<string, int>, totalCount': map<string, int>)
    requires Counted(es, order, selfCount, totalCount)
    ensures Counted(es + [e], order', selfCount', totalCount')
  {
    var leaf := Leaf(e);
    totalCount' := AddFrames(totalCount, e);
    selfCount' := selfCount[leaf := Get(selfCount, leaf) + e.count];
    order' := WithLeaf(order, leaf);
    CountedSnoc(es, e, order, selfCount, totalCount, totalCount');
  }

  /** The two dictionaries; `order` is the insertion order of the first. */
  method CountFunctions(items: seq<Entry>) returns (order: seq<string>, selfCount: map<string, int>, totalCount: map<string, int>)
    ensures Counted(items, order, selfCount, totalCount)
  {
    order, selfCount, totalCount := [], map[], map[];
    for i := 0 to |items|
      invariant Counted(items[..i], order, selfCount, totalCount)
    {
      TakeSnoc(items, i);
      order, selfCount, totalCount := CountStack(items[i], items[..i], order, selfCount, totalCount);
    }
    TakeAll(items);
  }

  // ---------- the top list ----------

  function FuncOf(es: seq<Entry>, f: string): Func { Func(f, SelfOf(es, f), TotalOf(es, f)) }

  /** Every function that is a leaf, once, with its counts. */
  function AllFuncs(es: seq<Entry>): (all: seq<Func>)
    ensures |all| == |LeafOrder(es)| && forall i :: 0 <= i < |all| ==> all[i] == FuncOf(es, LeafOrder(es)[i])
  {
    seq(|LeafOrder(es)|, i requires 0 <= i < |LeafOrder(es)| => FuncOf(es, LeafOrder(es)[i]))
  }

  function BySelf(f: Func): int { f.self }

  function First(s: seq<Func>, k: nat): seq<Func> { if k < |s| then s[..k] else s }

  /** The functions with the largest self counts. */
  function Top(es: seq<Entry>, k: nat): seq<Func> { First(Sorted(AllFuncs(es), BySelf), k) }

  method AnalyzeTopN(items: seq<Entry>, topK: nat) returns (top: seq<Func>)
    ensures top == Top(items, topK)
  {
    var names, selfCount, totalCount := CountFunctions(items);
    var result := [];
    for i := 0 to |names|
      invariant result == AllFuncs(items)[..i]
    {
      assert names[i] in names;
      result := result + [Func(names[i], selfCount[names[i]], Get(totalCount, names[i]))];
    }
    TakeAll(AllFuncs(items));
    result := Sorted(result, BySelf);
    top := if topK < |result| then result[..topK] else result;
  }

  // ---------- conservation ----------

  function SelfSum(fs: seq<Func>): int {
    if fs == [] then 0 else SelfSum(fs[..|fs| - 1]) + fs[|fs| - 1].self
  }

  function SelfOver(es: seq<Entry>, order: seq<string>): int {
    if order == [] then 0 else SelfOver(es, order[..|order| - 1]) + SelfOf(es, order[|order| - 1])
  }

  lemma {:induction false} SelfOverSnoc(es: seq<Entry>, e: Entry, order: seq<string>)
    requires NoDoubles(order)
    ensures SelfOver(es + [e], order) == SelfOver(es, order) + if Leaf(e) in order then e.count else 0
    decreases |order|
  {
    if order != [] {
      var n := |order| - 1;
      SelfOverSnoc(es, e, order[..n]);
      assert (es + [e])[..|es|] == es;
      assert forall f :: f in order <==> f in order[..n] || f == order[n];
    }
  }

  /** Over all its leaf functions a profile's self counts add up to its samples. */
  lemma {:induction false} SelfConserved(es: seq<Entry>, order: seq<string>)
    requires NoDoubles(order)
    requires forall i :: 0 <= i < |es| ==> Leaf(es[i]) in order
    ensures SelfOver(es, order) == Samples(es)
    decreases |es|
  {
    if es == [] {
      NoSamples(order);
    } else {
      var n := |es| - 1;
      SelfConserved(es[..n], order);
      SelfOverSnoc(es[..n], es[n], order);
      assert es == es[..n] + [es[n]];
    }
  }

  lemma {:induction false} NoSamples(order: seq<string>)
    ensures SelfOver([], order) == 0
  {
    if order != [] { NoSamples(order[..|order| - 1]); }
  }

  lemma {:induction false} ListedSum(all: seq<Func>, es: seq<Entry>, order: seq<string>)
    requires |all| == |order| && forall i :: 0 <= i < |order| ==> all[i] == FuncOf(es, order[i])
    ensures SelfSum(all) == SelfOver(es, order)
  {
    if order != [] { ListedSum(all[..|order| - 1], es, order[..|order| - 1]); }
  }

  lemma {:induction false} InsertSum(s: seq<Func>, x: Func)
    ensures SelfSum(Insert(s, x, BySelf)) == SelfSum(s) + x.self
  {
    var n := |s| - 1;
    if s == [] || s[n].self >= x.self {
      assert (s + [x])[..|s|] == s;
    } else {
      InsertSum(s[..n], x);
      var r := Insert(s[..n], x, BySelf);
      assert (r + [s[n]])[..|r|] == r;
    }
  }

  lemma {:induction false} SortedSum(s: seq<Func>)
    ensures SelfSum(Sorted(s, BySelf)) == SelfSum(s)
  {
    if s != [] {
      SortedSum(s[..|s| - 1]);
      InsertSum(Sorted(s[..|s| - 1], BySelf), s[|s| - 1]);
    }
  }

  lemma KeptDominates(full: seq<Func>, k: nat)
    requires Descending(full, BySelf)
    ensures forall i, j :: 0 <= i < |First(full, k)| <= j < |full| ==> full[j].self <= First(full, k)[i].self
  {
    forall i, j | 0 <= i < |First(full, k)| <= j < |full| ensures full[j].self <= First(full, k)[i].self {
      assert BySelf(full[i]) >= BySelf(full[j]);
    }
  }

  lemma AllSamples(es: seq<Entry>)
    ensures SelfSum(AllFuncs(es)) == Samples(es)
  {
    LeavesOnce(es);
    ListedSum(AllFuncs(es), es, LeafOrder(es));
    SelfConserved(es, LeafOrder(es));
  }

  /** The self counts of all functions add up to all samples; a kept function has at
      least the self count of every dropped one. */
  lemma {:induction false} TopListLaws(es: seq<Entry>, k: nat)
    ensures SelfSum(Sorted(AllFuncs(es), BySelf)) == Samples(es)
    ensures multiset(Sorted(AllFuncs(es), BySelf)) == multiset(AllFuncs(es))
    ensures var full := Sorted(AllFuncs(es), BySelf);
      forall i, j :: 0 <= i < |First(full, k)| <= j < |full| ==> full[j].self <= First(full, k)[i].self
  {
    var all := AllFuncs(es);
    AllSamples(es);
    SortedSum(all);
    SortedKeeps(all, BySelf);
    SortedDescending(all, BySelf);
    KeptDominates(Sorted(all, BySelf), k);
  }

  // ---------- concentration ----------

  function Pct(a: int, samples: int): real
    requires samples > 0
  {
    a as real / samples as real * 100.0
  }

  /** Share of the first `j` functions in all samples, in percent. */
  function Share(top: seq<Func>, j: nat, samples: int): real
    requires samples > 0
  {
    Pct(SelfSum(First(top, j)), samples)
  }

  lemma {:induction false} PrefixSumGrows(fs: seq<Func>, i: nat, j: nat)
    requires i <= j <= |fs| && forall k :: 0 <= k < |fs| ==> fs[k].self >= 0
    ensures 0 <= SelfSum(fs[..i]) <= SelfSum(fs[..j])
    decreases j
  {
    if i < j {
      PrefixSumGrows(fs, i, j - 1);
      assert fs[..j][..j - 1] == fs[..j - 1];
    } else if i > 0 {
      PrefixSumGrows(fs, i - 1, i - 1);
      assert fs[..i][..i - 1] == fs[..i - 1];
    } else {
      assert fs[..0] == [];
    }
  }

  lemma {:induction false} SelfNonNegative(es: seq<Entry>, f: string)
    requires forall i :: 0 <= i < |es| ==> es[i].count >= 0
    ensures SelfOf(es, f) >= 0
  {
    if es != [] { SelfNonNegative(es[..|es| - 1], f); }
  }

  lemma FirstTaken(fs: seq<Func>, j: nat)
    ensures First(fs, j) == fs[..if j < |fs| then j else |fs|]
  {
  }

  lemma PctOrder(a: int, b: int, samples: int)
    requires a <= b && samples > 0
    ensures Pct(a, samples) <= Pct(b, samples)
  {
    assert a as real / samples as real <= b as real / samples as real;
  }

  lemma PctChain(a: int, b: int, c: int, samples: int)
    requires 0 <= a <= b <= c <= samples && samples > 0
    ensures 0.0 <= Pct(a, samples) <= Pct(b, samples) <= Pct(c, samples) <= 100.0
  {
    PctOrder(0, a, samples);
    PctOrder(a, b, samples);
    PctOrder(b, c, samples);
    PctOrder(c, samples, samples);
    assert samples as real / samples as real == 1.0;
  }

  lemma {:induction false} SharesOrdered(top: seq<Func>, samples: int)
    requires samples > 0 && SelfSum(top) <= samples && forall k :: 0 <= k < |top| ==> top[k].self >= 0
    ensures 0.0 <= Share(top, 1, samples) <= Share(top, 3, samples) <= Share(top, 5, samples) <= 100.0
  {
    var c := |top|;
    var c1, c3, c5 := if 1 < c then 1 else c, if 3 < c then 3 else c, if 5 < c then 5 else c;
    FirstTaken(top, 1);
    FirstTaken(top, 3);
    FirstTaken(top, 5);
    TakeAll(top);
    PrefixSumGrows(top, c1, c3);
    PrefixSumGrows(top, c3, c5);
    PrefixSumGrows(top, c5, c);
    PctChain(SelfSum(top[..c1]), SelfSum(top[..c3]), SelfSum(top[..c5]), samples);
  }

  /** For non-negative counts the shares are ordered and never exceed 100 percent. */
  lemma {:induction false} Concentration(es: seq<Entry>, k: nat)
    requires Samples(es) > 0 && forall i :: 0 <= i < |es| ==> es[i].count >= 0
    ensures var top := Top(es, k);
      0.0 <= Share(top, 1, Samples(es)) <= Share(top, 3, Samples(es)) <= Share(top, 5, Samples(es)) <= 100.0
  {
    TopWithinSamples(es, k);
    SharesOrdered(Top(es, k), Samples(es));
  }

  lemma {:induction false} TopWithinSamples(es: seq<Entry>, k: nat)
    requires forall i :: 0 <= i < |es| ==> es[i].count >= 0
    ensures SelfSum(Top(es, k)) <= Samples(es) && forall i :: 0 <= i < |Top(es, k)| ==> Top(es, k)[i].self >= 0
  {
    var full, top := Sorted(AllFuncs(es), BySelf), Top(es, k);
    TopListLaws(es, k);
    forall i | 0 <= i < |full| ensures full[i].self >= 0 { SortedSelf(es, i); }
    FirstTaken(full, k);
    TakeAll(full);
    PrefixSumGrows(full, |top|, |full|);
  }

  lemma {:induction false} SortedSelf(es: seq<Entry>, i: nat)
    requires i < |AllFuncs(es)| && forall k :: 0 <= k < |es| ==> es[k].count >= 0
    ensures Sorted(AllFuncs(es), BySelf)[i].self >= 0
  {
    var all := AllFuncs(es);
    SortedMembers(all, BySelf);
    var f := Sorted(all, BySelf)[i];
    assert f in Sorted(all, BySelf) && f in all;
    var j :| 0 <= j < |all| && all[j] == f;
    SelfNonNegative(es, LeafOrder(es)[j]);
  }

  // ---------- tiers ----------

  datatype Tier = Critical | High | Medium | Low

  function Percent(f: Func, samples: int): real {
    if samples > 0 then f.self as real / samples as real * 100.0 else 0.0
  }

  function TierOf(p: real): Tier {
    if p > 10.0 then Critical else if p > 5.0 then High else if p > 1.0 then Medium else Low
  }

  /** The entries of one tier, in order. */
  function InTier(fs: seq<Func>, samples: int, t: Tier): seq<Func> {
    if fs == [] then []
    else
      var n := |fs| - 1;
      if TierOf(Percent(fs[n], samples)) == t then InTier(fs[..n], samples, t) + [fs[n]] else InTier(fs[..n], samples, t)
  }

  method PerformanceTiers(topn: seq<Func>, samples: int)
    returns (critical: seq<Func>, high: seq<Func>, medium: seq<Func>, low: seq<Func>)
    ensures critical == InTier(topn, samples, Critical) && high == InTier(topn, samples, High)
    ensures medium == InTier(topn, samples, Medium) && low == InTier(topn, samples, Low)
  {
    critical, high, medium, low := [], [], [], [];
    for i := 0 to |topn|
      invariant critical == InTier(topn[..i], samples, Critical) && high == InTier(topn[..i], samples, High)
      invariant medium == InTier(topn[..i], samples, Medium) && low == InTier(topn[..i], samples, Low)
    {
      assert topn[..i + 1][..i] == topn[..i];
      var pct := if samples > 0 then topn[i].self as real / samples as real * 100.0 else 0.0;
      if pct > 10.0 {
        critical := critical + [topn[i]];
      } else if pct > 5.0 {
        high := high + [topn[i]];
      } else if pct > 1.0 {
        medium := medium + [topn[i]];
      } else {
        low := low + [topn[i]];
      }
    }
    TakeAll(topn);
  }

  lemma {:induction false} TierMembers(fs: seq<Func>, samples: int, t: Tier)
    ensures forall f :: f in InTier(fs, samples, t) ==> TierOf(Percent(f, samples)) == t
  {
    if fs != [] { TierMembers(fs[..|fs| - 1], samples, t); }
  }

  /** The tiers by shares of the samples: more than a tenth, a twentieth, a hundredth. */
  lemma TierByShare(f: Func, samples: int)
    requires samples > 0
    ensures match TierOf(Percent(f, samples))
      case Critical => samples < 10 * f.self
      case High => 10 * f.self <= samples < 20 * f.self
      case Medium => 20 * f.self <= samples < 100 * f.self
      case Low => 100 * f.self <= samples
  {
    var s, n := f.self as real, samples as real;
    ShareAbove(s, n, 10.0);
    ShareAbove(s, n, 5.0);
    ShareAbove(s, n, 1.0);
    assert Percent(f, samples) == s / n * 100.0;
    assert 10.0 * n == (10 * samples) as real && 5.0 * n == (5 * samples) as real && 100.0 * s == (100 * f.self) as real;
  }

  lemma ShareAbove(s: real, n: real, p: real)
    requires n > 0.0
    ensures s / n * 100.0 > p <==> 100.0 * s > p * n
  {
    var q := s / n;
    assert q * n == s;
    if q * 100.0 > p { assert q * 100.0 * n > p * n; }
    if q * 100.0 <= p { assert q * 100.0 * n <= p * n; }
  }

  lemma InTierSnoc(fs: seq<Func>, samples: int, t: Tier)
    requires fs != []
    ensures var n := |fs| - 1;
      multiset(InTier(fs, samples, t)) ==
        multiset(InTier(fs[..n], samples, t)) + If(TierOf(Percent(fs[n], samples)) == t, fs[n])
  {
  }

  function If(b: bool, x: Func): multiset<Func> { if b then multiset{x} else multiset{} }

  lemma OnePlace(a: multiset<Func>, b: multiset<Func>, c: multiset<Func>, d: multiset<Func>, x: Func, t: Tier)
    ensures a + b + c + d + multiset{x} ==
      (a + If(t == Critical, x)) + (b + If(t == High, x)) + (c + If(t == Medium, x)) + (d + If(t == Low, x))
  {
  }

  /** Every entry is in exactly one tier, the one its share puts it in. */
  lemma {:induction false} TiersPartition(fs: seq<Func>, samples: int)
    ensures multiset(fs) == multiset(InTier(fs, samples, Critical)) + multiset(InTier(fs, samples, High))
                            + multiset(InTier(fs, samples, Medium)) + multiset(InTier(fs, samples, Low))
  {
    if fs != [] {
      var n := |fs| - 1;
      TiersPartition(fs[..n], samples);
      InTierSnoc(fs, samples, Critical);
      InTierSnoc(fs, samples, High);
      InTierSnoc(fs, samples, Medium);
      InTierSnoc(fs, samples, Low);
      OnePlace(multiset(InTier(fs[..n], samples, Critical)), multiset(InTier(fs[..n], samples, High)),
               multiset(InTier(fs[..n], samples, Medium)), multiset(InTier(fs[..n], samples, Low)),
               fs[n], TierOf(Percent(fs[n], samples)));
      assert fs == fs[..n] + [fs[n]];
    }
  }
}
