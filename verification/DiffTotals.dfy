/** Adding up the totals of the differential flame graph, on the linked nodes. */
module DiffTotals {
  import opened Text
  import opened StackSums
  import opened FlameTree

  /** Every stack ends at a node. */
  ghost predicate Ends(at: Nodes, es: seq<StackDelta>) {
    forall i :: 0 <= i < |es| ==> es[i].frames in at
  }

  ghost predicate Shallow(at: Nodes, depth: nat) {
    forall p :: p in at ==> |p| <= depth
  }

  /** A node's prefix sum is its own weight plus its children's prefix sums. */
  lemma NodeSum(t: Tree, es: seq<StackDelta>, p: Path)
    requires Shape(t) && Ends(t.at, es) && p in t.at
    ensures PrefixSum(es, p) == SelfSum(es, p) + ChildSum(es, p, Names(t.kids[p]))
  {
    var names := Names(t.kids[p]);
    NamesDistinct(t, p);
    forall i | 0 <= i < |es| && p < es[i].frames ensures es[i].frames[|p|] in names {
      var k := NextFrameIsChild(t, p, es[i].frames);
      assert names[k] == es[i].frames[|p|];
    }
    Decompose(es, p, names);
  }

  lemma ChildPath(t: Tree, p: Path, i: nat)
    requires Shape(t) && p in t.at && i < |t.kids[p]|
    ensures var q := p + [t.kids[p][i].name]; q in t.at && t.at[q] == t.kids[p][i]
  {
    assert Linked(t.at, p, t.kids[p]);
  }

  // ---------- totals ----------

  /** The total stored in each node. */
  ghost predicate HoldsTotals(t: Tree, totals: map<Path, int>)
    reads t.path.Keys`totalDelta
  {
    && Named(t.at, t.path) && totals.Keys == t.at.Keys
    && forall q :: q in t.at ==> t.at[q].totalDelta == totals[q]
  }

  /** The prefix sum of every node. */
  ghost function Totals(at: Nodes, es: seq<StackDelta>): map<Path, int> {
    map p | p in at :: PrefixSum(es, p)
  }

  /** Nodes at and below `p` have what `want` says, all others what they had. */
  ghost predicate SetFrom<T>(p: Path, want: map<Path, T>, before: map<Path, T>, after: map<Path, T>) {
    && want.Keys == before.Keys == after.Keys
    && forall q :: q in want ==> after[q] == if p <= q then want[q] else before[q]
  }

  /** `q` lies strictly below `p`, through one of the frames `names`. */
  ghost predicate Below(p: Path, names: seq<string>, q: Path) {
    p < q && q[|p|] in names
  }

  /** The same with only some children of `p` done, and not `p` itself. */
  ghost predicate SetBelow<T>(p: Path, names: seq<string>, want: map<Path, T>, before: map<Path, T>, after: map<Path, T>) {
    && want.Keys == before.Keys == after.Keys
    && forall q :: q in want ==> after[q] == if Below(p, names, q) then want[q] else before[q]
  }

  lemma OneMoreChild<T>(p: Path, names: seq<string>, i: nat, want: map<Path, T>,
                        before: map<Path, T>, m: map<Path, T>, after: map<Path, T>)
    requires i < |names| && SetBelow(p, names[..i], want, before, m) && SetFrom(p + [names[i]], want, m, after)
    ensures SetBelow(p, names[..i + 1], want, before, after)
  {
    TakeSnoc(names, i);
    forall q | q in want ensures after[q] == if Below(p, names[..i + 1], q) then want[q] else before[q] {
      assert p + [names[i]] <= q <==> p < q && q[|p|] == names[i];
    }
  }

  lemma AllChildren<T>(t: Tree, p: Path, want: map<Path, T>, before: map<Path, T>, m: map<Path, T>)
    requires Shape(t) && p in t.at && want.Keys == t.at.Keys && SetBelow(p, Names(t.kids[p]), want, before, m)
    ensures SetFrom(p, want, before, m[p := want[p]])
  {
    forall q | q in want ensures m[p := want[p]][q] == if p <= q then want[q] else before[q] {
      if p < q {
        var k := NextFrameIsChild(t, p, q);
        assert Names(t.kids[p])[k] == q[|p|];
      }
      assert p <= q <==> p == q || p < q;
    }
  }

  lemma ChildSumSnocName(es: seq<StackDelta>, p: Path, names: seq<string>, i: nat)
    requires i < |names|
    ensures ChildSum(es, p, names[..i + 1]) == ChildSum(es, p, names[..i]) + PrefixSum(es, p + [names[i]])
  {
    assert names[..i + 1][..i] == names[..i];
  }

  method SetTotal(node: Node, total: int, ghost t: Tree, ghost p: Path, ghost m: map<Path, int>)
    requires HoldsTotals(t, m) && p in t.at && t.at[p] == node
    modifies node`totalDelta
    ensures HoldsTotals(t, m[p := total])
  {
    node.totalDelta := total;
    forall q | q in t.at && q != p ensures t.at[q] != node { assert t.path[t.at[q]] == q; }
  }

  /** The loop over a node's children. */
  method SumChildren(node: Node, ghost t: Tree, ghost p: Path, ghost es: seq<StackDelta>, ghost depth: nat,
                     ghost before: map<Path, int>)
    returns (total: int, ghost after: map<Path, int>)
    requires Stored(t) && Shape(t) && Weighted(t, es) && Ends(t.at, es) && Shallow(t.at, depth)
    requires HoldsTotals(t, before) && p in t.at && t.at[p] == node
    modifies t.path.Keys`totalDelta
    ensures total == SelfSum(es, p) + ChildSum(es, p, Names(t.kids[p]))
    ensures HoldsTotals(t, after) && SetBelow(p, Names(t.kids[p]), Totals(t.at, es), before, after)
    decreases depth - |p|, 0
  {
    total, after := node.selfDelta, before;
    var cs := node.children;
    ghost var names := Names(cs);
    var i := 0;
    while i < |cs|
      invariant 0 <= i <= |names|
      invariant total == SelfSum(es, p) + ChildSum(es, p, names[..i])
      invariant HoldsTotals(t, after) && SetBelow(p, names[..i], Totals(t.at, es), before, after)
    {
      ghost var m := after;
      ChildPath(t, p, i);
      assert |p + [names[i]]| <= depth;
      var sub;
      sub, after := ComputeTotalDelta(cs[i], t, p + [names[i]], es, depth, m);
      total := total + sub;
      ChildSumSnocName(es, p, names, i);
      OneMoreChild(p, names, i, Totals(t.at, es), before, m, after);
      i := i + 1;
    }
    assert i == |names|;
    TakeAll(names);
  }

  /** Add up the totals of a subtree: every node gets the weight of all stacks that run
      through it, and nothing else changes. */
  method ComputeTotalDelta(node: Node, ghost t: Tree, ghost p: Path, ghost es: seq<StackDelta>, ghost depth: nat,
                           ghost before: map<Path, int>)
    returns (total: int, ghost after: map<Path, int>)
    requires Stored(t) && Shape(t) && Weighted(t, es) && Ends(t.at, es) && Shallow(t.at, depth)
    requires HoldsTotals(t, before) && p in t.at && t.at[p] == node
    modifies t.path.Keys`totalDelta
    ensures total == PrefixSum(es, p)
    ensures HoldsTotals(t, after) && SetFrom(p, Totals(t.at, es), before, after)
    decreases depth - |p|, 1
  {
    total, after := SumChildren(node, t, p, es, depth, before);
    NodeSum(t, es, p);
    AllChildren(t, p, Totals(t.at, es), before, after);
    SetTotal(node, total, t, p, after);
    after := after[p := total];
  }
}
