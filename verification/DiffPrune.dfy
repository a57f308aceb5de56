/** Removing the unchanged subtrees of the differential flame graph. */
module DiffPrune {
  import opened Text
  import opened StackSums
  import opened FlameTree
  import opened DiffTotals

  /** Some stack through `p` ends where the weights do not cancel. */
  ghost predicate Live(es: seq<StackDelta>, p: Path) {
    exists i :: 0 <= i < |es| && p <= es[i].frames && SelfSum(es, es[i].frames) != 0
  }

  /** The live ones among some children of the node at `p`, in their order. */
  ghost function KeepLive(es: seq<StackDelta>, p: Path, cs: seq<Node>): (r: seq<Node>)
    ensures SomeOf(es, p, r, cs) && forall c :: c in r ==> Live(es, p + [c.name])
  {
    if cs == [] then []
    else
      var n := |cs| - 1;
      if Live(es, p + [cs[n].name]) then KeepLive(es, p, cs[..n]) + [cs[n]] else KeepLive(es, p, cs[..n])
  }

  lemma KeepLiveSnoc(es: seq<StackDelta>, p: Path, cs: seq<Node>, i: nat)
    requires i < |cs|
    ensures KeepLive(es, p, cs[..i + 1]) ==
      if Live(es, p + [cs[i].name]) then KeepLive(es, p, cs[..i]) + [cs[i]] else KeepLive(es, p, cs[..i])
  {
    assert cs[..i + 1][..i] == cs[..i];
  }

  lemma {:induction false} KeepLiveDistinct(es: seq<StackDelta>, p: Path, cs: seq<Node>)
    requires forall i, j :: 0 <= i < j < |cs| ==> cs[i] != cs[j]
    ensures var r := KeepLive(es, p, cs); forall i, j :: 0 <= i < j < |r| ==> r[i] != r[j]
  {
    if cs != [] {
      var n := |cs| - 1;
      KeepLiveDistinct(es, p, cs[..n]);
      assert cs[n] !in cs[..n] && cs[n] !in KeepLive(es, p, cs[..n]);
    }
  }

  lemma LivePrefix(es: seq<StackDelta>, p: Path, q: Path)
    requires p <= q && Live(es, q)
    ensures Live(es, p)
  {
    var i :| 0 <= i < |es| && q <= es[i].frames && SelfSum(es, es[i].frames) != 0;
    assert p <= es[i].frames;
  }

  lemma {:induction false} SomeChildSum(es: seq<StackDelta>, p: Path, names: seq<string>) returns (i: nat)
    requires ChildSum(es, p, names) != 0
    ensures i < |names| && PrefixSum(es, p + [names[i]]) != 0
  {
    var n := |names| - 1;
    if PrefixSum(es, p + [names[n]]) != 0 {
      i := n;
    } else {
      i := SomeChildSum(es, p, names[..n]);
    }
  }

  lemma {:induction false} SomeEnd(es: seq<StackDelta>, p: Path) returns (i: nat)
    requires SelfSum(es, p) != 0
    ensures i < |es| && es[i].frames == p
  {
    if es[|es| - 1].frames == p { i := |es| - 1; } else { i := SomeEnd(es[..|es| - 1], p); }
  }

  /** A subtree with a non-zero total has a node whose own weights do not cancel. */
  lemma {:induction false} TotalIsLive(t: Tree, es: seq<StackDelta>, p: Path, depth: nat)
    requires Shape(t) && Ends(t.at, es) && Shallow(t.at, depth) && p in t.at && PrefixSum(es, p) != 0
    ensures Live(es, p)
    decreases depth - |p|
  {
    if SelfSum(es, p) != 0 {
      var i := SomeEnd(es, p);
    } else {
      NodeSum(t, es, p);
      var i := SomeChildSum(es, p, Names(t.kids[p]));
      ChildPath(t, p, i);
      var q := p + [t.kids[p][i].name];
      assert |q| <= depth;
      TotalIsLive(t, es, q, depth);
      LivePrefix(es, p, q);
    }
  }

  lemma LiveChild(t: Tree, es: seq<StackDelta>, p: Path, depth: nat)
    requires Shape(t) && Ends(t.at, es) && Shallow(t.at, depth) && p in t.at && Live(es, p) && PrefixSum(es, p) == 0
    ensures KeepLive(es, p, t.kids[p]) != []
  {
    var cs := t.kids[p];
    var i :| 0 <= i < |es| && p <= es[i].frames && SelfSum(es, es[i].frames) != 0;
    var k;
    if es[i].frames == p {
      NodeSum(t, es, p);
      k := SomeChildSum(es, p, Names(cs));
      ChildPath(t, p, k);
      TotalIsLive(t, es, p + [cs[k].name], depth);
    } else {
      k := NextFrameIsChild(t, p, es[i].frames);
      assert p + [cs[k].name] <= es[i].frames;
    }
    assert cs[k] in KeepLive(es, p, cs);
  }

  /** A node is live exactly when its total is not zero or one of its children is live. */
  lemma LiveStep(t: Tree, es: seq<StackDelta>, p: Path, depth: nat)
    requires Shape(t) && Ends(t.at, es) && Shallow(t.at, depth) && p in t.at
    ensures Live(es, p) <==> PrefixSum(es, p) != 0 || KeepLive(es, p, t.kids[p]) != []
  {
    var r := KeepLive(es, p, t.kids[p]);
    if PrefixSum(es, p) != 0 {
      TotalIsLive(t, es, p, depth);
    } else if Live(es, p) {
      LiveChild(t, es, p, depth);
    }
    if r != [] {
      assert r[0] in r;
      LivePrefix(es, p, p + [r[0].name]);
    }
  }

  lemma NoneKept(es: seq<StackDelta>, p: Path, some: seq<Node>, cs: seq<Node>)
    requires SomeOf(es, p, some, cs)
    ensures KeepLive(es, p, some) == [] <==> KeepLive(es, p, cs) == []
  {
    var r, s := KeepLive(es, p, cs), KeepLive(es, p, some);
    assert r != [] ==> r[0] in r && r[0] in some && r[0] in s;
    assert s != [] ==> s[0] in s && s[0] in cs && s[0] in r;
  }

  // ---------- the two passes ----------

  /** The children every node is left with. */
  ghost function Kept(t: Tree, es: seq<StackDelta>): map<Path, seq<Node>>
    requires t.at.Keys == t.kids.Keys
  {
    map p | p in t.at :: KeepLive(es, p, t.kids[p])
  }

  /** The tree as built, with every total in place. */
  ghost predicate Summed(t: Tree, es: seq<StackDelta>, depth: nat) {
    match t
    case Tree(at, _, _, _, _) => Shape(t) && Ends(at, es) && Shallow(at, depth)
  }

  /** From `p` down, no live child has been removed and none has been added. */
  ghost predicate Thinned(t: Tree, es: seq<StackDelta>, p: Path, k: map<Path, seq<Node>>)
    requires t.at.Keys == t.kids.Keys
  {
    k.Keys == t.at.Keys && forall q :: q in t.at && p <= q ==> SomeOf(es, q, k[q], t.kids[q])
  }

  ghost predicate SomeOf(es: seq<StackDelta>, p: Path, some: seq<Node>, cs: seq<Node>) {
    (forall c :: c in some ==> c in cs) && (forall c :: c in cs && Live(es, p + [c.name]) ==> c in some)
  }

  lemma ThinnedChild(t: Tree, es: seq<StackDelta>, p: Path, k: map<Path, seq<Node>>, i: nat)
    requires Shape(t) && p in t.at && Thinned(t, es, p, k) && i < |k[p]|
    ensures var q := p + [k[p][i].name]; q in t.at && t.at[q] == k[p][i] && Thinned(t, es, q, k)
  {
    assert SomeOf(es, p, k[p], t.kids[p]);
    assert k[p][i] in t.kids[p];
    assert Linked(t.at, p, t.kids[p]);
  }

  /** Does any node of a subtree, pruned or not, have a non-zero total? True exactly
      when some node of it, as it was built, has weights that do not cancel. */
  method HasNonZeroDelta(node: Node, ghost t: Tree, ghost p: Path, ghost es: seq<StackDelta>, ghost depth: nat,
                         ghost k: map<Path, seq<Node>>)
    returns (r: bool)
    requires Summed(t, es, depth) && Stored(t.(kids := k)) && HoldsTotals(t, Totals(t.at, es)) && Thinned(t, es, p, k)
    requires p in t.at && t.at[p] == node
    ensures r == Live(es, p)
    decreases depth - |p|
  {
    LiveStep(t, es, p, depth);
    if node.totalDelta != 0 { return true; }
    var cs := node.children;
    var i := 0;
    while i < |cs|
      invariant 0 <= i <= |cs|
      invariant KeepLive(es, p, cs[..i]) == []
    {
      ghost var q := p + [cs[i].name];
      ThinnedChild(t, es, p, k, i);
      assert |q| <= depth;
      var sub := HasNonZeroDelta(cs[i], t, q, es, depth, k);
      if sub {
        LivePrefix(es, p, q);
        return true;
      }
      KeepLiveSnoc(es, p, cs, i);
      i := i + 1;
    }
    TakeAll(cs);
    NoneKept(es, p, cs, t.kids[p]);
    return false;
  }

  method SetChildren(node: Node, cs: seq<Node>, ghost t: Tree, ghost p: Path)
    requires Stored(t) && p in t.at && t.at[p] == node
    modifies node`children
    ensures Stored(t.(kids := t.kids[p := cs]))
  {
    node.children := cs;
    forall q | q in t.at && q != p ensures t.at[q] != node { assert t.path[t.at[q]] == q; }
  }

  /** Children of the nodes from `p` down are still those of the built tree. */
  ghost predicate UntouchedFrom(t: Tree, p: Path, k: map<Path, seq<Node>>)
    requires t.at.Keys == t.kids.Keys
  {
    k.Keys == t.at.Keys && forall q :: q in t.at && p <= q ==> k[q] == t.kids[q]
  }

  /** The first `i` children have been pruned and filtered. */
  ghost predicate Filtered(t: Tree, es: seq<StackDelta>, p: Path, i: nat, filtered: seq<Node>,
                           k: map<Path, seq<Node>>, k': map<Path, seq<Node>>)
    requires t.at.Keys == t.kids.Keys && p in t.kids
  {
    var cs := t.kids[p];
    && i <= |cs| && filtered == KeepLive(es, p, cs[..i])
    && SetBelow(p, Names(cs)[..i], Kept(t, es), k, k')
  }

  lemma NextChild(t: Tree, es: seq<StackDelta>, p: Path, i: nat, filtered: seq<Node>,
                  k: map<Path, seq<Node>>, m: map<Path, seq<Node>>)
    requires Shape(t) && p in t.at && i < |t.kids[p]| && UntouchedFrom(t, p, k) && Filtered(t, es, p, i, filtered, k, m)
    ensures var q := p + [t.kids[p][i].name]; q in t.at && t.at[q] == t.kids[p][i] && UntouchedFrom(t, q, m)
  {
    var names := Names(t.kids[p]);
    ChildPath(t, p, i);
    NamesDistinct(t, p);
    forall q | q in t.at && p + [names[i]] <= q ensures m[q] == t.kids[q] {
      assert q[|p|] == names[i] && p <= q;
      assert !Below(p, names[..i], q);
    }
  }

  lemma ChildPruned(t: Tree, es: seq<StackDelta>, p: Path, i: nat, filtered: seq<Node>, filtered': seq<Node>,
                    k: map<Path, seq<Node>>, m: map<Path, seq<Node>>, k': map<Path, seq<Node>>)
    requires t.at.Keys == t.kids.Keys && p in t.at && i < |t.kids[p]| && Filtered(t, es, p, i, filtered, k, m)
    requires SetFrom(p + [t.kids[p][i].name], Kept(t, es), m, k')
    requires filtered' == if Live(es, p + [t.kids[p][i].name]) then filtered + [t.kids[p][i]] else filtered
    ensures Filtered(t, es, p, i + 1, filtered', k, k')
  {
    KeepLiveSnoc(es, p, t.kids[p], i);
    OneMoreChild(p, Names(t.kids[p]), i, Kept(t, es), k, m, k');
  }

  lemma ChildDone(t: Tree, es: seq<StackDelta>, q: Path, m: map<Path, seq<Node>>, k: map<Path, seq<Node>>)
    requires t.at.Keys == t.kids.Keys && SetFrom(q, Kept(t, es), m, k)
    ensures Thinned(t, es, q, k)
  {
  }

  /** The loop over a node's children. */
  method FilterChildren(node: Node, ghost t: Tree, ghost p: Path, ghost es: seq<StackDelta>, ghost depth: nat,
                        ghost k: map<Path, seq<Node>>)
    returns (filtered: seq<Node>, ghost k': map<Path, seq<Node>>)
    requires Summed(t, es, depth) && Stored(t.(kids := k)) && HoldsTotals(t, Totals(t.at, es)) && UntouchedFrom(t, p, k)
    requires p in t.at && t.at[p] == node
    modifies t.path.Keys`children
    ensures Stored(t.(kids := k')) && Filtered(t, es, p, |t.kids[p]|, filtered, k, k')
    decreases depth - |p|, 0
  {
    filtered, k' := [], k;
    var cs := node.children;
    var i := 0;
    while i < |cs|
      invariant 0 <= i <= |cs| && Stored(t.(kids := k')) && Filtered(t, es, p, i, filtered, k, k')
    {
      ghost var m, q, before := k', p + [cs[i].name], filtered;
      NextChild(t, es, p, i, filtered, k, m);
      assert |q| <= depth;
      k' := PruneZeroDeltaNodes(cs[i], t, q, es, depth, m);
      ChildDone(t, es, q, m, k');
      var live := HasNonZeroDelta(cs[i], t, q, es, depth, k');
      if live { filtered := filtered + [cs[i]]; }
      ChildPruned(t, es, p, i, before, filtered, k, m, k');
      i := i + 1;
    }
  }

  /** Remove the unchanged subtrees below a node: every node from `p` down keeps exactly
      its live children, in order; all else is as before. */
  method PruneZeroDeltaNodes(node: Node, ghost t: Tree, ghost p: Path, ghost es: seq<StackDelta>, ghost depth: nat,
                             ghost k: map<Path, seq<Node>>)
    returns (ghost k': map<Path, seq<Node>>)
    requires Summed(t, es, depth) && Stored(t.(kids := k)) && HoldsTotals(t, Totals(t.at, es)) && UntouchedFrom(t, p, k)
    requires p in t.at && t.at[p] == node
    modifies t.path.Keys`children
    ensures Stored(t.(kids := k')) && SetFrom(p, Kept(t, es), k, k')
    decreases depth - |p|, 1
  {
    var filtered;
    filtered, k' := FilterChildren(node, t, p, es, depth, k);
    TakeAll(t.kids[p]);
    TakeAll(Names(t.kids[p]));
    AllChildren(t, p, Kept(t, es), k, k');
    SetChildren(node, filtered, t.(kids := k'), p);
    k' := k'[p := filtered];
  }

  // ---------- the tree that is left ----------

  /** The root and the live nodes, with their live children. */
  ghost function Pruned(t: Tree, es: seq<StackDelta>): Tree
    requires t.at.Keys == t.kids.Keys == t.self.Keys == t.base.Keys
  {
    Tree(map p | p in t.at && Stays(es, p) :: t.at[p], t.path,
         map p | p in t.at && Stays(es, p) :: KeepLive(es, p, t.kids[p]),
         map p | p in t.at && Stays(es, p) :: t.self[p],
         map p | p in t.at && Stays(es, p) :: t.base[p])
  }

  ghost predicate Stays(es: seq<StackDelta>, p: Path) {
    p == [] || Live(es, p)
  }

  lemma KeptLinked(at: Nodes, at': Nodes, es: seq<StackDelta>, p: Path, cs: seq<Node>)
    requires p in at && Linked(at, p, cs) && at' == (map q | q in at && Stays(es, q) :: at[q]) && p in at'
    requires forall f :: p + [f] in at ==> at[p + [f]].name == f
    ensures Linked(at', p, KeepLive(es, p, cs))
  {
    var r := KeepLive(es, p, cs);
    KeepLiveDistinct(es, p, cs);
    forall i | 0 <= i < |r| ensures p + [r[i].name] in at' && at'[p + [r[i].name]] == r[i] {
      assert r[i] in r && r[i] in cs;
    }
    forall f | p + [f] in at' ensures at'[p + [f]] in r {
      assert at[p + [f]] in cs && Live(es, p + [at[p + [f]].name]);
    }
  }

  lemma ChildName(t: Tree, p: Path, f: string)
    requires Shape(t) && p + [f] in t.at
    ensures t.at[p + [f]].name == f
  {
    assert Linked(t.at, p + [f], t.kids[p + [f]]);
    assert (p + [f])[|p + [f]| - 1] == f;
  }

  /** What pruning leaves is again a tree, of exactly the live paths. */
  lemma PrunedShape(t: Tree, es: seq<StackDelta>)
    requires Shape(t)
    ensures Shape(Pruned(t, es))
  {
    var u := Pruned(t, es);
    forall p, f {:trigger p + [f]} | p + [f] in u.at ensures p in u.at {
      LivePrefix(es, p, p + [f]);
    }
    forall p | p in u.at ensures Linked(u.at, p, u.kids[p]) {
      forall f | p + [f] in t.at ensures t.at[p + [f]].name == f { ChildName(t, p, f); }
      KeptLinked(t.at, u.at, es, p, t.kids[p]);
    }
  }

  lemma ChildSumSnocNode(es: seq<StackDelta>, p: Path, cs: seq<Node>, c: Node)
    ensures ChildSum(es, p, Names(cs + [c])) == ChildSum(es, p, Names(cs)) + PrefixSum(es, p + [c.name])
  {
    assert Names(cs + [c])[..|cs|] == Names(cs);
  }

  ghost predicate LiveOrEven(es: seq<StackDelta>, p: Path, c: Node) {
    Live(es, p + [c.name]) || PrefixSum(es, p + [c.name]) == 0
  }

  lemma {:induction false} DeadChildrenAddNothing(es: seq<StackDelta>, p: Path, cs: seq<Node>, i: nat)
    requires i <= |cs| && forall j :: 0 <= j < |cs| ==> LiveOrEven(es, p, cs[j])
    ensures ChildSum(es, p, Names(KeepLive(es, p, cs[..i]))) == ChildSum(es, p, Names(cs[..i]))
    decreases i
  {
    if i > 0 {
      var n := i - 1;
      DeadChildrenAddNothing(es, p, cs, n);
      KeepLiveSnoc(es, p, cs, n);
      TakeSnoc(cs, n);
      assert LiveOrEven(es, p, cs[n]);
      ChildSumSnocNode(es, p, cs[..n], cs[n]);
      ChildSumSnocNode(es, p, KeepLive(es, p, cs[..n]), cs[n]);
    } else {
      assert cs[..0] == [];
    }
  }

  /** After pruning a node's total is still its own weight plus its children's totals. */
  lemma KeptSum(t: Tree, es: seq<StackDelta>, p: Path, depth: nat)
    requires Summed(t, es, depth) && p in Pruned(t, es).at
    ensures PrefixSum(es, p) == SelfSum(es, p) + ChildSum(es, p, Names(Pruned(t, es).kids[p]))
  {
    var cs := t.kids[p];
    NodeSum(t, es, p);
    forall i | 0 <= i < |cs| ensures LiveOrEven(es, p, cs[i]) {
      ChildPath(t, p, i);
      if PrefixSum(es, p + [cs[i].name]) != 0 { TotalIsLive(t, es, p + [cs[i].name], depth); }
    }
    DeadChildrenAddNothing(es, p, cs, |cs|);
    TakeAll(cs);
  }

  // ---------- the nodes that are left ----------

  ghost function ChildTotals(cs: seq<Node>): int
    reads cs
  {
    if cs == [] then 0 else ChildTotals(cs[..|cs| - 1]) + cs[|cs| - 1].totalDelta
  }

  /** A node's total is its own weight plus the totals of the children it has kept. */
  ghost predicate AddsUp(n: Node)
    reads n, n.children
  {
    n.totalDelta == n.selfDelta + ChildTotals(n.children)
  }

  lemma {:induction false} ChildTotalsAreSums(es: seq<StackDelta>, p: Path, cs: seq<Node>)
    requires forall i :: 0 <= i < |cs| ==> cs[i].totalDelta == PrefixSum(es, p + [cs[i].name])
    ensures ChildTotals(cs) == ChildSum(es, p, Names(cs))
  {
    if cs != [] {
      var n := |cs| - 1;
      ChildTotalsAreSums(es, p, cs[..n]);
      assert cs == cs[..n] + [cs[n]];
      ChildSumSnocNode(es, p, cs[..n], cs[n]);
    }
  }
}
