/** The differential flame graph of two profiles, from their folded text to the pruned tree. */
module DiffGraph {
  import opened Text
  import opened StackSums
  import opened FlameTree
  import opened FoldedStacks
  import opened DiffTree
  import opened DiffTotals
  import opened DiffPrune

  type Profile = map<string, int>

  function FramesOf(stack: string): (p: Path)
    ensures p != []
  {
    Split(stack, ';')
  }

  // ---------- what the graph should show ----------

  /** Weight of a profile's stacks whose frames start with `p`. */
  ghost function Through(m: Profile, p: Path): int {
    if m == map[] then 0
    else
      var k :| k in m;
      Through(m - {k}, p) + if p <= FramesOf(k) then m[k] else 0
  }

  /** Count of the stack with exactly these frames. */
  function At(m: Profile, p: Path): int {
    if p != [] && FramesOf(Join(p, ';')) == p then Get(m, Join(p, ';')) else 0
  }

  /** Some stack through `p` has different counts in the two profiles. */
  ghost predicate Changed(m1: Profile, m2: Profile, p: Path) {
    exists k :: k in m1.Keys + m2.Keys && p <= FramesOf(k) && Get(m1, k) != Get(m2, k)
  }

  ghost predicate OnProfiles(m1: Profile, m2: Profile, p: Path) {
    exists k :: k in m1.Keys + m2.Keys && p <= FramesOf(k)
  }

  /** No two call paths share their string. */
  ghost predicate Unambiguous(m1: Profile, m2: Profile) {
    forall p, q :: p != [] && q != [] && OnProfiles(m1, m2, p) && OnProfiles(m1, m2, q) && PathKey(p) == PathKey(q) ==> p == q
  }

  /** Below the root the tree has exactly the changed call paths; every node shows the
      change in its own and in all its stacks, and its own count in the first profile. */
  ghost predicate Shows(t: Tree, m1: Profile, m2: Profile)
    reads t.path.Keys
  {
    && Named(t.at, t.path)
    && (forall p :: p in t.at <==> p == [] || Changed(m1, m2, p))
    && (forall p :: p in t.at ==> ShowsAt(t.at[p], p, m1, m2))
  }

  ghost predicate ShowsAt(n: Node, p: Path, m1: Profile, m2: Profile)
    reads n
  {
    && n.totalDelta == Through(m2, p) - Through(m1, p)
    && n.selfDelta == At(m2, p) - At(m1, p) && n.selfValue == At(m1, p)
  }

  lemma FirstFrame(stack: string)
    requires stack != "" && stack[0] != ';'
    ensures FramesOf(stack)[0] != ""
  {
  }

  /** Stacks that do not start with an empty frame are never ambiguous. */
  lemma NonEmptyFirstFrames(m1: Profile, m2: Profile)
    requires forall k :: k in m1.Keys + m2.Keys ==> k != "" && k[0] != ';'
    ensures Unambiguous(m1, m2)
  {
    forall p, q | p != [] && q != [] && OnProfiles(m1, m2, p) && OnProfiles(m1, m2, q) && PathKey(p) == PathKey(q)
      ensures p == q
    {
      var k :| k in m1.Keys + m2.Keys && p <= FramesOf(k);
      var l :| l in m1.Keys + m2.Keys && q <= FramesOf(l);
      FirstFrame(k);
      FirstFrame(l);
      PathKeyIsJoin(p);
      PathKeyIsJoin(q);
      JoinInjective(p, q, ';');
    }
  }

  // ---------- the list of changes ----------

  function DeltaOf(m1: Profile, m2: Profile, k: string): StackDelta {
    StackDelta(FramesOf(k), Get(m2, k) - Get(m1, k), Get(m1, k))
  }

  /** Every stack of either profile once, in some order. */
  ghost predicate ListsDeltas(ds: seq<StackDelta>, keys: seq<string>, m1: Profile, m2: Profile) {
    && |ds| == |keys| && Distinct(keys)
    && (forall i :: 0 <= i < |keys| ==> keys[i] in m1.Keys + m2.Keys && ds[i] == DeltaOf(m1, m2, keys[i]))
    && (forall k :: k in m1.Keys + m2.Keys ==> k in keys)
  }

  ghost predicate Listed(ds: seq<StackDelta>, keys: seq<string>, m1: Profile, m2: Profile, done: set<string>) {
    && |ds| == |keys| && Distinct(keys)
    && (forall i :: 0 <= i < |keys| ==> ds[i] == DeltaOf(m1, m2, keys[i]))
    && (forall k :: k in keys <==> k in done)
  }

  lemma ListOneMore(ds: seq<StackDelta>, keys: seq<string>, m1: Profile, m2: Profile, done: set<string>, k: string)
    requires Listed(ds, keys, m1, m2, done) && k !in done
    ensures Listed(ds + [DeltaOf(m1, m2, k)], keys + [k], m1, m2, done + {k})
  {
    forall i | 0 <= i < |keys| ensures keys[i] != k { assert keys[i] in keys; }
  }

  /** The two loops that merge the profiles; map iteration may take any order. */
  method CollectDeltas(stacks1: Profile, stacks2: Profile) returns (ds: seq<StackDelta>, ghost keys: seq<string>)
    ensures ListsDeltas(ds, keys, stacks1, stacks2)
  {
    ds, keys := [], [];
    var visited: set<string> := {};
    var todo := stacks1.Keys;
    while todo != {}
      invariant todo <= stacks1.Keys && visited == stacks1.Keys - todo && Listed(ds, keys, stacks1, stacks2, visited)
    {
      var stack :| stack in todo;
      var c1, c2 := stacks1[stack], Get(stacks2, stack);
      ListOneMore(ds, keys, stacks1, stacks2, visited, stack);
      ds, keys := ds + [StackDelta(Split(stack, ';'), c2 - c1, c1)], keys + [stack];
      visited, todo := visited + {stack}, todo - {stack};
    }
    todo := stacks2.Keys;
    ghost var done := visited;
    while todo != {}
      invariant todo <= stacks2.Keys && visited == stacks1.Keys && done == stacks1.Keys + (stacks2.Keys - todo)
      invariant Listed(ds, keys, stacks1, stacks2, done)
    {
      var stack :| stack in todo;
      if stack !in visited {
        ListOneMore(ds, keys, stacks1, stacks2, done, stack);
        ds, keys := ds + [StackDelta(Split(stack, ';'), stacks2[stack], 0)], keys + [stack];
      }
      done, todo := done + {stack}, todo - {stack};
    }
    forall i | 0 <= i < |keys| ensures keys[i] in stacks1.Keys + stacks2.Keys { assert keys[i] in keys; }
  }

  // ---------- sums over the list are sums over the profiles ----------

  lemma {:induction false} ThroughRemove(m: Profile, k: string, p: Path)
    requires k in m
    ensures Through(m, p) == Through(m - {k}, p) + if p <= FramesOf(k) then m[k] else 0
    decreases |m|
  {
    var l :| l in m && Through(m, p) == Through(m - {l}, p) + if p <= FramesOf(l) then m[l] else 0;
    if l != k {
      ThroughRemove(m - {l}, k, p);
      ThroughRemove(m - {k}, l, p);
      assert m - {l} - {k} == m - {k} - {l};
    }
  }

  lemma ThroughWithout(m: Profile, k: string, p: Path)
    ensures Through(m, p) == Through(m - {k}, p) + if p <= FramesOf(k) then Get(m, k) else 0
  {
    if k in m { ThroughRemove(m, k, p); } else { assert m - {k} == m; }
  }

  lemma ListsWithout(ds: seq<StackDelta>, keys: seq<string>, m1: Profile, m2: Profile)
    requires ListsDeltas(ds, keys, m1, m2) && keys != []
    ensures var n := |keys| - 1; ListsDeltas(ds[..n], keys[..n], m1 - {keys[n]}, m2 - {keys[n]})
  {
    var n := |keys| - 1;
    var k1, k2 := m1 - {keys[n]}, m2 - {keys[n]};
    assert k1.Keys == m1.Keys - {keys[n]} && k2.Keys == m2.Keys - {keys[n]};
    forall i | 0 <= i < n ensures keys[i] in k1.Keys + k2.Keys && ds[i] == DeltaOf(k1, k2, keys[i]) {}
    forall k | k in k1.Keys + k2.Keys ensures k in keys[..n] {
      assert k in keys && k != keys[n];
    }
  }

  lemma {:induction false} PrefixSumIsThrough(ds: seq<StackDelta>, keys: seq<string>, m1: Profile, m2: Profile, p: Path)
    requires ListsDeltas(ds, keys, m1, m2)
    ensures PrefixSum(ds, p) == Through(m2, p) - Through(m1, p)
    decreases |ds|
  {
    if keys == [] {
      assert m1.Keys + m2.Keys == {};
      assert m1.Keys == {} && m2.Keys == {};
    } else {
      var n := |keys| - 1;
      ListsWithout(ds, keys, m1, m2);
      PrefixSumIsThrough(ds[..n], keys[..n], m1 - {keys[n]}, m2 - {keys[n]}, p);
      ThroughWithout(m1, keys[n], p);
      ThroughWithout(m2, keys[n], p);
    }
  }

  lemma {:induction false} SelfSumOne(ds: seq<StackDelta>, i: nat)
    requires i < |ds| && forall j :: 0 <= j < |ds| && j != i ==> ds[j].frames != ds[i].frames
    ensures SelfSum(ds, ds[i].frames) == ds[i].delta && BaseSum(ds, ds[i].frames) == ds[i].base
  {
    var n := |ds| - 1;
    if i == n { SelfSumElsewhere(ds[..n], ds[i].frames); } else { SelfSumOne(ds[..n], i); }
  }

  lemma OwnSums(ds: seq<StackDelta>, keys: seq<string>, m1: Profile, m2: Profile, i: nat)
    requires ListsDeltas(ds, keys, m1, m2) && i < |keys|
    ensures SelfSum(ds, ds[i].frames) == ds[i].delta && BaseSum(ds, ds[i].frames) == ds[i].base
    ensures Join(ds[i].frames, ';') == keys[i]
  {
    JoinSplit(keys[i], ';');
    forall j | 0 <= j < |ds| && j != i ensures ds[j].frames != ds[i].frames { JoinSplit(keys[j], ';'); }
    SelfSumOne(ds, i);
  }

  lemma SelfSumIsAt(ds: seq<StackDelta>, keys: seq<string>, m1: Profile, m2: Profile, p: Path)
    requires ListsDeltas(ds, keys, m1, m2)
    ensures SelfSum(ds, p) == At(m2, p) - At(m1, p) && BaseSum(ds, p) == At(m1, p)
  {
    if p != [] && FramesOf(Join(p, ';')) == p && Join(p, ';') in m1.Keys + m2.Keys {
      var i :| 0 <= i < |keys| && keys[i] == Join(p, ';');
      OwnSums(ds, keys, m1, m2, i);
    } else {
      forall i | 0 <= i < |ds| ensures ds[i].frames != p { JoinSplit(keys[i], ';'); }
      SelfSumElsewhere(ds, p);
    }
  }

  lemma KeyAt(ds: seq<StackDelta>, keys: seq<string>, m1: Profile, m2: Profile, k: string) returns (i: nat)
    requires ListsDeltas(ds, keys, m1, m2) && k in m1.Keys + m2.Keys
    ensures i < |ds| == |keys| && keys[i] == k && ds[i] == DeltaOf(m1, m2, k)
  {
    assert k in keys;
    i :| 0 <= i < |keys| && keys[i] == k;
  }

  lemma LiveIsChanged(ds: seq<StackDelta>, keys: seq<string>, m1: Profile, m2: Profile, p: Path)
    requires ListsDeltas(ds, keys, m1, m2)
    ensures Live(ds, p) <==> Changed(m1, m2, p)
  {
    if Live(ds, p) {
      var i :| 0 <= i < |ds| && p <= ds[i].frames && SelfSum(ds, ds[i].frames) != 0;
      OwnSums(ds, keys, m1, m2, i);
      assert Get(m1, keys[i]) != Get(m2, keys[i]);
    }
    if Changed(m1, m2, p) { ChangedIsLive(ds, keys, m1, m2, p); }
  }

  lemma ChangedIsLive(ds: seq<StackDelta>, keys: seq<string>, m1: Profile, m2: Profile, p: Path)
    requires ListsDeltas(ds, keys, m1, m2) && Changed(m1, m2, p)
    ensures Live(ds, p)
  {
    var k :| k in m1.Keys + m2.Keys && p <= FramesOf(k) && Get(m1, k) != Get(m2, k);
    var i := KeyAt(ds, keys, m1, m2, k);
    OwnSums(ds, keys, m1, m2, i);
  }

  lemma UnambiguousIsNoClash(ds: seq<StackDelta>, keys: seq<string>, m1: Profile, m2: Profile)
    requires ListsDeltas(ds, keys, m1, m2)
    ensures NoClash(ds) <==> Unambiguous(m1, m2)
  {
    forall p | p != [] ensures OnStack(ds, p) <==> OnProfiles(m1, m2, p) {
      if OnStack(ds, p) {
        var i :| 0 <= i < |ds| && p <= ds[i].frames;
        assert p <= FramesOf(keys[i]);
      }
      if OnProfiles(m1, m2, p) {
        var k :| k in m1.Keys + m2.Keys && p <= FramesOf(k);
        var i := KeyAt(ds, keys, m1, m2, k);
        assert p <= ds[i].frames;
      }
    }
  }

  // ---------- the whole construction ----------

  lemma {:induction false} SomeDepth(ps: set<Path>) returns (depth: nat)
    ensures forall p :: p in ps ==> |p| <= depth
  {
    depth := 0;
    if q :| q in ps {
      depth := SomeDepth(ps - {q});
      if depth < |q| { depth := |q|; }
    }
  }

  lemma SetFromRoot<T>(want: map<Path, T>, before: map<Path, T>, after: map<Path, T>)
    requires SetFrom([], want, before, after)
    ensures after == want
  {
  }

  /** Every node of the built tree holds its sums. */
  ghost predicate Finished(t: Tree, es: seq<StackDelta>)
    reads t.path.Keys
  {
    && Named(t.at, t.path)
    && forall p :: p in t.at ==>
         && t.at[p].totalDelta == PrefixSum(es, p)
         && t.at[p].selfDelta == SelfSum(es, p) && t.at[p].selfValue == BaseSum(es, p)
  }

  lemma PrunedFinished(t: Tree, es: seq<StackDelta>)
    requires Shape(t) && Stored(t.(kids := Kept(t, es))) && HoldsTotals(t, Totals(t.at, es)) && Weighted(t, es)
    ensures Stored(Pruned(t, es)) && Finished(Pruned(t, es), es)
  {
  }

  /** Add up totals, then prune. */
  method SumAndPrune(root: Node, ghost t: Tree, ghost es: seq<StackDelta>)
    requires Stored(t) && Shape(t) && t.at[[]] == root && Weighted(t, es) && Ends(t.at, es)
    modifies t.path.Keys`totalDelta, t.path.Keys`children
    ensures Stored(t.(kids := Kept(t, es))) && HoldsTotals(t, Totals(t.at, es))
  {
    ghost var depth := SomeDepth(t.at.Keys);
    ghost var before := map p | p in t.at :: t.at[p].totalDelta;
    var total;
    ghost var totals;
    total, totals := ComputeTotalDelta(root, t, [], es, depth, before);
    SetFromRoot(Totals(t.at, es), before, totals);
    ghost var kids := PruneZeroDeltaNodes(root, t, [], es, depth, t.kids);
    SetFromRoot(Kept(t, es), t.kids, kids);
  }

  lemma GraphShows(t: Tree, es: seq<StackDelta>, ds: seq<StackDelta>, keys: seq<string>, m1: Profile, m2: Profile)
    requires ListsDeltas(ds, keys, m1, m2) && Shape(t) && Finished(Pruned(t, es), es)
    requires Covers(t.at, ds) && es == ds
    ensures Shows(Pruned(t, es), m1, m2)
  {
    var u := Pruned(t, es);
    forall p ensures p in u.at <==> p == [] || Changed(m1, m2, p) {
      LiveIsChanged(ds, keys, m1, m2, p);
      if Live(ds, p) { LiveOnStack(ds, p); }
    }
    forall p | p in u.at ensures ShowsAt(u.at[p], p, m1, m2) {
      PrefixSumIsThrough(ds, keys, m1, m2, p);
      SelfSumIsAt(ds, keys, m1, m2, p);
    }
  }

  lemma LiveOnStack(ds: seq<StackDelta>, p: Path)
    requires Live(ds, p)
    ensures OnStack(ds, p)
  {
  }

  /** All weight is in the tree, whether or not strings clash. */
  lemma {:induction false} SameRootSum(ds: seq<StackDelta>, es: seq<StackDelta>)
    requires |es| == |ds| && forall i :: 0 <= i < |ds| ==> es[i].delta == ds[i].delta
    ensures PrefixSum(es, []) == PrefixSum(ds, [])
  {
    if ds != [] { SameRootSum(ds[..|ds| - 1], es[..|ds| - 1]); }
  }

  lemma {:induction false} NoDeltaNoSum(es: seq<StackDelta>, p: Path)
    requires forall i :: 0 <= i < |es| ==> es[i].delta == 0
    ensures SelfSum(es, p) == 0
  {
    if es != [] { NoDeltaNoSum(es[..|es| - 1], p); }
  }

  /** Without any change nothing but the root is left. */
  lemma BareRoot(t: Tree, es: seq<StackDelta>)
    requires Shape(t) && forall i :: 0 <= i < |es| ==> es[i].delta == 0
    ensures Pruned(t, es).kids[[]] == []
  {
    forall i | 0 <= i < |es| ensures SelfSum(es, es[i].frames) == 0 { NoDeltaNoSum(es, es[i].frames); }
    NothingKept(es, [], t.kids[[]]);
  }

  lemma {:induction false} NothingKept(es: seq<StackDelta>, p: Path, cs: seq<Node>)
    requires forall q :: !Live(es, q)
    ensures KeepLive(es, p, cs) == []
  {
    if cs != [] { NothingKept(es, p, cs[..|cs| - 1]); }
  }

  /** The graph of two folded texts: none if neither has a stack; otherwise a tree whose
      root holds the change in the grand total, and which shows every change exactly,
      whatever the iteration order, if no two call paths share their string. A profile
      against itself leaves a bare root. */
  method BuildDiffTree(collapsed1: string, collapsed2: string) returns (root: Node?, ghost t: Tree)
    ensures root == null <==> GoParse(collapsed1) == map[] && GoParse(collapsed2) == map[]
    ensures root != null ==> Stored(t) && Shape(t) && t.at[[]] == root && KeysApart(t.at)
    ensures root != null ==> forall p :: p in t.at ==> AddsUp(t.at[p])
    ensures root != null ==> root.totalDelta == Through(GoParse(collapsed2), []) - Through(GoParse(collapsed1), [])
    ensures root != null && Unambiguous(GoParse(collapsed1), GoParse(collapsed2)) ==>
              Shows(t, GoParse(collapsed1), GoParse(collapsed2))
    ensures root != null && GoParse(collapsed1) == GoParse(collapsed2) ==> root.children == []
  {
    var stacks1 := ParseFoldedStacks(collapsed1);
    var stacks2 := ParseFoldedStacks(collapsed2);
    root, t := GraphOf(stacks1, stacks2);
  }

  method GraphOf(m1: Profile, m2: Profile) returns (root: Node?, ghost t: Tree)
    ensures root == null <==> m1 == map[] && m2 == map[]
    ensures root != null ==> Stored(t) && Shape(t) && t.at[[]] == root && KeysApart(t.at)
    ensures root != null ==> forall p :: p in t.at ==> AddsUp(t.at[p])
    ensures root != null ==> root.totalDelta == Through(m2, []) - Through(m1, [])
    ensures root != null && Unambiguous(m1, m2) ==> Shows(t, m1, m2)
    ensures root != null && m1 == m2 ==> root.children == []
  {
    var ds;
    ghost var keys;
    ds, keys := CollectDeltas(m1, m2);
    if ds == [] {
      assert m1.Keys + m2.Keys == {};
      assert m1.Keys == {} && m2.Keys == {};
      root, t := null, Tree(map[], map[], map[], map[], map[]);
    } else {
      assert keys[0] in m1.Keys + m2.Keys;
      root, t := GraphOfDeltas(ds, keys, m1, m2);
    }
  }

  /** Build, add up and prune. */
  method FinishedTree(ds: seq<StackDelta>) returns (root: Node, ghost built: Tree, ghost es: seq<StackDelta>)
    ensures Shape(built) && Landed(built.at, ds, es) && Ends(built.at, es) && built.at[[]] == root && KeysApart(built.at)
    ensures NoClash(ds) ==> es == ds && Covers(built.at, ds)
    ensures Stored(Pruned(built, es)) && Finished(Pruned(built, es), es)
  {
    var index;
    root, index, built, es := BuildTree(ds);
    IndexedApart(index, built.at, built.path);
    LandedEnds(built.at, ds, es);
    SumAndPrune(root, built, es);
    PrunedFinished(built, es);
  }

  method GraphOfDeltas(ds: seq<StackDelta>, ghost keys: seq<string>, ghost m1: Profile, ghost m2: Profile)
    returns (root: Node, ghost t: Tree)
    requires ListsDeltas(ds, keys, m1, m2)
    ensures Stored(t) && Shape(t) && t.at[[]] == root && KeysApart(t.at)
    ensures forall p :: p in t.at ==> AddsUp(t.at[p])
    ensures root.totalDelta == Through(m2, []) - Through(m1, [])
    ensures Unambiguous(m1, m2) ==> Shows(t, m1, m2)
    ensures m1 == m2 ==> root.children == []
  {
    ghost var built, es;
    root, built, es := FinishedTree(ds);
    t := Pruned(built, es);
    PrunedShape(built, es);
    PrunedApart(built, es);
    NodesAddUp(built, es);
    assert t.at[[]] == root;
    UnambiguousIsNoClash(ds, keys, m1, m2);
    if NoClash(ds) { GraphShows(built, es, ds, keys, m1, m2); }
    RootSum(built.at, es, ds, keys, m1, m2);
    if m1 == m2 { SelfDiff(built, es, ds, keys, m1); }
  }

  /** In the finished tree every node adds up, whether or not strings clash. */
  lemma NodesAddUp(t: Tree, es: seq<StackDelta>)
    requires Shape(t) && Ends(t.at, es) && Stored(Pruned(t, es)) && Finished(Pruned(t, es), es)
    ensures var u := Pruned(t, es); forall p :: p in u.at ==> AddsUp(u.at[p])
  {
    var u := Pruned(t, es);
    var depth := SomeDepth(t.at.Keys);
    PrunedShape(t, es);
    forall p | p in u.at ensures AddsUp(u.at[p]) {
      KeptSum(t, es, p, depth);
      assert Linked(u.at, p, u.kids[p]);
      ChildTotalsAreSums(es, p, u.kids[p]);
    }
  }

  lemma PrunedApart(t: Tree, es: seq<StackDelta>)
    requires Shape(t) && KeysApart(t.at)
    ensures KeysApart(Pruned(t, es).at)
  {
  }

  lemma SelfDiff(t: Tree, es: seq<StackDelta>, ds: seq<StackDelta>, keys: seq<string>, m: Profile)
    requires Shape(t) && Landed(t.at, ds, es) && ListsDeltas(ds, keys, m, m)
    ensures Pruned(t, es).kids[[]] == []
  {
    forall i | 0 <= i < |es| ensures es[i].delta == 0 { assert ds[i] == DeltaOf(m, m, keys[i]); }
    BareRoot(t, es);
  }

  lemma LandedEnds(at: Nodes, ds: seq<StackDelta>, es: seq<StackDelta>)
    requires Landed(at, ds, es)
    ensures Ends(at, es)
  {
  }

  lemma RootSum(at: Nodes, es: seq<StackDelta>, ds: seq<StackDelta>, keys: seq<string>, m1: Profile, m2: Profile)
    requires Landed(at, ds, es) && ListsDeltas(ds, keys, m1, m2)
    ensures PrefixSum(es, []) == Through(m2, []) - Through(m1, [])
  {
    SameRootSum(ds, es);
    PrefixSumIsThrough(ds, keys, m1, m2, []);
  }
}
