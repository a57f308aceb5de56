/** The differential flame graph: stacks of two profiles are merged into one tree with
    the help of an index from path strings to nodes, totals are added up the tree,
    and unchanged subtrees are removed. */
module DiffTree {
  import opened Text
  import opened StackSums
  import opened FlameTree

  // ---------- the path-string index ----------

  /** The string a path is indexed under: frames joined by ';', except that as long as
      the string is empty the next frame replaces it. */
  function PathKey(p: Path): string {
    if p == [] then "" else ExtendKey(PathKey(p[..|p| - 1]), p[|p| - 1])
  }

  function ExtendKey(key: string, frame: string): string {
    if key == "" then frame else key + ";" + frame
  }

  lemma PathKeySnoc(p: Path, f: string)
    ensures PathKey(p + [f]) == ExtendKey(PathKey(p), f)
  {
    assert (p + [f])[..|p|] == p;
  }

  /** Following a path by frame names and looking its string up give the same node. */
  ghost predicate IndexOf(index: map<string, Node>, at: Nodes, path: map<Node, Path>) {
    && (forall p :: p in at && p != [] ==> PathKey(p) in index && index[PathKey(p)] == at[p])
    && (forall k :: k in index ==> index[k] in path && IndexedAt(index, at, k, path[index[k]]))
  }

  ghost predicate IndexedAt(index: map<string, Node>, at: Nodes, k: string, p: Path)
    requires k in index
  {
    p in at && at[p] == index[k] && p != [] && PathKey(p) == k
  }

  /** No two call paths of the stacks share their string. */
  ghost predicate NoClash(ds: seq<StackDelta>) {
    forall p, q :: p != [] && q != [] && OnStack(ds, p) && OnStack(ds, q) && PathKey(p) == PathKey(q) ==> p == q
  }

  /** No two nodes share their string. */
  ghost predicate KeysApart(at: Nodes) {
    forall p, q :: p in at && q in at && p != [] && q != [] && PathKey(p) == PathKey(q) ==> p == q
  }

  lemma IndexedApart(index: map<string, Node>, at: Nodes, path: map<Node, Path>)
    requires IndexOf(index, at, path) && Named(at, path)
    ensures KeysApart(at)
  {
    forall p, q | p in at && q in at && p != [] && q != [] && PathKey(p) == PathKey(q) ensures p == q {
      assert at[p] == index[PathKey(p)] == at[q];
      assert path[at[p]] == p && path[at[q]] == q;
    }
  }

  /** A tree of all call paths without shared strings leaves no room for a clash. */
  lemma CoversImpliesNoClash(at: Nodes, ds: seq<StackDelta>)
    requires KeysApart(at) && Covers(at, ds)
    ensures NoClash(ds)
  {
  }

  lemma {:induction false} PathKeyIsJoin(p: Path)
    requires p != [] && p[0] != ""
    ensures PathKey(p) == Join(p, ';') && PathKey(p) != ""
  {
    var n := |p| - 1;
    if n == 0 {
      assert p[..0] == [];
    } else {
      PathKeyIsJoin(p[..n]);
      JoinSnoc(p[..n], p[n], ';');
      assert p == p[..n] + [p[n]];
    }
  }

  /** ";b" and "b" are different stacks with the same string, so a profile holding both
      is not told apart. */
  lemma EmptyFirstFrameClashes()
    ensures !NoClash([StackDelta(["b"], 1, 0), StackDelta(["", "b"], 1, 0)])
  {
    var ds := [StackDelta(["b"], 1, 0), StackDelta(["", "b"], 1, 0)];
    var p, q := ["b"], ["", "b"];
    assert p <= ds[0].frames && q <= ds[1].frames;
    assert OnStack(ds, p) && OnStack(ds, q);
    assert q[..1] == [""] && [""][..0] == [] && p[..0] == [];
    assert PathKey([""]) == "" && PathKey(q) == "b" && PathKey(p) == "b";
  }

  lemma GrownIndex(index: map<string, Node>, t: Tree, p: Path, f: string, c: Node)
    requires Shape(t) && IndexOf(index, t.at, t.path) && p in t.at && p + [f] !in t.at && c !in t.path
    requires PathKey(p + [f]) !in index
    ensures var t' := Grow(t, p, f, c); IndexOf(index[PathKey(p + [f]) := c], t'.at, t'.path)
  {
    var q := p + [f];
    var index', t' := index[PathKey(q) := c], Grow(t, p, f, c);
    forall k | k in index' ensures index'[k] in t'.path && IndexedAt(index', t'.at, k, t'.path[index'[k]]) {
      if k != PathKey(q) { assert IndexedAt(index, t.at, k, t.path[index[k]]); }
    }
  }

  /** One frame further: reuse the indexed node or create, link and index a new one. */
  method Descend(node: Node, index: map<string, Node>, key: string, frame: string, ghost t: Tree, ghost own: Path)
    returns (child: Node, index': map<string, Node>, ghost t': Tree, ghost own': Path)
    requires Stored(t) && Shape(t) && IndexOf(index, t.at, t.path)
    requires own in t.at && t.at[own] == node && key == PathKey(own + [frame])
    modifies node`children
    ensures Stored(t') && Shape(t') && IndexOf(index', t'.at, t'.path)
    ensures own' in t'.at && t'.at[own'] == child && PathKey(own') == key && own' != []
    ensures own' in t.at ==> t' == t
    ensures own' !in t.at ==> own' == own + [frame] && t' == Grow(t, own, frame, child)
    ensures forall n :: n in t'.path ==> n in t.path || fresh(n)
  {
    if key in index {
      child, index', t' := index[key], index, t;
      own' := t.path[child];
      assert IndexedAt(index, t.at, key, own');
    } else {
      own' := own + [frame];
      assert own' !in t.at;
      child := AddChild(t, own, node, frame);
      t' := Grow(t, own, frame, child);
      GrowShape(t, own, frame, child);
      index' := index[key := child];
      GrownIndex(index, t, own, frame, child);
    }
  }

  /** Where a stack's weight ended up: each stack landed on a node of the tree with the
      same path string. */
  ghost predicate Landed(at: Nodes, ds: seq<StackDelta>, es: seq<StackDelta>) {
    && |es| == |ds|
    && (forall i :: 0 <= i < |ds| ==>
          && es[i].frames in at && PathKey(es[i].frames) == PathKey(ds[i].frames)
          && es[i].delta == ds[i].delta && es[i].base == ds[i].base)
  }

  lemma LandedOnNode(at: Nodes, ds: seq<StackDelta>, es: seq<StackDelta>, p: Path)
    requires Landed(at, ds, es) && p !in at
    ensures SelfSum(es, p) == 0 && BaseSum(es, p) == 0
  {
    SelfSumElsewhere(es, p);
  }

  /** `at'` has the paths of `at` and those leading to `p`. */
  ghost predicate GrownBy(at: Nodes, at': Nodes, p: Path) {
    forall q :: q in at' <==> q in at || q <= p
  }

  lemma GrownBySnoc(at: Nodes, at1: Nodes, at2: Nodes, p: Path, f: string)
    requires GrownBy(at, at1, p) && (forall q :: q in at2 <==> q in at1 || q == p + [f])
    ensures GrownBy(at, at2, p + [f])
  {
    forall q ensures q in at2 <==> q in at || q <= p + [f] {
      assert q in at1 <==> q in at || q <= p;
      if q <= p + [f] && |q| <= |p| { assert q == (p + [f])[..|q|] == p[..|q|]; }
    }
  }

  ghost predicate Within(at: Nodes, at': Nodes) {
    forall p :: p in at ==> p in at' && at'[p] == at[p]
  }

  /** All call paths so far are among those of `all`, which do not clash. */
  ghost predicate Faithful(at: Nodes, all: seq<StackDelta>) {
    NoClash(all) && forall p :: p in at ==> OnStack(all, p)
  }

  /** The indexed node of a call path is the node of that path, if nothing clashes. */
  lemma IndexedPathIsOwn(at: Nodes, all: seq<StackDelta>, own: Path, p: Path)
    requires Faithful(at, all) && own in at && own != [] && p != [] && OnStack(all, p) && PathKey(own) == PathKey(p)
    ensures own == p
  {
  }

  lemma OnStackPrefix(all: seq<StackDelta>, p: Path, j: nat)
    requires OnStack(all, p) && j <= |p|
    ensures OnStack(all, p[..j])
  {
    if j != 0 {
      var i :| 0 <= i < |all| && p <= all[i].frames;
      assert p[..j] <= all[i].frames;
    }
  }

  /** After `j` frames the walk is at the node of path `own`, which has the string of
      those frames, and is their path if nothing clashes. */
  ghost predicate Walked(at: Nodes, at1: Nodes, own: Path, frames: Path, j: nat, faithful: bool) {
    && j <= |frames| && Within(at, at1) && own in at1 && PathKey(own) == PathKey(frames[..j])
    && (faithful ==> own == frames[..j] && GrownBy(at, at1, frames[..j]))
  }

  lemma WalkedFurther(at: Nodes, at1: Nodes, own: Path, at2: Nodes, own2: Path, child: Node,
                      frames: Path, j: nat, all: seq<StackDelta>, faithful: bool)
    requires Walked(at, at1, own, frames, j, faithful) && j < |frames|
    requires faithful ==> Faithful(at, all) && OnStack(all, frames)
    requires PathKey(own2) == PathKey(own + [frames[j]]) && own2 != []
    requires (at2 == at1 && own2 in at1) || (own2 == own + [frames[j]] && own2 !in at1 && at2 == at1[own2 := child])
    ensures Walked(at, at2, own2, frames, j + 1, faithful)
  {
    var f := frames[j];
    TakeSnoc(frames, j);
    PathKeySnoc(own, f);
    PathKeySnoc(frames[..j], f);
    if faithful { FaithfulFurther(at, at1, own, at2, own2, child, frames, j, all); }
  }

  lemma FaithfulFurther(at: Nodes, at1: Nodes, own: Path, at2: Nodes, own2: Path, child: Node,
                        frames: Path, j: nat, all: seq<StackDelta>)
    requires j < |frames| && own == frames[..j] && GrownBy(at, at1, own) && Faithful(at, all) && OnStack(all, frames)
    requires PathKey(own2) == PathKey(own + [frames[j]]) && own2 != []
    requires (at2 == at1 && own2 in at1) || (own2 == own + [frames[j]] && own2 !in at1 && at2 == at1[own2 := child])
    ensures own2 == frames[..j + 1] && GrownBy(at, at2, own2)
  {
    TakeSnoc(frames, j);
    OnStackPrefix(all, frames, j + 1);
    FaithfulGrown(at, at1, own, all, frames);
    if own2 in at1 { IndexedPathIsOwn(at1, all, own2, frames[..j + 1]); }
    GrownBySnoc(at, at1, at2, own, frames[j]);
  }

  lemma WeightedGrown(t: Tree, p: Path, f: string, c: Node, ds: seq<StackDelta>, es: seq<StackDelta>)
    requires Weighted(t, es) && Landed(t.at, ds, es) && p in t.kids && p + [f] !in t.at
    ensures Weighted(Grow(t, p, f, c), es) && Landed(Grow(t, p, f, c).at, ds, es)
  {
    LandedOnNode(t.at, ds, es, p + [f]);
  }

  /** The tree as a walk down `frames` has left it after `j` of them: still a tree that
      the index serves, with the weights of the stacks inserted before. */
  ghost predicate Underway(t0: Tree, t: Tree, index: map<string, Node>, own: Path, frames: Path, j: nat,
                           ds: seq<StackDelta>, es: seq<StackDelta>, faithful: bool)
  {
    match t
    case Tree(at, path, _, _, _) =>
      && Shape(t) && IndexOf(index, at, path) && Weighted(t, es) && Landed(at, ds, es)
      && Walked(t0.at, at, own, frames, j, faithful)
  }

  /** Take one frame of a stack: descend, or grow the tree. */
  method WalkFrame(node: Node, index: map<string, Node>, path: string, frames: Path, j: nat,
                   ghost t0: Tree, ghost t: Tree, ghost own: Path,
                   ghost ds: seq<StackDelta>, ghost es: seq<StackDelta>, ghost all: seq<StackDelta>, ghost faithful: bool)
    returns (child: Node, index': map<string, Node>, path': string, ghost t': Tree, ghost own': Path)
    requires j < |frames| && Stored(t) && Underway(t0, t, index, own, frames, j, ds, es, faithful)
    requires own in t.at && t.at[own] == node && path == PathKey(own)
    requires faithful ==> Faithful(t0.at, all) && OnStack(all, frames)
    modifies node`children
    ensures Stored(t') && Underway(t0, t', index', own', frames, j + 1, ds, es, faithful)
    ensures own' in t'.at && t'.at[own'] == child && path' == PathKey(own')
    ensures forall n :: n in t'.path ==> n in t.path || fresh(n)
  {
    PathKeySnoc(own, frames[j]);
    path' := if path == "" then frames[j] else path + ";" + frames[j];
    child, index', t', own' := Descend(node, index, path', frames[j], t, own);
    WalkedFurther(t0.at, t.at, own, t'.at, own', child, frames, j, all, faithful);
    if own' !in t.at { WeightedGrown(t, own, frames[j], child, ds, es); }
  }

  /** Walk a stack's frames down the tree, creating the nodes that are missing. */
  method Walk(root: Node, index: map<string, Node>, frames: Path, ghost t: Tree,
              ghost ds: seq<StackDelta>, ghost es: seq<StackDelta>, ghost all: seq<StackDelta>, ghost faithful: bool)
    returns (node: Node, index': map<string, Node>, ghost t': Tree, ghost own: Path)
    requires Stored(t) && Underway(t, t, index, [], frames, 0, ds, es, faithful) && t.at[[]] == root
    requires faithful ==> Faithful(t.at, all) && OnStack(all, frames)
    modifies t.path.Keys`children
    ensures Stored(t') && Underway(t, t', index', own, frames, |frames|, ds, es, faithful)
    ensures own in t'.at && t'.at[own] == node
    ensures forall n :: n in t'.path ==> n in t.path || fresh(n)
  {
    node, index', t', own := root, index, t, [];
    var path := "";
    var j := 0;
    while j < |frames|
      invariant 0 <= j <= |frames| && Stored(t') && Underway(t, t', index', own, frames, j, ds, es, faithful)
      invariant own in t'.at && t'.at[own] == node && path == PathKey(own)
      invariant forall n :: n in t'.path ==> n in t.path || fresh(n)
    {
      node, index', path, t', own := WalkFrame(node, index', path, frames, j, t, t', own, ds, es, all, faithful);
      j := j + 1;
    }
  }

  lemma WeightAdded(t: Tree, es: seq<StackDelta>, own: Path, delta: int, base: int)
    requires Weighted(t, es) && own in t.self && own in t.base
    ensures Weighted(AddWeight(t, own, delta, base), es + [StackDelta(own, delta, base)])
  {
    var t', e := AddWeight(t, own, delta, base), StackDelta(own, delta, base);
    forall p | p in t'.self && p in t'.base
      ensures t'.self[p] == SelfSum(es + [e], p) && t'.base[p] == BaseSum(es + [e], p)
    {
      SnocSums(es, e, p);
    }
  }

  lemma LandedSnoc(at: Nodes, ds: seq<StackDelta>, es: seq<StackDelta>, d: StackDelta, own: Path)
    requires Landed(at, ds, es) && own in at && PathKey(own) == PathKey(d.frames)
    ensures Landed(at, ds + [d], es + [StackDelta(own, d.delta, d.base)])
  {
  }

  lemma FaithfulGrown(at: Nodes, at': Nodes, p: Path, all: seq<StackDelta>, frames: Path)
    requires Faithful(at, all) && GrownBy(at, at', p) && p <= frames && OnStack(all, frames)
    ensures Faithful(at', all)
  {
    forall q | q in at' ensures OnStack(all, q) {
      if q !in at {
        assert q <= frames && q == frames[..|q|];
        OnStackPrefix(all, frames, |q|);
      }
    }
  }

  // ---------- the whole tree ----------

  lemma OnStackMore(ds: seq<StackDelta>, i: nat, p: Path)
    requires i <= |ds| && OnStack(ds[..i], p)
    ensures OnStack(ds, p)
  {
    if p != [] {
      var k :| 0 <= k < i && p <= ds[..i][k].frames;
      assert p <= ds[k].frames;
    }
  }

  lemma CoversFaithful(at: Nodes, ds: seq<StackDelta>, i: nat)
    requires i < |ds| && NoClash(ds) && Covers(at, ds[..i])
    ensures Faithful(at, ds) && OnStack(ds, ds[i].frames)
  {
    forall p | p in at ensures OnStack(ds, p) { OnStackMore(ds, i, p); }
  }

  lemma CoversSnoc(at: Nodes, at': Nodes, ds: seq<StackDelta>, i: nat)
    requires i < |ds| && Covers(at, ds[..i]) && GrownBy(at, at', ds[i].frames)
    ensures Covers(at', ds[..i + 1])
  {
    var d1, d2 := ds[..i], ds[..i + 1];
    forall p ensures p in at' <==> OnStack(d2, p) {
      if OnStack(d1, p) && p != [] {
        var k :| 0 <= k < |d1| && p <= d1[k].frames;
        assert p <= d2[k].frames;
      }
      if p <= ds[i].frames { assert p <= d2[i].frames; }
      if OnStack(d2, p) && p != [] {
        var k :| 0 <= k < |d2| && p <= d2[k].frames;
        if k < i { assert p <= d1[k].frames; }
      }
    }
  }

  /** The first `i` stacks are in the tree; if nothing clashes, they and nothing else. */
  ghost predicate Holding(t: Tree, ds: seq<StackDelta>, i: nat, es: seq<StackDelta>) {
    match t
    case Tree(at, _, _, _, _) =>
      && i <= |ds| && Landed(at, ds[..i], es) && Weighted(t, es)
      && (NoClash(ds) ==> es == ds[..i] && Covers(at, ds[..i]))
  }

  lemma HoldingOneMore(t: Tree, t1: Tree, index: map<string, Node>, own: Path, ds: seq<StackDelta>, i: nat, es: seq<StackDelta>)
    requires i < |ds| && Holding(t, ds, i, es)
    requires Underway(t, t1, index, own, ds[i].frames, |ds[i].frames|, ds[..i], es, NoClash(ds))
    ensures own in t1.self && own in t1.base && Shape(AddWeight(t1, own, ds[i].delta, ds[i].base))
    ensures Holding(AddWeight(t1, own, ds[i].delta, ds[i].base), ds, i + 1, es + [StackDelta(own, ds[i].delta, ds[i].base)])
  {
    var d := ds[i];
    TakeAll(d.frames);
    TakeSnoc(ds, i);
    AddWeightShape(t1, own, d.delta, d.base);
    WeightAdded(t1, es, own, d.delta, d.base);
    LandedSnoc(t1.at, ds[..i], es, d, own);
    if NoClash(ds) { CoversSnoc(t.at, t1.at, ds, i); }
  }

  lemma WalkStart(index: map<string, Node>, t: Tree, frames: Path, ds: seq<StackDelta>, i: nat, es: seq<StackDelta>)
    requires Shape(t) && IndexOf(index, t.at, t.path) && Holding(t, ds, i, es)
    ensures Underway(t, t, index, [], frames, 0, ds[..i], es, NoClash(ds))
  {
    assert frames[..0] == [];
  }

  /** The tree and its index after the first `i` stacks. */
  ghost predicate Growing(root: Node, index: map<string, Node>, t: Tree, ds: seq<StackDelta>, i: nat, es: seq<StackDelta>) {
    match t
    case Tree(at, path, _, _, _) =>
      Shape(t) && IndexOf(index, at, path) && at[[]] == root && Holding(t, ds, i, es)
  }

  /** Add stack number `i` to the tree: its weight goes to the node its frames lead to. */
  method InsertStack(root: Node, index: map<string, Node>, ds: seq<StackDelta>, i: nat, ghost t: Tree, ghost es: seq<StackDelta>)
    returns (index': map<string, Node>, ghost t': Tree, ghost es': seq<StackDelta>)
    requires i < |ds| && Stored(t) && Growing(root, index, t, ds, i, es)
    modifies t.path.Keys
    ensures Stored(t') && Growing(root, index', t', ds, i + 1, es')
    ensures forall n :: n in t'.path ==> n in t.path || fresh(n)
  {
    var d := ds[i];
    if NoClash(ds) { CoversFaithful(t.at, ds, i); }
    WalkStart(index, t, d.frames, ds, i, es);
    var node;
    ghost var t1, own;
    node, index', t1, own := Walk(root, index, d.frames, t, ds[..i], es, ds, NoClash(ds));
    HoldingOneMore(t, t1, index', own, ds, i, es);
    AddToNode(node, t1, own, d.delta, d.base);
    t' := AddWeight(t1, own, d.delta, d.base);
    es' := es + [StackDelta(own, d.delta, d.base)];
  }

  lemma EmptyTree(root: Node, ds: seq<StackDelta>)
    ensures var t := Tree(map[[] := root], map[root := []], map[[] := []], map[[] := 0], map[[] := 0]);
      Growing(root, map[], t, ds, 0, [])
  {
    assert ds[..0] == [];
  }

  /** Build the tree of all stacks. Every stack lands on a node with its path string;
      the nodes are exactly the stacks' call paths, each holding the weight of its own
      stacks, if and only if no two call paths share a string. */
  method BuildTree(ds: seq<StackDelta>)
    returns (root: Node, index: map<string, Node>, ghost t: Tree, ghost es: seq<StackDelta>)
    ensures Stored(t) && Shape(t) && IndexOf(index, t.at, t.path) && t.at[[]] == root
    ensures forall n :: n in t.path ==> fresh(n)
    ensures Landed(t.at, ds, es) && Weighted(t, es)
    ensures NoClash(ds) ==> es == ds
    ensures Covers(t.at, ds) <==> NoClash(ds)
  {
    root := new Node("all");
    index := map[];
    t := Tree(map[[] := root], map[root := []], map[[] := []], map[[] := 0], map[[] := 0]);
    es := [];
    EmptyTree(root, ds);
    var i := 0;
    while i < |ds|
      invariant 0 <= i <= |ds| && Stored(t) && Growing(root, index, t, ds, i, es)
      invariant forall n :: n in t.path ==> fresh(n)
    {
      index, t, es := InsertStack(root, index, ds, i, t, es);
      i := i + 1;
    }
    HoldingAll(index, t, ds, es);
  }

  lemma HoldingAll(index: map<string, Node>, t: Tree, ds: seq<StackDelta>, es: seq<StackDelta>)
    requires Shape(t) && IndexOf(index, t.at, t.path) && Holding(t, ds, |ds|, es)
    ensures Landed(t.at, ds, es) && Weighted(t, es) && (NoClash(ds) ==> es == ds)
    ensures Covers(t.at, ds) <==> NoClash(ds)
  {
    TakeAll(ds);
    IndexedApart(index, t.at, t.path);
    if Covers(t.at, ds) { CoversImpliesNoClash(t.at, ds); }
  }
}
