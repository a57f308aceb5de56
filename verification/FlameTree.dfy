/** Trees of flame-graph nodes, linked in memory and built stack by stack. A ghost map
    names every node by its call path; the tree is right when following frame names
    from the root is exactly looking a path up in that map. */
module FlameTree {
  import opened StackSums

  /** A node of the differential flame graph. The web client's plain trie has the same
      nodes, its `value` being the self weight. */
  class Node {
    const name: string
    var selfDelta: int
    var totalDelta: int
    var selfValue: int
    var children: seq<Node>

    constructor (name: string)
      ensures this.name == name && selfDelta == 0 && totalDelta == 0 && selfValue == 0 && children == []
    {
      this.name := name;
      selfDelta, totalDelta, selfValue, children := 0, 0, 0, [];
    }
  }

  type Nodes = map<Path, Node>

  /** A tree as a value: its nodes by call path, their paths, and what each of them holds. */
  datatype Tree = Tree(at: Nodes, path: map<Node, Path>, kids: map<Path, seq<Node>>,
                       self: map<Path, int>, base: map<Path, int>)

  /** No node has two paths. */
  ghost predicate Named(at: Nodes, path: map<Node, Path>) {
    forall p :: p in at ==> at[p] in path && path[at[p]] == p
  }

  /** The objects hold what the value says. */
  ghost predicate Stored(t: Tree)
    reads t.path.Keys`children, t.path.Keys`selfDelta, t.path.Keys`selfValue
  {
    && t.at.Keys == t.kids.Keys == t.self.Keys == t.base.Keys && Named(t.at, t.path)
    && forall p :: p in t.at ==>
         t.at[p].children == t.kids[p] && t.at[p].selfDelta == t.self[p] && t.at[p].selfValue == t.base[p]
  }

  /** The children of the node at `p` are the nodes one frame further, each once. */
  ghost predicate Linked(at: Nodes, p: Path, cs: seq<Node>)
    requires p in at
  {
    && (p != [] ==> at[p].name == p[|p| - 1])
    && (forall i :: 0 <= i < |cs| ==> p + [cs[i].name] in at && at[p + [cs[i].name]] == cs[i])
    && (forall f :: p + [f] in at ==> at[p + [f]] in cs)
    && (forall i, j :: 0 <= i < j < |cs| ==> cs[i] != cs[j])
  }

  ghost predicate PrefixClosed(at: Nodes) {
    [] in at && forall p, f {:trigger p + [f]} :: p + [f] in at ==> p in at
  }

  /** The links make a tree in which following frame names finds the node of a path. */
  ghost predicate Shape(t: Tree) {
    match t
    case Tree(at, path, kids, self, base) =>
      && at.Keys == kids.Keys == self.Keys == base.Keys
      && PrefixClosed(at) && Named(at, path)
      && forall p {:trigger Linked(at, p, kids[p])} :: p in at ==> Linked(at, p, kids[p])
  }

  /** Every node carries the weight of the stacks that end at it. */
  ghost predicate Weighted(t: Tree, ds: seq<StackDelta>) {
    forall p :: p in t.self && p in t.base ==> t.self[p] == SelfSum(ds, p) && t.base[p] == BaseSum(ds, p)
  }

  /** The nodes are the call paths of the stacks, and no others. */
  ghost predicate Covers(at: Nodes, ds: seq<StackDelta>) {
    forall p :: p in at <==> OnStack(ds, p)
  }

  // ---------- changing the tree ----------

  /** A new leaf for frame `f` below the node at `p`. */
  ghost function Grow(t: Tree, p: Path, f: string, c: Node): Tree
    requires p in t.kids
  {
    Tree(t.at[p + [f] := c], t.path[c := p + [f]], t.kids[p := t.kids[p] + [c]][p + [f] := []], t.self[p + [f] := 0], t.base[p + [f] := 0])
  }

  ghost function AddWeight(t: Tree, p: Path, delta: int, base: int): Tree
    requires p in t.self && p in t.base
  {
    t.(self := t.self[p := t.self[p] + delta], base := t.base[p := t.base[p] + base])
  }

  lemma AddWeightShape(t: Tree, p: Path, delta: int, base: int)
    requires Shape(t) && p in t.at
    ensures Shape(AddWeight(t, p, delta, base))
  {
    var t' := AddWeight(t, p, delta, base);
    forall q | q in t'.at ensures Linked(t'.at, q, t'.kids[q]) { assert Linked(t.at, q, t.kids[q]); }
  }

  lemma NewLeafLinked(at: Nodes, at': Nodes, p: Path, f: string, c: Node)
    requires PrefixClosed(at) && p in at && p + [f] !in at && at' == at[p + [f] := c] && c.name == f
    ensures Linked(at', p + [f], [])
  {
    var q := p + [f];
    forall g ensures q + [g] !in at' {
      assert |q + [g]| > |q|;
    }
  }

  lemma ParentLinked(at: Nodes, at': Nodes, p: Path, f: string, c: Node, cs: seq<Node>)
    requires p in at && p + [f] !in at && at' == at[p + [f] := c] && c.name == f && c !in cs
    requires Linked(at, p, cs)
    ensures Linked(at', p, cs + [c])
  {
    forall g | p + [g] in at' ensures at'[p + [g]] in cs + [c] {
      if p + [g] == p + [f] {
        assert at'[p + [g]] == c;
      } else {
        assert p + [g] in at;
      }
    }
  }

  lemma OtherLinked(at: Nodes, at': Nodes, p: Path, f: string, c: Node, q: Path, cs: seq<Node>)
    requires q in at && q != p && p + [f] !in at && at' == at[p + [f] := c]
    requires Linked(at, q, cs)
    ensures Linked(at', q, cs)
  {
    forall g ensures q + [g] != p + [f] {
      assert (q + [g])[..|q + [g]| - 1] == q && (p + [f])[..|p + [f]| - 1] == p;
    }
  }

  lemma GrownClosed(at: Nodes, at': Nodes, p: Path, f: string, c: Node)
    requires PrefixClosed(at) && p in at && at' == at[p + [f] := c]
    ensures PrefixClosed(at')
  {
    forall q, g | q + [g] in at' ensures q in at' {
      if q + [g] == p + [f] { assert q == (q + [g])[..|q|] == (p + [f])[..|p|] == p; }
    }
  }

  lemma GrowLinked(t: Tree, p: Path, f: string, c: Node)
    requires Shape(t) && p in t.at && p + [f] !in t.at && c.name == f && c !in t.path
    ensures var t' := Grow(t, p, f, c); forall q :: q in t'.at ==> Linked(t'.at, q, t'.kids[q])
  {
    var t' := Grow(t, p, f, c);
    NewLeafLinked(t.at, t'.at, p, f, c);
    assert Linked(t.at, p, t.kids[p]);
    assert c !in t.kids[p];
    ParentLinked(t.at, t'.at, p, f, c, t.kids[p]);
    forall q | q in t.at && q != p ensures Linked(t'.at, q, t'.kids[q]) {
      OtherLinked(t.at, t'.at, p, f, c, q, t.kids[q]);
    }
  }

  lemma GrowShape(t: Tree, p: Path, f: string, c: Node)
    requires Shape(t) && p in t.at && p + [f] !in t.at && c.name == f && c !in t.path
    ensures Shape(Grow(t, p, f, c))
  {
    GrownClosed(t.at, Grow(t, p, f, c).at, p, f, c);
    GrowLinked(t, p, f, c);
  }

  /** Attach a new leaf for frame `f` below the node at `p`. */
  method AddChild(ghost t: Tree, ghost p: Path, node: Node, f: string) returns (child: Node)
    requires Stored(t) && p in t.at && t.at[p] == node && p + [f] !in t.at
    modifies node`children
    ensures fresh(child) && child.name == f && Stored(Grow(t, p, f, child))
  {
    child := new Node(f);
    ghost var t' := Grow(t, p, f, child);
    node.children := node.children + [child];
    forall q | q in t'.at
      ensures t'.at[q].children == t'.kids[q] && t'.at[q].selfDelta == t'.self[q] && t'.at[q].selfValue == t'.base[q]
    {
      if q in t.at && q != p { assert t.path[t.at[q]] == q; }
    }
  }

  /** Add weight to the node at `p`. */
  method AddToNode(node: Node, ghost t: Tree, ghost p: Path, delta: int, base: int)
    requires Stored(t) && p in t.at && t.at[p] == node
    modifies node`selfDelta, node`selfValue
    ensures Stored(AddWeight(t, p, delta, base))
  {
    ghost var t' := AddWeight(t, p, delta, base);
    node.selfDelta := node.selfDelta + delta;
    node.selfValue := node.selfValue + base;
    forall q | q in t.at
      ensures t.at[q].children == t'.kids[q] && t.at[q].selfDelta == t'.self[q] && t.at[q].selfValue == t'.base[q]
    {
      if q != p { assert t.path[t.at[q]] == q; }
    }
  }

  // ---------- names of children ----------

  ghost function Names(cs: seq<Node>): (r: seq<string>)
    ensures |r| == |cs| && forall i :: 0 <= i < |cs| ==> r[i] == cs[i].name
  {
    seq(|cs|, i requires 0 <= i < |cs| => cs[i].name)
  }

  lemma {:induction false} PrefixInTree(at: Nodes, p: Path, q: Path)
    requires PrefixClosed(at) && q in at && p <= q
    ensures p in at
    decreases |q|
  {
    if p != q {
      var n := |q| - 1;
      assert q == q[..n] + [q[n]];
      PrefixInTree(at, p, q[..n]);
    }
  }

  /** The children's names are distinct. */
  lemma NamesDistinct(t: Tree, p: Path)
    requires Shape(t) && p in t.at
    ensures Distinct(Names(t.kids[p]))
  {
    assert Linked(t.at, p, t.kids[p]);
  }

  /** A path that goes on below `p` goes on through a child of `p`. */
  lemma NextFrameIsChild(t: Tree, p: Path, q: Path) returns (i: nat)
    requires Shape(t) && p in t.at && q in t.at && p < q
    ensures i < |t.kids[p]| && t.kids[p][i].name == q[|p|] && p + [q[|p|]] <= q && p + [q[|p|]] in t.at
    ensures t.at[p + [q[|p|]]] == t.kids[p][i]
  {
    var f := q[|p|];
    assert p + [f] <= q;
    PrefixInTree(t.at, p + [f], q);
    assert Linked(t.at, p, t.kids[p]);
    var c := t.at[p + [f]];
    i :| 0 <= i < |t.kids[p]| && t.kids[p][i] == c;
    assert Linked(t.at, p + [f], t.kids[p + [f]]);
    assert (p + [f])[|p + [f]| - 1] == f;
  }
}
