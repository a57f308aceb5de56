/** The web client's flame graph of one profile, built by searching the children of each
    node, and its agreement with the server's indexed tree. */
module TrieTwin {
  import opened Text
  import opened StackSums
  import opened FlameTree
  import opened FoldedStacks
  import opened DiffTree
  import opened DiffTotals
  import opened DiffGraph

  // ---------- reading a line ----------

  /** White space as JavaScript's `trim` sees it. */
  predicate JsSpace(c: char) { (GoSpace(c) && c != '\U{85}') || c == '\U{FEFF}' }

  /** `parseInt(s, 10)`; no value stands for NaN. */
  function JsInt(s: string): Option<int> {
    var t := TrimLeft(s, JsSpace);
    if t != "" && t[0] == '-' then Negated(JsDigits(t[1..]))
    else if t != "" && t[0] == '+' then JsDigits(t[1..])
    else JsDigits(t)
  }

  function JsDigits(s: string): Option<int> {
    if DigitPrefix(s) == "" then None else Some(DecimalValue(DigitPrefix(s)))
  }

  function Negated(n: Option<int>): Option<int> {
    match n
    case Some(v) => Some(-v)
    case None => None
  }

  function JsLine(text: string): Option<Entry> {
    CutJsLine(Trim(text, JsSpace))
  }

  function CutJsLine(line: string): Option<Entry> {
    var i := LastSpace(line);
    if i <= 0 then None else KeepPositive(line[..i], JsInt(line[i + 1..]))
  }

  function KeepPositive(stack: string, n: Option<int>): Option<Entry> {
    match n
    case Some(v) => PositiveEntry(stack, v)
    case None => None
  }

  /** The entries of the lines that give one, in order. */
  function Entries(parse: string -> Option<Entry>, lines: seq<string>): seq<Entry> {
    if lines == [] then []
    else
      var es := Entries(parse, lines[..|lines| - 1]);
      match parse(lines[|lines| - 1])
      case Some(e) => es + [e]
      case None => es
  }

  lemma EntriesSnoc(parse: string -> Option<Entry>, lines: seq<string>, i: nat)
    requires i < |lines|
    ensures Entries(parse, lines[..i + 1]) ==
      match parse(lines[i])
      case Some(e) => Entries(parse, lines[..i]) + [e]
      case None => Entries(parse, lines[..i])
  {
    assert lines[..i + 1][..i] == lines[..i];
  }

  function WeightOf(e: Entry): StackDelta { StackDelta(FramesOf(e.stack), e.count, 0) }

  function Weights(es: seq<Entry>): (ds: seq<StackDelta>)
    ensures |ds| == |es| && forall i :: 0 <= i < |es| ==> ds[i] == WeightOf(es[i])
  {
    seq(|es|, i requires 0 <= i < |es| => WeightOf(es[i]))
  }

  // ---------- building by search ----------

  /** The child with the given name, if any. */
  method FindChild(node: Node, frame: string, ghost t: Tree, ghost p: Path) returns (child: Node?)
    requires Stored(t) && Shape(t) && p in t.at && t.at[p] == node
    ensures child != null ==> p + [frame] in t.at && t.at[p + [frame]] == child
    ensures child == null ==> p + [frame] !in t.at
  {
    var cs := node.children;
    assert Linked(t.at, p, cs);
    for i := 0 to |cs|
      invariant forall j :: 0 <= j < i ==> cs[j].name != frame
    {
      if cs[i].name == frame { return cs[i]; }
    }
    NotAChild(t, p, frame);
    return null;
  }

  lemma NotAChild(t: Tree, p: Path, f: string)
    requires Shape(t) && p in t.at && forall j :: 0 <= j < |t.kids[p]| ==> t.kids[p][j].name != f
    ensures p + [f] !in t.at
  {
    if p + [f] in t.at {
      var i := NextFrameIsChild(t, p, p + [f]);
    }
  }

  /** After `j` frames: at the node of those frames, with their paths added. */
  ghost predicate Reached(t0: Tree, t: Tree, frames: Path, j: nat, ds: seq<StackDelta>) {
    match t
    case Tree(at, _, _, _, _) =>
      && [] in t0.at && j <= |frames| && Shape(t) && Weighted(t, ds) && Landed(at, ds, ds)
      && frames[..j] in at && GrownBy(t0.at, at, frames[..j]) && at[[]] == t0.at[[]]
  }

  lemma ReachedNext(t0: Tree, t: Tree, t': Tree, frames: Path, j: nat, ds: seq<StackDelta>, child: Node)
    requires j < |frames| && Reached(t0, t, frames, j, ds) && Shape(t')
    requires var p, f := frames[..j], frames[j];
      if p + [f] in t.at then t' == t else t' == Grow(t, p, f, child)
    ensures Reached(t0, t', frames, j + 1, ds)
  {
    var p, f := frames[..j], frames[j];
    TakeSnoc(frames, j);
    GrownBySnoc(t0.at, t.at, t'.at, p, f);
    if p + [f] !in t.at { WeightedGrown(t, p, f, child, ds, ds); }
  }

  /** Take one frame: the child of that name, or a new one. */
  method StepDown(node: Node, frames: Path, j: nat, ghost t0: Tree, ghost t: Tree, ghost ds: seq<StackDelta>)
    returns (child: Node, ghost t': Tree)
    requires j < |frames| && Stored(t) && Reached(t0, t, frames, j, ds) && t.at[frames[..j]] == node
    modifies node`children
    ensures Stored(t') && Reached(t0, t', frames, j + 1, ds) && t'.at[frames[..j + 1]] == child
    ensures forall n :: n in t'.path ==> n in t.path || fresh(n)
  {
    ghost var p := frames[..j];
    TakeSnoc(frames, j);
    var found := FindChild(node, frames[j], t, p);
    if found != null {
      child, t' := found, t;
    } else {
      child := AddChild(t, p, node, frames[j]);
      GrowShape(t, p, frames[j], child);
      t' := Grow(t, p, frames[j], child);
    }
    ReachedNext(t0, t, t', frames, j, ds, child);
  }

  /** Everything the tree so far stands for. */
  ghost predicate Trie(root: Node, t: Tree, ds: seq<StackDelta>) {
    match t
    case Tree(at, _, _, _, _) =>
      Shape(t) && at[[]] == root && Weighted(t, ds) && Covers(at, ds) && Landed(at, ds, ds)
  }

  lemma TrieStart(root: Node, t: Tree, ds: seq<StackDelta>, frames: Path)
    requires Trie(root, t, ds)
    ensures Reached(t, t, frames, 0, ds) && frames[..0] == []
  {
  }

  lemma TrieGrown(root: Node, t0: Tree, t: Tree, d: StackDelta, ds: seq<StackDelta>)
    requires Trie(root, t0, ds) && Reached(t0, t, d.frames, |d.frames|, ds)
    ensures d.frames in t.at && d.frames in t.self && d.frames in t.base
    ensures Trie(root, AddWeight(t, d.frames, d.delta, d.base), ds + [d])
  {
    TakeAll(d.frames);
    AddWeightShape(t, d.frames, d.delta, d.base);
    WeightAdded(t, ds, d.frames, d.delta, d.base);
    CoversOneMore(t0.at, t.at, ds, d);
    LandedSnoc(t.at, ds, ds, d, d.frames);
  }

  lemma CoversOneMore(at: Nodes, at': Nodes, ds: seq<StackDelta>, d: StackDelta)
    requires Covers(at, ds) && GrownBy(at, at', d.frames)
    ensures Covers(at', ds + [d])
  {
    var all := ds + [d];
    assert all[..|ds|] == ds && all[..|ds| + 1] == all;
    CoversSnoc(at, at', all, |ds|);
  }

  /** Add one stack. */
  method AddStack(root: Node, d: StackDelta, ghost t: Tree, ghost ds: seq<StackDelta>) returns (ghost t': Tree)
    requires Stored(t) && Trie(root, t, ds)
    modifies t.path.Keys
    ensures Stored(t') && Trie(root, t', ds + [d])
    ensures forall n :: n in t'.path ==> n in t.path || fresh(n)
  {
    var current := root;
    t' := t;
    TrieStart(root, t, ds, d.frames);
    var j := 0;
    while j < |d.frames|
      invariant 0 <= j <= |d.frames| && Stored(t') && Reached(t, t', d.frames, j, ds) && t'.at[d.frames[..j]] == current
      invariant forall n :: n in t'.path ==> n in t.path || fresh(n)
    {
      current, t' := StepDown(current, d.frames, j, t, t', ds);
      j := j + 1;
    }
    TakeAll(d.frames);
    TrieGrown(root, t, t', d, ds);
    AddToNode(current, t', d.frames, d.delta, d.base);
    t' := AddWeight(t', d.frames, d.delta, d.base);
  }

  lemma EmptyTrie(root: Node)
    ensures Trie(root, Tree(map[[] := root], map[root := []], map[[] := []], map[[] := 0], map[[] := 0]), [])
  {
  }

  lemma WeightsSnoc(es: seq<Entry>, e: Entry)
    ensures Weights(es + [e]) == Weights(es) + [WeightOf(e)]
  {
  }

  /** The loop over the lines. */
  method AddLines(root: Node, lines: seq<string>, ghost t: Tree) returns (ghost t': Tree)
    requires Stored(t) && Trie(root, t, [])
    modifies t.path.Keys
    ensures Stored(t') && Trie(root, t', Weights(Entries(JsLine, lines)))
  {
    t' := t;
    assert Weights([]) == [];
    for k := 0 to |lines|
      invariant Stored(t') && Trie(root, t', Weights(Entries(JsLine, lines[..k])))
      invariant forall n :: n in t'.path ==> n in t.path || fresh(n)
    {
      EntriesSnoc(JsLine, lines, k);
      var e := JsLine(lines[k]);
      if e.Some? {
        WeightsSnoc(Entries(JsLine, lines[..k]), e.value);
        t' := AddStack(root, StackDelta(Split(e.value.stack, ';'), e.value.count, 0), t', Weights(Entries(JsLine, lines[..k])));
      }
    }
    TakeAll(lines);
  }

  /** The plain flame graph of a folded text: none without stacks, else the trie of all
      accepted lines, every node holding the count of the lines that end at it. */
  method ParseCollapsedToTree(text: string) returns (root: Node?, ghost t: Tree)
    ensures root == null <==> Entries(JsLine, Split(text, '\n')) == []
    ensures root != null ==> Stored(t) && Trie(root, t, Weights(Entries(JsLine, Split(text, '\n'))))
  {
    var top := new Node("all");
    t := Tree(map[[] := top], map[top := []], map[[] := []], map[[] := 0], map[[] := 0]);
    EmptyTrie(top);
    t := AddLines(top, Split(text, '\n'), t);
    ChildlessTrie(top, t, Entries(JsLine, Split(text, '\n')));
    root := if |top.children| > 0 then top else null;
  }

  lemma ChildlessTrie(root: Node, t: Tree, es: seq<Entry>)
    requires Trie(root, t, Weights(es))
    ensures t.kids[[]] == [] <==> es == []
  {
    var ds := Weights(es);
    if es != [] {
      assert ds[0].frames in t.at;
      var i := NextFrameIsChild(t, [], ds[0].frames);
    }
    if t.kids[[]] != [] {
      ChildPath(t, [], 0);
      assert OnStack(ds, [] + [t.kids[[]][0].name]);
    }
  }
}
