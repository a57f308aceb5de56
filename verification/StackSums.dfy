/** Sums over folded stacks: what each node of a flame graph stands for. A stack is a
    sequence of frames, outermost first, with a signed weight. */
module StackSums {

  type Path = seq<string>

  /** A stack's change between two profiles, and its count in the first. */
  datatype StackDelta = StackDelta(frames: Path, delta: int, base: int)

  /** Weight of the stacks that end exactly at `p`. */
  function SelfSum(ds: seq<StackDelta>, p: Path): int {
    if ds == [] then 0
    else SelfSum(ds[..|ds| - 1], p) + if ds[|ds| - 1].frames == p then ds[|ds| - 1].delta else 0
  }

  function BaseSum(ds: seq<StackDelta>, p: Path): int {
    if ds == [] then 0
    else BaseSum(ds[..|ds| - 1], p) + if ds[|ds| - 1].frames == p then ds[|ds| - 1].base else 0
  }

  /** Weight of the stacks whose frames start with `p`. */
  function PrefixSum(ds: seq<StackDelta>, p: Path): int {
    if ds == [] then 0
    else PrefixSum(ds[..|ds| - 1], p) + if p <= ds[|ds| - 1].frames then ds[|ds| - 1].delta else 0
  }

  /** `p` is a call path of some stack. */
  ghost predicate OnStack(ds: seq<StackDelta>, p: Path) {
    p == [] || exists i :: 0 <= i < |ds| && p <= ds[i].frames
  }

  /** Sum of the prefix sums of the children of `p` named in `names`. */
  function ChildSum(ds: seq<StackDelta>, p: Path, names: seq<string>): int {
    if names == [] then 0
    else ChildSum(ds, p, names[..|names| - 1]) + PrefixSum(ds, p + [names[|names| - 1]])
  }

  ghost predicate Distinct(names: seq<string>) {
    forall i, j :: 0 <= i < j < |names| ==> names[i] != names[j]
  }

  lemma SnocSums(ds: seq<StackDelta>, d: StackDelta, p: Path)
    ensures SelfSum(ds + [d], p) == SelfSum(ds, p) + if d.frames == p then d.delta else 0
    ensures BaseSum(ds + [d], p) == BaseSum(ds, p) + if d.frames == p then d.base else 0
    ensures PrefixSum(ds + [d], p) == PrefixSum(ds, p) + if p <= d.frames then d.delta else 0
  {
    assert (ds + [d])[..|ds|] == ds;
  }

  /** A path where no stack ends has no weight of its own. */
  lemma {:induction false} SelfSumElsewhere(ds: seq<StackDelta>, p: Path)
    requires forall i :: 0 <= i < |ds| ==> ds[i].frames != p
    ensures SelfSum(ds, p) == 0 && BaseSum(ds, p) == 0
  {
    if ds != [] { SelfSumElsewhere(ds[..|ds| - 1], p); }
  }

  /** Adding one stack adds it to the child it runs through, if any. */
  lemma {:induction false} ChildSumSnoc(ds: seq<StackDelta>, d: StackDelta, p: Path, names: seq<string>)
    requires Distinct(names)
    ensures ChildSum(ds + [d], p, names) == ChildSum(ds, p, names) +
      if p < d.frames && d.frames[|p|] in names then d.delta else 0
    decreases |names|
  {
    if names != [] {
      var n := |names| - 1;
      ChildSumSnoc(ds, d, p, names[..n]);
      SnocSums(ds, d, p + [names[n]]);
      assert p + [names[n]] <= d.frames <==> p < d.frames && d.frames[|p|] == names[n];
      assert forall f :: f in names <==> f in names[..n] || f == names[n];
    }
  }

  /** A node's prefix sum is its own weight plus its children's, when the children
      are all the next frames that occur. */
  lemma {:induction false} Decompose(ds: seq<StackDelta>, p: Path, names: seq<string>)
    requires Distinct(names)
    requires forall i :: 0 <= i < |ds| && p < ds[i].frames ==> ds[i].frames[|p|] in names
    ensures PrefixSum(ds, p) == SelfSum(ds, p) + ChildSum(ds, p, names)
    decreases |ds|
  {
    if ds == [] {
      NoStacks(p, names);
    } else {
      var n := |ds| - 1;
      Decompose(ds[..n], p, names);
      assert ds == ds[..n] + [ds[n]];
      ChildSumSnoc(ds[..n], ds[n], p, names);
      SnocSums(ds[..n], ds[n], p);
    }
  }

  lemma {:induction false} NoStacks(p: Path, names: seq<string>)
    ensures ChildSum([], p, names) == 0
  {
    if names != [] { NoStacks(p, names[..|names| - 1]); }
  }
}
