/** From the analyser's dictionaries to the server's differential flame graph: both
    profiles are printed as folded text, read back, and compared. */
module DiffPipeline {
  import opened FlameTree
  import opened DiffTree
  import opened FoldedStacks
  import opened FoldedRoundTrip
  import opened DiffPrune
  import opened DiffGraph

  /** Printed dictionaries whose stacks do not start with an empty frame are unambiguous. */
  lemma PrintedUnambiguous(items1: seq<Entry>, items2: seq<Entry>, m1: Profile, m2: Profile)
    requires Lists(items1, m1) && Lists(items2, m2) && GoPrintable(items1) && GoPrintable(items2)
    requires forall e :: e in items1 + items2 && e.stack != "" ==> e.stack[0] != ';'
    ensures Unambiguous(m1, m2)
  {
    forall k | k in m1.Keys + m2.Keys ensures k != "" && k[0] != ';' {
      var e := if k in m1 then Entry(k, m1[k]) else Entry(k, m2[k]);
      assert if k in m1 then e in items1 else e in items2;
      assert e in items1 + items2 && Readable(e);
    }
    NonEmptyFirstFrames(m1, m2);
  }

  /** Print two dictionaries and draw the graph of the two texts. If both are printable
      it compares the dictionaries themselves. The totals of its nodes add up even if they
      are not. */
  method DiffOfDictionaries(items1: seq<Entry>, items2: seq<Entry>, ghost m1: Profile, ghost m2: Profile)
    returns (root: Node?, ghost t: Tree)
    requires Lists(items1, m1) && Lists(items2, m2)
    ensures root != null ==> Stored(t) && Shape(t) && t.at[[]] == root && KeysApart(t.at)
    ensures root != null ==> forall p :: p in t.at ==> AddsUp(t.at[p])
    ensures GoPrintable(items1) && GoPrintable(items2) ==> (root == null <==> items1 == [] && items2 == [])
    ensures root != null && GoPrintable(items1) && GoPrintable(items2) ==>
              && root.totalDelta == Through(m2, []) - Through(m1, [])
              && (Unambiguous(m1, m2) ==> Shows(t, m1, m2))
              && (m1 == m2 ==> root.children == [])
  {
    var text1 := StacksToCollapsed(items1);
    var text2 := StacksToCollapsed(items2);
    root, t := BuildDiffTree(text1, text2);
    GoRoundTrip(items1, m1);
    GoRoundTrip(items2, m2);
    NothingListed(items1, m1);
    NothingListed(items2, m2);
  }

  lemma NothingListed(items: seq<Entry>, m: Profile)
    requires Lists(items, m)
    ensures items == [] <==> m == map[]
  {
    if items != [] { assert items[0] in items; }
    if k :| k in m { assert Entry(k, m[k]) in items; }
  }
}
