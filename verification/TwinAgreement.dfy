/** On plain folded text the server's tree against an empty profile and the web client's
    trie are the same flame graph. */
module TwinAgreement {
  import opened Text
  import opened StackSums
  import opened FlameTree
  import opened FoldedStacks
  import opened FoldedRoundTrip
  import opened DiffTree
  import opened DiffGraph
  import opened TrieTwin

  // ---------- the two line parsers ----------

  predicate PlainChars(s: string) { '\U{85}' !in s && '\U{FEFF}' !in s }

  /** A plain decimal count that fits 64 bits. */
  ghost predicate PlainCount(s: string) {
    s != "" && AllDigits(s) && DecimalValue(s) < 0x8000_0000_0000_0000
  }

  /** A line with no exotic white space that is blank, has no space, or ends in a count. */
  ghost predicate PlainLine(text: string) {
    var line := Trim(text, GoSpace);
    PlainChars(text) && (LastSpace(line) <= 0 || PlainCount(line[LastSpace(line) + 1..]))
  }

  lemma {:induction false} TrimLeftSame(s: string, a: char -> bool, b: char -> bool)
    requires forall c :: c in s ==> a(c) == b(c)
    ensures TrimLeft(s, a) == TrimLeft(s, b)
  {
    if s != "" && a(s[0]) { TrimLeftSame(s[1..], a, b); }
  }

  lemma {:induction false} TrimRightSame(s: string, a: char -> bool, b: char -> bool)
    requires forall c :: c in s ==> a(c) == b(c)
    ensures TrimRight(s, a) == TrimRight(s, b)
  {
    if s != "" && a(s[|s| - 1]) { TrimRightSame(s[..|s| - 1], a, b); }
  }

  lemma TrimSame(s: string, a: char -> bool, b: char -> bool)
    requires forall c :: c in s ==> a(c) == b(c)
    ensures Trim(s, a) == Trim(s, b)
  {
    TrimLeftSame(s, a, b);
    TrimLeftPart(s, a);
    TrimRightSame(TrimLeft(s, a), a, b);
  }

  lemma PlainSpaces(s: string)
    requires PlainChars(s)
    ensures forall c :: c in s ==> GoSpace(c) == JsSpace(c)
  {
  }

  lemma PlainInt(d: string)
    requires PlainCount(d)
    ensures GoInt(d) == DecimalValue(d) && JsInt(d) == Some(DecimalValue(d))
  {
    TrimTrimmed(d, GoSpace);
    DigitPrefixOfDigits(d);
    SmallValueDoesNotWrap(d);
  }

  lemma PlainLinesAgree(text: string)
    requires PlainLine(text)
    ensures GoLine(text) == JsLine(text)
  {
    PlainSpaces(text);
    TrimSame(text, GoSpace, JsSpace);
    PlainCutsAgree(Trim(text, GoSpace));
  }

  lemma PlainCutsAgree(line: string)
    requires LastSpace(line) <= 0 || PlainCount(line[LastSpace(line) + 1..])
    ensures CutLine(line) == CutJsLine(line)
  {
    if LastSpace(line) > 0 { PlainInt(line[LastSpace(line) + 1..]); }
  }

  // ---------- the profile and its entries ----------

  /** The dictionary holds the sums of the entries. */
  ghost predicate Tallies(m: Profile, es: seq<Entry>) {
    && (forall p :: At(m, p) == SelfSum(Weights(es), p))
    && (forall k :: k in m ==> 0 < m[k] <= TotalCount(es))
    && (forall i :: 0 <= i < |es| ==> es[i].stack in m)
    && (forall k :: k in m ==> FromEntry(es, k))
  }

  ghost predicate FromEntry(es: seq<Entry>, k: string) { exists i :: 0 <= i < |es| && es[i].stack == k }

  lemma AtAdded(m: Profile, e: Entry, n: int, p: Path)
    requires n == Get(m, e.stack) + e.count
    ensures At(m[e.stack := n], p) == At(m, p) + if FramesOf(e.stack) == p then e.count else 0
  {
    JoinSplit(e.stack, ';');
  }

  lemma SelfAdded(m: Profile, es: seq<Entry>, e: Entry, n: int)
    requires (forall p :: At(m, p) == SelfSum(Weights(es), p)) && n == Get(m, e.stack) + e.count
    ensures forall p :: At(m[e.stack := n], p) == SelfSum(Weights(es + [e]), p)
  {
    WeightsSnoc(es, e);
    forall p ensures At(m[e.stack := n], p) == SelfSum(Weights(es + [e]), p) {
      AtAdded(m, e, n, p);
      SnocSums(Weights(es), WeightOf(e), p);
    }
  }

  lemma FromEntryAdded(es: seq<Entry>, e: Entry, k: string)
    requires k == e.stack || FromEntry(es, k)
    ensures FromEntry(es + [e], k)
  {
    if k == e.stack {
      assert (es + [e])[|es|].stack == k;
    } else {
      var i :| 0 <= i < |es| && es[i].stack == k;
      assert (es + [e])[i].stack == k;
    }
  }

  lemma AddedTallies(m: Profile, es: seq<Entry>, e: Entry, n: int)
    requires Tallies(m, es) && e.count > 0 && 0 <= TotalCount(es) && n == Get(m, e.stack) + e.count
    ensures Tallies(m[e.stack := n], es + [e])
  {
    SelfAdded(m, es, e, n);
    assert (es + [e])[..|es|] == es;
    forall k | k in m[e.stack := n] ensures FromEntry(es + [e], k) { FromEntryAdded(es, e, k); }
  }

  lemma AccumulateTallies(m: Profile, es: seq<Entry>, e: Entry)
    requires Tallies(m, es) && e.count > 0 && 0 <= TotalCount(es) && TotalCount(es) + e.count < 0x8000_0000_0000_0000
    ensures Tallies(Accumulate(m, Some(e)), es + [e])
  {
    AddedTallies(m, es, e, Get(m, e.stack) + e.count);
  }

  lemma {:induction false} TotalOfPart(parse: string -> Option<Entry>, lines: seq<string>)
    requires forall i :: 0 <= i < |lines| && parse(lines[i]).Some? ==> parse(lines[i]).value.count > 0
    ensures TotalCount(Entries(parse, lines)) >= 0
    ensures lines != [] ==> TotalCount(Entries(parse, lines[..|lines| - 1])) <= TotalCount(Entries(parse, lines))
  {
    if lines != [] {
      var n := |lines| - 1;
      TotalOfPart(parse, lines[..n]);
      var es := Entries(parse, lines[..n]);
      assert parse(lines[n]).Some? ==> (es + [parse(lines[n]).value])[..|es|] == es;
    }
  }

  /** Without overflow, summing line by line tallies the entries. */
  lemma {:induction false} LinesTally(parse: string -> Option<Entry>, lines: seq<string>)
    requires forall i :: 0 <= i < |lines| && parse(lines[i]).Some? ==> parse(lines[i]).value.count > 0
    requires TotalCount(Entries(parse, lines)) < 0x8000_0000_0000_0000
    ensures Tallies(AccumulateAll(parse, lines), Entries(parse, lines))
  {
    TotalOfPart(parse, lines);
    if lines == [] {
      NoEntries();
    } else {
      var n := |lines| - 1;
      LinesTally(parse, lines[..n]);
      TotalOfPart(parse, lines[..n]);
      var es, r := Entries(parse, lines[..n]), parse(lines[n]);
      if r.Some? {
        assert (es + [r.value])[..|es|] == es;
        AccumulateTallies(AccumulateAll(parse, lines[..n]), es, r.value);
      }
    }
  }

  lemma NoEntries()
    ensures Tallies(map[], [])
  {
    assert Weights([]) == [];
  }

  lemma {:induction false} SameEntries(a: string -> Option<Entry>, b: string -> Option<Entry>, lines: seq<string>)
    requires forall i :: 0 <= i < |lines| ==> a(lines[i]) == b(lines[i])
    ensures Entries(a, lines) == Entries(b, lines)
  {
    if lines != [] { SameEntries(a, b, lines[..|lines| - 1]); }
  }

  // ---------- the two trees ----------

  lemma SamePaths(m: Profile, es: seq<Entry>, p: Path)
    requires Tallies(m, es)
    ensures OnStack(Weights(es), p) <==> p == [] || Changed(map[], m, p)
  {
    var ds := Weights(es);
    if p != [] && OnStack(ds, p) {
      var i :| 0 <= i < |ds| && p <= ds[i].frames;
      assert p <= FramesOf(es[i].stack) && es[i].stack in m;
    }
    if Changed(map[], m, p) {
      var k :| k in m && p <= FramesOf(k) && Get(map[], k) != Get(m, k);
      assert FromEntry(es, k);
      var i :| 0 <= i < |es| && es[i].stack == k;
      assert p <= ds[i].frames;
    }
  }

  lemma SameTree(m: Profile, es: seq<Entry>, go: Tree, ts: Tree, root: Node)
    requires Tallies(m, es) && Shows(go, map[], m) && Stored(ts) && Trie(root, ts, Weights(es))
    ensures go.at.Keys == ts.at.Keys
    ensures forall p :: p in go.at ==> go.at[p].selfDelta == ts.at[p].selfDelta
  {
    forall p ensures p in go.at <==> p in ts.at { SamePaths(m, es, p); }
    forall p | p in go.at ensures go.at[p].selfDelta == ts.at[p].selfDelta {
      assert ShowsAt(go.at[p], p, map[], m);
    }
  }

  /** The trie has a node for every call path, so a tree with the same nodes that never
      shares a string rules out ambiguity. */
  lemma SamePathsUnambiguous(m: Profile, es: seq<Entry>, at: Nodes, ts: Tree, root: Node)
    requires Tallies(m, es) && KeysApart(at) && Trie(root, ts, Weights(es)) && at.Keys == ts.at.Keys
    ensures Unambiguous(map[], m)
  {
    forall p | p != [] && OnProfiles(map[], m, p) ensures p in at { ProfilePathInTrie(m, es, ts, root, p); }
  }

  lemma ProfilePathInTrie(m: Profile, es: seq<Entry>, ts: Tree, root: Node, p: Path)
    requires Tallies(m, es) && Trie(root, ts, Weights(es)) && OnProfiles(map[], m, p)
    ensures p in ts.at
  {
    var k :| k in m && p <= FramesOf(k);
    assert FromEntry(es, k);
    var i :| 0 <= i < |es| && es[i].stack == k;
    assert p <= Weights(es)[i].frames;
    assert OnStack(Weights(es), p);
  }

  /** Lines with plain decimal counts whose sum fits 64 bits. */
  ghost predicate PlainText(text: string) {
    && (forall i :: 0 <= i < |Split(text, '\n')| ==> PlainLine(Split(text, '\n')[i]))
    && TotalCount(Entries(JsLine, Split(text, '\n'))) < 0x8000_0000_0000_0000
  }

  /** On plain text both parsers see the same entries, and the profile is their tally. */
  lemma PlainTallies(text: string)
    requires PlainText(text)
    ensures Tallies(GoParse(text), Entries(JsLine, Split(text, '\n')))
  {
    var lines := Split(text, '\n');
    forall i | 0 <= i < |lines| ensures GoLine(lines[i]) == JsLine(lines[i]) { PlainLinesAgree(lines[i]); }
    SameEntries(GoLine, JsLine, lines);
    forall i | 0 <= i < |lines| && GoLine(lines[i]).Some? ensures GoLine(lines[i]).value.count > 0 { GoLineStack(lines[i]); }
    LinesTally(GoLine, lines);
  }

  lemma NoEntriesNoProfile(m: Profile, es: seq<Entry>)
    requires Tallies(m, es)
    ensures m == map[] <==> es == []
  {
    if es != [] { assert es[0].stack in m; }
    if es == [] { assert forall k :: k in m ==> FromEntry(es, k); }
  }

  lemma NothingFromNothing()
    ensures GoParse("") == map[]
  {
    assert Split("", '\n') == [""] && GoLine("") == None;
    assert [""][..0] == [];
  }

  /** Build the server's tree of a text against an empty profile and the client's trie of
      the same text. Both or neither exist; they have the same paths if and only if no
      two call paths share their string, and then the same own weights. */
  method DrawBoth(text: string) returns (go: Node?, ts: Node?, ghost goTree: Tree, ghost tsTree: Tree)
    requires PlainText(text)
    ensures go == null <==> ts == null
    ensures go != null ==> Stored(goTree) && Shape(goTree) && goTree.at[[]] == go
    ensures ts != null ==> Stored(tsTree) && Shape(tsTree) && tsTree.at[[]] == ts
    ensures go != null ==> (goTree.at.Keys == tsTree.at.Keys <==> Unambiguous(map[], GoParse(text)))
    ensures go != null && Unambiguous(map[], GoParse(text)) ==>
              forall p :: p in goTree.at ==> goTree.at[p].selfDelta == tsTree.at[p].selfDelta
  {
    go, goTree := BuildDiffTree("", text);
    ts, tsTree := ParseCollapsedToTree(text);
    ghost var m, es := GoParse(text), Entries(JsLine, Split(text, '\n'));
    NothingFromNothing();
    PlainTallies(text);
    NoEntriesNoProfile(m, es);
    if go != null {
      if goTree.at.Keys == tsTree.at.Keys { SamePathsUnambiguous(m, es, goTree.at, tsTree, ts); }
      if Unambiguous(map[], m) { SameTree(m, es, goTree, tsTree, ts); }
    }
  }

  // ---------- printed profiles ----------

  ghost predicate PlainEntry(e: Entry) { Readable(e) && Countable(e.count) && PlainChars(e.stack) }

  lemma PrintedCount(n: int)
    requires Countable(n)
    ensures PlainCount(ToString(n)) && PlainChars(ToString(n))
  {
    DecimalRoundTrip(n);
    assert AllDigits(Decimal(n));
  }

  lemma PrintedLineIsPlain(e: Entry)
    requires PlainEntry(e)
    ensures PlainLine(LineOf(e)) && JsLine(LineOf(e)) == Some(e)
  {
    LineCut(e);
    assert LineOf(e)[0] == e.stack[0];
    TrimTrimmed(LineOf(e), GoSpace);
    PrintedCount(e.count);
    GoLineOf(e);
    GoIntToString(e.count);
    PlainLinesAgree(LineOf(e));
  }

  lemma BlankIsPlain()
    ensures PlainLine("") && JsLine("") == None
  {
  }

  lemma {:induction false} EntriesPrefix(parse: string -> Option<Entry>, lines: seq<string>, es: seq<Entry>, i: nat)
    requires |lines| == |es| && i <= |es| && forall j :: 0 <= j < |es| ==> parse(lines[j]) == Some(es[j])
    ensures Entries(parse, lines[..i]) == es[..i]
  {
    if i > 0 {
      EntriesPrefix(parse, lines, es, i - 1);
      EntriesSnoc(parse, lines, i - 1);
      TakeSnoc(es, i - 1);
    }
  }

  lemma EntriesAndBlank(parse: string -> Option<Entry>, lines: seq<string>, es: seq<Entry>)
    requires |lines| == |es| && parse("") == None && forall j :: 0 <= j < |es| ==> parse(lines[j]) == Some(es[j])
    ensures Entries(parse, lines + [""]) == es
  {
    EntriesPrefix(parse, lines, es, |es|);
    TakeAll(lines);
    TakeAll(es);
    EntriesSnoc(parse, lines + [""], |lines|);
    assert (lines + [""])[..|lines|] == lines;
    TakeAll(lines + [""]);
  }

  /** Whatever the analyser prints of stacks with ordinary white space and positive
      counts is plain text, read by the client as the same entries. */
  lemma PrintedIsPlain(es: seq<Entry>)
    requires es != [] && TotalCount(es) < 0x8000_0000_0000_0000 && forall i :: 0 <= i < |es| ==> PlainEntry(es[i])
    ensures PlainText(TextOf(es)) && Entries(JsLine, Split(TextOf(es), '\n')) == es
  {
    var lines := LinesOf(es);
    assert Split(TextOf(es), '\n') == lines + [""] by { PrintedSplit(es); }
    assert Entries(JsLine, lines + [""]) == es by { PrintedEntries(es); }
    assert forall i :: 0 <= i < |lines + [""]| ==> PlainLine((lines + [""])[i]) by { PrintedPlain(es); }
  }

  lemma PrintedSplit(es: seq<Entry>)
    requires es != [] && forall i :: 0 <= i < |es| ==> PlainEntry(es[i])
    ensures Split(TextOf(es), '\n') == LinesOf(es) + [""]
  {
    forall i | 0 <= i < |es| ensures '\n' !in LinesOf(es)[i] { LineCut(es[i]); }
    SplitText(LinesOf(es));
  }

  lemma PrintedEntries(es: seq<Entry>)
    requires forall i :: 0 <= i < |es| ==> PlainEntry(es[i])
    ensures Entries(JsLine, LinesOf(es) + [""]) == es
  {
    forall i | 0 <= i < |es| ensures JsLine(LinesOf(es)[i]) == Some(es[i]) { PrintedLineIsPlain(es[i]); }
    BlankIsPlain();
    EntriesAndBlank(JsLine, LinesOf(es), es);
  }

  lemma PrintedPlain(es: seq<Entry>)
    requires forall i :: 0 <= i < |es| ==> PlainEntry(es[i])
    ensures var lines := LinesOf(es) + [""]; forall i :: 0 <= i < |lines| ==> PlainLine(lines[i])
  {
    BlankIsPlain();
    var lines := LinesOf(es) + [""];
    forall i | 0 <= i < |lines| ensures PlainLine(lines[i]) {
      if i < |es| {
        PrintedLineIsPlain(es[i]);
        assert lines[i] == LineOf(es[i]);
      } else {
        assert lines[i] == "";
      }
    }
  }

  /** Plain text on which the two graphs differ: stacks ";b" and "b". */
  lemma PlainButAmbiguous()
    ensures var text := TextOf([Entry(";b", 1), Entry("b", 1)]); PlainText(text) && !Unambiguous(map[], GoParse(text))
  {
    var es, m := [Entry(";b", 1), Entry("b", 1)], map[";b" := 1, "b" := 1];
    TwoStacks(es, m);
    PrintedIsPlain(es);
    GoRoundTripOf(es, m);
    Ambiguous(m);
  }

  lemma PlainPair()
    ensures PlainEntry(Entry(";b", 1)) && PlainEntry(Entry("b", 1))
  {
  }

  lemma ListsTwo(a: Entry, b: Entry)
    requires a.stack != b.stack
    ensures Lists([a, b], map[a.stack := a.count, b.stack := b.count])
  {
    assert [a, b][0] in [a, b] && [a, b][1] in [a, b];
  }

  lemma PrintableTwo(a: Entry, b: Entry)
    requires PlainEntry(a) && PlainEntry(b)
    ensures GoPrintable([a, b])
  {
  }

  lemma TwoStacks(es: seq<Entry>, m: Profile)
    requires es == [Entry(";b", 1), Entry("b", 1)] && m == map[";b" := 1, "b" := 1]
    ensures Lists(es, m) && GoPrintable(es) && TotalCount(es) == 2
    ensures forall i :: 0 <= i < |es| ==> PlainEntry(es[i])
  {
    var a, b := Entry(";b", 1), Entry("b", 1);
    PlainPair();
    ListsTwo(a, b);
    PrintableTwo(a, b);
    TotalOfTwo(a, b);
    forall i | 0 <= i < |es| ensures PlainEntry(es[i]) { assert es[i] == a || es[i] == b; }
  }

  lemma TotalOfTwo(a: Entry, b: Entry)
    ensures TotalCount([a, b]) == a.count + b.count
  {
    assert [a, b][..1] == [a] && [a][..0] == [] && TotalCount([a]) == a.count;
  }

  lemma Ambiguous(m: Profile)
    requires m == map[";b" := 1, "b" := 1]
    ensures !Unambiguous(map[], m)
  {
    var p, q := ["b"], ["", "b"];
    TwoFrames();
    SharedKey();
    assert ";b" in m && "b" in m;
    assert OnProfiles(map[], m, p) && OnProfiles(map[], m, q);
  }

  lemma TwoFrames()
    ensures FramesOf("b") == ["b"] && FramesOf(";b") == ["", "b"]
  {
    assert ["", "b"][1..] == ["b"];
    assert Join(["b"], ';') == "b" && Join(["", "b"], ';') == ";b";
    SplitJoin(["b"], ';');
    SplitJoin(["", "b"], ';');
  }

  lemma SharedKey()
    ensures PathKey(["b"]) == "b" == PathKey(["", "b"])
  {
    assert ["", "b"][..1] == [""] && [""][..0] == [] && ["b"][..0] == [];
    assert PathKey([""]) == "";
  }
}
