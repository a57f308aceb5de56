/** Which dictionaries survive being printed as folded stacks and parsed again, by the
    analyser's own parser and by the server's. */
module FoldedRoundTrip {
  import opened Text
  import opened Sorting
  import opened FoldedStacks

  predicate Visible(stack: string, space: char -> bool) {
    stack != "" && !space(stack[0])
  }

  predicate EndsVisible(s: string) { s != "" && !PySpace(s[|s| - 1]) }

  /** The analyser reads back: no stack has a line break, and the stack printed first,
      the earliest of those with the largest count, does not start with white space. */
  ghost predicate PyPrintable(items: seq<Entry>) {
    && OneLineEach(items)
    && (forall k :: IsTop(items, k) ==> Visible(items[k].stack, PySpace))
  }

  ghost predicate OneLineEach(es: seq<Entry>) {
    forall e :: e in es ==> '\n' !in e.stack
  }

  /** The server reads back: no stack has a line break or starts with white space, and
      the counts are positive 64-bit numbers. */
  ghost predicate GoPrintable(items: seq<Entry>) {
    forall e :: e in items ==> Readable(e) && Countable(e.count)
  }

  ghost predicate Readable(e: Entry) { '\n' !in e.stack && Visible(e.stack, GoSpace) }

  ghost predicate Countable(n: int) { 0 < n < 0x8000_0000_0000_0000 }

  // ---------- numerals ----------

  lemma NumeralChars(n: int)
    ensures forall i :: 0 <= i < |ToString(n)| ==> IsDigit(ToString(n)[i]) || ToString(n)[i] == '-'
  {
    assert AllDigits(Decimal(if n < 0 then -n else n));
  }

  lemma PyIntOfDigits(d: string, n: int)
    requires d != "" && AllDigits(d) && DecimalValue(d) == n
    ensures PyInt(d) == Some(n)
  {
    TrimTrimmed(d, PySpace);
    DigitsArePyDigits(d);
  }

  lemma PyIntOfMinus(d: string, n: int)
    requires d != "" && AllDigits(d) && DecimalValue(d) == n
    ensures PyInt("-" + d) == Some(-n)
  {
    TrimTrimmed("-" + d, PySpace);
    assert ("-" + d)[1..] == d;
    DigitsArePyDigits(d);
  }

  lemma PyIntToString(n: int)
    ensures PyInt(ToString(n)) == Some(n)
  {
    var d := Decimal(if n < 0 then -n else n);
    DecimalRoundTrip(if n < 0 then -n else n);
    if n < 0 { PyIntOfMinus(d, -n); } else { PyIntOfDigits(d, n); }
  }

  lemma GoIntToString(n: int)
    requires Countable(n)
    ensures GoInt(ToString(n)) == n
  {
    var s := Decimal(n);
    TrimTrimmed(s, GoSpace);
    DigitPrefixOfDigits(s);
    DecimalRoundTrip(n);
    SmallValueDoesNotWrap(s);
  }

  lemma LineCut(e: Entry)
    ensures LastSpace(LineOf(e)) == |e.stack|
    ensures LineOf(e)[..|e.stack|] == e.stack && LineOf(e)[|e.stack| + 1..] == ToString(e.count)
    ensures EndsVisible(LineOf(e))
    ensures '\n' in LineOf(e) <==> '\n' in e.stack
  {
    var line, s, n := LineOf(e), ToString(e.count), |e.stack|;
    NumeralChars(e.count);
    assert line[n] == ' ' && line[n + 1..] == s;
    forall j | n < j < |line| ensures line[j] != ' ' && line[j] != '\n' && !PySpace(line[j]) { assert line[j] == s[j - n - 1]; }
    assert forall j :: 0 <= j < n ==> line[j] == e.stack[j];
  }

  /** What every printed line looks like. */
  lemma PrintedLines(es: seq<Entry>)
    ensures forall i :: 0 <= i < |es| ==> EndsVisible(LinesOf(es)[i])
    ensures OneLineEach(es) ==> forall i :: 0 <= i < |es| ==> '\n' !in LinesOf(es)[i]
  {
    forall i | 0 <= i < |es|
      ensures EndsVisible(LinesOf(es)[i]) && (OneLineEach(es) ==> '\n' !in LinesOf(es)[i])
    {
      LineCut(es[i]);
      assert es[i] in es;
    }
  }

  // ---------- trimming ----------

  lemma {:induction false} TrimLeftEndsSame(a: string)
    requires EndsVisible(a)
    ensures var r := TrimLeft(a, PySpace); EndsVisible(r) && Visible(r, PySpace)
  {
    if PySpace(a[0]) { TrimLeftEndsSame(a[1..]); }
  }

  lemma {:induction false} TrimLeftAppend(a: string, b: string)
    requires EndsVisible(a)
    ensures TrimLeft(a + b, PySpace) == TrimLeft(a, PySpace) + b
  {
    if PySpace(a[0]) {
      TrimLeftAppend(a[1..], b);
      assert (a + b)[1..] == a[1..] + b;
    }
  }

  lemma DropNewline(s: string)
    requires EndsVisible(s)
    ensures TrimRight(s + "\n", PySpace) == s
  {
    assert (s + "\n")[..|s|] == s;
  }

  lemma TrimBody(line: string, tail: string, body: string)
    requires EndsVisible(line) && body == line + tail && EndsVisible(body)
    ensures Trim(body + "\n", PySpace) == TrimLeft(line, PySpace) + tail
  {
    TrimLeftAppend(line, tail);
    TrimLeftAppend(body, "\n");
    TrimLeftEndsSame(body);
    DropNewline(TrimLeft(body, PySpace));
  }

  lemma JoinEndsVisible(lines: seq<string>, i: nat)
    requires i + 1 == |lines| && EndsVisible(lines[i])
    ensures EndsVisible(Join(lines, '\n'))
  {
    if i > 0 {
      JoinSnoc(lines[..i], lines[i], '\n');
      assert lines == lines[..i] + [lines[i]];
    }
  }

  lemma JoinCons(first: string, rest: seq<string>)
    ensures Join([first] + rest, '\n') == first + if rest == [] then "" else "\n" + Join(rest, '\n')
  {
    assert ([first] + rest)[1..] == rest;
  }

  /** The lines the analyser sees: those printed, except that white space before the
      first stack is gone. */
  function Seen(lines: seq<string>): seq<string>
    requires lines != []
  {
    [TrimLeft(lines[0], PySpace)] + lines[1..]
  }

  lemma TrimmedText(lines: seq<string>)
    requires lines != [] && forall i :: 0 <= i < |lines| ==> EndsVisible(lines[i])
    ensures Trim(Join(lines, '\n') + "\n", PySpace) == Join(Seen(lines), '\n')
  {
    var line, rest := lines[0], lines[1..];
    var tail := if rest == [] then "" else "\n" + Join(rest, '\n');
    assert lines == [line] + rest;
    JoinCons(line, rest);
    JoinCons(TrimLeft(line, PySpace), rest);
    JoinEndsVisible(lines, |rest|);
    TrimBody(line, tail, Join(lines, '\n'));
  }

  lemma {:induction false} TrimLeftOnOneLine(s: string)
    requires '\n' !in s
    ensures '\n' !in TrimLeft(s, PySpace)
  {
    if s != "" && PySpace(s[0]) { TrimLeftOnOneLine(s[1..]); }
  }

  lemma SeenOnOneLine(lines: seq<string>)
    requires lines != [] && forall i :: 0 <= i < |lines| ==> '\n' !in lines[i]
    ensures forall i :: 0 <= i < |Seen(lines)| ==> '\n' !in Seen(lines)[i]
  {
    TrimLeftOnOneLine(lines[0]);
    assert forall i :: 0 < i < |lines| ==> Seen(lines)[i] == lines[i];
  }

  lemma SeenIsSplit(lines: seq<string>)
    requires lines != [] && forall i :: 0 <= i < |lines| ==> EndsVisible(lines[i]) && '\n' !in lines[i]
    ensures PyParse(Join(lines, '\n') + "\n") == ReplaceAll(PyLine, Seen(lines))
  {
    TrimmedText(lines);
    SeenOnOneLine(lines);
    SplitJoin(Seen(lines), '\n');
  }

  lemma SeenSame(lines: seq<string>, stack: string)
    requires lines != [] && stack <= lines[0] && Visible(stack, PySpace)
    ensures Seen(lines) == lines
  {
  }

  // ---------- the analyser ----------

  lemma PyLineOf(e: Entry)
    ensures PyLine(LineOf(e)) == Some(e)
  {
    LineCut(e);
    PyIntToString(e.count);
    PyLineCut(LineOf(e), |e.stack|, e.count);
  }

  lemma PyLineCut(line: string, i: nat, n: int)
    requires EndsVisible(line) && LastSpace(line) == i && PyInt(line[i + 1..]) == Some(n)
    ensures PyLine(line) == Some(Entry(line[..i], n))
  {
    TrimLeftEndsSame(line);
  }

  lemma OneMoreEntry(es: seq<Entry>, m: map<string, int>, i: nat)
    requires NoRepeats(es) && i < |es| && Lists(es[..i], m)
    ensures Lists(es[..i + 1], m[es[i].stack := es[i].count])
  {
    TakeSnoc(es, i);
    assert forall x :: x in es[..i] ==> x.stack != es[i].stack;
  }

  lemma {:induction false} ReplaceAllLists(parse: string -> Option<Entry>, lines: seq<string>, es: seq<Entry>, i: nat)
    requires NoRepeats(es) && i <= |es| == |lines| && forall j :: 0 <= j < |es| ==> parse(lines[j]) == Some(es[j])
    ensures Lists(es[..i], ReplaceAll(parse, lines[..i]))
  {
    if i > 0 {
      ReplaceAllLists(parse, lines, es, i - 1);
      ReplaceAllSnoc(parse, lines, i - 1);
      OneMoreEntry(es, ReplaceAll(parse, lines[..i - 1]), i - 1);
    }
  }

  lemma SameDictionary(es: seq<Entry>, m: map<string, int>, m': map<string, int>)
    requires Lists(es, m) && Lists(es, m')
    ensures m == m'
  {
    forall k ensures k in m <==> k in m' {
      assert k in m ==> Entry(k, m[k]) in es;
      assert k in m' ==> Entry(k, m'[k]) in es;
    }
    forall k | k in m ensures m[k] == m'[k] { assert Entry(k, m[k]) in es; }
  }

  ghost predicate Gives(r: Option<Entry>, k: string) { r.Some? && r.value.stack == k }

  lemma {:induction false} ReplaceAllStacks(parse: string -> Option<Entry>, lines: seq<string>, k: string) returns (i: nat)
    requires k in ReplaceAll(parse, lines)
    ensures i < |lines| && Gives(parse(lines[i]), k)
  {
    var n := |lines| - 1;
    if Gives(parse(lines[n]), k) { i := n; } else { i := ReplaceAllStacks(parse, lines[..n], k); }
  }

  lemma PyParsedStacks(text: string, k: string)
    requires k in PyParse(text)
    ensures '\n' !in k
  {
    var lines := Split(Trim(text, PySpace), '\n');
    var i := ReplaceAllStacks(PyLine, lines, k);
    assert k <= lines[i] && '\n' !in lines[i];
  }

  /** A line trimmed on the left gives no stack that starts with white space. */
  lemma TrimmedGivesVisible(line: string, k: string)
    requires EndsVisible(line) && Gives(PyLine(TrimLeft(line, PySpace)), k)
    ensures Visible(k, PySpace)
  {
    TrimLeftEndsSame(line);
  }

  lemma FirstStackFromFirstLine(parse: string -> Option<Entry>, lines: seq<string>, es: seq<Entry>)
    requires es != [] && |lines| == |es| && NoRepeats(es) && es[0].stack in ReplaceAll(parse, lines)
    requires forall j :: 0 < j < |es| ==> parse(lines[j]) == Some(es[j])
    ensures Gives(parse(lines[0]), es[0].stack)
  {
    var i := ReplaceAllStacks(parse, lines, es[0].stack);
  }

  lemma EmptyText()
    ensures PyParse("\n") == map[] && GoParse("\n") == map[]
  {
    assert Trim("\n", PySpace) == "" && Split("", '\n') == [""] && PyLine("") == None;
    assert Split("\n", '\n') == ["", ""] && GoLine("") == None;
    assert ["", ""][..1] == [""] && [""][..0] == [];
  }

  lemma ReadBackAll(parse: string -> Option<Entry>, lines: seq<string>, es: seq<Entry>, m: map<string, int>)
    requires |lines| == |es| && Lists(es, m) && forall j :: 0 <= j < |es| ==> parse(lines[j]) == Some(es[j])
    ensures ReplaceAll(parse, lines) == m
  {
    ReplaceAllLists(parse, lines, es, |es|);
    TakeAll(es);
    TakeAll(lines);
    SameDictionary(es, m, ReplaceAll(parse, lines));
  }

  lemma FirstStackLost(lines: seq<string>, es: seq<Entry>)
    requires es != [] && |lines| == |es| && NoRepeats(es) && EndsVisible(lines[0])
    requires forall j :: 0 < j < |es| ==> PyLine(lines[j]) == Some(es[j])
    ensures es[0].stack in ReplaceAll(PyLine, Seen(lines)) ==> Visible(es[0].stack, PySpace)
  {
    if es[0].stack in ReplaceAll(PyLine, Seen(lines)) {
      FirstStackFromFirstLine(PyLine, Seen(lines), es);
      TrimmedGivesVisible(lines[0], es[0].stack);
    }
  }

  lemma SeenRoundTrip(lines: seq<string>, es: seq<Entry>, m: map<string, int>)
    requires es != [] && |lines| == |es| && Lists(es, m) && EndsVisible(lines[0]) && es[0].stack <= lines[0]
    requires forall j :: 0 <= j < |es| ==> PyLine(lines[j]) == Some(es[j])
    ensures ReplaceAll(PyLine, Seen(lines)) == m <==> Visible(es[0].stack, PySpace)
  {
    if Visible(es[0].stack, PySpace) {
      SeenSame(lines, es[0].stack);
      ReadBackAll(PyLine, lines, es, m);
    } else {
      assert es[0] in es;
      FirstStackLost(lines, es);
    }
  }

  lemma PyRoundTripOf(es: seq<Entry>, m: map<string, int>)
    requires Lists(es, m)
    ensures PyParse(TextOf(es)) == m <==> OneLineEach(es) && (es != [] ==> Visible(es[0].stack, PySpace))
  {
    if es == [] {
      EmptyText();
      assert TextOf(es) == "\n" && forall k :: k !in m;
    } else if !OneLineEach(es) {
      var e :| e in es && '\n' in e.stack;
      if e.stack in PyParse(TextOf(es)) { PyParsedStacks(TextOf(es), e.stack); }
    } else {
      PrintedLines(es);
      SeenIsSplit(LinesOf(es));
      forall j | 0 <= j < |es| ensures PyLine(LinesOf(es)[j]) == Some(es[j]) { PyLineOf(es[j]); }
      LineCut(es[0]);
      SeenRoundTrip(LinesOf(es), es, m);
    }
  }

  lemma {:induction false} TopExists(es: seq<Entry>) returns (k: int)
    requires es != []
    ensures IsTop(es, k)
  {
    var n := |es| - 1;
    if n == 0 { return 0; }
    k := TopExists(es[..n]);
    if es[n].count > es[k].count { k := n; }
  }

  /** Printing and parsing gives the dictionary back exactly when it is printable. */
  lemma PyRoundTrip(items: seq<Entry>, m: map<string, int>)
    requires Lists(items, m)
    ensures PyParse(TextOf(ByCount(items))) == m <==> PyPrintable(items)
  {
    ByCountLists(items, m);
    SortedMembers(items, CountOf);
    PyRoundTripOf(ByCount(items), m);
    if items != [] {
      var k := TopExists(items);
      forall j | IsTop(items, j) ensures ByCount(items)[0] == items[j] { FirstIsTop(items, j); }
    }
  }

  // ---------- the server ----------

  /** A line is read as this entry, which is then kept if its count is positive. */
  ghost predicate ReadAs(line: Option<Entry>, r: Entry) {
    line == PositiveEntry(r.stack, r.count) && r.count < 0x8000_0000_0000_0000
  }

  /** What the server makes of a printed entry. */
  ghost predicate Reads(e: Entry, r: Entry) {
    r.stack == e.stack && (r == e && e.count > 0 <==> Countable(e.count))
  }

  function Reading(e: Entry): Entry { Entry(e.stack, GoInt(ToString(e.count))) }

  lemma GoLineOf(e: Entry)
    requires Readable(e)
    ensures Reads(e, Reading(e)) && ReadAs(GoLine(LineOf(e)), Reading(e))
  {
    LineCut(e);
    assert LineOf(e)[0] == e.stack[0];
    TrimTrimmed(LineOf(e), GoSpace);
    if Countable(e.count) { GoIntToString(e.count); }
  }

  ghost function StacksOf(es: seq<Entry>): set<string> { set i | 0 <= i < |es| :: es[i].stack }

  /** The stacks with a positive count, each with that count. */
  ghost predicate HoldsPositive(rs: seq<Entry>, m: map<string, int>) {
    && (forall i :: 0 <= i < |rs| ==>
          if rs[i].count > 0 then rs[i].stack in m && m[rs[i].stack] == rs[i].count else rs[i].stack !in m)
    && m.Keys <= StacksOf(rs)
  }

  lemma OneMoreReading(rs: seq<Entry>, m: map<string, int>, line: Option<Entry>, i: nat)
    requires NoRepeats(rs) && i < |rs| && HoldsPositive(rs[..i], m) && ReadAs(line, rs[i])
    ensures HoldsPositive(rs[..i + 1], Accumulate(m, line))
  {
    var r := rs[i];
    assert r.stack !in StacksOf(rs[..i]);
    TakeSnoc(rs, i);
    assert StacksOf(rs[..i + 1]) == StacksOf(rs[..i]) + {r.stack} by {
      assert forall j :: 0 <= j < i ==> rs[..i + 1][j] == rs[..i][j];
      assert rs[..i + 1][i] == r;
    }
    assert Accumulate(m, line) == if r.count > 0 then m[r.stack := r.count] else m;
  }

  lemma {:induction false} AccumulateAllReadings(parse: string -> Option<Entry>, lines: seq<string>, rs: seq<Entry>, i: nat)
    requires NoRepeats(rs) && i <= |rs| == |lines| && forall j :: 0 <= j < |rs| ==> ReadAs(parse(lines[j]), rs[j])
    ensures HoldsPositive(rs[..i], AccumulateAll(parse, lines[..i]))
  {
    if i > 0 {
      AccumulateAllReadings(parse, lines, rs, i - 1);
      AccumulateAllSnoc(parse, lines, i - 1);
      OneMoreReading(rs, AccumulateAll(parse, lines[..i - 1]), parse(lines[i - 1]), i - 1);
    }
  }

  lemma SplitText(lines: seq<string>)
    requires lines != [] && forall i :: 0 <= i < |lines| ==> '\n' !in lines[i]
    ensures Split(Join(lines, '\n') + "\n", '\n') == lines + [""]
  {
    JoinSnoc(lines, "", '\n');
    SplitJoin(lines + [""], '\n');
    assert Join(lines + [""], '\n') == Join(lines, '\n') + "\n";
  }

  lemma GoParseJoined(lines: seq<string>)
    requires lines != [] && forall i :: 0 <= i < |lines| ==> '\n' !in lines[i]
    ensures GoParse(Join(lines, '\n') + "\n") == AccumulateAll(GoLine, lines)
  {
    SplitText(lines);
    AccumulateAllSnoc(GoLine, lines + [""], |lines|);
    TakeAll(lines + [""]);
    assert (lines + [""])[..|lines|] == lines && GoLine("") == None;
  }

  lemma {:induction false} AccumulateAllStacks(parse: string -> Option<Entry>, lines: seq<string>, k: string) returns (i: nat)
    requires k in AccumulateAll(parse, lines)
    ensures i < |lines| && Gives(parse(lines[i]), k)
  {
    var n := |lines| - 1;
    if Gives(parse(lines[n]), k) { i := n; } else { i := AccumulateAllStacks(parse, lines[..n], k); }
  }

  lemma GoParsedStacks(text: string, k: string)
    requires k in GoParse(text)
    ensures Visible(k, GoSpace) && '\n' !in k
  {
    var lines := Split(text, '\n');
    var i := AccumulateAllStacks(GoLine, lines, k);
    GoLineStack(lines[i]);
  }

  lemma SameWhenReadBack(es: seq<Entry>, rs: seq<Entry>, m: map<string, int>, p: map<string, int>)
    requires Lists(es, m) && HoldsPositive(rs, p) && |rs| == |es|
    requires forall i :: 0 <= i < |es| ==> rs[i].stack == es[i].stack
    ensures p == m <==> forall i :: 0 <= i < |es| ==> rs[i] == es[i] && es[i].count > 0
  {
    forall i | 0 <= i < |es| ensures es[i].stack in m && m[es[i].stack] == es[i].count { assert es[i] in es; }
    if forall i :: 0 <= i < |es| ==> rs[i] == es[i] && es[i].count > 0 {
      forall k | k in m ensures k in p && p[k] == m[k] { assert Entry(k, m[k]) in es; }
    }
  }

  /** The entries the server reads from the printed lines. */
  lemma Readings(es: seq<Entry>) returns (rs: seq<Entry>)
    requires forall i :: 0 <= i < |es| ==> Readable(es[i])
    ensures |rs| == |es|
    ensures forall i :: 0 <= i < |es| ==> Reads(es[i], rs[i])
    ensures forall i :: 0 <= i < |es| ==> ReadAs(GoLine(LinesOf(es)[i]), rs[i])
  {
    rs := seq(|es|, i requires 0 <= i < |es| => Reading(es[i]));
    forall i | 0 <= i < |es| ensures Reads(es[i], rs[i]) && ReadAs(GoLine(LinesOf(es)[i]), rs[i]) { GoLineOf(es[i]); }
  }

  lemma ReadableRoundTrip(es: seq<Entry>, m: map<string, int>)
    requires es != [] && Lists(es, m) && forall i :: 0 <= i < |es| ==> Readable(es[i])
    ensures GoParse(TextOf(es)) == m <==> forall i :: 0 <= i < |es| ==> Countable(es[i].count)
  {
    var lines := LinesOf(es);
    PrintedLines(es);
    GoParseJoined(lines);
    var rs := Readings(es);
    AccumulateAllReadings(GoLine, lines, rs, |es|);
    TakeAll(rs);
    TakeAll(lines);
    SameWhenReadBack(es, rs, m, AccumulateAll(GoLine, lines));
    assert forall i :: 0 <= i < |es| ==> Reads(es[i], rs[i]);
  }

  lemma PrintableByIndex(es: seq<Entry>)
    ensures GoPrintable(es) <==> forall i :: 0 <= i < |es| ==> Readable(es[i]) && Countable(es[i].count)
  {
    forall i | 0 <= i < |es| ensures es[i] in es {}
  }

  lemma UnreadableLost(es: seq<Entry>, m: map<string, int>, i: nat)
    requires Lists(es, m) && i < |es| && !Readable(es[i])
    ensures GoParse(TextOf(es)) != m
  {
    assert es[i] in es;
    if es[i].stack in GoParse(TextOf(es)) { GoParsedStacks(TextOf(es), es[i].stack); }
  }

  lemma GoRoundTripOf(es: seq<Entry>, m: map<string, int>)
    requires Lists(es, m)
    ensures GoParse(TextOf(es)) == m <==> GoPrintable(es)
  {
    PrintableByIndex(es);
    if es == [] {
      EmptyText();
      assert TextOf(es) == "\n" && forall k :: k !in m;
    } else if i :| 0 <= i < |es| && !Readable(es[i]) {
      UnreadableLost(es, m, i);
    } else {
      ReadableRoundTrip(es, m);
    }
  }

  /** The server reads back what the analyser printed exactly when it is printable for it. */
  lemma GoRoundTrip(items: seq<Entry>, m: map<string, int>)
    requires Lists(items, m)
    ensures GoParse(TextOf(ByCount(items))) == m <==> GoPrintable(items)
  {
    ByCountLists(items, m);
    SortedMembers(items, CountOf);
    GoRoundTripOf(ByCount(items), m);
  }

  /** A dictionary neither parser reads back: its only stack starts with a space. */
  lemma LeadingSpaceIsLost()
    ensures var items := [Entry(" a", 1)];
      && Lists(items, map[" a" := 1])
      && PyParse(TextOf(ByCount(items))) != map[" a" := 1] && GoParse(TextOf(ByCount(items))) != map[" a" := 1]
  {
    var items, m := [Entry(" a", 1)], map[" a" := 1];
    assert Entry(" a", m[" a"]) in items;
    assert IsTop(items, 0) && !Visible(items[0].stack, PySpace);
    PyRoundTrip(items, m);
    assert items[0] in items && !Readable(items[0]);
    GoRoundTrip(items, m);
  }

  // ---------- repeated stacks ----------

  /** Summing (`a`) and replacing (`r`) over the same entries: same stacks, and the same
      dictionary exactly while no stack has come twice. */
  ghost predicate Compared(a: map<string, int>, r: map<string, int>, es: seq<Entry>) {
    && a.Keys == r.Keys == StacksOf(es)
    && (forall k :: k in a ==> 0 < a[k] <= TotalCount(es))
    && (a == r <==> NoRepeats(es))
  }

  lemma StacksOfSnoc(es: seq<Entry>, e: Entry)
    ensures StacksOf(es + [e]) == StacksOf(es) + {e.stack}
    ensures NoRepeats(es + [e]) <==> NoRepeats(es) && e.stack !in StacksOf(es)
  {
    var es' := es + [e];
    assert es'[|es|] == e && forall i :: 0 <= i < |es| ==> es'[i] == es[i];
    if NoRepeats(es') {
      forall i | 0 <= i < |es| ensures es[i].stack != e.stack { assert es'[i].stack != es'[|es|].stack; }
    }
  }

  lemma OneMoreCompared(a: map<string, int>, r: map<string, int>, es: seq<Entry>, e: Entry)
    requires Compared(a, r, es) && e.count > 0 && 0 <= TotalCount(es) && TotalCount(es) + e.count < 0x8000_0000_0000_0000
    ensures Compared(Accumulate(a, Some(e)), Replace(r, Some(e)), es + [e])
  {
    StacksOfSnoc(es, e);
    assert (es + [e])[..|es|] == es;
    SummedOnce(a, r, e);
  }

  /** Adding differs from replacing if the stack is there already, or if the rest differs. */
  lemma SummedOnce(a: map<string, int>, r: map<string, int>, e: Entry)
    requires a.Keys == r.Keys && e.count > 0 && 0 <= Get(a, e.stack) && Get(a, e.stack) + e.count < 0x8000_0000_0000_0000
    requires e.stack in a ==> a[e.stack] > 0
    ensures var a', r' := Accumulate(a, Some(e)), Replace(r, Some(e));
      && a' == a[e.stack := Get(a, e.stack) + e.count]
      && (a' == r' <==> a == r && e.stack !in a)
  {
    var a', r' := Accumulate(a, Some(e)), Replace(r, Some(e));
    if a' == r' {
      assert a'[e.stack] == r'[e.stack];
      forall k | k in a ensures a[k] == r[k] { assert a'[k] == r'[k]; }
    }
  }

  lemma {:induction false} TotalsPositive(es: seq<Entry>, i: nat)
    requires i <= |es| && forall j :: 0 <= j < |es| ==> es[j].count > 0
    ensures 0 <= TotalCount(es[..i]) <= TotalCount(es)
    decreases |es| - i
  {
    if i < |es| {
      TotalsPositive(es, i + 1);
      assert es[..i + 1][..i] == es[..i];
      PositiveTotal(es[..i]);
    } else {
      TakeAll(es);
      PositiveTotal(es);
    }
  }

  lemma {:induction false} PositiveTotal(es: seq<Entry>)
    requires forall j :: 0 <= j < |es| ==> es[j].count > 0
    ensures TotalCount(es) >= 0
  {
    if es != [] { PositiveTotal(es[..|es| - 1]); }
  }

  lemma {:induction false} FoldsCompared(add: string -> Option<Entry>, put: string -> Option<Entry>,
                                         lines: seq<string>, es: seq<Entry>, i: nat)
    requires |lines| == |es| && i <= |es| && TotalCount(es) < 0x8000_0000_0000_0000
    requires forall j :: 0 <= j < |es| ==> add(lines[j]) == put(lines[j]) == Some(es[j]) && es[j].count > 0
    ensures Compared(AccumulateAll(add, lines[..i]), ReplaceAll(put, lines[..i]), es[..i])
  {
    if i > 0 {
      var n := i - 1;
      FoldsCompared(add, put, lines, es, n);
      AccumulateAllSnoc(add, lines, n);
      ReplaceAllSnoc(put, lines, n);
      TakeSnoc(es, n);
      TotalsPositive(es, n);
      TotalsPositive(es, i);
      TotalSnoc(es, n);
      OneMoreCompared(AccumulateAll(add, lines[..n]), ReplaceAll(put, lines[..n]), es[..n], es[n]);
    }
  }

  lemma TotalSnoc(es: seq<Entry>, n: nat)
    requires n < |es|
    ensures TotalCount(es[..n + 1]) == TotalCount(es[..n]) + es[n].count
  {
    assert es[..n + 1][..n] == es[..n];
  }

  lemma PrintedGoLine(e: Entry)
    requires Readable(e) && Countable(e.count)
    ensures GoLine(LineOf(e)) == Some(e)
  {
    GoLineOf(e);
  }

  lemma PrintedFolds(es: seq<Entry>)
    requires es != [] && Visible(es[0].stack, PySpace) && forall i :: 0 <= i < |es| ==> Readable(es[i])
    ensures PyParse(TextOf(es)) == ReplaceAll(PyLine, LinesOf(es)) && GoParse(TextOf(es)) == AccumulateAll(GoLine, LinesOf(es))
  {
    var lines := LinesOf(es);
    assert OneLineEach(es);
    PrintedLines(es);
    SeenIsSplit(lines);
    LineCut(es[0]);
    SeenSame(lines, es[0].stack);
    GoParseJoined(lines);
  }

  /** On a printed list of readable entries with positive counts that fit 64 bits in sum,
      and no white space in front, the two parsers agree if and only if no stack is
      listed twice. */
  lemma ParsersAgreeExactly(es: seq<Entry>)
    requires es != [] ==> Visible(es[0].stack, PySpace)
    requires TotalCount(es) < 0x8000_0000_0000_0000 && forall i :: 0 <= i < |es| ==> Readable(es[i]) && Countable(es[i].count)
    ensures PyParse(TextOf(es)) == GoParse(TextOf(es)) <==> NoRepeats(es)
  {
    if es == [] {
      EmptyText();
      assert TextOf(es) == "\n";
    } else {
      var lines := LinesOf(es);
      PrintedFolds(es);
      forall j | 0 <= j < |es| ensures GoLine(lines[j]) == PyLine(lines[j]) == Some(es[j]) {
        PrintedGoLine(es[j]);
        PyLineOf(es[j]);
      }
      FoldsCompared(GoLine, PyLine, lines, es, |es|);
      TakeAll(lines);
      TakeAll(es);
    }
  }

  /** A text the two parsers read differently: one stack on two lines. */
  lemma RepeatedStackDiffers()
    ensures var es := [Entry("a", 1), Entry("a", 2)]; PyParse(TextOf(es)) != GoParse(TextOf(es))
  {
    var es := [Entry("a", 1), Entry("a", 2)];
    assert es[0].stack == es[1].stack;
    TotalSnoc(es, 1);
    TotalSnoc(es, 0);
    TakeAll(es);
    ParsersAgreeExactly(es);
  }
}
