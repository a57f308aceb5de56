/** The folded-stack text format, one "frame;frame;frame count" line per stack: the
    analyser prints and parses it, the API server parses it again. */
module FoldedStacks {
  import opened Text
  import opened Sorting

  datatype Entry = Entry(stack: string, count: int)

  /** A dictionary as its list of items in insertion order. */
  ghost predicate Lists(es: seq<Entry>, m: map<string, int>) {
    && NoRepeats(es)
    && (forall e :: e in es ==> e.stack in m && m[e.stack] == e.count)
    && (forall k :: k in m ==> Entry(k, m[k]) in es)
  }

  ghost predicate NoRepeats(es: seq<Entry>) {
    forall i, j :: 0 <= i < j < |es| ==> es[i].stack != es[j].stack
  }

  function TotalCount(es: seq<Entry>): int {
    if es == [] then 0 else TotalCount(es[..|es| - 1]) + es[|es| - 1].count
  }

  /** Offset of the last space, or -1. */
  function LastSpace(s: string): (i: int)
    ensures -1 <= i < |s|
    ensures i >= 0 ==> s[i] == ' '
    ensures forall j :: i < j < |s| ==> s[j] != ' '
  {
    var n := |s| - 1;
    if s == "" then -1 else if s[n] == ' ' then n else LastSpace(s[..n])
  }

  // ---------- printing ----------

  function LineOf(e: Entry): string {
    e.stack + " " + ToString(e.count)
  }

  function LinesOf(es: seq<Entry>): (r: seq<string>)
    ensures |r| == |es| && forall i :: 0 <= i < |es| ==> r[i] == LineOf(es[i])
  {
    seq(|es|, i requires 0 <= i < |es| => LineOf(es[i]))
  }

  function TextOf(es: seq<Entry>): string {
    (if es == [] then "" else Join(LinesOf(es), '\n')) + "\n"
  }

  function CountOf(e: Entry): int { e.count }

  /** Largest count first; equal counts stay in insertion order. */
  function ByCount(es: seq<Entry>): seq<Entry> { Sorted(es, CountOf) }

  lemma {:induction false} InsertNoRepeats(es: seq<Entry>, e: Entry)
    requires NoRepeats(es) && forall x :: x in es ==> x.stack != e.stack
    ensures NoRepeats(Insert(es, e, CountOf))
  {
    var n := |es| - 1;
    if es != [] && es[n].count < e.count {
      InsertNoRepeats(es[..n], e);
      InsertKeeps(es[..n], e, CountOf);
      var r := Insert(es[..n], e, CountOf);
      forall i | 0 <= i < |r| ensures r[i].stack != es[n].stack {
        assert r[i] in multiset(r) && r[i] in multiset(es[..n]) + multiset{e};
      }
    }
  }

  lemma {:induction false} ByCountNoRepeats(es: seq<Entry>)
    requires NoRepeats(es)
    ensures NoRepeats(ByCount(es))
  {
    if es != [] {
      var n := |es| - 1;
      ByCountNoRepeats(es[..n]);
      SortedMembers(es[..n], CountOf);
      forall x | x in ByCount(es[..n]) ensures x.stack != es[n].stack { assert x in es[..n]; }
      InsertNoRepeats(ByCount(es[..n]), es[n]);
    }
  }

  /** The printed order lists the same dictionary. */
  lemma ByCountLists(es: seq<Entry>, m: map<string, int>)
    requires Lists(es, m)
    ensures Lists(ByCount(es), m)
  {
    ByCountNoRepeats(es);
    SortedMembers(es, CountOf);
  }

  /** Item `k` is the earliest of those with the largest count. */
  ghost predicate IsTop(es: seq<Entry>, k: int) {
    && 0 <= k < |es|
    && (forall j :: 0 <= j < |es| ==> es[j].count <= es[k].count)
    && (forall j :: 0 <= j < k ==> es[j].count < es[k].count)
  }

  /** The first item printed is the earliest of those with the largest count. */
  lemma {:induction false} FirstIsTop(es: seq<Entry>, k: int)
    requires IsTop(es, k)
    ensures ByCount(es)[0] == es[k]
    decreases |es|
  {
    var n := |es| - 1;
    var s := ByCount(es[..n]);
    SortedDescending(es[..n], CountOf);
    InsertDescending(s, es[n], CountOf);
    assert ByCount(es) == Insert(s, es[n], CountOf);
    if k < n {
      FirstIsTop(es[..n], k);
    } else if n > 0 {
      FirstBelow(es[..n], es[n].count);
    }
  }

  lemma FirstBelow(es: seq<Entry>, c: int)
    requires es != [] && forall j :: 0 <= j < |es| ==> es[j].count < c
    ensures ByCount(es)[0].count < c
  {
    SortedMembers(es, CountOf);
    assert ByCount(es)[0] in ByCount(es) && ByCount(es)[0] in es;
  }

  /** Print a dictionary, largest count first. */
  method StacksToCollapsed(items: seq<Entry>) returns (text: string)
    ensures text == TextOf(ByCount(items))
  {
    var sorted := ByCount(items);
    var lines := PrintLines(sorted);
    text := (if lines == [] then "" else Join(lines, '\n')) + "\n";
  }

  /** The loop over the sorted items. */
  method PrintLines(es: seq<Entry>) returns (lines: seq<string>)
    ensures lines == LinesOf(es)
  {
    lines := [];
    for i := 0 to |es|
      invariant lines == LinesOf(es)[..i]
    {
      lines := lines + [es[i].stack + " " + ToString(es[i].count)];
    }
    TakeAll(LinesOf(es));
  }

  // ---------- the analyser's parser ----------

  /** Digits with single underscores between them, as in Python source. */
  predicate PyDigits(s: string) {
    var n := |s| - 1;
    && s != "" && IsDigit(s[n])
    && (n == 0 || PyDigits(if s[n - 1] == '_' then s[..n - 1] else s[..n]))
  }

  lemma {:induction false} DigitsArePyDigits(s: string)
    requires s != "" && AllDigits(s)
    ensures PyDigits(s)
  {
    if |s| > 1 { DigitsArePyDigits(s[..|s| - 1]); }
  }

  function OnlyDigits(s: string): (r: string)
    ensures AllDigits(r)
    ensures AllDigits(s) ==> r == s
  {
    if s == "" then ""
    else if IsDigit(s[0]) then [s[0]] + OnlyDigits(s[1..])
    else OnlyDigits(s[1..])
  }

  /** `int(s)`, for ASCII digits. */
  function PyInt(s: string): Option<int> {
    var t := Trim(s, PySpace);
    if t != "" && (t[0] == '-' || t[0] == '+') && PyDigits(t[1..]) then
      var v: int := DecimalValue(OnlyDigits(t[1..]));
      Some(if t[0] == '-' then -v else v)
    else if PyDigits(t) then Some(DecimalValue(OnlyDigits(t)))
    else None
  }

  function PyLine(line: string): (r: Option<Entry>)
    ensures r.Some? ==> r.value.stack <= line
  {
    var i := LastSpace(line);
    if Trim(line, PySpace) == "" || i < 0 then None
    else
      match PyInt(line[i + 1..])
      case Some(n) => Some(Entry(line[..i], n))
      case None => None
  }

  /** A later line for the same stack replaces an earlier one. */
  function Replace(m: map<string, int>, r: Option<Entry>): map<string, int> {
    match r
    case Some(e) => m[e.stack := e.count]
    case None => m
  }

  function ReplaceAll(parse: string -> Option<Entry>, lines: seq<string>): map<string, int> {
    if lines == [] then map[] else Replace(ReplaceAll(parse, lines[..|lines| - 1]), parse(lines[|lines| - 1]))
  }

  function PyParse(text: string): map<string, int> {
    ReplaceAll(PyLine, Split(Trim(text, PySpace), '\n'))
  }

  lemma ReplaceAllSnoc(parse: string -> Option<Entry>, lines: seq<string>, i: nat)
    requires i < |lines|
    ensures ReplaceAll(parse, lines[..i + 1]) == Replace(ReplaceAll(parse, lines[..i]), parse(lines[i]))
  {
    assert lines[..i + 1][..i] == lines[..i];
  }

  method ParseCollapsed(text: string) returns (stacks: map<string, int>)
    ensures stacks == PyParse(text)
  {
    stacks := map[];
    var lines := Split(Trim(text, PySpace), '\n');
    for k := 0 to |lines|
      invariant stacks == ReplaceAll(PyLine, lines[..k])
    {
      var line := lines[k];
      ReplaceAllSnoc(PyLine, lines, k);
      if Trim(line, PySpace) == "" { continue; }
      var i := LastSpace(line);
      if i >= 0 {
        var stack, count := line[..i], PyInt(line[i + 1..]);
        if count.Some? { stacks := stacks[stack := count.value]; }
      }
    }
    TakeAll(lines);
  }

  // ---------- the server's parser ----------

  /** Two's-complement 64-bit wrap-around. */
  function Wrap64(n: int): (r: int)
    ensures -0x8000_0000_0000_0000 <= r < 0x8000_0000_0000_0000
    ensures -0x8000_0000_0000_0000 <= n < 0x8000_0000_0000_0000 ==> r == n
  {
    (n + 0x8000_0000_0000_0000) % 0x1_0000_0000_0000_0000 - 0x8000_0000_0000_0000
  }

  function WrappedValue(digits: string): int
    requires AllDigits(digits)
  {
    if digits == "" then 0
    else Wrap64(WrappedValue(digits[..|digits| - 1]) * 10 + DigitValue(digits[|digits| - 1]))
  }

  lemma {:induction false} SmallValueDoesNotWrap(s: string)
    requires AllDigits(s) && DecimalValue(s) < 0x8000_0000_0000_0000
    ensures WrappedValue(s) == DecimalValue(s)
  {
    if s != "" { SmallValueDoesNotWrap(s[..|s| - 1]); }
  }

  lemma WrapShift(n: int, k: int)
    ensures Wrap64(n + 0x1_0000_0000_0000_0000 * k) == Wrap64(n)
  {
  }

  lemma WrapApart(n: int) returns (k: int)
    ensures n == Wrap64(n) + 0x1_0000_0000_0000_0000 * k
  {
    k := (n + 0x8000_0000_0000_0000) / 0x1_0000_0000_0000_0000;
  }

  /** Wrapping at every digit is wrapping once at the end. */
  lemma {:induction false} WrappedIsWrap(s: string)
    requires AllDigits(s)
    ensures WrappedValue(s) == Wrap64(DecimalValue(s))
  {
    if s != "" {
      var n := |s| - 1;
      var a, d := DecimalValue(s[..n]), DigitValue(s[n]);
      WrappedIsWrap(s[..n]);
      var k := WrapApart(a);
      WrapShift(Wrap64(a) * 10 + d, 10 * k);
      assert a * 10 + d == Wrap64(a) * 10 + d + 0x1_0000_0000_0000_0000 * (10 * k);
    }
  }

  lemma WrapNegated(n: int)
    ensures Wrap64(-Wrap64(n)) == Wrap64(-n)
  {
    var k := WrapApart(n);
    WrapShift(-n, k);
  }

  function GoInt(s: string): int {
    var t := Trim(s, GoSpace);
    if t == "" then 0
    else if t[0] == '-' then Wrap64(-WrappedValue(DigitPrefix(t[1..])))
    else WrappedValue(DigitPrefix(t))
  }

  /** The number read is the one written, reduced to 64 bits. */
  lemma GoIntIsWrapped(s: string)
    ensures var t := Trim(s, GoSpace);
      GoInt(s) ==
        if t == "" then 0
        else if t[0] == '-' then Wrap64(-(DecimalValue(DigitPrefix(t[1..])) as int))
        else Wrap64(DecimalValue(DigitPrefix(t)))
  {
    var t := Trim(s, GoSpace);
    if t != "" && t[0] == '-' {
      WrappedIsWrap(DigitPrefix(t[1..]));
      WrapNegated(DecimalValue(DigitPrefix(t[1..])));
    } else if t != "" {
      WrappedIsWrap(DigitPrefix(t));
    }
  }

  lemma {:induction false} DigitPrefixAt(s: string, i: nat)
    requires i <= |s| && AllDigits(s[..i]) && (i < |s| ==> !IsDigit(s[i]))
    ensures DigitPrefix(s) == s[..i]
  {
    if i > 0 {
      assert s[..i][0] == s[0] && s[1..][..i - 1] == s[..i][1..];
      DigitPrefixAt(s[1..], i - 1);
    }
  }

  lemma OneMoreDigit(s: string, i: nat)
    requires i < |s| && AllDigits(s[..i]) && IsDigit(s[i])
    ensures AllDigits(s[..i + 1])
    ensures WrappedValue(s[..i + 1]) == Wrap64(WrappedValue(s[..i]) * 10 + DigitValue(s[i]))
  {
    assert s[..i + 1][..i] == s[..i];
  }

  /** The loop over the characters, up to the first that is no digit. */
  method ReadDigits(s: string) returns (n: int)
    ensures n == WrappedValue(DigitPrefix(s))
  {
    n := 0;
    var i := 0;
    while i < |s| && IsDigit(s[i])
      invariant 0 <= i <= |s| && AllDigits(s[..i]) && n == WrappedValue(s[..i])
    {
      OneMoreDigit(s, i);
      n := Wrap64(n * 10 + DigitValue(s[i]));
      i := i + 1;
    }
    DigitPrefixAt(s, i);
  }

  /** Read an optional minus sign and digits. */
  method ParseInt64(text: string) returns (r: int)
    ensures r == GoInt(text)
  {
    var s := Trim(text, GoSpace);
    if s == "" { return 0; }
    var negative := s[0] == '-';
    if negative { s := s[1..]; }
    var n := ReadDigits(s);
    return if negative then Wrap64(-n) else n;
  }

  function GoLine(text: string): Option<Entry> {
    CutLine(Trim(text, GoSpace))
  }

  /** A trimmed line, cut at its last space. */
  function CutLine(line: string): Option<Entry> {
    var i := LastSpace(line);
    if i <= 0 then None else PositiveEntry(line[..i], GoInt(line[i + 1..]))
  }

  function PositiveEntry(stack: string, count: int): Option<Entry> {
    if count > 0 then Some(Entry(stack, count)) else None
  }

  /** A parsed stack is not empty, starts with no white space, and is part of the line. */
  lemma GoLineStack(text: string)
    requires GoLine(text).Some?
    ensures var e := GoLine(text).value; e.count > 0 && e.stack != "" && !GoSpace(e.stack[0])
    ensures forall c :: c in GoLine(text).value.stack ==> c in text
  {
    TrimPart(text, GoSpace);
    assert GoLine(text).value.stack <= Trim(text, GoSpace);
  }

  function Get(m: map<string, int>, k: string): int {
    if k in m then m[k] else 0
  }

  /** Lines for the same stack add up. */
  function Accumulate(m: map<string, int>, r: Option<Entry>): map<string, int> {
    match r
    case Some(e) => m[e.stack := Wrap64(Get(m, e.stack) + e.count)]
    case None => m
  }

  function AccumulateAll(parse: string -> Option<Entry>, lines: seq<string>): map<string, int> {
    if lines == [] then map[] else Accumulate(AccumulateAll(parse, lines[..|lines| - 1]), parse(lines[|lines| - 1]))
  }

  function GoParse(text: string): map<string, int> {
    AccumulateAll(GoLine, Split(text, '\n'))
  }

  lemma AccumulateAllSnoc(parse: string -> Option<Entry>, lines: seq<string>, i: nat)
    requires i < |lines|
    ensures AccumulateAll(parse, lines[..i + 1]) == Accumulate(AccumulateAll(parse, lines[..i]), parse(lines[i]))
  {
    assert lines[..i + 1][..i] == lines[..i];
  }

  method ParseLine(line: string) returns (r: Option<Entry>)
    ensures r == CutLine(line)
  {
    r := None;
    if line != "" {
      var lastSpace := LastSpace(line);
      if lastSpace > 0 {
        var count := ParseInt64(line[lastSpace + 1..]);
        r := PositiveEntry(line[..lastSpace], count);
      }
    }
  }

  method ParseFoldedStacks(text: string) returns (stacks: map<string, int>)
    ensures stacks == GoParse(text)
  {
    stacks := map[];
    var lines := Split(text, '\n');
    for k := 0 to |lines|
      invariant stacks == AccumulateAll(GoLine, lines[..k])
    {
      AccumulateAllSnoc(GoLine, lines, k);
      var e := ParseLine(Trim(lines[k], GoSpace));
      stacks := Accumulate(stacks, e);
    }
    TakeAll(lines);
  }
}
