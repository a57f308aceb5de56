/** String operations shared by the components: substring search, decimal
    numerals, splitting and joining on a separator character. */
module Text {

  datatype Option<+T> = None | Some(value: T) {
    predicate IsFailure() { None? }

    function PropagateFailure<U>(): Option<U>
      requires None?
    {
      None
    }

    function Extract(): T
      requires Some?
    {
      value
    }
  }

  lemma TakeSnoc<T>(s: seq<T>, i: nat)
    requires i < |s|
    ensures s[..i + 1] == s[..i] + [s[i]]
  {
  }

  lemma TakeAll<T>(s: seq<T>)
    ensures s[..|s|] == s
  {
  }

  lemma Assoc<T>(a: seq<T>, b: seq<T>, c: seq<T>)
    ensures (a + b) + c == a + (b + c)
  {
  }

  /** `pat` occurs in `s` at offset `i`. */
  predicate OccursAt(s: string, pat: string, i: int) {
    0 <= i && i + |pat| <= |s| && s[i..i + |pat|] == pat
  }

  ghost predicate Contains(s: string, pat: string) {
    exists i :: OccursAt(s, pat, i)
  }

  function LastIndexUpTo(s: string, pat: string, hi: int): (i: int)
    requires hi <= |s|
    ensures -1 <= i <= |s|
    ensures i >= 0 ==> OccursAt(s, pat, i)
    ensures forall j :: i < j <= hi ==> !OccursAt(s, pat, j)
    decreases hi + 1
  {
    if hi < 0 then -1
    else if OccursAt(s, pat, hi) then hi
    else LastIndexUpTo(s, pat, hi - 1)
  }

  /** Offset of the last occurrence of `pat` in `s`, or -1. */
  function LastIndex(s: string, pat: string): (i: int)
    ensures -1 <= i <= |s|
    ensures i >= 0 ==> OccursAt(s, pat, i)
    ensures forall j :: i < j ==> !OccursAt(s, pat, j)
  {
    LastIndexUpTo(s, pat, |s|)
  }

  function IndexFrom(s: string, c: char, lo: nat): (i: int)
    requires lo <= |s|
    ensures i == -1 || lo <= i < |s|
    ensures i >= 0 ==> s[i] == c
    ensures forall j :: lo <= j < (if i < 0 then |s| else i) ==> s[j] != c
    decreases |s| - lo
  {
    if lo == |s| then -1 else if s[lo] == c then lo else IndexFrom(s, c, lo + 1)
  }

  /** Offset of the first `c` in `s`, or -1. */
  function Index(s: string, c: char): (i: int)
    ensures i == -1 || 0 <= i < |s|
    ensures i >= 0 ==> s[i] == c && c !in s[..i]
    ensures i < 0 ==> c !in s
  {
    IndexFrom(s, c, 0)
  }

  /** The last occurrence is the only offset with an occurrence there and none after it. */
  lemma LastIndexIs(s: string, pat: string, i: int)
    requires OccursAt(s, pat, i)
    requires forall j :: i < j ==> !OccursAt(s, pat, j)
    ensures LastIndex(s, pat) == i
  {
    assert LastIndex(s, pat) >= i;
  }

  // ---------- decimal numerals ----------

  predicate IsDigit(c: char) { '0' <= c <= '9' }

  predicate AllDigits(s: string) { forall i :: 0 <= i < |s| ==> IsDigit(s[i]) }

  function DigitChar(d: nat): (c: char)
    requires d < 10
    ensures IsDigit(c) && c as int - '0' as int == d
  {
    ('0' as int + d) as char
  }

  function DigitValue(c: char): (d: nat)
    requires IsDigit(c)
    ensures d < 10
  {
    c as int - '0' as int
  }

  /** Decimal numeral of `n`, without leading zeros. */
  function Decimal(n: nat): (s: string)
    ensures |s| >= 1 && AllDigits(s)
  {
    if n < 10 then [DigitChar(n)] else Decimal(n / 10) + [DigitChar(n % 10)]
  }

  /** The value of a digit string, read left to right. */
  function DecimalValue(s: string): nat
    requires AllDigits(s)
  {
    if s == [] then 0
    else DecimalValue(s[..|s| - 1]) * 10 + DigitValue(s[|s| - 1])
  }

  lemma {:induction false} DecimalRoundTrip(n: nat)
    ensures DecimalValue(Decimal(n)) == n
  {
    if n < 10 {
      assert Decimal(n)[..0] == [];
    } else {
      DecimalRoundTrip(n / 10);
      assert Decimal(n)[..|Decimal(n)| - 1] == Decimal(n / 10);
    }
  }

  /** `std::to_string`, `str(n)`: a minus sign and the numeral of the magnitude. */
  function ToString(n: int): (s: string)
    ensures |s| >= 1
  {
    if n < 0 then "-" + Decimal(-n) else Decimal(n)
  }

  /** The longest digit prefix. */
  function DigitPrefix(s: string): (p: string)
    ensures p <= s && AllDigits(p)
    ensures |p| < |s| ==> !IsDigit(s[|p|])
  {
    if s == [] || !IsDigit(s[0]) then [] else [s[0]] + DigitPrefix(s[1..])
  }

  lemma {:induction false} DigitPrefixOfDigits(s: string)
    requires AllDigits(s)
    ensures DigitPrefix(s) == s
  {
    if s != [] { DigitPrefixOfDigits(s[1..]); }
  }

  // ---------- split and join on one separator character ----------

  /** The pieces of `s` between occurrences of `sep`; always at least one piece. */
  function Split(s: string, sep: char): (r: seq<string>)
    ensures |r| >= 1
    ensures forall i :: 0 <= i < |r| ==> sep !in r[i]
    decreases |s|
  {
    var i := Index(s, sep);
    if i < 0 then [s] else [s[..i]] + Split(s[i + 1..], sep)
  }

  function Join(parts: seq<string>, sep: char): string
    requires |parts| >= 1
  {
    if |parts| == 1 then parts[0] else parts[0] + [sep] + Join(parts[1..], sep)
  }

  lemma {:induction false} JoinSplit(s: string, sep: char)
    ensures Join(Split(s, sep), sep) == s
    decreases |s|
  {
    var i := Index(s, sep);
    if i >= 0 {
      JoinSplit(s[i + 1..], sep);
      var rest := Split(s[i + 1..], sep);
      assert ([s[..i]] + rest)[1..] == rest;
      assert s == s[..i] + [sep] + s[i + 1..];
    }
  }

  lemma {:induction false} SplitJoin(parts: seq<string>, sep: char)
    requires |parts| >= 1
    requires forall i :: 0 <= i < |parts| ==> sep !in parts[i]
    ensures Split(Join(parts, sep), sep) == parts
  {
    var s := Join(parts, sep);
    var i := Index(s, sep);
    if |parts| == 1 {
      assert sep !in parts[0];
    } else {
      var k := |parts[0]|;
      assert s[k] == sep && s[..k] == parts[0];
      assert i == k by {
        assert forall j :: 0 <= j < k ==> s[j] == parts[0][j];
        assert i <= k;
      }
      assert s[..i] == parts[0] && s[i + 1..] == Join(parts[1..], sep);
      SplitJoin(parts[1..], sep);
    }
  }

  /** Joining separator-free pieces loses nothing. */
  lemma JoinInjective(a: seq<string>, b: seq<string>, sep: char)
    requires |a| >= 1 && |b| >= 1
    requires forall i :: 0 <= i < |a| ==> sep !in a[i]
    requires forall i :: 0 <= i < |b| ==> sep !in b[i]
    requires Join(a, sep) == Join(b, sep)
    ensures a == b
  {
    SplitJoin(a, sep);
    SplitJoin(b, sep);
  }

  lemma {:induction false} JoinSnoc(parts: seq<string>, last: string, sep: char)
    requires |parts| >= 1
    ensures Join(parts + [last], sep) == Join(parts, sep) + [sep] + last
  {
    var all := parts + [last];
    if |parts| == 1 {
      assert all[1..] == [last];
    } else {
      assert all[1..] == parts[1..] + [last];
      JoinSnoc(parts[1..], last, sep);
    }
  }

  // ---------- trimming ----------

  /** White space as Go's `unicode.IsSpace` sees it. */
  predicate GoSpace(c: char) {
    || '\t' <= c <= '\r' || c == ' ' || c == '\U{85}' || c == '\U{A0}' || c == '\U{1680}'
    || '\U{2000}' <= c <= '\U{200A}' || c == '\U{2028}' || c == '\U{2029}' || c == '\U{202F}'
    || c == '\U{205F}' || c == '\U{3000}'
  }

  /** White space as Python's `str.isspace` sees it: four separators more. */
  predicate PySpace(c: char) { GoSpace(c) || '\U{1C}' <= c <= '\U{1F}' }

  predicate Trimmed(s: string, space: char -> bool) {
    s == "" || (!space(s[0]) && !space(s[|s| - 1]))
  }

  function TrimLeft(s: string, space: char -> bool): (r: string)
    ensures s != "" && !space(s[0]) ==> r == s
  {
    if s != "" && space(s[0]) then TrimLeft(s[1..], space) else s
  }

  function TrimRight(s: string, space: char -> bool): (r: string)
    ensures s != "" && !space(s[|s| - 1]) ==> r == s
  {
    if s != "" && space(s[|s| - 1]) then TrimRight(s[..|s| - 1], space) else s
  }

  /** `s` without white space at either end. */
  function Trim(s: string, space: char -> bool): (r: string) {
    TrimRight(TrimLeft(s, space), space)
  }

  lemma {:induction false} TrimLeftPart(s: string, space: char -> bool)
    ensures var r := TrimLeft(s, space); |r| <= |s| && r == s[|s| - |r|..] && (r != "" ==> !space(r[0]))
  {
    if s != "" && space(s[0]) { TrimLeftPart(s[1..], space); }
  }

  lemma {:induction false} TrimRightPart(s: string, space: char -> bool)
    ensures var r := TrimRight(s, space); r <= s && (r != "" ==> !space(r[|r| - 1]))
  {
    if s != "" && space(s[|s| - 1]) { TrimRightPart(s[..|s| - 1], space); }
  }

  /** Trimming leaves a part of `s` with no white space at its ends. */
  lemma TrimPart(s: string, space: char -> bool)
    ensures var r := Trim(s, space); |r| <= |s| && Trimmed(r, space) && forall c :: c in r ==> c in s
  {
    TrimLeftPart(s, space);
    TrimRightPart(TrimLeft(s, space), space);
  }

  lemma TrimTrimmed(s: string, space: char -> bool)
    requires Trimmed(s, space)
    ensures Trim(s, space) == s
  {
  }
}
