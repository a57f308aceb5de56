/** Identifiers of continuous-profiling windows: `parent + "_w" + decimal`.
    drop_server takes them apart with `rfind` and `stoi`, the apiserver with a
    regular expression; both must undo what drop_server put together. */
module WindowId {
  import opened Text

  const INT32_MAX: int := 0x7fff_ffff
  const INT32_MIN: int := -0x8000_0000
  const MARK := "_w"

  function Make(parent: string, seqNo: int): string {
    parent + MARK + ToString(seqNo)
  }

  /** The text before the last "_w", when that mark is not at the very start. */
  function ParentOf(id: string): (r: Option<string>)
    ensures r.Some? ==> r.value != "" && r.value < id
  {
    var wpos := LastIndex(id, MARK);
    if wpos > 0 then Some(id[..wpos]) else None
  }

  predicate CSpace(c: char) { c == ' ' || '\t' <= c <= '\r' }

  function SkipSpace(s: string): string {
    if s != [] && CSpace(s[0]) then SkipSpace(s[1..]) else s
  }

  /** `std::stoi`: optional blanks and sign, then at least one digit; the digits
      may be followed by anything. None where it throws. */
  function Stoi(s: string): (r: Option<int>)
    ensures r.Some? ==> INT32_MIN <= r.value <= INT32_MAX
  {
    var t := SkipSpace(s);
    var signed := t != [] && (t[0] == '-' || t[0] == '+');
    var digits := DigitPrefix(if signed then t[1..] else t);
    if digits == [] then None
    else
      var v: int := DecimalValue(digits);
      var n := if signed && t[0] == '-' then -v else v;
      if INT32_MIN <= n <= INT32_MAX then Some(n) else None
  }

  /** The sequence number drop_server reads off a window id; 0 when `stoi` throws. */
  function SeqOf(id: string): (n: int)
    requires ParentOf(id).Some?
    ensures INT32_MIN <= n <= INT32_MAX
  {
    match Stoi(id[LastIndex(id, MARK) + 2..])
    case Some(n) => n
    case None => 0
  }

  /** What the pattern `^(.+)_w\d+$` accepts, `parent` being its group. */
  ghost predicate PatternMatches(id: string, parent: string) {
    parent != "" && '\n' !in parent &&
    exists digits: string ::
      digits != "" && AllDigits(digits) && id == parent + MARK + digits
  }

  /** The group captured by the pattern, found from the last mark. */
  function PatternGroup(id: string): Option<string> {
    var i := LastIndex(id, MARK);
    if i > 0 && i + 2 < |id| && AllDigits(id[i + 2..]) && '\n' !in id[..i]
    then Some(id[..i]) else None
  }

  lemma LastMark(parent: string, digits: string)
    requires forall i :: 0 <= i < |digits| ==> digits[i] != 'w'
    ensures LastIndex(parent + MARK + digits, MARK) == |parent|
  {
    var id := parent + MARK + digits;
    var k := |parent|;
    assert id[k..k + 2] == MARK;
    forall j | k < j ensures !OccursAt(id, MARK, j) {
      if j + 2 <= |id| {
        assert id[j..j + 2][1] == id[j + 1] == digits[j - k - 1];
        assert digits[j - k - 1] != 'w' == MARK[1];
      }
    }
    LastIndexIs(id, MARK, k);
  }

  lemma SkipSpaceOfDigits(s: string)
    requires AllDigits(s)
    ensures SkipSpace(s) == s
  {
    if s != [] { assert IsDigit(s[0]); }
  }

  lemma ParentOfMake(parent: string, n: int)
    requires parent != ""
    ensures ParentOf(Make(parent, n)) == Some(parent)
  {
    assert AllDigits(Decimal(if n < 0 then -n else n));
    LastMark(parent, ToString(n));
    assert Make(parent, n)[..|parent|] == parent;
  }

  lemma StoiOfDecimal(n: nat)
    ensures Stoi(Decimal(n)) == if n <= INT32_MAX then Some(n) else None
  {
    var d := Decimal(n);
    SkipSpaceOfDigits(d);
    DigitPrefixOfDigits(d);
    DecimalRoundTrip(n);
    assert IsDigit(d[0]);
  }

  /** White space of the C locale. */
  const BLANKS := {' ', '\t', '\n', '\U{B}', '\U{C}', '\r'}

  lemma {:induction false} SkipsBlanks(blanks: string, s: string)
    requires (forall c :: c in blanks ==> c in BLANKS) && (s == "" || s[0] !in BLANKS)
    ensures SkipSpace(blanks + s) == s
  {
    if blanks == "" {
      assert blanks + s == s;
    } else {
      assert blanks[0] in blanks && (blanks + s)[1..] == blanks[1..] + s;
      SkipsBlanks(blanks[1..], s);
    }
  }

  lemma {:induction false} DigitsThenRest(digits: string, rest: string)
    requires AllDigits(digits) && (rest == "" || !IsDigit(rest[0]))
    ensures DigitPrefix(digits + rest) == digits
  {
    if digits == "" {
      assert digits + rest == rest;
    } else {
      assert (digits + rest)[1..] == digits[1..] + rest;
      DigitsThenRest(digits[1..], rest);
    }
  }

  /** The pieces of a text that `stoi` looks at. */
  ghost predicate Number(blanks: string, sign: string, digits: string, rest: string) {
    && (forall c :: c in blanks ==> c in BLANKS) && sign in {"", "-", "+"} && AllDigits(digits)
    && (rest == "" || (!IsDigit(rest[0]) && (sign == digits == "" ==> rest[0] !in BLANKS && rest[0] != '-' && rest[0] != '+')))
  }

  lemma BehindBlanks(blanks: string, sign: string, digits: string, rest: string)
    requires Number(blanks, sign, digits, rest)
    ensures var t := sign + (digits + rest); SkipSpace(blanks + t) == t
  {
    var t := sign + (digits + rest);
    if digits != "" { assert IsDigit(digits[0]); }
    assert t == "" || t[0] == if sign != "" then sign[0] else if digits != "" then digits[0] else rest[0];
    SkipsBlanks(blanks, t);
  }

  lemma BehindSign(sign: string, digits: string, rest: string)
    requires Number("", sign, digits, rest)
    ensures var t := sign + (digits + rest);
      var signed := t != "" && (t[0] == '-' || t[0] == '+');
      (signed <==> sign != "") && DigitPrefix(if signed then t[1..] else t) == digits
  {
    var t := sign + (digits + rest);
    if digits != "" { assert IsDigit(digits[0]); }
    DigitsThenRest(digits, rest);
    if sign == "" { assert t == digits + rest; } else { assert t[0] == sign[0] && t[1..] == digits + rest; }
  }

  /** `stoi` reads a number behind blanks and a sign and before anything else; it throws if
      there is no digit or the number does not fit 32 bits. */
  lemma StoiReads(blanks: string, sign: string, digits: string, rest: string)
    requires Number(blanks, sign, digits, rest)
    ensures var v: int := DecimalValue(digits);
      var n := if sign == "-" then -v else v;
      Stoi(blanks + (sign + (digits + rest))) ==
        if digits != "" && -2_147_483_648 <= n <= 2_147_483_647 then Some(n) else None
  {
    var t := sign + (digits + rest);
    BehindBlanks(blanks, sign, digits, rest);
    BehindSign(sign, digits, rest);
    assert sign == "-" <==> sign != "" && t[0] == '-';
    StoiFrom(blanks + t, t, digits);
  }

  lemma StoiFrom(s: string, t: string, digits: string)
    requires SkipSpace(s) == t
    requires DigitPrefix(if t != "" && (t[0] == '-' || t[0] == '+') then t[1..] else t) == digits
    ensures var v: int := DecimalValue(digits);
      var n := if t != "" && t[0] == '-' then -v else v;
      Stoi(s) == if digits != "" && -2_147_483_648 <= n <= 2_147_483_647 then Some(n) else None
  {
  }

  /** drop_server recovers parent and number of every window id it makes with a
      32-bit number; past 32 bits `stoi` throws and the number is read as 0. */
  lemma ServerRoundTrip(parent: string, n: nat)
    requires parent != ""
    ensures ParentOf(Make(parent, n)) == Some(parent)
    ensures SeqOf(Make(parent, n)) == if n <= 2_147_483_647 then n else 0
  {
    ParentOfMake(parent, n);
    assert Make(parent, n)[|parent| + 2..] == Decimal(n);
    StoiOfDecimal(n);
  }

  /** Distinct (parent, number) pairs never share an id. */
  lemma MakeInjective(p: string, m: nat, q: string, n: nat)
    requires p != "" && q != ""
    requires Make(p, m) == Make(q, n)
    ensures p == q && m == n
  {
    ParentOfMake(p, m);
    ParentOfMake(q, n);
    assert Make(p, m)[|p| + 2..] == Decimal(m);
    assert Make(q, n)[|q| + 2..] == Decimal(n);
    DecimalRoundTrip(m);
    DecimalRoundTrip(n);
  }

  /** The pattern has at most one group per id, and it is the one at the last mark. */
  lemma PatternGroupCorrect(id: string, parent: string)
    ensures PatternMatches(id, parent) <==> PatternGroup(id) == Some(parent)
  {
    if PatternMatches(id, parent) {
      var digits: string :| digits != "" && AllDigits(digits) && id == parent + MARK + digits;
      LastMark(parent, digits);
      assert id[|parent| + 2..] == digits && id[..|parent|] == parent;
    }
    if PatternGroup(id) == Some(parent) {
      var i := LastIndex(id, MARK);
      assert id == parent + MARK + id[i + 2..];
    }
  }

  /** The apiserver reads the same parent as drop_server off every window id of a
      newline-free parent, and rejects the id exactly when the parent has a newline. */
  lemma ApiServerRoundTrip(parent: string, n: nat)
    requires parent != ""
    ensures PatternGroup(Make(parent, n)) == (if '\n' in parent then None else Some(parent))
  {
    var id, d := Make(parent, n), Decimal(n);
    LastMark(parent, d);
    assert id[|parent| + 2..] == d && id[..|parent|] == parent;
  }
}
