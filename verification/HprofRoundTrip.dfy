/** Decoding an encoded heap dump gives exactly what its records say. */
module HprofRoundTrip {
  import opened Text
  import opened HprofFormat
  import opened HprofDecode

  // ---------- what the records say ----------

  function FieldTags(fields: seq<FieldDecl>): seq<nat> {
    if fields == [] then [] else [TypeCode(fields[0].type_)] + FieldTags(fields[1..])
  }

  /** Bytes of all field values of an instance. */
  function FieldsWidth(fields: seq<FieldDecl>, w: nat): nat {
    if fields == [] then 0 else FieldsWidth(fields[..|fields| - 1], w) + Width(fields[|fields| - 1].type_, w)
  }

  /** An instance weighs its data, its class id and four bytes; an array its elements as they
      are written, and 16 bytes. */
  function SubEvent(s: Sub, w: nat): Event {
    match s
    case Root(_, _) => RootEvent
    case ClassDump(id, _, _, _, _, _, fields) => ClassEvent(id, FieldTags(fields), FieldsWidth(fields, w))
    case InstanceDump(_, _, classId, data) => InstanceEvent(classId, |data| + w + 4)
    case ObjArrayDump(_, _, _, refs) => ArrayEvent(ArrayInfo(0, |refs|, |EncodeElements(refs, w)| + 16))
    case PrimArrayDump(_, _, type_, elements) =>
      ArrayEvent(ArrayInfo(TypeCode(type_), |elements|, |EncodeElements(elements, Width(type_, w))| + 16))
  }

  function SubEvents(subs: seq<Sub>, w: nat): (r: seq<Event>)
    ensures |r| == |subs|
  {
    seq(|subs|, i requires 0 <= i < |subs| => SubEvent(subs[i], w))
  }

  function BodyEvents(b: Body, w: nat): seq<Event> {
    match b
    case Utf8(id, text) => [TextEvent(id, text)]
    case LoadClass(_, classId, _, nameId) => [LoadEvent(classId, nameId)]
    case HeapDump(_, subs) => SubEvents(subs, w)
    case Other(_, _) => []
  }

  /** All events of a file, in order. */
  function Events(rs: seq<Record>, w: nat): seq<Event> {
    if rs == [] then [] else BodyEvents(rs[0].body, w) + Events(rs[1..], w)
  }

  // ---------- pieces ----------

  lemma CutExact(a: Bytes, rest: Bytes)
    ensures Cut(a + rest, |a|) == Some(Got(a, rest))
  {
    TakeDropSlices(a + rest, |a|);
  }

  /** A number that is passed over, in front of `rest`. */
  lemma SkipNumber(v: nat, w: nat, rest: Bytes)
    ensures Cut(BigEndian(v, w) + rest, w) == Some(Got(BigEndian(v, w), rest))
  {
    CutExact(BigEndian(v, w), rest);
  }

  /** A number of `w` bytes in front of `rest`. */
  lemma CutNumber(v: nat, w: nat, rest: Bytes)
    ensures Cut(BigEndian(v, w) + rest, w) == Some(Got(BigEndian(v, w), rest))
    ensures v < Pow256(w) ==> Value(BigEndian(v, w)) == v
  {
    CutExact(BigEndian(v, w), rest);
    if v < Pow256(w) { NumberRoundTrip(v, w); }
  }

  // ---------- types ----------

  /** The parser's table has the width of every type. */
  lemma TypeSizes(t: JavaType, w: nat)
    ensures TypeOk(t) ==> TypeCode(t) < 0x100 && ValueSize(TypeCode(t), w) == Width(t, w)
    ensures ElementTypeOk(t) ==> TypeCode(t) < 0x100 && PrimSize(TypeCode(t)) == Width(t, w)
  {
  }

  lemma {:induction false} ElementsSize(elements: seq<nat>, width: nat)
    ensures |EncodeElements(elements, width)| == |elements| * width
  {
    if elements != [] { ElementsSize(elements[1..], width); }
  }

  /** What arrays of `n` elements weigh, type by type. */
  lemma ArrayWeights(s: Sub, w: nat)
    requires s.PrimArrayDump?
    ensures var n := |s.elements|;
      SubEvent(s, w).info.size == match s.type_
        case BooleanType => n + 16 case ByteType => n + 16
        case CharType => 2 * n + 16 case ShortType => 2 * n + 16
        case IntType => 4 * n + 16 case FloatType => 4 * n + 16
        case LongType => 8 * n + 16 case DoubleType => 8 * n + 16
        case ObjectType => w * n + 16
        case Unlisted(_) => 16
  {
    ElementsSize(s.elements, Width(s.type_, w));
  }

  lemma {:induction false} FieldTagsSnoc(fields: seq<FieldDecl>, f: FieldDecl)
    ensures FieldTags(fields + [f]) == FieldTags(fields) + [TypeCode(f.type_)]
  {
    if fields != [] {
      assert (fields + [f])[1..] == fields[1..] + [f];
      FieldTagsSnoc(fields[1..], f);
    }
  }

  lemma {:induction false} FieldsSizeIsWidth(fields: seq<FieldDecl>, w: nat)
    requires forall i :: 0 <= i < |fields| ==> TypeOk(fields[i].type_)
    ensures FieldsSize(FieldTags(fields), w) == FieldsWidth(fields, w)
  {
    if fields != [] {
      var n := |fields| - 1;
      FieldsSizeIsWidth(fields[..n], w);
      FieldTagsSnoc(fields[..n], fields[n]);
      assert fields == fields[..n] + [fields[n]];
      var tags := FieldTags(fields[..n]);
      assert (tags + [TypeCode(fields[n].type_)])[..|tags|] == tags;
      TypeSizes(fields[n].type_, w);
    }
  }

  // ---------- tables ----------

  lemma SlotOf(s: Slot, lead: nat, w: nat, rest: Bytes)
    requires TypeOk(s.type_)
    ensures CutSlot(BigEndian(s.lead, lead) + (BigEndian(TypeCode(s.type_), 1) + (EncodeValue(s, w) + rest)), lead, w) == Some(rest)
  {
    Pow256Values();
    TypeSizes(s.type_, w);
    SkipNumber(s.lead, lead, BigEndian(TypeCode(s.type_), 1) + (EncodeValue(s, w) + rest));
    CutNumber(TypeCode(s.type_), 1, EncodeValue(s, w) + rest);
    CutExact(EncodeValue(s, w), rest);
  }

  lemma {:induction false} SlotsOf(slots: seq<Slot>, lead: nat, w: nat, rest: Bytes)
    requires forall i :: 0 <= i < |slots| ==> TypeOk(slots[i].type_)
    ensures CutSlots(EncodeSlots(slots, lead, w, rest), lead, w, |slots|) == Some(rest)
    decreases |slots|
  {
    if slots != [] {
      SlotsOf(slots[1..], lead, w, rest);
      SlotOf(slots[0], lead, w, EncodeSlots(slots[1..], lead, w, rest));
    }
  }

  /** A table is passed over to the last byte of its last value. */
  lemma TableOf(slots: seq<Slot>, lead: nat, w: nat, rest: Bytes)
    requires SlotsOk(slots)
    ensures CutTable(BigEndian(|slots|, 2) + EncodeSlots(slots, lead, w, rest), lead, w) == Some(rest)
  {
    Pow256Values();
    CutNumber(|slots|, 2, EncodeSlots(slots, lead, w, rest));
    SlotsOf(slots, lead, w, rest);
  }

  lemma FieldStep(f: FieldDecl, w: nat, n: nat, before: seq<nat>, more: Bytes)
    requires TypeOk(f.type_)
    ensures CutFields(BigEndian(f.nameId, w) + (BigEndian(TypeCode(f.type_), 1) + more), w, n + 1, before) ==
      CutFields(more, w, n, before + [TypeCode(f.type_)])
  {
    Pow256Values();
    TypeSizes(f.type_, w);
    SkipNumber(f.nameId, w, BigEndian(TypeCode(f.type_), 1) + more);
    CutNumber(TypeCode(f.type_), 1, more);
  }

  lemma FieldsStep(fields: seq<FieldDecl>, w: nat, before: seq<nat>, rest: Bytes)
    requires fields != [] && TypeOk(fields[0].type_)
    ensures CutFields(EncodeFields(fields, w, rest), w, |fields|, before) ==
      CutFields(EncodeFields(fields[1..], w, rest), w, |fields| - 1, before + [TypeCode(fields[0].type_)])
  {
    FieldStep(fields[0], w, |fields| - 1, before, EncodeFields(fields[1..], w, rest));
  }

  lemma {:induction false} FieldsOf(fields: seq<FieldDecl>, w: nat, before: seq<nat>, rest: Bytes)
    requires forall i :: 0 <= i < |fields| ==> TypeOk(fields[i].type_)
    ensures CutFields(EncodeFields(fields, w, rest), w, |fields|, before) == Some(Got(before + FieldTags(fields), rest))
    decreases |fields|
  {
    if fields == [] {
      assert before + FieldTags(fields) == before;
    } else {
      var t := TypeCode(fields[0].type_);
      FieldsStep(fields, w, before, rest);
      FieldsOf(fields[1..], w, before + [t], rest);
      Assoc(before, [t], FieldTags(fields[1..]));
    }
  }

  lemma MembersOf(pool: seq<Slot>, statics: seq<Slot>, fields: seq<FieldDecl>, w: nat, rest: Bytes)
    requires SlotsOk(pool) && SlotsOk(statics) && FieldsOk(fields)
    ensures DecodeMembers(EncodeMembers(pool, statics, fields, w, rest), w) == Some(Got(FieldTags(fields), rest))
  {
    var c := BigEndian(|fields|, 2) + EncodeFields(fields, w, rest);
    var b := BigEndian(|statics|, 2) + EncodeSlots(statics, w, w, c);
    TableOf(pool, 2, w, b);
    TableOf(statics, w, w, c);
    Pow256Values();
    CutNumber(|fields|, 2, EncodeFields(fields, w, rest));
    FieldsOf(fields, w, [], rest);
    assert [] + FieldTags(fields) == FieldTags(fields);
  }

  // ---------- sub-records ----------

  function SubKind(s: Sub, w: nat): Kind {
    match s
    case Root(_, root) => RootKind(|EncodeRoot(root, w)|)
    case ClassDump(_, _, _, _, _, _, _) => ClassKind
    case InstanceDump(_, _, _, _) => InstanceKind
    case ObjArrayDump(_, _, _, _) => ObjArrayKind
    case PrimArrayDump(_, _, _, _) => PrimArrayKind
  }

  /** A sub-record is read back as what it says, and to its last byte. */
  ghost predicate ReadBack(s: Sub, w: nat, rest: Bytes) {
    DecodeSub(EncodeSubBody(s, w, rest), SubKind(s, w), w) == Some(Got(SubEvent(s, w), rest))
  }

  lemma ClassHeadOf(s: Sub, w: nat, members: Bytes)
    requires s.ClassDump? && SubOk(s, w)
    ensures CutClass(BigEndian(s.id, w) + (BigEndian(s.trace, 4) + (BigEndian(s.super, w) + (EncodeHead(s.head, w) + members))), w) ==
      Some(Got(s.id, members))
  {
    var head := EncodeHead(s.head, w);
    CutNumber(s.id, w, BigEndian(s.trace, 4) + (BigEndian(s.super, w) + (head + members)));
    SkipNumber(s.trace, 4, BigEndian(s.super, w) + (head + members));
    SkipNumber(s.super, w, head + members);
    CutExact(head, members);
  }

  lemma ClassOfDump(s: Sub, w: nat, rest: Bytes)
    requires s.ClassDump? && SubOk(s, w)
    ensures ReadBack(s, w, rest)
  {
    ClassHeadOf(s, w, EncodeMembers(s.pool, s.statics, s.fields, w, rest));
    MembersOf(s.pool, s.statics, s.fields, w, rest);
    FieldsSizeIsWidth(s.fields, w);
  }

  lemma ObjectOf(id: nat, trace: nat, w: nat, rest: Bytes)
    ensures CutObject(BigEndian(id, w) + (BigEndian(trace, 4) + rest), w) == Some(rest)
  {
    SkipNumber(id, w, BigEndian(trace, 4) + rest);
    SkipNumber(trace, 4, rest);
  }

  lemma InstanceOfDump(s: Sub, w: nat, rest: Bytes)
    requires s.InstanceDump? && SubOk(s, w)
    ensures ReadBack(s, w, rest)
  {
    ObjectOf(s.id, s.trace, w, BigEndian(s.classId, w) + (BigEndian(|s.data|, 4) + (s.data + rest)));
    Pow256Values();
    NumberRoundTrip(|s.data|, 4);
    NumberRoundTrip(s.classId, w);
    InstanceBodyOf(BigEndian(s.classId, w), BigEndian(|s.data|, 4), s.data, w, rest);
  }

  lemma InstanceBodyOf(classId: Bytes, n: Bytes, data: Bytes, w: nat, rest: Bytes)
    requires |classId| == w && |n| == 4 && Value(n) == |data|
    ensures DecodeInstanceBody(classId + (n + (data + rest)), w) ==
      Some(Got(InstanceEvent(Value(classId), |data| + w + 4), rest))
  {
    CutExact(data, rest);
    CutExact(n, data + rest);
    CutExact(classId, n + (data + rest));
  }

  lemma ObjArrayOfDump(s: Sub, w: nat, rest: Bytes)
    requires s.ObjArrayDump? && SubOk(s, w)
    ensures ReadBack(s, w, rest)
  {
    var refs := EncodeElements(s.refs, w);
    Pow256Values();
    ElementsSize(s.refs, w);
    ObjectOf(s.id, s.trace, w, BigEndian(|s.refs|, 4) + (BigEndian(s.classId, w) + (refs + rest)));
    CutNumber(|s.refs|, 4, BigEndian(s.classId, w) + (refs + rest));
    SkipNumber(s.classId, w, refs + rest);
    CutExact(refs, rest);
  }

  lemma PrimArrayOfDump(s: Sub, w: nat, rest: Bytes)
    requires s.PrimArrayDump? && SubOk(s, w)
    ensures ReadBack(s, w, rest)
  {
    var data, code := EncodeElements(s.elements, Width(s.type_, w)), TypeCode(s.type_);
    Pow256Values();
    TypeSizes(s.type_, w);
    ElementsSize(s.elements, Width(s.type_, w));
    ObjectOf(s.id, s.trace, w, BigEndian(|s.elements|, 4) + (BigEndian(code, 1) + (data + rest)));
    CutNumber(|s.elements|, 4, BigEndian(code, 1) + (data + rest));
    CutNumber(code, 1, data + rest);
    CutExact(data, rest);
  }

  lemma RootOfDump(s: Sub, w: nat, rest: Bytes)
    requires s.Root?
    ensures ReadBack(s, w, rest)
  {
    SkipNumber(s.obj, w, EncodeRoot(s.root, w) + rest);
    CutExact(EncodeRoot(s.root, w), rest);
  }

  /** The tag makes the parser expect exactly what is written behind it. */
  lemma TagSelects(s: Sub, w: nat)
    ensures SubTag(s) < 0x100 && KindOf(SubTag(s), w) == Some(SubKind(s, w))
  {
  }

  lemma SubRoundTrip(s: Sub, w: nat, rest: Bytes)
    requires SubOk(s, w)
    ensures ReadBack(s, w, rest)
  {
    match s {
      case Root(_, _) => RootOfDump(s, w, rest);
      case ClassDump(_, _, _, _, _, _, _) => ClassOfDump(s, w, rest);
      case InstanceDump(_, _, _, _) => InstanceOfDump(s, w, rest);
      case ObjArrayDump(_, _, _, _) => ObjArrayOfDump(s, w, rest);
      case PrimArrayDump(_, _, _, _) => PrimArrayOfDump(s, w, rest);
    }
  }

  lemma FirstByte(v: nat, rest: Bytes)
    requires v < 0x100
    ensures (BigEndian(v, 1) + rest)[0] == v && (BigEndian(v, 1) + rest)[1..] == rest
  {
    assert BigEndian(v, 1) == [v];
  }

  lemma {:induction false} SubsSize(subs: seq<Sub>, w: nat, rest: Bytes)
    ensures |EncodeSubs(subs, w, rest)| == |EncodeSubs(subs, w, [])| + |rest|
    decreases |subs|
  {
    if subs != [] {
      SubsSize(subs[1..], w, rest);
      SubSize(subs[0], w, EncodeSubs(subs[1..], w, rest));
      SubSize(subs[0], w, EncodeSubs(subs[1..], w, []));
    }
  }

  lemma SubSize(s: Sub, w: nat, rest: Bytes)
    ensures |EncodeSubBody(s, w, rest)| == |EncodeSubBody(s, w, [])| + |rest|
  {
    match s {
      case Root(_, _) =>
      case ClassDump(_, _, _, _, pool, statics, fields) => MembersSize(pool, statics, fields, w, rest);
      case InstanceDump(_, _, _, _) =>
      case ObjArrayDump(_, _, _, _) =>
      case PrimArrayDump(_, _, _, _) =>
    }
  }

  lemma MembersSize(pool: seq<Slot>, statics: seq<Slot>, fields: seq<FieldDecl>, w: nat, rest: Bytes)
    ensures |EncodeMembers(pool, statics, fields, w, rest)| == |EncodeMembers(pool, statics, fields, w, [])| + |rest|
  {
    var c, c' := BigEndian(|fields|, 2) + EncodeFields(fields, w, rest), BigEndian(|fields|, 2) + EncodeFields(fields, w, []);
    FieldsSizeOf(fields, w, rest);
    SlotsSize(statics, w, w, c);
    SlotsSize(statics, w, w, c');
    SlotsSize(pool, 2, w, BigEndian(|statics|, 2) + EncodeSlots(statics, w, w, c));
    SlotsSize(pool, 2, w, BigEndian(|statics|, 2) + EncodeSlots(statics, w, w, c'));
  }

  lemma {:induction false} SlotsSize(slots: seq<Slot>, lead: nat, w: nat, rest: Bytes)
    ensures |EncodeSlots(slots, lead, w, rest)| == |EncodeSlots(slots, lead, w, [])| + |rest|
    decreases |slots|
  {
    if slots != [] { SlotsSize(slots[1..], lead, w, rest); }
  }

  lemma {:induction false} FieldsSizeOf(fields: seq<FieldDecl>, w: nat, rest: Bytes)
    ensures |EncodeFields(fields, w, rest)| == |EncodeFields(fields, w, [])| + |rest|
    decreases |fields|
  {
    if fields != [] { FieldsSizeOf(fields[1..], w, rest); }
  }

  lemma SubStep(s: Sub, w: nat, more: Bytes, stop: int, h: Heap)
    requires SubOk(s, w) && stop <= |more|
    ensures DecodeSubs(BigEndian(SubTag(s), 1) + EncodeSubBody(s, w, more), stop, w, h) ==
      DecodeSubs(more, stop, w, Apply(h, SubEvent(s, w)))
  {
    TagSelects(s, w);
    FirstByte(SubTag(s), EncodeSubBody(s, w, more));
    SubSize(s, w, more);
    SubRoundTrip(s, w, more);
  }

  lemma {:induction false} SubsOf(subs: seq<Sub>, w: nat, h: Heap, rest: Bytes)
    requires forall i :: 0 <= i < |subs| ==> SubOk(subs[i], w)
    ensures DecodeSubs(EncodeSubs(subs, w, rest), |rest|, w, h) == Some(Got(ApplyAll(h, SubEvents(subs, w)), rest))
    decreases |subs|
  {
    if subs != [] {
      SubsSize(subs[1..], w, rest);
      SubStep(subs[0], w, EncodeSubs(subs[1..], w, rest), |rest|, h);
      SubsOf(subs[1..], w, Apply(h, SubEvent(subs[0], w)), rest);
      assert SubEvents(subs, w)[1..] == SubEvents(subs[1..], w);
    }
  }

  // ---------- records ----------

  lemma Wrapless(n: nat)
    requires n < 0x1_0000_0000
    ensures n % 0x1_0000_0000 == n
  {
  }

  lemma TextOfRecord(id: nat, text: Bytes, w: nat, rest: Bytes)
    requires id < Pow256(w) && w + |text| < 0x1_0000_0000
    ensures DecodeText(BigEndian(id, w) + (text + rest), w, w + |text|) == Some(Got(TextEvent(id, text), rest))
  {
    Wrapless(|text|);
    assert w + |text| - w == |text|;
    CutNumber(id, w, text + rest);
    CutExact(text, rest);
  }

  lemma LoadOfRecord(b: Body, w: nat, rest: Bytes)
    requires b.LoadClass? && BodyOk(b, w)
    ensures DecodeLoad(EncodeBody(b, w, rest), w) == Some(Got(LoadEvent(b.classId, b.nameId), rest))
  {
    var name := BigEndian(b.nameId, w) + rest;
    SkipNumber(b.serial, 4, BigEndian(b.classId, w) + (BigEndian(b.trace, 4) + name));
    CutNumber(b.classId, w, BigEndian(b.trace, 4) + name);
    SkipNumber(b.trace, 4, name);
    CutNumber(b.nameId, w, rest);
  }

  lemma ApplyOne(h: Heap, e: Event)
    ensures ApplyAll(h, [e]) == Apply(h, e)
  {
    assert [e][1..] == [];
  }

  lemma BodyRoundTrip(b: Body, w: nat, h: Heap, rest: Bytes)
    requires BodyOk(b, w)
    ensures DecodeBody(EncodeBody(b, w, rest), BodyTag(b), BodySize(b, w), w, h) ==
      Some(Got(ApplyAll(h, BodyEvents(b, w)), rest))
  {
    match b {
      case Utf8(id, text) =>
        TextOfRecord(id, text, w, rest);
        ApplyOne(h, TextEvent(id, text));
      case LoadClass(_, classId, _, nameId) =>
        LoadOfRecord(b, w, rest);
        ApplyOne(h, LoadEvent(classId, nameId));
      case HeapDump(_, subs) =>
        SubsSize(subs, w, rest);
        SubsOf(subs, w, h, rest);
      case Other(_, body) =>
        assert body + [] == body;
        CutExact(body, rest);
    }
  }

  lemma {:induction false} RecordsOf(rs: seq<Record>, w: nat, h: Heap)
    requires forall i :: 0 <= i < |rs| ==> BodyOk(rs[i].body, w)
    ensures DecodeRecords(EncodeRecords(rs, w), w, h) == Some(ApplyAll(h, Events(rs, w)))
    decreases |rs|
  {
    if rs != [] {
      var r, es, more := rs[0], BodyEvents(rs[0].body, w), EncodeRecords(rs[1..], w);
      var body, n := EncodeBody(r.body, w, more), BodySize(r.body, w);
      Pow256Values();
      FirstByte(BodyTag(r.body), BigEndian(r.micros, 4) + (BigEndian(n, 4) + body));
      SkipNumber(r.micros, 4, BigEndian(n, 4) + body);
      CutNumber(n, 4, body);
      BodyRoundTrip(r.body, w, h, more);
      RecordsOf(rs[1..], w, ApplyAll(h, es));
      ApplyConcat(h, es, Events(rs[1..], w));
    }
  }

  // ---------- files ----------

  lemma {:induction false} TitleOf(title: Bytes, n: nat, rest: Bytes)
    requires n + |title| <= 64 && 0 !in title
    ensures CutTitle(title + ([0] + rest), n) == Some(rest)
    decreases |title|
  {
    var s := title + ([0] + rest);
    if title == [] {
      assert s == [0] + rest;
    } else {
      assert s[1..] == title[1..] + ([0] + rest);
      TitleOf(title[1..], n + 1, rest);
    }
  }

  /** Parsing the encoding of any well-formed file succeeds and leaves the heap that its
      records describe. */
  lemma FileRoundTrip(f: File)
    requires FileOk(f)
    ensures Decode(EncodeFile(f)) == Some(Dump(f.w, ApplyAll(EMPTY, Events(f.records, f.w))))
  {
    var records := EncodeRecords(f.records, f.w);
    TitleOf(f.title, 0, BigEndian(f.w, 4) + (BigEndian(f.millis, 8) + records));
    Pow256Values();
    CutNumber(f.w, 4, BigEndian(f.millis, 8) + records);
    SkipNumber(f.millis, 8, records);
    RecordsOf(f.records, f.w, EMPTY);
  }
}
