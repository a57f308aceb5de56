/** The HPROF binary heap dump format ("JAVA PROFILE 1.0.1"): records, sub-records and
    their encoding. Identifiers have the width given in the file header. */
module HprofFormat {
  type Byte = b: int | 0 <= b < 256
  type Bytes = seq<Byte>

  // ---------- numbers ----------

  function Pow256(w: nat): (n: nat)
    ensures n > 0
  {
    if w == 0 then 1 else 256 * Pow256(w - 1)
  }

  /** `v` in `w` bytes, most significant first. */
  function BigEndian(v: nat, w: nat): (s: Bytes)
    ensures |s| == w
  {
    if w == 0 then [] else BigEndian(v / 256, w - 1) + [v % 256]
  }

  function Value(s: Bytes): nat {
    if s == [] then 0 else Value(s[..|s| - 1]) * 256 + s[|s| - 1]
  }

  lemma {:induction false} NumberRoundTrip(v: nat, w: nat)
    requires v < Pow256(w)
    ensures Value(BigEndian(v, w)) == v
  {
    if w > 0 {
      NumberRoundTrip(v / 256, w - 1);
      assert BigEndian(v, w)[..w - 1] == BigEndian(v / 256, w - 1);
    }
  }

  lemma Pow256Values()
    ensures Pow256(1) == 0x100 && Pow256(2) == 0x1_0000 && Pow256(4) == 0x1_0000_0000
  {
    assert Pow256(0) == 1 && Pow256(3) == 256 * Pow256(2);
  }

  // ---------- types ----------

  /** The type of a value, a field or an array element; `Unlisted` stands for a code that
      the format does not define. */
  datatype JavaType =
    | ObjectType | BooleanType | CharType | FloatType | DoubleType
    | ByteType | ShortType | IntType | LongType
    | Unlisted(code: nat)

  /** How the type is written. */
  function TypeCode(t: JavaType): nat {
    match t
    case ObjectType => 2
    case BooleanType => 4 case CharType => 5 case FloatType => 6 case DoubleType => 7
    case ByteType => 8 case ShortType => 9 case IntType => 10 case LongType => 11
    case Unlisted(code) => code
  }

  /** Bytes of a value of the type, where identifiers have `w` bytes; nothing is written
      for an undefined type. */
  function Width(t: JavaType, w: nat): nat {
    match t
    case ObjectType => w
    case BooleanType => 1 case ByteType => 1
    case CharType => 2 case ShortType => 2
    case IntType => 4 case FloatType => 4
    case LongType => 8 case DoubleType => 8
    case Unlisted(_) => 0
  }

  // ---------- records ----------

  /** A typed value behind a constant-pool index or a static field name. */
  datatype Slot = Slot(lead: nat, type_: JavaType, bits: nat)
  datatype FieldDecl = FieldDecl(nameId: nat, type_: JavaType)

  /** Why an object is a garbage-collection root. */
  datatype GcRoot =
    | UnknownRoot
    | JniGlobal(ref: nat)
    | JniLocal(thread: nat, frame: nat)
    | JavaFrame(thread: nat, frame: nat)
    | NativeStack(thread: nat)
    | StickyClass
    | ThreadBlock(thread: nat)
    | MonitorUsed
    | ThreadObject(thread: nat, trace: nat)

  /** What a class dump says besides ids and members. */
  datatype ClassHead = ClassHead(loader: nat, signers: nat, domain: nat, reserved1: nat, reserved2: nat, size: nat)

  datatype Sub =
    | Root(obj: nat, root: GcRoot)
    | ClassDump(id: nat, trace: nat, super: nat, head: ClassHead, pool: seq<Slot>, statics: seq<Slot>, fields: seq<FieldDecl>)
    | InstanceDump(id: nat, trace: nat, classId: nat, data: Bytes)
    | ObjArrayDump(id: nat, trace: nat, classId: nat, refs: seq<nat>)
    | PrimArrayDump(id: nat, trace: nat, type_: JavaType, elements: seq<nat>)

  datatype Body =
    | Utf8(id: nat, text: Bytes)
    | LoadClass(serial: nat, classId: nat, trace: nat, nameId: nat)
    | HeapDump(segment: bool, subs: seq<Sub>)
    | Other(tag: nat, body: Bytes)

  datatype Record = Record(micros: nat, body: Body)

  datatype File = File(title: Bytes, w: nat, millis: nat, records: seq<Record>)

  // ---------- encoding, in front of what follows ----------

  /** A slot's value as it is written. */
  function EncodeValue(s: Slot, w: nat): Bytes { BigEndian(s.bits, Width(s.type_, w)) }

  function EncodeSlots(slots: seq<Slot>, lead: nat, w: nat, rest: Bytes): Bytes {
    if slots == [] then rest
    else
      BigEndian(slots[0].lead, lead) + (BigEndian(TypeCode(slots[0].type_), 1) +
      (EncodeValue(slots[0], w) + EncodeSlots(slots[1..], lead, w, rest)))
  }

  function EncodeFields(fields: seq<FieldDecl>, w: nat, rest: Bytes): Bytes {
    if fields == [] then rest
    else BigEndian(fields[0].nameId, w) + (BigEndian(TypeCode(fields[0].type_), 1) + EncodeFields(fields[1..], w, rest))
  }

  function EncodeMembers(pool: seq<Slot>, statics: seq<Slot>, fields: seq<FieldDecl>, w: nat, rest: Bytes): Bytes {
    BigEndian(|pool|, 2) + EncodeSlots(pool, 2, w,
      BigEndian(|statics|, 2) + EncodeSlots(statics, w, w,
        BigEndian(|fields|, 2) + EncodeFields(fields, w, rest)))
  }

  /** Array elements of `width` bytes each. */
  function EncodeElements(elements: seq<nat>, width: nat): Bytes {
    if elements == [] then [] else BigEndian(elements[0], width) + EncodeElements(elements[1..], width)
  }

  function RootTag(r: GcRoot): nat {
    match r
    case UnknownRoot => 0xFF
    case JniGlobal(_) => 0x01 case JniLocal(_, _) => 0x02 case JavaFrame(_, _) => 0x03
    case NativeStack(_) => 0x04 case StickyClass => 0x05 case ThreadBlock(_) => 0x06
    case MonitorUsed => 0x07 case ThreadObject(_, _) => 0x08
  }

  /** What is written of a root behind the object's id. */
  function EncodeRoot(r: GcRoot, w: nat): Bytes {
    match r
    case UnknownRoot => []
    case JniGlobal(ref) => BigEndian(ref, w)
    case JniLocal(thread, frame) => BigEndian(thread, 4) + BigEndian(frame, 4)
    case JavaFrame(thread, frame) => BigEndian(thread, 4) + BigEndian(frame, 4)
    case NativeStack(thread) => BigEndian(thread, 4)
    case StickyClass => []
    case ThreadBlock(thread) => BigEndian(thread, 4)
    case MonitorUsed => []
    case ThreadObject(thread, trace) => BigEndian(thread, 4) + BigEndian(trace, 4)
  }

  function EncodeHead(h: ClassHead, w: nat): Bytes {
    BigEndian(h.loader, w) + BigEndian(h.signers, w) + BigEndian(h.domain, w) +
    BigEndian(h.reserved1, w) + BigEndian(h.reserved2, w) + BigEndian(h.size, 4)
  }

  function SubTag(s: Sub): nat {
    match s
    case Root(_, root) => RootTag(root)
    case ClassDump(_, _, _, _, _, _, _) => 0x20
    case InstanceDump(_, _, _, _) => 0x21
    case ObjArrayDump(_, _, _, _) => 0x22
    case PrimArrayDump(_, _, _, _) => 0x23
  }

  function EncodeSubBody(s: Sub, w: nat, rest: Bytes): Bytes {
    match s
    case Root(obj, root) => BigEndian(obj, w) + (EncodeRoot(root, w) + rest)
    case ClassDump(id, trace, super, head, pool, statics, fields) =>
      BigEndian(id, w) + (BigEndian(trace, 4) + (BigEndian(super, w) +
      (EncodeHead(head, w) + EncodeMembers(pool, statics, fields, w, rest))))
    case InstanceDump(id, trace, classId, data) =>
      BigEndian(id, w) + (BigEndian(trace, 4) + (BigEndian(classId, w) + (BigEndian(|data|, 4) + (data + rest))))
    case ObjArrayDump(id, trace, classId, refs) =>
      BigEndian(id, w) + (BigEndian(trace, 4) + (BigEndian(|refs|, 4) + (BigEndian(classId, w) + (EncodeElements(refs, w) + rest))))
    case PrimArrayDump(id, trace, type_, elements) =>
      BigEndian(id, w) + (BigEndian(trace, 4) + (BigEndian(|elements|, 4) + (BigEndian(TypeCode(type_), 1) +
      (EncodeElements(elements, Width(type_, w)) + rest))))
  }

  function EncodeSubs(subs: seq<Sub>, w: nat, rest: Bytes): Bytes {
    if subs == [] then rest
    else BigEndian(SubTag(subs[0]), 1) + EncodeSubBody(subs[0], w, EncodeSubs(subs[1..], w, rest))
  }

  function BodyTag(b: Body): nat {
    match b
    case Utf8(_, _) => 0x01
    case LoadClass(_, _, _, _) => 0x02
    case HeapDump(segment, _) => if segment then 0x1C else 0x0C
    case Other(tag, _) => tag
  }

  function EncodeBody(b: Body, w: nat, rest: Bytes): Bytes {
    match b
    case Utf8(id, text) => BigEndian(id, w) + (text + rest)
    case LoadClass(serial, classId, trace, nameId) =>
      BigEndian(serial, 4) + (BigEndian(classId, w) + (BigEndian(trace, 4) + (BigEndian(nameId, w) + rest)))
    case HeapDump(_, subs) => EncodeSubs(subs, w, rest)
    case Other(_, body) => body + rest
  }

  /** The length a record announces. */
  function BodySize(b: Body, w: nat): nat { |EncodeBody(b, w, [])| }

  function EncodeRecords(rs: seq<Record>, w: nat): Bytes {
    if rs == [] then []
    else
      BigEndian(BodyTag(rs[0].body), 1) + (BigEndian(rs[0].micros, 4) + (BigEndian(BodySize(rs[0].body, w), 4) +
      EncodeBody(rs[0].body, w, EncodeRecords(rs[1..], w))))
  }

  function EncodeFile(f: File): Bytes {
    f.title + ([0] + (BigEndian(f.w, 4) + (BigEndian(f.millis, 8) + EncodeRecords(f.records, f.w))))
  }

  // ---------- well-formed files ----------

  /** An undefined type has a code of its own in one byte. */
  predicate TypeOk(t: JavaType) {
    t.Unlisted? ==> t.code < 0x100 && t.code != 2 && !(4 <= t.code <= 11)
  }

  /** Arrays have object elements in a sub-record of their own. */
  predicate ElementTypeOk(t: JavaType) {
    !t.ObjectType? && (t.Unlisted? ==> t.code < 0x100 && !(4 <= t.code <= 11))
  }

  ghost predicate SlotsOk(slots: seq<Slot>) {
    |slots| < 0x1_0000 && forall i :: 0 <= i < |slots| ==> TypeOk(slots[i].type_)
  }

  ghost predicate FieldsOk(fields: seq<FieldDecl>) {
    |fields| < 0x1_0000 && forall i :: 0 <= i < |fields| ==> TypeOk(fields[i].type_)
  }

  /** The numbers that are read fit their fields. */
  ghost predicate SubOk(s: Sub, w: nat) {
    match s
    case Root(_, _) => true
    case ClassDump(id, _, _, _, pool, statics, fields) => id < Pow256(w) && SlotsOk(pool) && SlotsOk(statics) && FieldsOk(fields)
    case InstanceDump(_, _, classId, data) => classId < Pow256(w) && |data| < 0x1_0000_0000
    case ObjArrayDump(_, _, _, refs) => |refs| < 0x1_0000_0000
    case PrimArrayDump(_, _, type_, elements) => |elements| < 0x1_0000_0000 && ElementTypeOk(type_)
  }

  ghost predicate BodyOk(b: Body, w: nat) {
    && BodySize(b, w) < 0x1_0000_0000
    && match b
       case Utf8(id, _) => id < Pow256(w)
       case LoadClass(_, classId, _, nameId) => classId < Pow256(w) && nameId < Pow256(w)
       case HeapDump(_, subs) => forall i :: 0 <= i < |subs| ==> SubOk(subs[i], w)
       case Other(tag, _) => tag < 0x100 && tag !in {0x01, 0x02, 0x0C, 0x1C}
  }

  ghost predicate FileOk(f: File) {
    && |f.title| <= 64 && 0 !in f.title && (f.w == 4 || f.w == 8)
    && forall i :: 0 <= i < |f.records| ==> BodyOk(f.records[i].body, f.w)
  }
}
