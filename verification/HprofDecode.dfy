/** What the heap-dump parser makes of a byte string, and that it undoes the encoding. */
module HprofDecode {
  import opened Text
  import opened HprofFormat

  // ---------- the heap ----------

  datatype ClassInfo = ClassInfo(name: Bytes, fields: seq<nat>, instanceSize: nat, instanceCount: nat, totalSize: nat)
  datatype InstanceInfo = InstanceInfo(classId: nat, size: nat)
  datatype ArrayInfo = ArrayInfo(elementType: nat, length: nat, size: nat)

  datatype Heap = Heap(strings: map<nat, Bytes>, classes: map<nat, ClassInfo>,
                       instances: seq<InstanceInfo>, arrays: seq<ArrayInfo>, gcRoots: nat)

  const EMPTY := Heap(map[], map[], [], [], 0)
  const UNNAMED := ClassInfo([], [], 0, 0, 0)

  /** What one record or sub-record tells about the heap. */
  datatype Event =
    | TextEvent(id: nat, text: Bytes)
    | LoadEvent(classId: nat, nameId: nat)
    | RootEvent
    | ClassEvent(id: nat, fields: seq<nat>, size: nat)
    | InstanceEvent(classId: nat, size: nat)
    | ArrayEvent(info: ArrayInfo)

  /** '/' becomes '.'. */
  function Dotted(s: Bytes): (r: Bytes)
    ensures |r| == |s|
  {
    seq(|s|, i requires 0 <= i < |s| => if s[i] == 0x2F then 0x2E else s[i])
  }

  /** No slash is left, and where the text changed there was one and there is a dot. */
  lemma DotsForSlashes(s: Bytes)
    ensures 0x2F !in Dotted(s)
    ensures forall i :: 0 <= i < |s| && Dotted(s)[i] != s[i] ==> s[i] == 0x2F && Dotted(s)[i] == 0x2E
  {
  }

  // ---------- types and kinds, as the parser knows them ----------

  /** Bytes of a primitive type; types the table does not know count as empty. */
  function PrimSize(t: nat): nat {
    match t
    case 4 => 1 case 5 => 2 case 6 => 4 case 7 => 8
    case 8 => 1 case 9 => 2 case 10 => 4 case 11 => 8
    case _ => 0
  }

  const OBJECT: nat := 2

  function ValueSize(t: nat, w: nat): nat { if t == OBJECT then w else PrimSize(t) }

  /** Kinds of sub-records, by tag. A root has an object id and some more bytes. */
  datatype Kind = RootKind(extra: nat) | ClassKind | InstanceKind | ObjArrayKind | PrimArrayKind

  function KindOf(tag: nat, w: nat): Option<Kind> {
    match tag
    case 0xFF => Some(RootKind(0))
    case 0x01 => Some(RootKind(w))
    case 0x02 => Some(RootKind(8)) case 0x03 => Some(RootKind(8))
    case 0x04 => Some(RootKind(4)) case 0x06 => Some(RootKind(4))
    case 0x05 => Some(RootKind(0)) case 0x07 => Some(RootKind(0))
    case 0x08 => Some(RootKind(8))
    case 0x20 => Some(ClassKind)
    case 0x21 => Some(InstanceKind)
    case 0x22 => Some(ObjArrayKind)
    case 0x23 => Some(PrimArrayKind)
    case _ => None
  }

  /** Size of an instance, from its field types. */
  function FieldsSize(fields: seq<nat>, w: nat): nat {
    if fields == [] then 0 else FieldsSize(fields[..|fields| - 1], w) + ValueSize(fields[|fields| - 1], w)
  }

  function ClassOf(h: Heap, id: nat): ClassInfo {
    if id in h.classes then h.classes[id] else UNNAMED
  }

  function Apply(h: Heap, e: Event): Heap {
    match e
    case TextEvent(id, text) => h.(strings := h.strings[id := text])
    case LoadEvent(classId, nameId) =>
      var name := Dotted(if nameId in h.strings then h.strings[nameId] else []);
      h.(classes := h.classes[classId := ClassOf(h, classId).(name := name)])
    case RootEvent => h.(gcRoots := h.gcRoots + 1)
    case ClassEvent(id, fields, size) =>
      h.(classes := h.classes[id := ClassOf(h, id).(fields := fields, instanceSize := size)])
    case InstanceEvent(classId, size) =>
      var h1 := h.(instances := h.instances + [InstanceInfo(classId, size)]);
      if classId in h.classes then h1.(classes := h.classes[classId := Credit(h.classes[classId], size)]) else h1
    case ArrayEvent(info) => h.(arrays := h.arrays + [info])
  }

  function Credit(c: ClassInfo, size: nat): ClassInfo {
    c.(instanceCount := c.instanceCount + 1, totalSize := c.totalSize + size)
  }

  function ApplyAll(h: Heap, es: seq<Event>): Heap
    decreases |es|
  {
    if es == [] then h else ApplyAll(Apply(h, es[0]), es[1..])
  }

  lemma {:induction false} ApplyConcat(h: Heap, a: seq<Event>, b: seq<Event>)
    ensures ApplyAll(h, a + b) == ApplyAll(ApplyAll(h, a), b)
    decreases |a|
  {
    if a == [] {
      assert a + b == b;
    } else {
      ApplyConcat(Apply(h, a[0]), a[1..], b);
      assert (a + b)[1..] == a[1..] + b;
    }
  }

  // ---------- decoding ----------

  /** Something read, and the bytes after it. */
  datatype Got<T> = Got(value: T, rest: Bytes)

  /** The first `n` bytes, and what follows them. */
  function Take(s: Bytes, n: nat): (r: Bytes)
    requires n <= |s|
    ensures |r| == n
  {
    if n == 0 then [] else [s[0]] + Take(s[1..], n - 1)
  }

  function Drop(s: Bytes, n: nat): (r: Bytes)
    requires n <= |s|
    ensures |r| == |s| - n
  {
    if n == 0 then s else Drop(s[1..], n - 1)
  }

  lemma {:induction false} TakeDropSlices(s: Bytes, n: nat)
    requires n <= |s|
    ensures Take(s, n) == s[..n] && Drop(s, n) == s[n..]
    decreases n
  {
    if n > 0 { TakeDropSlices(s[1..], n - 1); }
  }

  /** The next `n` bytes. */
  function Cut(s: Bytes, n: nat): Option<Got<Bytes>> {
    if n <= |s| then Some(Got(Take(s, n), Drop(s, n))) else None
  }

  /** Past one entry of `lead` bytes, a type and a value of that type. */
  function CutSlot(s: Bytes, lead: nat, w: nat): (r: Option<Bytes>)
    ensures r.Some? ==> |r.value| < |s|
  {
    var before :- Cut(s, lead);
    var t :- Cut(before.rest, 1);
    var value :- Cut(t.rest, ValueSize(Value(t.value), w));
    Some(value.rest)
  }

  function CutSlots(s: Bytes, lead: nat, w: nat, n: nat): (r: Option<Bytes>)
    ensures r.Some? ==> |r.value| <= |s|
    decreases n
  {
    if n == 0 then Some(s)
    else
      var rest :- CutSlot(s, lead, w);
      CutSlots(rest, lead, w, n - 1)
  }

  /** A counted list of such entries. */
  function CutTable(s: Bytes, lead: nat, w: nat): (r: Option<Bytes>)
    ensures r.Some? ==> |r.value| < |s|
  {
    var n :- Cut(s, 2);
    CutSlots(n.rest, lead, w, Value(n.value))
  }

  /** The types of `n` declared fields, after those already read. */
  function CutFields(s: Bytes, w: nat, n: nat, before: seq<nat>): (r: Option<Got<seq<nat>>>)
    ensures r.Some? ==> |r.value.rest| <= |s|
    decreases n
  {
    if n == 0 then Some(Got(before, s))
    else
      var name :- Cut(s, w);
      var t :- Cut(name.rest, 1);
      CutFields(t.rest, w, n - 1, before + [Value(t.value)])
  }

  /** Constant pool, static fields and instance fields of a class. */
  function DecodeMembers(s: Bytes, w: nat): (r: Option<Got<seq<nat>>>)
    ensures r.Some? ==> |r.value.rest| < |s|
  {
    var a :- CutTable(s, 2, w);
    var b :- CutTable(a, w, w);
    var n :- Cut(b, 2);
    CutFields(n.rest, w, Value(n.value), [])
  }

  function DecodeRoot(s: Bytes, w: nat, extra: nat): (r: Option<Got<Event>>)
    ensures r.Some? ==> |r.value.rest| <= |s|
  {
    var id :- Cut(s, w);
    var more :- Cut(id.rest, extra);
    Some(Got(RootEvent, more.rest))
  }

  /** A class's id, past its superclass, loader, other references and size. */
  function CutClass(s: Bytes, w: nat): (r: Option<Got<nat>>)
    ensures r.Some? ==> |r.value.rest| <= |s|
  {
    var id :- Cut(s, w);
    var trace :- Cut(id.rest, 4);
    var super :- Cut(trace.rest, w);
    var others :- Cut(super.rest, w * 5 + 4);
    Some(Got(Value(id.value), others.rest))
  }

  function DecodeClass(s: Bytes, w: nat): (r: Option<Got<Event>>)
    ensures r.Some? ==> |r.value.rest| <= |s|
  {
    var id :- CutClass(s, w);
    var fields :- DecodeMembers(id.rest, w);
    Some(Got(ClassEvent(id.value, fields.value, FieldsSize(fields.value, w)), fields.rest))
  }

  /** Past an object's id and its stack trace number. */
  function CutObject(s: Bytes, w: nat): (r: Option<Bytes>)
    ensures r.Some? ==> |r.value| <= |s|
  {
    var id :- Cut(s, w);
    var trace :- Cut(id.rest, 4);
    Some(trace.rest)
  }

  /** The field values of an instance. */
  function DecodeValues(s: Bytes, classId: nat, n: nat, w: nat): (r: Option<Got<Event>>)
    ensures r.Some? ==> |r.value.rest| <= |s|
  {
    var data :- Cut(s, n);
    Some(Got(InstanceEvent(classId, n + w + 4), data.rest))
  }

  function DecodeInstance(s: Bytes, w: nat): (r: Option<Got<Event>>)
    ensures r.Some? ==> |r.value.rest| <= |s|
  {
    var body :- CutObject(s, w);
    DecodeInstanceBody(body, w)
  }

  function DecodeInstanceBody(s: Bytes, w: nat): (r: Option<Got<Event>>)
    ensures r.Some? ==> |r.value.rest| <= |s|
  {
    var class_ :- Cut(s, w);
    var n :- Cut(class_.rest, 4);
    DecodeValues(n.rest, Value(class_.value), Value(n.value), w)
  }

  /** The elements of an array. */
  function DecodeElements(s: Bytes, t: nat, n: nat, size: nat): (r: Option<Got<Event>>)
    ensures r.Some? ==> |r.value.rest| <= |s|
  {
    var data :- Cut(s, size);
    Some(Got(ArrayEvent(ArrayInfo(t, n, size + 16)), data.rest))
  }

  function DecodeObjArray(s: Bytes, w: nat): (r: Option<Got<Event>>)
    ensures r.Some? ==> |r.value.rest| <= |s|
  {
    var body :- CutObject(s, w);
    var n :- Cut(body, 4);
    var class_ :- Cut(n.rest, w);
    DecodeElements(class_.rest, 0, Value(n.value), Value(n.value) * w)
  }

  function DecodePrimArray(s: Bytes, w: nat): (r: Option<Got<Event>>)
    ensures r.Some? ==> |r.value.rest| <= |s|
  {
    var body :- CutObject(s, w);
    var n :- Cut(body, 4);
    var t :- Cut(n.rest, 1);
    DecodeElements(t.rest, Value(t.value), Value(n.value), Value(n.value) * PrimSize(Value(t.value)))
  }

  /** One sub-record of a heap dump, behind its tag. */
  function DecodeSub(s: Bytes, kind: Kind, w: nat): (r: Option<Got<Event>>)
    ensures r.Some? ==> |r.value.rest| <= |s|
  {
    match kind
    case RootKind(extra) => DecodeRoot(s, w, extra)
    case ClassKind => DecodeClass(s, w)
    case InstanceKind => DecodeInstance(s, w)
    case ObjArrayKind => DecodeObjArray(s, w)
    case PrimArrayKind => DecodePrimArray(s, w)
  }

  /** The tag and the sub-record behind it. */
  function DecodeTagged(s: Bytes, w: nat): (r: Option<Got<Event>>)
    requires s != []
    ensures r.Some? ==> |r.value.rest| < |s|
  {
    var kind :- KindOf(s[0], w);
    DecodeSub(s[1..], kind, w)
  }

  /** Sub-records until at most `stop` bytes are left; the last one may run over that
      point, and the data may end before it. */
  function DecodeSubs(s: Bytes, stop: int, w: nat, h: Heap): (r: Option<Got<Heap>>)
    ensures r.Some? ==> |r.value.rest| <= |s|
    decreases |s|
  {
    if |s| <= stop || s == [] then Some(Got(h, s))
    else
      var e :- DecodeTagged(s, w);
      DecodeSubs(e.rest, stop, w, Apply(h, e.value))
  }

  /** The text's length is what is left of the record, computed in 32 bits. */
  function DecodeText(s: Bytes, w: nat, length: nat): (r: Option<Got<Event>>)
    ensures r.Some? ==> |r.value.rest| <= |s|
  {
    var id :- Cut(s, w);
    var text :- Cut(id.rest, (length - w) % 0x1_0000_0000);
    Some(Got(TextEvent(Value(id.value), text.value), text.rest))
  }

  function DecodeLoad(s: Bytes, w: nat): (r: Option<Got<Event>>)
    ensures r.Some? ==> |r.value.rest| <= |s|
  {
    var serial :- Cut(s, 4);
    var class_ :- Cut(serial.rest, w);
    var trace :- Cut(class_.rest, 4);
    var name :- Cut(trace.rest, w);
    Some(Got(LoadEvent(Value(class_.value), Value(name.value)), name.rest))
  }

  /** The body of a record with the given tag and length. */
  function DecodeBody(s: Bytes, tag: nat, length: nat, w: nat, h: Heap): (r: Option<Got<Heap>>)
    ensures r.Some? ==> |r.value.rest| <= |s|
  {
    if tag == 0x01 then
      var e :- DecodeText(s, w, length);
      Some(Got(Apply(h, e.value), e.rest))
    else if tag == 0x02 then
      var e :- DecodeLoad(s, w);
      Some(Got(Apply(h, e.value), e.rest))
    else if tag == 0x0C || tag == 0x1C then DecodeSubs(s, |s| - length, w, h)
    else
      var body :- Cut(s, length);
      Some(Got(h, body.rest))
  }

  /** Records up to the end of the data. */
  function DecodeRecords(s: Bytes, w: nat, h: Heap): Option<Heap>
    decreases |s|
  {
    if s == [] then Some(h)
    else
      var micros :- Cut(s[1..], 4);
      var length :- Cut(micros.rest, 4);
      var body :- DecodeBody(length.rest, s[0], Value(length.value), w, h);
      DecodeRecords(body.rest, w, body.value)
  }

  /** What follows the zero byte that ends the title, of which `n` bytes have been read. */
  function CutTitle(s: Bytes, n: nat): (r: Option<Bytes>)
    decreases |s|
  {
    if s == [] then None
    else if s[0] == 0 then Some(s[1..])
    else if n + 1 > 64 then None
    else CutTitle(s[1..], n + 1)
  }

  datatype Dump = Dump(w: nat, heap: Heap)

  /** A whole file: the width of identifiers and the heap. */
  function Decode(s: Bytes): Option<Dump> {
    var body :- CutTitle(s, 0);
    var width :- Cut(body, 4);
    var w := Value(width.value);
    if w != 4 && w != 8 then None
    else
      var millis :- Cut(width.rest, 8);
      var heap :- DecodeRecords(millis.rest, w, EMPTY);
      Some(Dump(w, heap))
  }
}
