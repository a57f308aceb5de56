/** The heap-dump parser: an object that reads on through the file and updates the heap
    it has collected, checked step by step against the decoding functions. */
module HprofParser {
  import opened Text
  import opened HprofFormat
  import opened HprofDecode

  class Parser {
    var rest: Bytes  // what the reader has not delivered yet
    var idSize: nat
    var strings: map<nat, Bytes>
    var classes: map<nat, ClassInfo>
    var instances: seq<InstanceInfo>
    var arrays: seq<ArrayInfo>
    var gcRoots: nat

    constructor (data: Bytes)
      ensures rest == data && Collected() == EMPTY
    {
      rest, idSize, strings, classes, instances, arrays, gcRoots := data, 0, map[], map[], [], [], 0;
    }

    function Collected(): Heap reads this { Heap(strings, classes, instances, arrays, gcRoots) }

    /** The outcome agrees with a decoded event: same failure, same bytes left, and the
        heap updated by that event. */
    ghost predicate Agrees(r: Option<()>, got: Option<Got<Event>>, before: Heap)
      reads this
    {
      match got
      case None => r.None?
      case Some(g) => r.Some? && rest == g.rest && Collected() == Apply(before, g.value)
    }

    // ---------- reading ----------

    method Read(n: nat) returns (r: Option<Bytes>)
      modifies this`rest
      ensures match Cut(old(rest), n)
              case None => r.None?
              case Some(g) => r == Some(g.value) && rest == g.rest
    {
      if n > |rest| { return None; }
      TakeDropSlices(rest, n);
      r := Some(rest[..n]);
      rest := rest[n..];
    }

    method ReadNumber(w: nat) returns (r: Option<nat>)
      modifies this`rest
      ensures match Cut(old(rest), w)
              case None => r.None?
              case Some(g) => r == Some(Value(g.value)) && rest == g.rest
    {
      var b :- Read(w);
      r := Some(Value(b));
    }

    // ---------- top-level records ----------

    method ParseString(length: nat) returns (r: Option<()>)
      modifies this`rest, this`strings
      ensures Agrees(r, DecodeText(old(rest), idSize, length), old(Collected()))
    {
      var id :- ReadNumber(idSize);
      var text :- Read((length - idSize) % 0x1_0000_0000);
      strings := strings[id := text];
      r := Some(());
    }

    method ParseLoadClass() returns (r: Option<()>)
      modifies this`rest, this`classes
      ensures Agrees(r, DecodeLoad(old(rest), idSize), old(Collected()))
    {
      var serial :- Read(4);
      var classId :- ReadNumber(idSize);
      var trace :- Read(4);
      var nameId :- ReadNumber(idSize);
      var name := Dotted(if nameId in strings then strings[nameId] else []);
      if classId !in classes {
        classes := classes[classId := ClassInfo(name, [], 0, 0, 0)];
      } else {
        classes := classes[classId := classes[classId].(name := name)];
      }
      r := Some(());
    }

    // ---------- sub-records ----------

    method ParseRoot(extra: nat) returns (r: Option<()>)
      modifies this`rest, this`gcRoots
      ensures Agrees(r, DecodeRoot(old(rest), idSize, extra), old(Collected()))
    {
      gcRoots := gcRoots + 1;
      var id :- ReadNumber(idSize);
      var more :- Read(extra);
      r := Some(());
    }

    /** The constant pool or the static fields: entries of an index or a name, a type and
        a value. */
    method SkipTable(lead: nat) returns (r: Option<()>)
      modifies this`rest
      ensures match CutTable(old(rest), lead, idSize)
              case None => r.None?
              case Some(left) => r.Some? && rest == left
    {
      var n :- ReadNumber(2);
      ghost var all := CutSlots(rest, lead, idSize, n);
      var i := 0;
      while i < n
        invariant 0 <= i <= n && all == CutSlots(rest, lead, idSize, n - i)
      {
        var before :- Read(lead);
        var t :- ReadNumber(1);
        var value :- Read(ValueSize(t, idSize));
        i := i + 1;
      }
      r := Some(());
    }

    method ReadFields() returns (r: Option<seq<nat>>)
      modifies this`rest
      ensures match Cut(old(rest), 2)
              case None => r.None?
              case Some(n) =>
                match CutFields(n.rest, idSize, Value(n.value), [])
                case None => r.None?
                case Some(g) => r == Some(g.value) && rest == g.rest
    {
      var n :- ReadNumber(2);
      ghost var all := CutFields(rest, idSize, n, []);
      var types, i := [], 0;
      while i < n
        invariant 0 <= i <= n && all == CutFields(rest, idSize, n - i, types)
      {
        var name :- Read(idSize);
        var t :- ReadNumber(1);
        types, i := types + [t], i + 1;
      }
      r := Some(types);
    }

    /** Constant pool, static fields and instance fields. */
    method ReadMembers() returns (r: Option<seq<nat>>)
      modifies this`rest
      ensures match DecodeMembers(old(rest), idSize)
              case None => r.None?
              case Some(g) => r == Some(g.value) && rest == g.rest
    {
      var pool :- SkipTable(2);
      var statics :- SkipTable(idSize);
      r := ReadFields();
    }

    method ReadClassHead() returns (r: Option<nat>)
      modifies this`rest
      ensures match CutClass(old(rest), idSize)
              case None => r.None?
              case Some(g) => r == Some(g.value) && rest == g.rest
    {
      var classId :- ReadNumber(idSize);
      var trace :- Read(4);
      var superId :- ReadNumber(idSize);
      var others :- Read(idSize * 5 + 4);
      r := Some(classId);
    }

    /** Create the class if it is new, and set its fields and instance size. */
    method Declare(classId: nat, fields: seq<nat>)
      modifies this`classes
      ensures Collected() == Apply(old(Collected()), ClassEvent(classId, fields, FieldsSize(fields, idSize)))
    {
      if classId !in classes { classes := classes[classId := UNNAMED]; }
      var size := SumSizes(fields, idSize);
      classes := classes[classId := classes[classId].(fields := fields, instanceSize := size)];
    }

    /** Add an instance, credit it to its class if that is known by now, and pass over
        its field values. */
    method AddInstance(classId: nat, n: nat) returns (r: Option<()>)
      modifies this`rest, this`classes, this`instances
      ensures Agrees(r, DecodeValues(old(rest), classId, n, idSize), old(Collected()))
    {
      var size := n + idSize + 4;
      instances := instances + [InstanceInfo(classId, size)];
      if classId in classes {
        var c := classes[classId];
        classes := classes[classId := c.(instanceCount := c.instanceCount + 1, totalSize := c.totalSize + size)];
      }
      var values :- Read(n);
      r := Some(());
    }

    /** Add an array and pass over its elements. */
    method AddArray(t: nat, n: nat, size: nat) returns (r: Option<()>)
      modifies this`rest, this`arrays
      ensures Agrees(r, DecodeElements(old(rest), t, n, size), old(Collected()))
    {
      arrays := arrays + [ArrayInfo(t, n, size + 16)];
      var elements :- Read(size);
      r := Some(());
    }

    method ParseClassDump() returns (r: Option<()>)
      modifies this`rest, this`classes
      ensures Agrees(r, DecodeClass(old(rest), idSize), old(Collected()))
    {
      var classId :- ReadClassHead();
      var fields :- ReadMembers();
      Declare(classId, fields);
      r := Some(());
    }

    /** Past an object's id and its stack trace number. */
    method SkipObject() returns (r: Option<()>)
      modifies this`rest
      ensures match CutObject(old(rest), idSize)
              case None => r.None?
              case Some(left) => r.Some? && rest == left
    {
      var id :- ReadNumber(idSize);
      var trace :- Read(4);
      r := Some(());
    }

    method ParseInstanceDump() returns (r: Option<()>)
      modifies this`rest, this`classes, this`instances
      ensures Agrees(r, DecodeInstance(old(rest), idSize), old(Collected()))
    {
      var object_ :- SkipObject();
      var classId :- ReadNumber(idSize);
      var n :- ReadNumber(4);
      r := AddInstance(classId, n);
    }

    method ParseObjArrayDump() returns (r: Option<()>)
      modifies this`rest, this`arrays
      ensures Agrees(r, DecodeObjArray(old(rest), idSize), old(Collected()))
    {
      var object_ :- SkipObject();
      var n :- ReadNumber(4);
      var elementClass :- ReadNumber(idSize);
      r := AddArray(0, n, n * idSize);
    }

    method ParsePrimArrayDump() returns (r: Option<()>)
      modifies this`rest, this`arrays
      ensures Agrees(r, DecodePrimArray(old(rest), idSize), old(Collected()))
    {
      var object_ :- SkipObject();
      var n :- ReadNumber(4);
      var t :- ReadNumber(1);
      r := AddArray(t, n, n * PrimSize(t));
    }

    method ParseSub(kind: Kind) returns (r: Option<()>)
      modifies this`rest, this`classes, this`instances, this`arrays, this`gcRoots
      ensures Agrees(r, DecodeSub(old(rest), kind, idSize), old(Collected()))
    {
      match kind {
        case RootKind(extra) => r := ParseRoot(extra);
        case ClassKind => r := ParseClassDump();
        case InstanceKind => r := ParseInstanceDump();
        case ObjArrayKind => r := ParseObjArrayDump();
        case PrimArrayKind => r := ParsePrimArrayDump();
      }
    }

    method ParseTagged() returns (r: Option<()>)
      requires rest != []
      modifies this`rest, this`classes, this`instances, this`arrays, this`gcRoots
      ensures Agrees(r, DecodeTagged(old(rest), idSize), old(Collected()))
    {
      var tag := rest[0];
      rest := rest[1..];
      var kind :- KindOf(tag, idSize);
      r := ParseSub(kind);
    }

    /** The outcome agrees with a decoded heap. */
    ghost predicate Yields(r: Option<()>, got: Option<Got<Heap>>)
      reads this
    {
      match got
      case None => r.None?
      case Some(g) => r.Some? && rest == g.rest && Collected() == g.value
    }

    /** One sub-record more: what is left decodes to what there was to decode. */
    method ParseNext(ghost stop: int) returns (r: Option<()>)
      requires |rest| > stop && rest != []
      modifies this`rest, this`classes, this`instances, this`arrays, this`gcRoots
      ensures r.Some? ==> |rest| < |old(rest)|
      ensures r.None? ==> DecodeSubs(old(rest), stop, idSize, old(Collected())) == None
      ensures r.Some? ==> DecodeSubs(old(rest), stop, idSize, old(Collected())) == DecodeSubs(rest, stop, idSize, Collected())
    {
      r := ParseTagged();
    }

    /** The loop: `all` is what everything before `stop` decodes to. */
    method ParseSubs(stop: int, ghost all: Option<Got<Heap>>) returns (r: Option<()>)
      requires all == DecodeSubs(rest, stop, idSize, Collected())
      modifies this`rest, this`classes, this`instances, this`arrays, this`gcRoots
      ensures Yields(r, all)
    {
      while |rest| > stop && rest != []
        invariant all == DecodeSubs(rest, stop, idSize, Collected())
        decreases |rest|
      {
        var done :- ParseNext(stop);
      }
      r := Some(());
    }

    /** Sub-records until the announced length has been used up or the data ends. */
    method ParseHeapDump(length: nat) returns (r: Option<()>)
      modifies this`rest, this`classes, this`instances, this`arrays, this`gcRoots
      ensures Yields(r, DecodeSubs(old(rest), |old(rest)| - length, idSize, old(Collected())))
    {
      r := ParseSubs(|rest| - length, DecodeSubs(rest, |rest| - length, idSize, Collected()));
    }

    // ---------- the file ----------

    /** The title up to its zero byte. */
    method SkipTitle() returns (r: Option<()>)
      modifies this`rest
      ensures match CutTitle(old(rest), 0)
              case None => r.None?
              case Some(left) => r.Some? && rest == left
    {
      var n: nat := 0;
      ghost var all := CutTitle(rest, 0);
      while true
        invariant all == CutTitle(rest, n)
        decreases |rest|
      {
        if rest == [] { return None; }
        var b := rest[0];
        rest, n := rest[1..], n + 1;
        if b == 0 { return Some(()); }
        if n > 64 { return None; }
      }
    }

    method ParseBody(tag: nat, length: nat) returns (r: Option<()>)
      modifies this`rest, this`strings, this`classes, this`instances, this`arrays, this`gcRoots
      ensures Yields(r, DecodeBody(old(rest), tag, length, idSize, old(Collected())))
    {
      if tag == 0x01 {
        r := ParseString(length);
      } else if tag == 0x02 {
        r := ParseLoadClass();
      } else if tag == 0x0C || tag == 0x1C {
        r := ParseHeapDump(length);
      } else {
        var body :- Read(length);
        r := Some(());
      }
    }

    method ParseRecords() returns (r: Option<()>)
      modifies this`rest, this`strings, this`classes, this`instances, this`arrays, this`gcRoots
      ensures match DecodeRecords(old(rest), idSize, old(Collected()))
              case None => r.None?
              case Some(h) => r.Some? && Collected() == h && rest == []
    {
      ghost var all := DecodeRecords(rest, idSize, Collected());
      while rest != []
        invariant all == DecodeRecords(rest, idSize, Collected())
        decreases |rest|
      {
        var tag := rest[0];
        rest := rest[1..];
        var micros :- Read(4);
        var length :- ReadNumber(4);
        var body :- ParseBody(tag, length);
      }
      r := Some(());
    }

    /** Parse the whole file: it fails exactly when decoding does, and otherwise has read
        all bytes and holds the decoded heap. */
    method Parse() returns (r: Option<()>)
      requires Collected() == EMPTY
      modifies this
      ensures match Decode(old(rest))
              case None => r.None?
              case Some(dump) => r.Some? && idSize == dump.w && Collected() == dump.heap && rest == []
    {
      var title :- SkipTitle();
      idSize :- ReadNumber(4);
      if idSize != 4 && idSize != 8 { return None; }
      var millis :- Read(8);
      r := ParseRecords();
    }
  }

  /** Size of an instance, from its field types. */
  method SumSizes(fields: seq<nat>, w: nat) returns (size: nat)
    ensures size == FieldsSize(fields, w)
  {
    size := 0;
    for i := 0 to |fields|
      invariant size == FieldsSize(fields[..i], w)
    {
      assert fields[..i + 1][..i] == fields[..i];
      size := size + ValueSize(fields[i], w);
    }
    TakeAll(fields);
  }
}
