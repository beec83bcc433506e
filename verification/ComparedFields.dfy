/** What the shallow comparison makes of the structs it is used on: events, logs
    and delta resources, field by field. */
module ComparedFields {
  import opened NoopReports
  import opened ShallowEquality
  import Grouping

  /** A field value; slices cannot be compared. */
  datatype Cell = Text(text: string) | Number(number: int) | Flag(flag: bool) | Slice

  function SameCell(): FieldEq<Cell> {
    (x: Cell, y: Cell) => x == y
  }

  function TextField(name: string, s: string): Field<Cell> {
    Field(name, true, Text(s))
  }

  function NumberField(name: string, n: int): Field<Cell> {
    Field(name, true, Number(n))
  }

  function SliceField(name: string): Field<Cell> {
    Field(name, false, Slice)
  }

  /** A generated message starts with its state, the cached size and unknown fields. */
  function MessageFields(sizeCache: int): seq<Field<Cell>> {
    [SliceField("state"), NumberField("sizeCache", sizeCache), SliceField("unknownFields")]
  }

  function EventFields(e: Event): seq<Field<Cell>> {
    [TextField("Property", e.property), TextField("PreviousValue", e.previousValue),
     TextField("DesiredValue", e.desiredValue), TextField("Message", e.message), TextField("Name", e.name),
     TextField("Status", e.status), Field("CorrectiveChange", true, Flag(e.correctiveChange))]
  }

  function LogFields(l: Log): seq<Field<Cell>> {
    [TextField("Level", l.level), TextField("Message", l.message), TextField("Source", l.source),
     TextField("File", l.file), NumberField("Line", l.line)]
  }

  function DeltaFields(d: DeltaResource): seq<Field<Cell>> {
    [TextField("Title", d.title), TextField("Type", d.resourceType), TextField("DefineType", d.defineType),
     TextField("File", d.file), NumberField("Line", d.line)]
  }

  function SliceFields(): seq<Field<Cell>> {
    [SliceField("ContainmentPath"), SliceField("Events"), SliceField("Logs")]
  }

  lemma {:induction false} ComparableSplit<V>(a: seq<Field<V>>, b: seq<Field<V>>)
    ensures Comparable(a + b) == Comparable(a) + Comparable(b)
    decreases |b|
  {
    if b == [] {
      assert a + b == a;
    } else {
      var last := b[|b|-1];
      assert a + b == (a + b[..|b|-1]) + [last] && b == b[..|b|-1] + [last];
      ComparableSplit(a, b[..|b|-1]);
      ComparableAppend(a + b[..|b|-1], last);
      ComparableAppend(b[..|b|-1], last);
    }
  }

  lemma {:induction false} ComparableUniform<V>(a: seq<Field<V>>, comparable: bool)
    requires forall i :: 0 <= i < |a| ==> a[i].comparable == comparable
    ensures Comparable(a) == if comparable then a else []
    decreases |a|
  {
    if a != [] {
      var last := a[|a|-1];
      assert a == a[..|a|-1] + [last];
      ComparableUniform(a[..|a|-1], comparable);
      ComparableAppend(a[..|a|-1], last);
    }
  }

  /** Structs of one type whose slices follow the other fields are compared by those. */
  lemma TailIgnored(a: seq<Field<Cell>>, b: seq<Field<Cell>>, slices: seq<Field<Cell>>)
    requires SameShape(a, b) && DistinctNames(a)
    requires forall i :: 0 <= i < |a| ==> a[i].comparable
    requires forall i :: 0 <= i < |slices| ==> !slices[i].comparable
    ensures StructsEqual(a + slices, b + slices, SameCell()) <==> IndexEqual(a, b, SameCell())
  {
    ComparableSplit(a, slices);
    ComparableSplit(b, slices);
    ComparableUniform(a, true);
    ComparableUniform(b, true);
    ComparableUniform(slices, false);
    assert a + [] == a && b + [] == b;
    SameShapePointwise(a + slices, b + slices, SameCell());
  }

  /** Two deltas, their lines zeroed, compare equal exactly when their keys agree. */
  lemma DeltasCompared(d: DeltaResource, e: DeltaResource)
    ensures StructsEqual(DeltaFields(d.(line := 0)) + SliceFields(), DeltaFields(e.(line := 0)) + SliceFields(),
                         SameCell())
        <==> Grouping.KeyOf(d) == Grouping.KeyOf(e)
  {
    var a, b := DeltaFields(d.(line := 0)), DeltaFields(e.(line := 0));
    TailIgnored(a, b, SliceFields());
    forall i | 0 <= i < |a| ensures SameCell()(a[i].value, b[i].value) <==> a[i].value == b[i].value {
    }
    if IndexEqual(a, b, SameCell()) {
      assert a[0].value == b[0].value && a[1].value == b[1].value;
      assert a[2].value == b[2].value && a[3].value == b[3].value;
    }
  }

  lemma ComparableCons<V>(f: Field<V>, rest: seq<Field<V>>)
    ensures Comparable([f] + rest) == if f.comparable then [f] + Comparable(rest) else Comparable(rest)
  {
    var all := [f] + rest;
    assert all[0] == f && all[1..] == rest;
  }

  lemma MessageSplit(n: int, a: seq<Field<Cell>>)
    ensures MessageFields(n) + a
         == [SliceField("state")] + ([NumberField("sizeCache", n)] + ([SliceField("unknownFields")] + a))
  {
    var x, y, z := SliceField("state"), NumberField("sizeCache", n), SliceField("unknownFields");
    assert [x, y, z] == [x] + ([y] + [z]);
    Append3([x], [y], [z], a);
  }

  lemma Append3<T>(x: seq<T>, y: seq<T>, z: seq<T>, a: seq<T>)
    ensures (x + (y + z)) + a == x + (y + (z + a))
  {
  }

  lemma MessageHead(n: int, a: seq<Field<Cell>>)
    requires forall i :: 0 <= i < |a| ==> a[i].comparable
    ensures Comparable(MessageFields(n) + a) == [NumberField("sizeCache", n)] + a
  {
    hide Comparable;
    var state, size, unknown := SliceField("state"), NumberField("sizeCache", n), SliceField("unknownFields");
    MessageSplit(n, a);
    ComparableCons(state, [size] + ([unknown] + a));
    ComparableCons(size, [unknown] + a);
    ComparableCons(unknown, a);
    ComparableUniform(a, true);
  }

  lemma ConsIndexEqual<V(!new)>(f: Field<V>, a: seq<Field<V>>, g: Field<V>, b: seq<Field<V>>, eq: FieldEq<V>)
    ensures IndexEqual([f] + a, [g] + b, eq) <==> eq(f.value, g.value) && IndexEqual(a, b, eq)
  {
    var ca, cb := [f] + a, [g] + b;
    if IndexEqual(ca, cb, eq) {
      assert eq(ca[0].value, cb[0].value);
      forall i | 0 <= i < |a| ensures eq(a[i].value, b[i].value) {
        assert eq(ca[i+1].value, cb[i+1].value);
      }
    } else if |a| == |b| {
      var i :| 0 <= i < |ca| && !eq(ca[i].value, cb[i].value);
      assert i > 0 ==> !eq(a[i-1].value, b[i-1].value);
    }
  }

  /** Messages of one type are compared by their cached sizes and their fields. */
  lemma MessagesCompared(m: int, n: int, a: seq<Field<Cell>>, b: seq<Field<Cell>>)
    requires SameShape(a, b) && DistinctNames(a)
    requires forall i :: 0 <= i < |a| ==> a[i].comparable && a[i].name != "sizeCache"
    ensures StructsEqual(MessageFields(m) + a, MessageFields(n) + b, SameCell())
        <==> m == n && IndexEqual(a, b, SameCell())
  {
    hide Comparable, StructsEqual, IndexEqual;
    MessageHead(m, a);
    MessageHead(n, b);
    SameShapePointwise(MessageFields(m) + a, MessageFields(n) + b, SameCell());
    ConsIndexEqual(NumberField("sizeCache", m), a, NumberField("sizeCache", n), b, SameCell());
  }

  /** Two events, or two logs, compare equal exactly when they are the same value
      and their messages have the same cached size. */
  lemma EventsCompared(m: int, n: int, e: Event, f: Event)
    ensures StructsEqual(MessageFields(m) + EventFields(e), MessageFields(n) + EventFields(f), SameCell())
        <==> m == n && e == f
  {
    var a, b := EventFields(e), EventFields(f);
    MessagesCompared(m, n, a, b);
    if IndexEqual(a, b, SameCell()) {
      assert a[0].value == b[0].value && a[1].value == b[1].value && a[2].value == b[2].value;
      assert a[3].value == b[3].value && a[4].value == b[4].value && a[5].value == b[5].value;
      assert a[6].value == b[6].value;
    }
  }

  lemma LogsCompared(m: int, n: int, k: Log, l: Log)
    ensures StructsEqual(MessageFields(m) + LogFields(k), MessageFields(n) + LogFields(l), SameCell())
        <==> m == n && k == l
  {
    var a, b := LogFields(k), LogFields(l);
    MessagesCompared(m, n, a, b);
    if IndexEqual(a, b, SameCell()) {
      assert a[0].value == b[0].value && a[1].value == b[1].value && a[2].value == b[2].value;
      assert a[3].value == b[3].value && a[4].value == b[4].value;
    }
  }
}
