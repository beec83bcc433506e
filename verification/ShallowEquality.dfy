/** The reflective comparison under subtraction and grouping. Struct fields are
    compared by position first and by name second; fields whose type cannot be
    compared are ignored. Embedded nil pointers are not modelled. */
module ShallowEquality {

  datatype Field<V> = Field(name: string, comparable: bool, value: V)

  /** A value after pointers are dereferenced. */
  datatype Thing<V> = Struct(fields: seq<Field<V>>) | Plain(value: V, comparable: bool)

  /** The field equality of the host language, for two values of comparable types. */
  type FieldEq<!V> = (V, V) -> bool

  ghost predicate IsReflexive<V(!new)>(eq: FieldEq<V>) { forall v: V :: eq(v, v) }
  ghost predicate IsSymmetric<V(!new)>(eq: FieldEq<V>) { forall v: V, w: V :: eq(v, w) ==> eq(w, v) }
  ghost predicate IsTransitive<V(!new)>(eq: FieldEq<V>) {
    forall u: V, v: V, w: V :: eq(u, v) && eq(v, w) ==> eq(u, w)
  }

  /** The fields that take part in the comparison, in order. */
  function Comparable<V>(fields: seq<Field<V>>): (r: seq<Field<V>>)
  {
    if fields == [] then []
    else (if fields[0].comparable then [fields[0]] else []) + Comparable(fields[1..])
  }

  lemma {:induction false} ComparableAppend<V>(fields: seq<Field<V>>, f: Field<V>)
    ensures Comparable(fields + [f]) == Comparable(fields) + if f.comparable then [f] else []
  {
    if fields != [] {
      assert (fields + [f])[1..] == fields[1..] + [f];
      ComparableAppend(fields[1..], f);
    }
  }

  method Filter<V>(values: seq<Field<V>>) returns (filtered: seq<Field<V>>)
    ensures filtered == Comparable(values)
  {
    filtered := [];
    for i := 0 to |values|
      invariant filtered == Comparable(values[..i])
    {
      ComparableAppend(values[..i], values[i]);
      assert values[..i+1] == values[..i] + [values[i]];
      if values[i].comparable {
        filtered := filtered + [values[i]];
      }
    }
    assert values[..|values|] == values;
  }

  ghost predicate DistinctNames<V(!new)>(fields: seq<Field<V>>) {
    forall i, j :: 0 <= i < j < |fields| ==> fields[i].name != fields[j].name
  }

  function NameSet<V>(fields: seq<Field<V>>): set<string> {
    set i | 0 <= i < |fields| :: fields[i].name
  }

  method FieldNameToFieldValueMap<V(!new)>(fields: seq<Field<V>>) returns (fieldsMap: map<string, V>)
    requires DistinctNames(fields)
    ensures fieldsMap.Keys == NameSet(fields)
    ensures forall i :: 0 <= i < |fields| ==> fieldsMap[fields[i].name] == fields[i].value
  {
    fieldsMap := map[];
    for k := 0 to |fields|
      invariant fieldsMap.Keys == NameSet(fields[..k])
      invariant forall i :: 0 <= i < k ==> fields[i].name in fieldsMap && fieldsMap[fields[i].name] == fields[i].value
    {
      fieldsMap := fieldsMap[fields[k].name := fields[k].value];
    }
    assert fields[..|fields|] == fields;
  }

  ghost predicate IndexEqual<V(!new)>(a: seq<Field<V>>, b: seq<Field<V>>, eq: FieldEq<V>) {
    |a| == |b| && forall i :: 0 <= i < |a| ==> eq(a[i].value, b[i].value)
  }

  /** Every field of the first struct has an equal namesake in the second. */
  ghost predicate NameEqual<V(!new)>(a: seq<Field<V>>, b: seq<Field<V>>, eq: FieldEq<V>) {
    forall i :: 0 <= i < |a| ==> HasNamesake(a[i], b, eq)
  }

  ghost predicate HasNamesake<V(!new)>(f: Field<V>, b: seq<Field<V>>, eq: FieldEq<V>) {
    exists j :: 0 <= j < |b| && b[j].name == f.name && eq(f.value, b[j].value)
  }

  ghost predicate StructsEqual<V(!new)>(a: seq<Field<V>>, b: seq<Field<V>>, eq: FieldEq<V>) {
    var ca, cb := Comparable(a), Comparable(b);
    |ca| == |cb| && (IndexEqual(ca, cb, eq) || NameEqual(ca, cb, eq))
  }

  predicate IsComparable<V>(t: Thing<V>) {
    match t
    case Struct(fields) => forall i :: 0 <= i < |fields| ==> fields[i].comparable
    case Plain(_, comparable) => comparable
  }

  ghost predicate WellNamed<V(!new)>(t: Thing<V>) {
    t.Struct? ==> DistinctNames(Comparable(t.fields))
  }

  /** The second result says that the two things cannot be compared at all. */
  method ShallowEqual<V(!new)>(a: Thing<V>, b: Thing<V>, eq: FieldEq<V>) returns (equal: bool, err: bool)
    requires WellNamed(a) && WellNamed(b)
    ensures a.Struct? && b.Struct? ==> !err && (equal <==> StructsEqual(a.fields, b.fields, eq))
    ensures !(a.Struct? && b.Struct?) ==>
              (err <==> !(IsComparable(a) && IsComparable(b)))
              && (equal <==> !err && a.Plain? && b.Plain? && eq(a.value, b.value))
  {
    equal, err := false, false;
    if a.Struct? && b.Struct? {
      var aComparable := Filter(a.fields);
      var bComparable := Filter(b.fields);
      if |aComparable| != |bComparable| {
        return;
      }
      equal := true;
      for i := 0 to |aComparable|
        invariant equal <==> forall k :: 0 <= k < i ==> eq(aComparable[k].value, bComparable[k].value)
      {
        equal := equal && eq(aComparable[i].value, bComparable[i].value);
      }
      if equal {
        return;
      }
      equal := true;
      var aFieldsMap := FieldNameToFieldValueMap(aComparable);
      var bFieldsMap := FieldNameToFieldValueMap(bComparable);
      var names := aFieldsMap.Keys;
      while names != {}
        invariant names <= aFieldsMap.Keys && equal
        invariant forall n :: n in aFieldsMap.Keys - names ==> n in bFieldsMap && eq(aFieldsMap[n], bFieldsMap[n])
        decreases |names|
      {
        var n :| n in names;
        equal := n in bFieldsMap && eq(aFieldsMap[n], bFieldsMap[n]);
        if !equal {
          NotNameEqual(aComparable, bComparable, eq, n, aFieldsMap, bFieldsMap);
          return;
        }
        names := names - {n};
      }
      MapsNameEqual(aComparable, bComparable, eq, aFieldsMap, bFieldsMap);
    } else if IsComparable(a) && IsComparable(b) {
      equal := a.Plain? && b.Plain? && eq(a.value, b.value);
    } else {
      err := true;
    }
  }

  lemma MapsNameEqual<V(!new)>(a: seq<Field<V>>, b: seq<Field<V>>, eq: FieldEq<V>,
                               aMap: map<string, V>, bMap: map<string, V>)
    requires aMap.Keys == NameSet(a) && bMap.Keys == NameSet(b)
    requires forall i :: 0 <= i < |a| ==> aMap[a[i].name] == a[i].value
    requires forall i :: 0 <= i < |b| ==> bMap[b[i].name] == b[i].value
    requires forall n :: n in aMap ==> n in bMap && eq(aMap[n], bMap[n])
    ensures NameEqual(a, b, eq)
  {
  }

  lemma NotNameEqual<V(!new)>(a: seq<Field<V>>, b: seq<Field<V>>, eq: FieldEq<V>, n: string,
                              aMap: map<string, V>, bMap: map<string, V>)
    requires aMap.Keys == NameSet(a) && bMap.Keys == NameSet(b)
    requires forall i :: 0 <= i < |a| ==> aMap[a[i].name] == a[i].value
    requires forall i :: 0 <= i < |b| ==> bMap[b[i].name] == b[i].value
    requires n in aMap && !(n in bMap && eq(aMap[n], bMap[n]))
    ensures !NameEqual(a, b, eq)
  {
  }

  lemma StructsReflexive<V(!new)>(a: seq<Field<V>>, eq: FieldEq<V>)
    requires IsReflexive(eq)
    ensures StructsEqual(a, a, eq)
  {
  }

  lemma {:induction false} NamesCardinality<V(!new)>(fields: seq<Field<V>>)
    requires DistinctNames(fields)
    ensures |NameSet(fields)| == |fields|
  {
    if fields != [] {
      var rest := fields[..|fields|-1];
      NamesCardinality(rest);
      assert NameSet(fields) == NameSet(rest) + {fields[|fields|-1].name};
    }
  }

  lemma SubsetOfSameSize(s: set<string>, t: set<string>)
    requires s <= t && |s| == |t|
    ensures s == t
  {
    assert |t - s| == 0;
  }

  /** The name phase looks one way only; it is symmetric because an inclusion
      between equally many distinct names is an equality. */
  lemma NameEqualSymmetric<V(!new)>(a: seq<Field<V>>, b: seq<Field<V>>, eq: FieldEq<V>)
    requires IsSymmetric(eq) && DistinctNames(a) && DistinctNames(b) && |a| == |b|
    requires NameEqual(a, b, eq)
    ensures NameEqual(b, a, eq)
  {
    NamesCardinality(a);
    NamesCardinality(b);
    forall n | n in NameSet(a) ensures n in NameSet(b) {
      var i :| 0 <= i < |a| && a[i].name == n;
      assert HasNamesake(a[i], b, eq);
    }
    SubsetOfSameSize(NameSet(a), NameSet(b));
    forall j | 0 <= j < |b| ensures HasNamesake(b[j], a, eq) {
      assert b[j].name in NameSet(a);
      var i :| 0 <= i < |a| && a[i].name == b[j].name;
      assert HasNamesake(a[i], b, eq);
    }
  }

  lemma StructsSymmetric<V(!new)>(a: seq<Field<V>>, b: seq<Field<V>>, eq: FieldEq<V>)
    requires IsSymmetric(eq) && DistinctNames(Comparable(a)) && DistinctNames(Comparable(b))
    ensures StructsEqual(a, b, eq) <==> StructsEqual(b, a, eq)
  {
    var ca, cb := Comparable(a), Comparable(b);
    if StructsEqual(a, b, eq) {
      if !IndexEqual(ca, cb, eq) { NameEqualSymmetric(ca, cb, eq); }
    }
    if StructsEqual(b, a, eq) {
      if !IndexEqual(cb, ca, eq) { NameEqualSymmetric(cb, ca, eq); }
    }
  }

  ghost predicate SameShape<V(!new)>(a: seq<Field<V>>, b: seq<Field<V>>) {
    |a| == |b| && forall i :: 0 <= i < |a| ==> a[i].name == b[i].name && a[i].comparable == b[i].comparable
  }

  lemma SameShapeCons<V(!new)>(f: Field<V>, a: seq<Field<V>>, g: Field<V>, b: seq<Field<V>>)
    requires SameShape(a, b) && f.name == g.name && f.comparable == g.comparable
    ensures SameShape([f] + a, [g] + b) && SameShape([] + a, [] + b)
  {
  }

  lemma {:induction false} SameShapeComparable<V(!new)>(a: seq<Field<V>>, b: seq<Field<V>>)
    requires SameShape(a, b)
    ensures SameShape(Comparable(a), Comparable(b))
  {
    if a != [] {
      var ta, tb := a[1..], b[1..];
      assert SameShape(ta, tb) by {
        forall i | 0 <= i < |ta| ensures ta[i].name == tb[i].name && ta[i].comparable == tb[i].comparable {
          assert a[i+1].name == b[i+1].name;
        }
      }
      SameShapeComparable(ta, tb);
      assert a[0].name == b[0].name;
      var ca, cb := Comparable(ta), Comparable(tb);
      SameShapeCons(a[0], ca, b[0], cb);
    }
  }

  /** Two structs of one type are equal exactly when their comparable fields are, one by one. */
  lemma SameShapePointwise<V(!new)>(a: seq<Field<V>>, b: seq<Field<V>>, eq: FieldEq<V>)
    requires SameShape(a, b) && DistinctNames(Comparable(a))
    ensures StructsEqual(a, b, eq) <==> IndexEqual(Comparable(a), Comparable(b), eq)
  {
    SameShapeComparable(a, b);
    var ca, cb := Comparable(a), Comparable(b);
    if NameEqual(ca, cb, eq) {
      forall i | 0 <= i < |ca| ensures eq(ca[i].value, cb[i].value) {
        assert HasNamesake(ca[i], cb, eq);
      }
    }
  }

  /** Hence on one type the comparison is transitive when field equality is. */
  lemma SameShapeTransitive<V(!new)>(a: seq<Field<V>>, b: seq<Field<V>>, c: seq<Field<V>>, eq: FieldEq<V>)
    requires SameShape(a, b) && SameShape(b, c) && DistinctNames(Comparable(a)) && IsTransitive(eq)
    requires StructsEqual(a, b, eq) && StructsEqual(b, c, eq)
    ensures StructsEqual(a, c, eq)
  {
    SameShapeComparable(a, b);
    SameShapePointwise(a, b, eq);
    SameShapePointwise(b, c, eq);
    SameShapeComparable(b, c);
  }

  lemma ComparablePair<V>(f: Field<V>, g: Field<V>)
    requires f.comparable && g.comparable
    ensures Comparable([f, g]) == [f, g]
  {
    var none: seq<Field<V>> := [];
    assert [f] + [g] == [f, g];
    ComparableAppend(none, f);
    assert none + [f] == [f];
    ComparableAppend([f], g);
  }

  /** Across types it is not transitive, even for distinct names and honest
      field equality: a matches b by position, and b matches c by name. */
  lemma NotTransitiveAcrossShapes(eq: FieldEq<int>)
    requires forall v: int, w: int :: eq(v, w) <==> v == w
    ensures var a := [Field("Some", true, 1), Field("Other", true, 2)];
            var b := [Field("My", true, 1), Field("Your", true, 2)];
            var c := [Field("Your", true, 2), Field("My", true, 1)];
            StructsEqual(a, b, eq) && StructsEqual(b, c, eq) && !StructsEqual(a, c, eq)
  {
    var some, other := Field("Some", true, 1), Field("Other", true, 2);
    var my, your := Field("My", true, 1), Field("Your", true, 2);
    ComparablePair(some, other);
    ComparablePair(my, your);
    ComparablePair(your, my);
    assert IndexEqual([some, other], [my, your], eq);
    assert HasNamesake(my, [your, my], eq) by { assert [your, my][1] == my; }
    assert HasNamesake(your, [your, my], eq) by { assert [your, my][0] == your; }
    assert !HasNamesake([some, other][0], [your, my], eq);
    assert !eq([some, other][0].value, [your, my][0].value);
  }
}
