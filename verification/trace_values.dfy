/** JSON values, their schemas, and the comparison of two values under a schema. */
module TraceValues {
  import opened Results

  /** A parsed JSON value. Numbers with and without a fraction differ in type; non-finite ones do not parse. */
  datatype Value =
    | Null
    | Text(s: string)
    | Truth(b: bool)
    | Whole(n: int)
    | Fraction(x: real)
    | Array(items: seq<Value>)
    | Object(fields: map<string, Value>)

  datatype Schema =
    | StringType | IntType | BoolType | FloatType
    | Nullable(inner: Schema)
    | ListOf(item: Schema)
    | Record(members: map<string, Schema>)

  const TOLERANCE := 0.00000001

  predicate Validate(value: Value, schema: Schema)
    decreases schema
  {
    match schema
    case Nullable(inner) => value != Null ==> Validate(value, inner)
    case Record(members) =>
      && value.Object? && value.fields.Keys == members.Keys
      && forall key :: key in members && key in value.fields ==> Validate(value.fields[key], members[key])
    case ListOf(item) => value.Array? && forall i :: 0 <= i < |value.items| ==> Validate(value.items[i], item)
    case FloatType => value.Whole? || value.Fraction?
    case StringType => value.Text?
    case IntType => value.Whole?
    case BoolType => value.Truth?
  }

  function Quantity(value: Value): real
    requires value.Whole? || value.Fraction?
  {
    if value.Whole? then value.n as real else value.x
  }

  function Distance(a: real, b: real): real { if a >= b then a - b else b - a }

  predicate Compare(expected: Value, actual: Value, schema: Schema)
    requires Validate(expected, schema) && Validate(actual, schema)
    decreases schema
  {
    match schema
    case Nullable(inner) =>
      if expected == Null || actual == Null then expected == actual else Compare(expected, actual, inner)
    case Record(members) =>
      forall key :: key in members ==> Compare(expected.fields[key], actual.fields[key], members[key])
    case ListOf(item) =>
      && |expected.items| == |actual.items|
      && forall i :: 0 <= i < |expected.items| ==> Compare(expected.items[i], actual.items[i], item)
    case FloatType => Distance(Quantity(expected), Quantity(actual)) <= TOLERANCE
    case _ => expected == actual
  }

  /** What each leaf of a schema admits, and when two such leaves compare equal: numbers within 1e-8 of each other,
      anything else exactly. */
  lemma LeavesExact(a: Value, b: Value)
    ensures Validate(a, FloatType) <==> a.Whole? || a.Fraction?
    ensures Validate(a, IntType) <==> a.Whole?
    ensures Validate(a, StringType) <==> a.Text?
    ensures Validate(a, BoolType) <==> a.Truth?
    ensures Validate(a, FloatType) && Validate(b, FloatType) ==>
      (Compare(a, b, FloatType) <==> -0.00000001 <= Quantity(a) - Quantity(b) <= 0.00000001)
    ensures Validate(a, IntType) && Validate(b, IntType) ==> (Compare(a, b, IntType) <==> a.n == b.n)
  {
  }

  /** The value with every number read under a float schema blanked out. */
  function Erase(value: Value, schema: Schema): Value
    requires Validate(value, schema)
    decreases schema
  {
    match schema
    case Nullable(inner) => if value == Null then Null else Erase(value, inner)
    case Record(members) => Object(map key | key in members :: Erase(value.fields[key], members[key]))
    case ListOf(item) => Array(seq(|value.items|, i requires 0 <= i < |value.items| => Erase(value.items[i], item)))
    case FloatType => Fraction(0.0)
    case _ => value
  }

  predicate FloatFree(schema: Schema) {
    match schema
    case Nullable(inner) => FloatFree(inner)
    case Record(members) => forall key :: key in members ==> FloatFree(members[key])
    case ListOf(item) => FloatFree(item)
    case FloatType => false
    case _ => true
  }

  /** Comparison is an equivalence up to the tolerance: reflexive and symmetric. */
  lemma {:induction false} CompareSymmetric(a: Value, b: Value, schema: Schema)
    requires Validate(a, schema) && Validate(b, schema)
    ensures Compare(a, a, schema)
    ensures Compare(a, b, schema) <==> Compare(b, a, schema)
    decreases schema
  {
    match schema
    case Nullable(inner) =>
      if a != Null { CompareSymmetric(a, if b != Null then b else a, inner); }
    case Record(members) =>
      forall key | key in members
        ensures Compare(a.fields[key], a.fields[key], members[key])
        ensures Compare(a.fields[key], b.fields[key], members[key])
            <==> Compare(b.fields[key], a.fields[key], members[key])
      {
        CompareSymmetric(a.fields[key], b.fields[key], members[key]);
      }
    case ListOf(item) =>
      forall i | 0 <= i < |a.items| ensures Compare(a.items[i], a.items[i], item) {
        CompareSymmetric(a.items[i], a.items[i], item);
      }
      forall i | 0 <= i < |a.items| && i < |b.items|
        ensures Compare(a.items[i], b.items[i], item) <==> Compare(b.items[i], a.items[i], item)
      {
        CompareSymmetric(a.items[i], b.items[i], item);
      }
    case _ =>
  }

  /** Values that compare equal agree on everything but floats. */
  lemma {:induction false} ComparedAgree(a: Value, b: Value, schema: Schema)
    requires Validate(a, schema) && Validate(b, schema) && Compare(a, b, schema)
    ensures Erase(a, schema) == Erase(b, schema)
    decreases schema
  {
    match schema
    case Nullable(inner) => if a != Null { ComparedAgree(a, b, inner); }
    case Record(members) =>
      forall key | key in members ensures Erase(a.fields[key], members[key]) == Erase(b.fields[key], members[key]) {
        ComparedAgree(a.fields[key], b.fields[key], members[key]);
      }
      ErasedRecords(a, b, members);
    case ListOf(item) =>
      forall i | 0 <= i < |a.items| ensures Erase(a.items[i], item) == Erase(b.items[i], item) {
        ComparedAgree(a.items[i], b.items[i], item);
      }
      ErasedLists(a, b, item);
    case _ =>
  }

  lemma EraseRecord(a: Value, members: map<string, Schema>)
    requires Validate(a, Record(members))
    ensures Erase(a, Record(members)) == Object(map key | key in members :: Erase(a.fields[key], members[key]))
  {
  }

  lemma ErasedRecords(a: Value, b: Value, members: map<string, Schema>)
    requires Validate(a, Record(members)) && Validate(b, Record(members))
    requires forall key :: key in members ==> Erase(a.fields[key], members[key]) == Erase(b.fields[key], members[key])
    ensures Erase(a, Record(members)) == Erase(b, Record(members))
  {
    hide Erase;
    EraseRecord(a, members);
    EraseRecord(b, members);
    var ea := map key | key in members :: Erase(a.fields[key], members[key]);
    var eb := map key | key in members :: Erase(b.fields[key], members[key]);
    assert ea == eb;
  }

  lemma ErasedLists(a: Value, b: Value, item: Schema)
    requires Validate(a, ListOf(item)) && Validate(b, ListOf(item)) && |a.items| == |b.items|
    requires forall i :: 0 <= i < |a.items| ==> Erase(a.items[i], item) == Erase(b.items[i], item)
    ensures Erase(a, ListOf(item)) == Erase(b, ListOf(item))
  {
    var ea, eb := Erase(a, ListOf(item)).items, Erase(b, ListOf(item)).items;
    assert |ea| == |eb|;
    forall i | 0 <= i < |ea| ensures ea[i] == eb[i] {
      assert ea[i] == Erase(a.items[i], item) && eb[i] == Erase(b.items[i], item);
    }
  }

  /** Without floats, comparison is equality. */
  lemma {:induction false} FloatFreeIsExact(a: Value, b: Value, schema: Schema)
    requires Validate(a, schema) && Validate(b, schema) && FloatFree(schema)
    ensures Compare(a, b, schema) <==> a == b
    decreases schema
  {
    match schema
    case Nullable(inner) => if a != Null && b != Null { FloatFreeIsExact(a, b, inner); }
    case Record(members) =>
      forall key | key in members
        ensures Compare(a.fields[key], b.fields[key], members[key]) <==> a.fields[key] == b.fields[key]
      {
        FloatFreeIsExact(a.fields[key], b.fields[key], members[key]);
      }
      if Compare(a, b, schema) { assert a.fields == b.fields; }
    case ListOf(item) =>
      forall i | 0 <= i < |a.items| && i < |b.items|
        ensures Compare(a.items[i], b.items[i], item) <==> a.items[i] == b.items[i]
      {
        FloatFreeIsExact(a.items[i], b.items[i], item);
      }
      if Compare(a, b, schema) { assert a.items == b.items; }
    case _ =>
  }

  /** Two steps of the tolerance: each is close to the next, the first is not close to the last. */
  predicate Drifts(a: Value, b: Value, c: Value, schema: Schema) {
    && Validate(a, schema) && Validate(b, schema) && Validate(c, schema)
    && Compare(a, b, schema) && Compare(b, c, schema) && !Compare(a, c, schema)
  }

  lemma CompareDrifts()
    ensures Drifts(Fraction(0.0), Fraction(TOLERANCE), Fraction(2.0 * TOLERANCE), FloatType)
  {
  }

  /** Some value of a schema. */
  function Sample(schema: Schema): Value
    decreases schema
  {
    match schema
    case StringType => Text("")
    case IntType => Whole(0)
    case BoolType => Truth(false)
    case FloatType => Fraction(0.0)
    case Nullable(_) => Null
    case ListOf(_) => Array([])
    case Record(members) => Object(map key | key in members :: Sample(members[key]))
  }

  lemma {:induction false} SampleValid(schema: Schema)
    ensures Validate(Sample(schema), schema)
    decreases schema
  {
    match schema
    case Record(members) =>
      forall key | key in members ensures Validate(Sample(members[key]), members[key]) { SampleValid(members[key]); }
    case _ =>
  }

  /** A record of samples but for one member. */
  function With(members: map<string, Schema>, key: string, value: Value): Value {
    Object(map k | k in members :: if k == key then value else Sample(members[k]))
  }

  lemma WithValid(members: map<string, Schema>, key: string, a: Value, b: Value)
    requires key in members && Validate(a, members[key]) && Validate(b, members[key])
    ensures Validate(With(members, key, a), Record(members)) && Validate(With(members, key, b), Record(members))
    ensures Compare(With(members, key, a), With(members, key, b), Record(members)) <==> Compare(a, b, members[key])
  {
    forall k | k in members ensures Validate(Sample(members[k]), members[k]) { SampleValid(members[k]); }
    forall k | k in members ensures Compare(Sample(members[k]), Sample(members[k]), members[k]) {
      CompareSymmetric(Sample(members[k]), Sample(members[k]), members[k]);
    }
    var ra, rb := With(members, key, a), With(members, key, b);
    assert Validate(ra, Record(members)) && Validate(rb, Record(members));
    assert ra.fields[key] == a && rb.fields[key] == b;
    forall k | k in members && k != key ensures ra.fields[k] == Sample(members[k]) == rb.fields[k] {}
  }

  lemma ListDrifts(a: Value, b: Value, c: Value, item: Schema)
    requires Drifts(a, b, c, item)
    ensures Drifts(Array([a]), Array([b]), Array([c]), ListOf(item))
  {
    assert !Compare(Array([a]).items[0], Array([c]).items[0], item);
  }

  lemma RecordDrifts(members: map<string, Schema>, key: string, a: Value, b: Value, c: Value)
    requires key in members && Drifts(a, b, c, members[key])
    ensures Drifts(With(members, key, a), With(members, key, b), With(members, key, c), Record(members))
  {
    hide Validate, Compare, With;
    WithValid(members, key, a, b);
    WithValid(members, key, b, c);
    WithValid(members, key, a, c);
  }

  lemma NullableSame(a: Value, b: Value, inner: Schema)
    requires Validate(a, inner) && Validate(b, inner) && a != Null && b != Null
    ensures Validate(a, Nullable(inner)) && Validate(b, Nullable(inner))
    ensures Compare(a, b, Nullable(inner)) <==> Compare(a, b, inner)
  {
  }

  lemma NullableDrifts(a: Value, b: Value, c: Value, inner: Schema)
    requires Drifts(a, b, c, inner) && a != Null && b != Null && c != Null
    ensures Drifts(a, b, c, Nullable(inner))
  {
    hide Validate, Compare;
    NullableSame(a, b, inner);
    NullableSame(b, c, inner);
    NullableSame(a, c, inner);
  }

  /** A float anywhere in a schema lets values of the whole schema drift. */
  lemma {:induction false} FloatsDrift(schema: Schema) returns (a: Value, b: Value, c: Value)
    requires !FloatFree(schema)
    ensures Drifts(a, b, c, schema) && a != Null && b != Null && c != Null
    decreases schema
  {
    hide Drifts;
    match schema
    case FloatType =>
      CompareDrifts();
      a, b, c := Fraction(0.0), Fraction(TOLERANCE), Fraction(2.0 * TOLERANCE);
    case Nullable(inner) =>
      a, b, c := FloatsDrift(inner);
      NullableDrifts(a, b, c, inner);
    case ListOf(item) =>
      a, b, c := FloatsDrift(item);
      ListDrifts(a, b, c, item);
      a, b, c := Array([a]), Array([b]), Array([c]);
    case Record(members) =>
      var key :| key in members && !FloatFree(members[key]);
      a, b, c := FloatsDrift(members[key]);
      RecordDrifts(members, key, a, b, c);
      a, b, c := With(members, key, a), With(members, key, b), With(members, key, c);
  }

  ghost predicate Transitive(schema: Schema) {
    forall a, b, c | Validate(a, schema) && Validate(b, schema) && Validate(c, schema) ::
      Compare(a, b, schema) && Compare(b, c, schema) ==> Compare(a, c, schema)
  }

  ghost predicate IsEquality(schema: Schema) {
    forall a, b | Validate(a, schema) && Validate(b, schema) :: Compare(a, b, schema) <==> a == b
  }

  /** Comparison under a schema is transitive if and only if the schema has no float, and exactly then is it
      equality. */
  lemma TransitiveExactly(schema: Schema)
    ensures Transitive(schema) <==> FloatFree(schema)
    ensures IsEquality(schema) <==> FloatFree(schema)
  {
    hide Validate, Compare;
    if FloatFree(schema) {
      forall a, b | Validate(a, schema) && Validate(b, schema) ensures Compare(a, b, schema) <==> a == b {
        FloatFreeIsExact(a, b, schema);
      }
    } else {
      var a, b, c := FloatsDrift(schema);
      assert a != b;
    }
  }
}
