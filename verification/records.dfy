/** What the `ToCqlData` and `FromCqlData` derives (crates/sin/src/lib.rs)
    generate for a struct with named fields: encode every field under its
    own name into a `Row`, and decode a `Row` field by field. A record type is
    described by its field list; a record value by one value per field. */
module Records {
  import opened Wrappers
  import opened CqlTypes
  import opened MapBuild

  /** The field types that have a conversion pair. `KBool` is there for the
      migration tracking record's `is_run` flag. */
  datatype FieldKind = KString | KI64 | KF64 | KTime | KStatus | KUuid | KBool

  datatype FieldValue =
    | VString(s: string)
    | VI64(n: i64)
    | VF64(f: Float64)
    | VTime(t: OffsetDateTime)
    | VStatus(st: Status)
    | VUuid(u: Uuid)
    | VBool(b: bool)

  function KindOf(v: FieldValue): FieldKind {
    match v
    case VString(_) => KString
    case VI64(_) => KI64
    case VF64(_) => KF64
    case VTime(_) => KTime
    case VStatus(_) => KStatus
    case VUuid(_) => KUuid
    case VBool(_) => KBool
  }

  /** The field's own `to_cql`. */
  function EncodeField(v: FieldValue): CqlType {
    match v
    case VString(s) => StringToCql(s)
    case VI64(n) => I64ToCql(n)
    case VF64(f) => F64ToCql(f)
    case VTime(t) => DateTimeToCql(t)
    case VStatus(st) => StatusToCql(st)
    case VUuid(u) => UuidToCql(u)
    case VBool(b) => Bool(b)
  }

  /** The field type's own `from_cql`. */
  function DecodeField(k: FieldKind, c: CqlType): (r: Result<FieldValue, DecodeError>)
    ensures r.Ok? ==> KindOf(r.value) == k && EncodeField(r.value) == c
  {
    match k
    case KString => var s :- StringFromCql(c); Ok(VString(s))
    case KI64 => var n :- I64FromCql(c); Ok(VI64(n))
    case KF64 => var f :- F64FromCql(c); Ok(VF64(f))
    case KTime => var t :- DateTimeFromCql(c); Ok(VTime(t))
    case KStatus => var st :- StatusFromCql(c); Ok(VStatus(st))
    case KUuid => var u :- UuidFromCql(c); Ok(VUuid(u))
    case KBool => if c.Bool? then Ok(VBool(c.b)) else Err(())
  }

  /** A value survives its own field conversion unless it is an instant with
      a sub-second part, which the timestamp encoding drops. */
  predicate FieldRoundTrips(v: FieldValue) {
    !(v.VTime? && v.t.nanos != 0)
  }

  lemma {:induction false} FieldRoundTrip(v: FieldValue)
    ensures DecodeField(KindOf(v), EncodeField(v)) == Ok(v) <==> FieldRoundTrips(v)
  {
    match v
    case VString(s) => StringRoundTrip(s);
    case VI64(n) => I64RoundTrip(n);
    case VF64(f) =>
    case VTime(t) => DateTimeRoundTrip(t);
    case VStatus(st) => StatusRoundTrip(st);
    case VUuid(u) => UuidRoundTrip(u);
    case VBool(b) =>
  }

  // ----- record types and values -----

  datatype Field = Field(name: string, kind: FieldKind)

  /** Field names of a declaration are distinct (the compiler insists). */
  predicate DistinctNames(fields: seq<Field>) {
    forall i, j :: 0 <= i < j < |fields| ==> fields[i].name != fields[j].name
  }

  function FieldNames(fields: seq<Field>): (ns: seq<string>)
    ensures |ns| == |fields|
    ensures forall i :: 0 <= i < |fields| ==> ns[i] == fields[i].name
  {
    if |fields| == 0 then [] else FieldNames(fields[..|fields| - 1]) + [fields[|fields| - 1].name]
  }

  /** A record value is one value per declared field, each of its field's
      type. */
  predicate Fits(fields: seq<Field>, vals: seq<FieldValue>) {
    |vals| == |fields| && forall i :: 0 <= i < |fields| ==> KindOf(vals[i]) == fields[i].kind
  }

  function EncodeAll(vals: seq<FieldValue>): (cs: seq<CqlType>)
    ensures |cs| == |vals|
    ensures forall i :: 0 <= i < |vals| ==> cs[i] == EncodeField(vals[i])
  {
    if |vals| == 0 then [] else EncodeAll(vals[..|vals| - 1]) + [EncodeField(vals[|vals| - 1])]
  }

  /** Derived `to_cql`: insert every field's encoding under the field's
      name, in declaration order, giving a `Row` whose key set is exactly the
      declared field names, each mapped to that field's own encoding. */
  function EncodeRecord(fields: seq<Field>, vals: seq<FieldValue>): (r: CqlType)
    requires Fits(fields, vals) && DistinctNames(fields)
    ensures r.Row?
    ensures r.row.Keys == set i | 0 <= i < |fields| :: fields[i].name
    ensures forall i :: 0 <= i < |fields| ==> r.row[fields[i].name] == EncodeField(vals[i])
  {
    var names := FieldNames(fields);
    var encoded := EncodeAll(vals);
    DistinctAllSurvive(names, encoded);
    assert (set i | 0 <= i < |fields| :: names[i]) == (set i | 0 <= i < |fields| :: fields[i].name);
    Row(Insertions(names, encoded, |fields|))
  }

  /** Generated `try_from(&HashMap)`: look up each declared field by name in
      declaration order; a missing key or a failing field decode is `Err(())`.
      Keys that are not declared fields are never looked at. */
  function TryFromMap(fields: seq<Field>, m: CqlMap): (r: Result<seq<FieldValue>, ()>)
    ensures r.Ok? <==> forall i :: 0 <= i < |fields| ==>
                         fields[i].name in m && DecodeField(fields[i].kind, m[fields[i].name]).Ok?
    ensures r.Ok? ==> |r.value| == |fields| && Fits(fields, r.value)
    ensures r.Ok? ==> forall i :: 0 <= i < |fields| ==>
                        r.value[i] == DecodeField(fields[i].kind, m[fields[i].name]).value
  {
    if |fields| == 0 then Ok([])
    else
      var f := fields[0];
      if f.name !in m then Err(())
      else match DecodeField(f.kind, m[f.name])
        case Err(e) => Err(e)
        case Ok(v) =>
          match TryFromMap(fields[1..], m)
          case Err(e) => Err(e)
          case Ok(rest) =>
            assert forall i :: 1 <= i < |fields| ==> fields[i] == fields[1..][i - 1];
            Ok([v] + rest)
  }

  /** The two error strings of the generated `from_cql`. */
  const TypeMismatch: string := "type mismatch"
  const OnlyRowVariant: string := "only expecting row variant"

  /** Derived `from_cql`: only a `Row` is accepted; any failure inside it is
      reported as a type mismatch. */
  function DecodeRecord(fields: seq<Field>, c: CqlType): (r: Result<seq<FieldValue>, string>)
    ensures !c.Row? ==> r == Err(OnlyRowVariant)
    ensures c.Row? ==> (r.Ok? <==> TryFromMap(fields, c.row).Ok?)
    ensures c.Row? && r.Ok? ==> r.value == TryFromMap(fields, c.row).value
    ensures c.Row? && r.Err? ==> r.error == TypeMismatch
  {
    match c
    case Row(m) =>
      (match TryFromMap(fields, m)
       case Ok(vals) => Ok(vals)
       case Err(_) => Err(TypeMismatch))
    case _ => Err(OnlyRowVariant)
  }

  /** Undeclared keys do not matter: two rows that agree on the declared
      fields decode alike. */
  lemma {:induction false} DecodeIgnoresExtraKeys(fields: seq<Field>, m1: CqlMap, m2: CqlMap)
    requires forall i :: 0 <= i < |fields| ==>
               (fields[i].name in m1 <==> fields[i].name in m2)
               && (fields[i].name in m1 ==> m1[fields[i].name] == m2[fields[i].name])
    ensures DecodeRecord(fields, Row(m1)) == DecodeRecord(fields, Row(m2))
  {
    var r1 := TryFromMap(fields, m1);
    var r2 := TryFromMap(fields, m2);
    assert r1.Ok? <==> r2.Ok?;
    if r1.Ok? {
      assert r1.value == r2.value;
    }
  }

  lemma {:induction false} RecordRoundTripWhenFieldsDo(fields: seq<Field>, vals: seq<FieldValue>)
    requires Fits(fields, vals) && DistinctNames(fields)
    requires forall i :: 0 <= i < |vals| ==> FieldRoundTrips(vals[i])
    ensures DecodeRecord(fields, EncodeRecord(fields, vals)) == Ok(vals)
  {
    var m := EncodeRecord(fields, vals).row;
    forall i | 0 <= i < |fields|
      ensures DecodeField(fields[i].kind, m[fields[i].name]) == Ok(vals[i])
    {
      FieldRoundTrip(vals[i]);
    }
    var r := TryFromMap(fields, m);
    assert r.Ok?;
    assert |r.value| == |vals|;
    assert forall i :: 0 <= i < |vals| ==> r.value[i] == vals[i];
    assert r.value == vals;
    assert EncodeRecord(fields, vals) == Row(m);
  }

  lemma {:induction false} FieldsRoundTripWhenRecordDoes(fields: seq<Field>, vals: seq<FieldValue>)
    requires Fits(fields, vals) && DistinctNames(fields)
    requires DecodeRecord(fields, EncodeRecord(fields, vals)) == Ok(vals)
    ensures forall i :: 0 <= i < |vals| ==> FieldRoundTrips(vals[i])
  {
    var m := EncodeRecord(fields, vals).row;
    var r := TryFromMap(fields, m);
    assert r.Ok? && r.value == vals;
    forall i | 0 <= i < |vals|
      ensures FieldRoundTrips(vals[i])
    {
      assert vals[i] == DecodeField(fields[i].kind, m[fields[i].name]).value;
      assert m[fields[i].name] == EncodeField(vals[i]);
      FieldRoundTrip(vals[i]);
    }
  }

  /** A record round-trips through its derived conversions exactly when
      every one of its fields does. */
  lemma RecordRoundTrip(fields: seq<Field>, vals: seq<FieldValue>)
    requires Fits(fields, vals) && DistinctNames(fields)
    ensures DecodeRecord(fields, EncodeRecord(fields, vals)) == Ok(vals) <==>
              forall i :: 0 <= i < |vals| ==> FieldRoundTrips(vals[i])
  {
    if forall i :: 0 <= i < |vals| ==> FieldRoundTrips(vals[i]) {
      RecordRoundTripWhenFieldsDo(fields, vals);
    }
    if DecodeRecord(fields, EncodeRecord(fields, vals)) == Ok(vals) {
      FieldsRoundTripWhenRecordDoes(fields, vals);
    }
  }

  // ----- derive input -----

  /** The shape of the item a derive is applied to. */
  datatype Fields = Named(fields: seq<Field>) | Unnamed(arity: nat) | Unit
  datatype Data = Struct(body: Fields) | Enum | Union

  datatype DeriveInput = DeriveInput(name: string, data: Data)

  /** `generate_derive_body`: only a struct with named fields has a derived
      `to_cql`; the two compile errors name what went wrong. */
  function DeriveToCql(data: Data): (r: Result<seq<Field>, string>)
    ensures r.Ok? <==> data.Struct? && data.body.Named?
    ensures r.Ok? ==> r.value == data.body.fields
    ensures data.Struct? && !data.body.Named? ==> r == Err("unnamed structs not supported")
    ensures !data.Struct? ==> r == Err("only structs supported")
  {
    match data
    case Struct(Named(fs)) => Ok(fs)
    case Struct(_) => Err("unnamed structs not supported")
    case _ => Err("only structs supported")
  }

  /** `get_fields` as used by `derive_from_cql`. */
  function DeriveFromCql(data: Data): (r: Result<seq<Field>, string>)
    ensures r.Ok? <==> data.Struct? && data.body.Named?
    ensures r.Ok? ==> r.value == data.body.fields
    ensures r.Err? ==> r.error == "expected struct with named fields"
  {
    match data
    case Struct(Named(fs)) => Ok(fs)
    case _ => Err("expected struct with named fields")
  }
}
