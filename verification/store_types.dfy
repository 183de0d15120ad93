/** The three mappings from transport-native values into `CqlType`
    (crates/traits/src/data_types/types.rs): Stargate `Value`s, Stargate
    result sets read row by row through `AstraResultIter`, and Scylla column
    kinds through `deserialize` / `type_check`. */
module StoreTypes {
  import opened Wrappers
  import opened CqlTypes
  import opened MapBuild

  // ----- Stargate values -----

  /** An `f32`, kept as its bit pattern. */
  datatype Float32 = Float32(bits: bv32)

  /** Widening `f as f64` is floating-point work outside this model; it is
      handed in by the caller. */
  type Widen = Float32 -> Float64

  /** The `Inner` payload of a Stargate `Value`. `Other` stands for the kinds
      the mapping does not handle (uuid, inet, date, time, collection, udt,
      varint, decimal), named by their protocol tag. */
  datatype Inner =
    | InnerInt(i: i64)
    | InnerFloat(f: Float32)
    | InnerDouble(d: Float64)
    | InnerBoolean(b: bool)
    | InnerString(s: string)
    | InnerBytes(bytes: seq<u8>)
    | InnerNull
    | Other(tag: string)

  datatype Value = Value(inner: Option<Inner>)

  /** The `unimplemented!` panic for an unhandled kind. */
  datatype Unimplemented = Unimplemented

  predicate Supported(v: Value) {
    v.inner.None? || !v.inner.value.Other?
  }

  /** `Value::to_cql`: absent and null both give `Null`, int gives `NumInt`,
      float and double give `NumFloat`, boolean, string and bytes give their
      namesakes; every other kind panics. */
  function ValueToCql(v: Value, widen: Widen): (r: Result<CqlType, Unimplemented>)
    ensures r.Ok? <==> Supported(v)
  {
    match v.inner
    case None => Ok(Null)
    case Some(inner) =>
      match inner
      case InnerInt(i) => Ok(NumInt(i))
      case InnerDouble(d) => Ok(NumFloat(d))
      case InnerFloat(f) => Ok(NumFloat(widen(f)))
      case InnerBoolean(b) => Ok(Bool(b))
      case InnerString(s) => Ok(Str(s))
      case InnerBytes(b) => Ok(Bytes(b))
      case InnerNull => Ok(Null)
      case Other(_) => Err(Unimplemented)
  }

  /** Which variant each Stargate kind lands in: the two null forms coincide,
      both float widths land in `NumFloat`, and no Stargate value becomes a
      `Row` or a `Timestamp`. */
  lemma {:induction false} ValueToCqlVariants(v: Value, widen: Widen)
    ensures ValueToCql(v, widen) == Ok(Null) <==> (v.inner.None? || v.inner == Some(InnerNull))
    ensures (var r := ValueToCql(v, widen); r.Ok? && r.value.NumInt?) <==>
              v.inner.Some? && v.inner.value.InnerInt?
    ensures (var r := ValueToCql(v, widen); r.Ok? && r.value.NumFloat?) <==>
              v.inner.Some? && (v.inner.value.InnerFloat? || v.inner.value.InnerDouble?)
    ensures (var r := ValueToCql(v, widen); r.Ok? ==> !r.value.Row? && !r.value.Timestamp?)
    ensures v.inner.Some? && v.inner.value.InnerInt? ==>
              ValueToCql(v, widen) == Ok(NumInt(v.inner.value.i))
    ensures v.inner.Some? && v.inner.value.InnerDouble? ==>
              ValueToCql(v, widen) == Ok(NumFloat(v.inner.value.d))
    ensures v.inner.Some? && v.inner.value.InnerFloat? ==>
              ValueToCql(v, widen) == Ok(NumFloat(widen(v.inner.value.f)))
    ensures v.inner.Some? && v.inner.value.InnerBoolean? ==>
              ValueToCql(v, widen) == Ok(Bool(v.inner.value.b))
    ensures v.inner.Some? && v.inner.value.InnerString? ==>
              ValueToCql(v, widen) == Ok(Str(v.inner.value.s))
    ensures v.inner.Some? && v.inner.value.InnerBytes? ==>
              ValueToCql(v, widen) == Ok(Bytes(v.inner.value.bytes))
  {
  }

  // ----- Stargate result sets -----

  datatype ColumnSpec = ColumnSpec(name: string)
  datatype StargateRow = StargateRow(values: seq<Value>)

  function Min(a: nat, b: nat): nat {
    if a <= b then a else b
  }

  function ColumnNames(cols: seq<ColumnSpec>): (ns: seq<string>)
    ensures |ns| == |cols|
    ensures forall i :: 0 <= i < |cols| ==> ns[i] == cols[i].name
  {
    seq(|cols|, i requires 0 <= i < |cols| => cols[i].name)
  }

  /** None of the first `n` values is of an unhandled kind. */
  predicate AllSupported(vals: seq<Value>, n: nat)
    requires n <= |vals|
  {
    forall i :: 0 <= i < n ==> Supported(vals[i])
  }

  /** Convert the first `n` values in order; the first unhandled kind
      panics. */
  function ConvertAll(vals: seq<Value>, widen: Widen, n: nat): (r: Result<seq<CqlType>, Unimplemented>)
    requires n <= |vals|
    ensures r.Ok? <==> AllSupported(vals, n)
    ensures r.Ok? ==> |r.value| == n
                      && forall i :: 0 <= i < n ==> Ok(r.value[i]) == ValueToCql(vals[i], widen)
  {
    if n == 0 then Ok([])
    else
      var prev := ConvertAll(vals, widen, n - 1);
      var cur := ValueToCql(vals[n - 1], widen);
      if prev.Err? then prev
      else if cur.Err? then Err(cur.error)
      else Ok(prev.value + [cur.value])
  }

  /** One `next()` worth of map building: zip the column specs with the
      row's values, stopping at the shorter, and insert each converted value
      under its column name, so a later duplicate name overwrites. A value of
      an unhandled kind panics, and a panic discards the whole map, so
      converting first and inserting afterwards has the same outcome. */
  function ZipToMap(cols: seq<ColumnSpec>, row: StargateRow, widen: Widen)
    : Result<CqlMap, Unimplemented>
  {
    var n := Min(|cols|, |row.values|);
    var converted :- ConvertAll(row.values, widen, n);
    Ok(Insertions(ColumnNames(cols), converted, n))
  }

  /** The map holds exactly the names of the zipped columns; a name's value
      is the conversion of the value paired with its last occurrence; the
      row panics exactly when one of the zipped values is of an unhandled
      kind. */
  lemma ZipToMapContents(cols: seq<ColumnSpec>, row: StargateRow, widen: Widen)
    ensures var r := ZipToMap(cols, row, widen);
            var n := Min(|cols|, |row.values|);
            && (r.Ok? <==> AllSupported(row.values, n))
            && (r.Ok? ==> r.value.Keys == set i | 0 <= i < n :: cols[i].name)
            && (r.Ok? ==> forall i :: 0 <= i < n && LastOf(ColumnNames(cols), n, i) ==>
                            Ok(r.value[cols[i].name]) == ValueToCql(row.values[i], widen))
  {
    KeysAreColumnNames(cols, Min(|cols|, |row.values|));
  }

  lemma KeysAreColumnNames(cols: seq<ColumnSpec>, n: nat)
    requires n <= |cols|
    ensures KeysUpTo(ColumnNames(cols), n) == set i | 0 <= i < n :: cols[i].name
  {
    var names := ColumnNames(cols);
    assert (set i | 0 <= i < n :: names[i]) == (set i | 0 <= i < n :: cols[i].name);
  }

  datatype AstraResultIter =
    | Rows(rows: seq<StargateRow>, cols: seq<ColumnSpec>)
    | Empty

  /** `ResultSet::to_row_iter`. */
  function NewIter(cols: seq<ColumnSpec>, rows: seq<StargateRow>): AstraResultIter {
    Rows(rows, cols)
  }

  datatype Step = Step(item: Option<CqlMap>, rest: AstraResultIter)

  /** `next()`: pop the LAST remaining row. An exhausted `Rows` stays as it
      is and yields nothing, and so does `Empty`. */
  function Next(it: AstraResultIter, widen: Widen): (r: Result<Step, Unimplemented>)
    ensures it.Empty? ==> r == Ok(Step(None, Empty))
    ensures it.Rows? && |it.rows| == 0 ==> r == Ok(Step(None, it))
    ensures it.Rows? && |it.rows| > 0 ==>
              r.Ok? == ZipToMap(it.cols, it.rows[|it.rows| - 1], widen).Ok?
    ensures it.Rows? && |it.rows| > 0 && r.Ok? ==>
              && r.value.item == Some(ZipToMap(it.cols, it.rows[|it.rows| - 1], widen).value)
              && r.value.rest == Rows(it.rows[..|it.rows| - 1], it.cols)
  {
    match it
    case Empty => Ok(Step(None, Empty))
    case Rows(rows, cols) =>
      if |rows| == 0 then Ok(Step(None, it))
      else
        var m :- ZipToMap(cols, rows[|rows| - 1], widen);
        Ok(Step(Some(m), Rows(rows[..|rows| - 1], cols)))
  }

  function Remaining(it: AstraResultIter): nat {
    if it.Rows? then |it.rows| else 0
  }

  /** `ms` holds one map per row, the last row's first. */
  predicate ReversedMaps(rows: seq<StargateRow>, cols: seq<ColumnSpec>, widen: Widen, ms: seq<CqlMap>) {
    |ms| == |rows| && forall i :: 0 <= i < |rows| ==> ZipToMap(cols, rows[|rows| - 1 - i], widen) == Ok(ms[i])
  }

  /** Every row converts. */
  predicate AllRowsConvert(rows: seq<StargateRow>, cols: seq<ColumnSpec>, widen: Widen) {
    forall i :: 0 <= i < |rows| ==> ZipToMap(cols, rows[i], widen).Ok?
  }

  /** The map of one more row in front of the maps of the rows before it. */
  lemma RowsCons(rows: seq<StargateRow>, cols: seq<ColumnSpec>, widen: Widen, m: CqlMap, tail: seq<CqlMap>)
    requires |rows| > 0 && ZipToMap(cols, rows[|rows| - 1], widen) == Ok(m)
    requires ReversedMaps(rows[..|rows| - 1], cols, widen, tail)
    ensures ReversedMaps(rows, cols, widen, [m] + tail)
  {
    var n := |rows| - 1;
    var ms := [m] + tail;
    forall i | 0 < i < |rows| ensures ZipToMap(cols, rows[n - i], widen) == Ok(ms[i]) {
      assert ms[i] == tail[i - 1];
      assert rows[..n][n - 1 - (i - 1)] == rows[n - i];
    }
  }

  /** The rows convert exactly when the rows before the last and the last
      one do. */
  lemma ConvertSplit(rows: seq<StargateRow>, cols: seq<ColumnSpec>, widen: Widen)
    requires |rows| > 0
    ensures AllRowsConvert(rows, cols, widen) <==>
              AllRowsConvert(rows[..|rows| - 1], cols, widen) && ZipToMap(cols, rows[|rows| - 1], widen).Ok?
  {
    var n := |rows| - 1;
    if AllRowsConvert(rows[..n], cols, widen) {
      forall i | 0 <= i < n ensures ZipToMap(cols, rows[i], widen).Ok? {
        assert rows[..n][i] == rows[i];
      }
    }
  }

  /** Drive `next()` until it yields nothing, collecting the maps: one per
      row, last row first; the first row that does not convert (counting
      from the end) panics. */
  function Drain(it: AstraResultIter, widen: Widen): (r: Result<seq<CqlMap>, Unimplemented>)
    ensures it.Empty? ==> r == Ok([])
    ensures it.Rows? ==> (r.Ok? <==> AllRowsConvert(it.rows, it.cols, widen))
    ensures it.Rows? && r.Ok? ==> ReversedMaps(it.rows, it.cols, widen, r.value)
    decreases Remaining(it)
  {
    if it.Empty? || |it.rows| == 0 then Ok([])
    else
      var rows, cols := it.rows, it.cols;
      ConvertSplit(rows, cols, widen);
      var m :- ZipToMap(cols, rows[|rows| - 1], widen);
      var tail :- Drain(Rows(rows[..|rows| - 1], cols), widen);
      RowsCons(rows, cols, widen, m, tail);
      Ok([m] + tail)
  }

  /** `Drain` is the loop that calls `next()` until it yields nothing: a
      panic in `next()` ends it, and otherwise the yielded map comes first. */
  lemma DrainFollowsNext(it: AstraResultIter, widen: Widen)
    ensures Next(it, widen).Err? ==> Drain(it, widen) == Err(Next(it, widen).error)
    ensures Next(it, widen).Ok? && Next(it, widen).value.item.None? ==> Drain(it, widen) == Ok([])
    ensures Next(it, widen).Ok? && Next(it, widen).value.item.Some? ==>
              Remaining(Next(it, widen).value.rest) < Remaining(it)
              && Drain(it, widen) == (match Drain(Next(it, widen).value.rest, widen)
                                      case Err(e) => Err(e)
                                      case Ok(tail) => Ok([Next(it, widen).value.item.value] + tail))
  {
  }

  /** One step of `Drain` on a non-empty row list: the last row's map comes
      first, followed by what the shortened iterator yields. */
  lemma DrainStep(rows: seq<StargateRow>, cols: seq<ColumnSpec>, widen: Widen)
    requires |rows| > 0 && Drain(Rows(rows, cols), widen).Ok?
    ensures ZipToMap(cols, rows[|rows| - 1], widen).Ok?
    ensures Drain(Rows(rows[..|rows| - 1], cols), widen).Ok?
    ensures Drain(Rows(rows, cols), widen).value ==
              [ZipToMap(cols, rows[|rows| - 1], widen).value]
              + Drain(Rows(rows[..|rows| - 1], cols), widen).value
  {
  }

  /** `AstraResultIter::empty()` yields nothing. */
  lemma EmptyYieldsNothing(widen: Widen)
    ensures Drain(Empty, widen) == Ok([])
  {
  }

  // ----- Scylla column kinds -----

  /** The column kinds Scylla's driver reports. */
  datatype ColumnType =
    | Boolean | Decimal | Double | Float | Int | BigInt | Text
    | Ascii | Blob | Counter | Date | Duration | TimestampCol | Inet
    | SmallInt | TinyInt | Time | Timeuuid | UuidCol | Varint
    | List | Set | Map | Tuple | UserDefinedType | Custom

  datatype DeserializationError = UnknownType | Malformed

  /** What the driver's own typed decoders (`bool::deserialize`,
      `f64::deserialize`, `i64::deserialize`, `String::deserialize`) make of
      one cell. Their byte-level work is outside this model. */
  datatype Cell = Cell(
    asBool: Result<bool, DeserializationError>,
    asF64: Result<Float64, DeserializationError>,
    asI64: Result<i64, DeserializationError>,
    asText: Result<string, DeserializationError>)

  predicate Handled(t: ColumnType) {
    t in {Boolean, Decimal, Double, Float, Int, BigInt, Text}
  }

  /** `type_check`: accepts exactly the seven handled kinds. */
  function TypeCheck(t: ColumnType): (r: Result<(), DeserializationError>)
    ensures r.Ok? <==> Handled(t)
    ensures r.Err? ==> r.error == UnknownType
  {
    match t
    case Boolean => Ok(())
    case Decimal => Ok(())
    case Double => Ok(())
    case Float => Ok(())
    case Int => Ok(())
    case BigInt => Ok(())
    case Text => Ok(())
    case _ => Err(UnknownType)
  }

  /** `deserialize`: the kind picks the variant and the typed decoder, whose
      failure is passed on; unhandled kinds fail with `UnknownType`. */
  function Deserialize(t: ColumnType, cell: Cell): (r: Result<CqlType, DeserializationError>)
  {
    match t
    case Boolean => var b :- cell.asBool; Ok(Bool(b))
    case Decimal => var f :- cell.asF64; Ok(NumFloat(f))
    case Double => var f :- cell.asF64; Ok(NumFloat(f))
    case Float => var f :- cell.asF64; Ok(NumFloat(f))
    case Int => var n :- cell.asI64; Ok(NumInt(n))
    case BigInt => var n :- cell.asI64; Ok(NumInt(n))
    case Text => var s :- cell.asText; Ok(Str(s))
    case _ => Err(UnknownType)
  }

  /** `deserialize` and `type_check` agree: every kind `type_check` rejects
      fails to deserialize with `UnknownType`; every kind it accepts
      deserializes whenever the matching typed decoder succeeds, into the
      variant named by the kind. */
  lemma {:induction false} DeserializeAgreesWithTypeCheck(t: ColumnType, cell: Cell)
    ensures TypeCheck(t).Err? ==> Deserialize(t, cell) == Err(UnknownType)
    ensures Deserialize(t, cell).Ok? ==> TypeCheck(t).Ok?
    ensures t == Boolean ==> Deserialize(t, cell).Ok? == cell.asBool.Ok?
    ensures t in {Decimal, Double, Float} ==> Deserialize(t, cell).Ok? == cell.asF64.Ok?
    ensures t in {Int, BigInt} ==> Deserialize(t, cell).Ok? == cell.asI64.Ok?
    ensures t == Text ==> Deserialize(t, cell).Ok? == cell.asText.Ok?
    ensures Deserialize(t, cell).Ok? ==>
              var v := Deserialize(t, cell).value;
              && (t == Boolean <==> v.Bool?)
              && (t in {Decimal, Double, Float} <==> v.NumFloat?)
              && (t in {Int, BigInt} <==> v.NumInt?)
              && (t == Text <==> v.Str?)
  {
    match t
    case Boolean =>
    case Decimal =>
    case Double =>
    case Float =>
    case Int =>
    case BigInt =>
    case Text =>
    case _ =>
  }
}
