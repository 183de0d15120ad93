/** The transport-neutral value (`CqlType`) and the per-scalar conversion
    pairs `to_cql` / `from_cql` for `String`, `i64`, `f64`, `Status`, `Uuid`
    and `OffsetDateTime` (crates/traits/src/data_types/types.rs). */
module CqlTypes {
  import opened Wrappers

  newtype i64 = x: int | -0x8000_0000_0000_0000 <= x < 0x8000_0000_0000_0000
  newtype u8 = x: int | 0 <= x < 0x100

  /** An `f64` is only ever copied, never computed on, so it is kept as its
      bit pattern. */
  datatype Float64 = Float64(bits: bv64)

  /** The closed value union; `Row` nests further values by column name. */
  datatype CqlType =
    | Str(s: string)
    | Bool(b: bool)
    | Row(row: map<string, CqlType>)
    | NumInt(n: i64)
    | NumFloat(f: Float64)
    | Timestamp(secs: i64)
    | Bytes(bytes: seq<u8>)
    | Null

  type CqlMap = map<string, CqlType>

  /** The `()` error every scalar `from_cql` reports. */
  type DecodeError = ()

  // ----- String -----

  function StringToCql(s: string): CqlType {
    Str(s)
  }

  /** Accepts exactly the `Str` variant, and what it accepts it reads back
      so that encoding the answer gives the input again. */
  function StringFromCql(c: CqlType): (r: Result<string, DecodeError>)
    ensures r.Ok? <==> c.Str?
    ensures r.Ok? ==> StringToCql(r.value) == c
  {
    match c
    case Str(s) => Ok(s)
    case _ => Err(())
  }

  lemma {:induction false} StringRoundTrip(s: string)
    ensures StringFromCql(StringToCql(s)) == Ok(s)
  {
  }

  // ----- i64 -----

  function I64ToCql(n: i64): CqlType {
    NumInt(n)
  }

  function I64FromCql(c: CqlType): (r: Result<i64, DecodeError>)
    ensures r.Ok? <==> c.NumInt?
    ensures r.Ok? ==> I64ToCql(r.value) == c
  {
    match c
    case NumInt(n) => Ok(n)
    case _ => Err(())
  }

  lemma {:induction false} I64RoundTrip(n: i64)
    ensures I64FromCql(I64ToCql(n)) == Ok(n)
  {
  }

  // ----- f64 -----

  function F64ToCql(f: Float64): CqlType {
    NumFloat(f)
  }

  function F64FromCql(c: CqlType): (r: Result<Float64, DecodeError>)
    ensures r.Ok? <==> c.NumFloat?
    ensures r.Ok? ==> F64ToCql(r.value) == c
  {
    match c
    case NumFloat(f) => Ok(f)
    case _ => Err(())
  }

  // ----- Status -----

  datatype Status = StatusOk | NotOk

  /** The `Display` text of a status. */
  function StatusText(st: Status): string {
    match st
    case StatusOk => "Ok"
    case NotOk => "NotOk"
  }

  function StatusToCql(st: Status): CqlType {
    Str(StatusText(st))
  }

  /** Only the two display texts decode; any other string or variant fails. */
  function StatusFromCql(c: CqlType): (r: Result<Status, DecodeError>)
    ensures r.Ok? <==> (c == Str("Ok") || c == Str("NotOk"))
    ensures r.Ok? ==> StatusToCql(r.value) == c
  {
    if c.Str? then
      if c.s == "Ok" then Ok(StatusOk)
      else if c.s == "NotOk" then Ok(NotOk)
      else Err(())
    else Err(())
  }

  lemma {:induction false} StatusRoundTrip(st: Status)
    ensures StatusFromCql(StatusToCql(st)) == Ok(st)
  {
    match st
    case StatusOk =>
      assert StatusToCql(st) == Str("Ok");
    case NotOk =>
      assert StatusToCql(st) == Str("NotOk");
  }

  // ----- Uuid -----

  /** `struct Uuid(pub i64)`. */
  datatype Uuid = Uuid(payload: i64)

  function UuidToCql(u: Uuid): CqlType {
    NumInt(u.payload)
  }

  /** Delegates to the `i64` decoder and wraps its answer. */
  function UuidFromCql(c: CqlType): (r: Result<Uuid, DecodeError>)
    ensures r.Ok? <==> c.NumInt?
    ensures r.Ok? ==> UuidToCql(r.value) == c
  {
    var n :- I64FromCql(c);
    Ok(Uuid(n))
  }

  lemma {:induction false} UuidRoundTrip(u: Uuid)
    ensures UuidFromCql(UuidToCql(u)) == Ok(u)
  {
  }

  // ----- OffsetDateTime -----

  /** Bounds of `OffsetDateTime::from_unix_timestamp` in the `time` crate
      with its default date range (years -9999 to 9999). */
  const MinUnixSeconds: int := -377_705_116_800
  const MaxUnixSeconds: int := 253_402_300_799

  predicate InTimeRange(secs: int) {
    MinUnixSeconds <= secs <= MaxUnixSeconds
  }

  /** An instant: whole seconds since the epoch (rounded down) plus the
      nanoseconds past that second. Offsets are left out: `OffsetDateTime`
      equality compares instants only. */
  datatype DateTimeRep = DateTimeRep(unixSeconds: int, nanos: nat)

  type OffsetDateTime = d: DateTimeRep | InTimeRange(d.unixSeconds) && d.nanos < 1_000_000_000
    witness DateTimeRep(0, 0)

  /** Encoding keeps only `unix_timestamp()`, the whole seconds. */
  function DateTimeToCql(d: OffsetDateTime): (r: CqlType)
    ensures r.Timestamp? && r.secs as int == d.unixSeconds
  {
    Timestamp(d.unixSeconds as i64)
  }

  /** Accepts only `Timestamp`, and only seconds the time library can
      represent; the decoded instant has no sub-second part. */
  function DateTimeFromCql(c: CqlType): (r: Result<OffsetDateTime, DecodeError>)
    ensures r.Ok? <==> c.Timestamp? && InTimeRange(c.secs as int)
    ensures r.Ok? ==> r.value.nanos == 0 && DateTimeToCql(r.value) == c
  {
    match c
    case Timestamp(t) =>
      if InTimeRange(t as int) then Ok(DateTimeRep(t as int, 0)) else Err(())
    case _ => Err(())
  }

  /** The round trip holds exactly for whole-second instants. */
  lemma {:induction false} DateTimeRoundTrip(d: OffsetDateTime)
    ensures DateTimeFromCql(DateTimeToCql(d)) == Ok(d) <==> d.nanos == 0
  {
    var c := DateTimeToCql(d);
    assert DateTimeFromCql(c) == Ok(DateTimeRep(d.unixSeconds, 0));
  }
}
