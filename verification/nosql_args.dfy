/** The argument list of the `#[nosql(...)]` attribute and its parser
    (`impl Parse for Args`, crates/sin/src/lib.rs): a comma-separated list of
    `key = value` entries, where `table` and `keyspace` take an expression
    and `partition_key` and `clustering_key` take an array of column names. */
module NosqlArgs {
  import opened Wrappers
  import opened Text

  /** The attribute's tokens, with every value already a single token: an
      identifier, a literal (its source text, quotes included), or a bracketed
      array whose elements are kept as their printed text. */
  datatype Tok =
    | IdentTok(name: string)
    | LitTok(text: string)
    | ArrayTok(elems: seq<string>)
    | EqTok
    | CommaTok

  /** `to_token_stream().to_string()` of a value token. */
  function Render(t: Tok): string {
    match t
    case IdentTok(n) => n
    case LitTok(s) => s
    case ArrayTok(es) => "[" + Join(es, " , ") + "]"
    case EqTok => "="
    case CommaTok => ","
  }

  datatype Args = Args(
    partitionKey: Option<seq<string>>,
    clusteringKey: Option<seq<string>>,
    table: Option<string>,
    keyspace: Option<string>)

  const NoArgs: Args := Args(None, None, None, None)

  /** The parse failures syn reports: a key that is not an identifier, a
      missing `=`, a missing expression, a value that is not an array, and a
      missing `,` between entries. */
  datatype ParseError = ExpectedIdent | ExpectedEq | ExpectedExpression | ExpectedArray | ExpectedComma

  predicate KnownKey(k: string) {
    k == "table" || k == "keyspace" || k == "partition_key" || k == "clustering_key"
  }

  predicate TakesExpression(k: string) {
    k == "table" || k == "keyspace"
  }

  predicate IsExpression(t: Tok) {
    t.IdentTok? || t.LitTok? || t.ArrayTok?
  }

  /** Store the value of one known entry; a later entry with the same key
      replaces the earlier value. */
  function Assign(acc: Args, k: string, v: Tok): (r: Result<Args, ParseError>)
    requires KnownKey(k)
    ensures TakesExpression(k) ==> (r.Ok? <==> IsExpression(v))
    ensures !TakesExpression(k) ==> (r.Ok? <==> v.ArrayTok?)
    ensures r.Ok? && k == "table" ==> r.value == acc.(table := Some(Render(v)))
    ensures r.Ok? && k == "keyspace" ==> r.value == acc.(keyspace := Some(Render(v)))
    ensures r.Ok? && k == "partition_key" ==> r.value == acc.(partitionKey := Some(v.elems))
    ensures r.Ok? && k == "clustering_key" ==> r.value == acc.(clusteringKey := Some(v.elems))
  {
    if TakesExpression(k) then
      if !IsExpression(v) then Err(ExpectedExpression)
      else if k == "table" then Ok(acc.(table := Some(Render(v))))
      else Ok(acc.(keyspace := Some(Render(v))))
    else if !v.ArrayTok? then Err(ExpectedArray)
    else if k == "partition_key" then Ok(acc.(partitionKey := Some(v.elems)))
    else Ok(acc.(clusteringKey := Some(v.elems)))
  }

  /** The loop of `Args::parse`: read `key =`, read the value only for a
      known key (an unknown key's value is not consumed), then require a
      comma unless the input is exhausted. */
  function ParseFrom(ts: seq<Tok>, acc: Args): Result<Args, ParseError>
    decreases |ts|, 1
  {
    if |ts| == 0 then Ok(acc)
    else if !ts[0].IdentTok? then Err(ExpectedIdent)
    else if |ts| == 1 || ts[1] != EqTok then Err(ExpectedEq)
    else
      var k := ts[0].name;
      if !KnownKey(k) then AfterEntry(ts[2..], acc)
      else if |ts| == 2 then Err(if TakesExpression(k) then ExpectedExpression else ExpectedArray)
      else
        match Assign(acc, k, ts[2])
        case Err(e) => Err(e)
        case Ok(next) => AfterEntry(ts[3..], next)
  }

  function AfterEntry(ts: seq<Tok>, acc: Args): Result<Args, ParseError>
    decreases |ts|, 0
  {
    if |ts| == 0 then Ok(acc)
    else if ts[0] != CommaTok then Err(ExpectedComma)
    else ParseFrom(ts[1..], acc)
  }

  function ParseArgs(ts: seq<Tok>): Result<Args, ParseError> {
    ParseFrom(ts, NoArgs)
  }

  /** One well-formed entry followed by a comma is applied, and parsing goes
      on with the rest as if from the updated arguments. */
  lemma {:induction false} EntryThenRest(k: string, v: Tok, rest: seq<Tok>, acc: Args)
    requires KnownKey(k) && Assign(acc, k, v).Ok?
    ensures ParseFrom([IdentTok(k), EqTok, v, CommaTok] + rest, acc)
         == ParseFrom(rest, Assign(acc, k, v).value)
  {
    var ts := [IdentTok(k), EqTok, v, CommaTok] + rest;
    assert ts[3..] == [CommaTok] + rest;
    assert ts[3..][1..] == rest;
  }

  /** The last entry, with nothing after it. */
  lemma {:induction false} LastEntry(k: string, v: Tok, acc: Args)
    requires KnownKey(k)
    ensures ParseFrom([IdentTok(k), EqTok, v], acc) == Assign(acc, k, v)
  {
    assert [IdentTok(k), EqTok, v][3..] == [];
  }

  /** A key given twice keeps the later value. */
  lemma {:induction false} RepeatedKeyLastWins(k: string, v1: Tok, v2: Tok, acc: Args)
    requires KnownKey(k) && Assign(acc, k, v1).Ok? && Assign(acc, k, v2).Ok?
    ensures ParseFrom([IdentTok(k), EqTok, v1, CommaTok, IdentTok(k), EqTok, v2], acc)
         == Assign(acc, k, v2)
  {
    var rest := [IdentTok(k), EqTok, v2];
    assert [IdentTok(k), EqTok, v1, CommaTok, IdentTok(k), EqTok, v2]
        == [IdentTok(k), EqTok, v1, CommaTok] + rest;
    EntryThenRest(k, v1, rest, acc);
    LastEntry(k, v2, Assign(acc, k, v1).value);
  }

  /** An unknown key leaves its value unread, so unless that value is
      itself a comma the parse stops with a missing comma. */
  lemma {:induction false} UnknownKeyNeedsComma(k: string, v: Tok, rest: seq<Tok>, acc: Args)
    requires !KnownKey(k) && v != CommaTok
    ensures ParseFrom([IdentTok(k), EqTok, v] + rest, acc) == Err(ExpectedComma)
  {
    var ts := [IdentTok(k), EqTok, v] + rest;
    assert ts[2..] == [v] + rest;
  }

  /** `#[nosql(partition_key = [id], clustering_key = [status],
      keyspace = test, table = payments)]` from crates/try_sin/src/main.rs. */
  lemma PaymentArgs()
    ensures ParseArgs([IdentTok("partition_key"), EqTok, ArrayTok(["id"]), CommaTok,
                       IdentTok("clustering_key"), EqTok, ArrayTok(["status"]), CommaTok,
                       IdentTok("keyspace"), EqTok, IdentTok("test"), CommaTok,
                       IdentTok("table"), EqTok, IdentTok("payments")])
         == Ok(Args(Some(["id"]), Some(["status"]), Some("payments"), Some("test")))
  {
    var a1 := Args(Some(["id"]), None, None, None);
    var a2 := a1.(clusteringKey := Some(["status"]));
    var a3 := a2.(keyspace := Some("test"));
    var t4 := [IdentTok("table"), EqTok, IdentTok("payments")];
    var t3 := [IdentTok("keyspace"), EqTok, IdentTok("test"), CommaTok] + t4;
    var t2 := [IdentTok("clustering_key"), EqTok, ArrayTok(["status"]), CommaTok] + t3;
    var t1 := [IdentTok("partition_key"), EqTok, ArrayTok(["id"]), CommaTok] + t2;
    var fin := Args(Some(["id"]), Some(["status"]), Some("payments"), Some("test"));
    LastEntry("table", IdentTok("payments"), a3);
    assert ParseFrom(t4, a3) == Ok(fin);
    EntryThenRest("keyspace", IdentTok("test"), t4, a2);
    assert ParseFrom(t3, a2) == Ok(fin);
    EntryThenRest("clustering_key", ArrayTok(["status"]), t3, a1);
    assert ParseFrom(t2, a1) == Ok(fin);
    EntryThenRest("partition_key", ArrayTok(["id"]), t2, NoArgs);
    assert ParseFrom(t1, NoArgs) == Ok(fin);
    assert t1 == [IdentTok("partition_key"), EqTok, ArrayTok(["id"]), CommaTok,
                  IdentTok("clustering_key"), EqTok, ArrayTok(["status"]), CommaTok,
                  IdentTok("keyspace"), EqTok, IdentTok("test"), CommaTok,
                  IdentTok("table"), EqTok, IdentTok("payments")];
  }
}
