/** What the `#[nosql(...)]` attribute (crates/sin/src/lib.rs) generates for
    a struct: the table and keyspace names, the prepared INSERT statement,
    and one `filter_by_...` function for the partition key and one more per
    clustering-key prefix, each returning an open SELECT clause. */
module NosqlMacro {
  import opened Wrappers
  import opened Text
  import opened CqlTypes
  import opened MapBuild
  import opened Records
  import opened NosqlArgs
  import opened CassandraQuery
  import opened SelectBuilding
  import opened InsertStatement

  // ----- resolving key names to fields (get_field_with_types) -----

  /** A key name from the attribute and, once resolved, the field it names. */
  datatype KeyRef = KeyRef(name: string, index: Option<Field>)

  function Unresolved(keys: seq<string>): (refs: seq<KeyRef>)
    ensures |refs| == |keys|
    ensures forall j :: 0 <= j < |keys| ==> refs[j] == KeyRef(keys[j], None)
  {
    if |keys| == 0 then [] else [KeyRef(keys[0], None)] + Unresolved(keys[1..])
  }

  /** Position of the first reference carrying `name` (`iter_mut().find`). */
  function FindRef(refs: seq<KeyRef>, name: string): (r: Option<nat>)
    ensures r.Some? ==> r.value < |refs| && refs[r.value].name == name
    ensures r.Some? ==> forall i :: 0 <= i < r.value ==> refs[i].name != name
    ensures r.None? ==> forall i :: 0 <= i < |refs| ==> refs[i].name != name
  {
    if |refs| == 0 then None
    else if refs[0].name == name then Some(0)
    else match FindRef(refs[1..], name)
      case None => None
      case Some(i) => Some(i + 1)
  }

  /** One field visited: the first reference with its name points at it. */
  function Mark(refs: seq<KeyRef>, f: Field): seq<KeyRef> {
    match FindRef(refs, f.name)
    case None => refs
    case Some(j) => refs[j := KeyRef(refs[j].name, Some(f))]
  }

  /** Visit the fields in declaration order. */
  function ResolveFields(refs: seq<KeyRef>, fields: seq<Field>): seq<KeyRef>
    decreases |fields|
  {
    if |fields| == 0 then refs else ResolveFields(Mark(refs, fields[0]), fields[1..])
  }

  /** No earlier reference carries the same name. */
  predicate FirstOfName(refs: seq<KeyRef>, j: nat)
    requires j < |refs|
  {
    forall i :: 0 <= i < j ==> refs[i].name != refs[j].name
  }

  predicate Names(fields: seq<Field>, name: string) {
    exists i :: 0 <= i < |fields| && fields[i].name == name
  }

  lemma {:induction false} ResolvePreservesNames(refs: seq<KeyRef>, fields: seq<Field>)
    ensures |ResolveFields(refs, fields)| == |refs|
    ensures forall j :: 0 <= j < |refs| ==> ResolveFields(refs, fields)[j].name == refs[j].name
    decreases |fields|
  {
    if |fields| > 0 {
      ResolvePreservesNames(Mark(refs, fields[0]), fields[1..]);
    }
  }

  /** With distinct field names, a reference ends up pointing at the field
      of its name exactly when it is the first reference with that name and
      some field has that name; every other reference is left as it was. */
  lemma {:induction false} ResolveSpec(refs: seq<KeyRef>, fields: seq<Field>, j: nat)
    requires DistinctNames(fields) && j < |refs|
    ensures |ResolveFields(refs, fields)| == |refs|
    ensures forall i :: 0 <= i < |fields| && fields[i].name == refs[j].name && FirstOfName(refs, j) ==>
              ResolveFields(refs, fields)[j].index == Some(fields[i])
    ensures !(FirstOfName(refs, j) && Names(fields, refs[j].name)) ==>
              ResolveFields(refs, fields)[j].index == refs[j].index
    decreases |fields|
  {
    ResolvePreservesNames(refs, fields);
    if |fields| > 0 {
      var f := fields[0];
      var m := Mark(refs, f);
      assert |m| == |refs|;
      assert forall i :: 0 <= i < |refs| ==> m[i].name == refs[i].name;
      assert FirstOfName(m, j) <==> FirstOfName(refs, j);
      assert DistinctNames(fields[1..]);
      ResolveSpec(m, fields[1..], j);
      if FirstOfName(refs, j) && f.name == refs[j].name {
        assert m[j].index == Some(f);
        assert !Names(fields[1..], refs[j].name);
      } else {
        assert m[j] == refs[j];
        assert Names(fields[1..], refs[j].name) ==> Names(fields, refs[j].name);
      }
    }
  }

  /** The keys a declaration's attribute names, resolved against its fields:
      key `j` resolves exactly when it is the first occurrence of its name
      and a field has that name, and then to that field. */
  lemma ResolveKeys(keys: seq<string>, fields: seq<Field>, j: nat)
    requires DistinctNames(fields) && j < |keys|
    ensures |ResolveFields(Unresolved(keys), fields)| == |keys|
    ensures ResolveFields(Unresolved(keys), fields)[j].index.Some? <==>
              (forall i :: 0 <= i < j ==> keys[i] != keys[j]) && Names(fields, keys[j])
    ensures forall i :: 0 <= i < |fields| && fields[i].name == keys[j]
                        && (forall i' :: 0 <= i' < j ==> keys[i'] != keys[j]) ==>
              ResolveFields(Unresolved(keys), fields)[j].index == Some(fields[i])
  {
    var refs := Unresolved(keys);
    ResolveSpec(refs, fields, j);
    assert FirstOfName(refs, j) <==> (forall i :: 0 <= i < j ==> keys[i] != keys[j]);
  }

  predicate AllResolved(refs: seq<KeyRef>) {
    forall j :: 0 <= j < |refs| ==> refs[j].index.Some?
  }

  /** The resolved fields of a fully resolved key list, in key order. */
  function KeyFields(refs: seq<KeyRef>): (fs: seq<Field>)
    requires AllResolved(refs)
    ensures |fs| == |refs|
    ensures forall j :: 0 <= j < |refs| ==> fs[j] == refs[j].index.value
  {
    if |refs| == 0 then [] else [refs[0].index.value] + KeyFields(refs[1..])
  }

  // ----- generated filter functions (generate_filters, FilterByBuilder) -----

  /** A generated `filter_by_...` function: its name and its parameters, one
      per key column in attribute order. */
  datatype FilterFn = FilterFn(name: string, params: seq<Field>)

  /** `fn_prefix` after `add` was called for each key: `filter_by` and then
      `_{key}` per key. */
  function FilterName(keys: seq<string>): (n: string)
    ensures |n| >= 9 && n[..9] == "filter_by"
  {
    if |keys| == 0 then "filter_by"
    else
      var p := FilterName(keys[..|keys| - 1]);
      assert (p + "_" + keys[|keys| - 1])[..9] == p[..9];
      p + "_" + keys[|keys| - 1]
  }

  function RefNames(refs: seq<KeyRef>): (ns: seq<string>)
    ensures |ns| == |refs|
    ensures forall j :: 0 <= j < |refs| ==> ns[j] == refs[j].name
  {
    if |refs| == 0 then [] else [refs[0].name] + RefNames(refs[1..])
  }

  /** The message of `Option::unwrap` on `None`. */
  const UnwrapNone: string := "called `Option::unwrap()` on a `None` value"

  /** `to_tokens` for the keys added so far: every key must have resolved. */
  function EmitFilter(dataMap: seq<KeyRef>): (r: Result<FilterFn, string>)
    ensures r.Ok? <==> AllResolved(dataMap)
    ensures r.Err? ==> r.error == UnwrapNone
    ensures r.Ok? ==> r.value.params == KeyFields(dataMap)
    ensures r.Ok? ==> r.value.name == FilterName(RefNames(dataMap))
  {
    if AllResolved(dataMap) then Ok(FilterFn(FilterName(RefNames(dataMap)), KeyFields(dataMap)))
    else Err(UnwrapNone)
  }

  /** One function per clustering-key prefix, after the partition keys. */
  function EmitPrefixes(pk: seq<KeyRef>, ck: seq<KeyRef>, n: nat): (r: Result<seq<FilterFn>, string>)
    requires n <= |ck|
    ensures r.Ok? <==> forall j :: 1 <= j <= n ==> AllResolved(pk + ck[..j])
    ensures r.Ok? ==> |r.value| == n
    ensures r.Ok? ==> forall j :: 0 <= j < n ==> Ok(r.value[j]) == EmitFilter(pk + ck[..j + 1])
    ensures r.Err? ==> r.error == UnwrapNone
  {
    if n == 0 then Ok([])
    else
      match EmitPrefixes(pk, ck, n - 1)
      case Err(e) => Err(e)
      case Ok(fs) =>
        match EmitFilter(pk + ck[..n])
        case Err(e) => Err(e)
        case Ok(f) => Ok(fs + [f])
  }

  /** `generate_filters`: the partition-key function, then one per
      clustering-key prefix; an unresolved key panics. */
  function GenerateFilters(pk: seq<KeyRef>, ck: Option<seq<KeyRef>>): (r: Result<seq<FilterFn>, string>)
    ensures r.Err? ==> r.error == UnwrapNone
  {
    match EmitFilter(pk)
    case Err(e) => Err(e)
    case Ok(first) =>
      var cks := if ck.Some? then ck.value else [];
      match EmitPrefixes(pk, cks, |cks|)
      case Err(e) => Err(e)
      case Ok(rest) => Ok([first] + rest)
  }

  /** Every clustering-key prefix after the partition keys is resolved
      exactly when all keys are. */
  lemma ResolvedPrefixes(pk: seq<KeyRef>, cks: seq<KeyRef>)
    ensures AllResolved(pk) && AllResolved(cks) <==>
            AllResolved(pk) && forall j :: 1 <= j <= |cks| ==> AllResolved(pk + cks[..j])
  {
    if AllResolved(pk) && AllResolved(cks) {
      forall j | 1 <= j <= |cks| ensures AllResolved(pk + cks[..j]) {
        var s := pk + cks[..j];
        forall k | 0 <= k < |s| ensures s[k].index.Some? {
          if k >= |pk| {
            assert s[k] == cks[k - |pk|];
          }
        }
      }
    }
    if AllResolved(pk) && |cks| > 0 && AllResolved(pk + cks[..|cks|]) {
      var s := pk + cks[..|cks|];
      forall k | 0 <= k < |cks| ensures cks[k].index.Some? {
        assert s[|pk| + k] == cks[k];
      }
    }
  }

  /** The generation succeeds exactly when every key resolved. */
  lemma GenerateFiltersOk(pk: seq<KeyRef>, ck: Option<seq<KeyRef>>)
    ensures var cks := if ck.Some? then ck.value else [];
            GenerateFilters(pk, ck).Ok? <==> AllResolved(pk) && AllResolved(cks)
  {
    ResolvedPrefixes(pk, if ck.Some? then ck.value else []);
  }

  /** One function for the partition key and one per clustering key, the
      `j`-th taking the partition keys and the first `j` clustering keys. */
  lemma GenerateFiltersSpec(pk: seq<KeyRef>, ck: Option<seq<KeyRef>>)
    requires GenerateFilters(pk, ck).Ok?
    ensures var cks := if ck.Some? then ck.value else [];
            |GenerateFilters(pk, ck).value| == 1 + |cks|
            && (forall j :: 0 <= j <= |cks| ==>
                  AllResolved(pk + cks[..j])
                  && GenerateFilters(pk, ck).value[j]
                     == FilterFn(FilterName(RefNames(pk + cks[..j])), KeyFields(pk + cks[..j])))
  {
    var cks := if ck.Some? then ck.value else [];
    var r := GenerateFilters(pk, ck).value;
    var rest := EmitPrefixes(pk, cks, |cks|).value;
    assert r == [EmitFilter(pk).value] + rest;
    assert pk + cks[..0] == pk;
    forall j | 0 <= j <= |cks|
      ensures AllResolved(pk + cks[..j])
      ensures r[j] == FilterFn(FilterName(RefNames(pk + cks[..j])), KeyFields(pk + cks[..j]))
    {
      if j > 0 {
        assert r[j] == rest[j - 1];
      }
    }
  }

  /** A single resolved partition key and no clustering key: one function,
      named after the key and taking its field. */
  lemma PartitionKeyOnly(name: string, f: Field)
    ensures GenerateFilters([KeyRef(name, Some(f))], None) == Ok([FilterFn(FilterName([name]), [f])])
  {
    var pk := [KeyRef(name, Some(f))];
    assert AllResolved(pk);
    assert RefNames(pk) == [name];
    assert KeyFields(pk) == [f];
    var f0 := FilterFn(FilterName([name]), [f]);
    assert EmitFilter(pk) == Ok(f0);
    var none: seq<KeyRef> := [];
    assert EmitPrefixes(pk, none, |none|) == Ok([]);
    var r := GenerateFilters(pk, None);
    assert r == Ok([f0] + []);
    assert r.value == [f0];
  }

  // ----- what a generated filter function does -----

  /** The chain the generated body calls on `wh()` as written: a single key
      gives `.eq(k)`; any other number of keys gives `.and().eq(k)` per key. */
  function FilterOpsAsWritten(keys: seq<string>): (ops: seq<ClauseOp>)
  {
    if |keys| == 1 then [OpEq(keys[0])] else AndEqEach(keys)
  }

  function AndEqEach(keys: seq<string>): (ops: seq<ClauseOp>)
    ensures |ops| == 2 * |keys|
  {
    if |keys| == 0 then [] else [OpAnd, OpEq(keys[0])] + AndEqEach(keys[1..])
  }

  /** The evidently intended chain: `.eq(k1)` and then `.and().eq(k)` for
      each further key, so `AND` only ever joins two conditions. */
  function FilterOps(keys: seq<string>): (ops: seq<ClauseOp>)
  {
    if |keys| == 0 then [] else [OpEq(keys[0])] + AndEqEach(keys[1..])
  }

  function EqTexts(keys: seq<string>): (ts: seq<string>)
    ensures |ts| == |keys|
    ensures forall i :: 0 <= i < |keys| ==> ts[i] == keys[i] + " = ? "
  {
    if |keys| == 0 then [] else [keys[0] + " = ? "] + EqTexts(keys[1..])
  }

  lemma {:induction false} AndEqEachText(c: SelectClause, keys: seq<string>)
    ensures Chain(c, AndEqEach(keys)).query.text
         == c.query.text + AndEqText(keys)
    ensures Chain(c, AndEqEach(keys)).fields == c.fields
    decreases |keys|
  {
    if |keys| > 0 {
      var c1 := Apply(c, OpAnd);
      var c2 := Apply(c1, OpEq(keys[0]));
      ApplyAppends(c, OpAnd);
      ApplyAppends(c1, OpEq(keys[0]));
      EqFragment(keys[0]);
      var ops := AndEqEach(keys);
      assert ops[1..][1..] == AndEqEach(keys[1..]);
      assert Chain(c, ops) == Chain(c2, AndEqEach(keys[1..]));
      AndEqEachText(c2, keys[1..]);
    }
  }

  /** `AND k = ? ` per key. */
  function AndEqText(keys: seq<string>): string {
    if |keys| == 0 then "" else "AND " + keys[0] + " = ? " + AndEqText(keys[1..])
  }

  /** The intended WHERE body: the key conditions joined by `AND `. */
  lemma {:induction false} FilterOpsText(c: SelectClause, keys: seq<string>)
    ensures Chain(c, FilterOps(keys)).query.text == c.query.text + Join(EqTexts(keys), "AND ")
    ensures Chain(c, FilterOps(keys)).fields == c.fields
  {
    if |keys| > 0 {
      var c1 := Apply(c, OpEq(keys[0]));
      ApplyAppends(c, OpEq(keys[0]));
      EqFragment(keys[0]);
      assert FilterOps(keys)[1..] == AndEqEach(keys[1..]);
      assert Chain(c, FilterOps(keys)) == Chain(c1, AndEqEach(keys[1..]));
      AndEqEachText(c1, keys[1..]);
      JoinAndEq(keys);
    }
  }

  lemma {:induction false} JoinAndEq(keys: seq<string>)
    requires |keys| > 0
    ensures Join(EqTexts(keys), "AND ") == keys[0] + " = ? " + AndEqText(keys[1..])
    decreases |keys|
  {
    if |keys| > 1 {
      JoinAndEq(keys[1..]);
      assert EqTexts(keys)[1..] == EqTexts(keys[1..]);
    } else {
      assert AndEqText(keys[1..]) == "";
    }
  }

  /** The bind map a generated function builds from its arguments:
      `HashMap::from([(name, value.to_cql()), ...])`. */
  function FilterBinds(params: seq<Field>, args: seq<FieldValue>): (m: CqlMap)
    requires |args| == |params|
  {
    Insertions(FieldNames(params), EncodeAll(args), |params|)
  }

  /** Calling a generated filter function with one argument per parameter:
      an open SELECT clause on the model's table holding the key conditions,
      and the arguments' encodings as its binds. */
  function InvokeFilter(f: FilterFn, table: string, keyspace: string, args: seq<FieldValue>): (c: SelectClause)
    requires Fits(f.params, args)
    ensures c.fields == FilterBinds(f.params, args)
  {
    FilterOpsText(Wh(NewSelect(table, keyspace, FilterBinds(f.params, args))), FieldNames(f.params));
    Chain(Wh(NewSelect(table, keyspace, FilterBinds(f.params, args))), FilterOps(FieldNames(f.params)))
  }

  /** The same call with the chain as written. */
  function InvokeFilterAsWritten(f: FilterFn, table: string, keyspace: string, args: seq<FieldValue>): SelectClause
    requires Fits(f.params, args)
  {
    Chain(Wh(NewSelect(table, keyspace, FilterBinds(f.params, args))), FilterOpsAsWritten(FieldNames(f.params)))
  }

  /** A generated function's clause reads `SELECT * FROM {ks}.{table} WHERE`
      followed by its key conditions joined by `AND `. */
  lemma {:induction false} InvokeFilterText(f: FilterFn, table: string, keyspace: string, args: seq<FieldValue>)
    requires Fits(f.params, args)
    ensures InvokeFilter(f, table, keyspace, args).query.text
         == "SELECT * FROM " + keyspace + "." + table + " " + "WHERE "
            + Join(EqTexts(FieldNames(f.params)), "AND ")
  {
    FilterOpsText(Wh(NewSelect(table, keyspace, FilterBinds(f.params, args))), FieldNames(f.params));
  }

  /** Its binds map exactly the key parameters' names, each to the encoding
      of its own argument. */
  lemma {:induction false} InvokeFilterBinds(f: FilterFn, table: string, keyspace: string, args: seq<FieldValue>)
    requires Fits(f.params, args) && DistinctNames(f.params)
    ensures InvokeFilter(f, table, keyspace, args).fields.Keys
         == set i | 0 <= i < |f.params| :: f.params[i].name
    ensures forall i :: 0 <= i < |f.params| ==>
              InvokeFilter(f, table, keyspace, args).fields[f.params[i].name] == EncodeField(args[i])
  {
    var names := FieldNames(f.params);
    var enc := EncodeAll(args);
    assert Distinct(names);
    DistinctAllSurvive(names, enc);
    assert (set i | 0 <= i < |f.params| :: names[i]) == (set i | 0 <= i < |f.params| :: f.params[i].name);
  }

  /** With a single key the written chain and the intended one agree. */
  lemma SingleKeyAgrees(f: FilterFn, table: string, keyspace: string, args: seq<FieldValue>)
    requires Fits(f.params, args) && |f.params| == 1
    ensures InvokeFilterAsWritten(f, table, keyspace, args) == InvokeFilter(f, table, keyspace, args)
  {
    var names := FieldNames(f.params);
    assert AndEqEach(names[1..]) == [];
    assert FilterOps(names) == FilterOpsAsWritten(names);
  }

  /** With two or more keys the written chain opens with `WHERE AND`: the
      clause text is the head, `WHERE `, and then `AND k = ? ` for every key,
      the first included. */
  lemma AsWrittenMultiKey(f: FilterFn, table: string, keyspace: string, args: seq<FieldValue>)
    requires Fits(f.params, args) && |f.params| >= 2
    ensures InvokeFilterAsWritten(f, table, keyspace, args).query.text
         == "SELECT * FROM " + keyspace + "." + table + " " + "WHERE " + AndEqText(FieldNames(f.params))
  {
    var c0 := Wh(NewSelect(table, keyspace, FilterBinds(f.params, args)));
    AndEqEachText(c0, FieldNames(f.params));
  }

  // ----- the attribute macro -----

  /** What `nosql` emits for a model: the `NoSql` impl's three strings, the
      fields the derives encode and decode, and the filter functions. The
      `Selectable` and `Insertable` impls carry no data. */
  datatype Generated = Generated(
    table: string,
    keyspace: string,
    insertStatement: string,
    fields: seq<Field>,
    filters: seq<FilterFn>)

  /** A parse failure is reported as a compile error, `expect` failures and
      `unwrap` on an unresolved key as panics, and the two explicit checks
      as compile errors with their messages. */
  datatype MacroError =
    AttrError(e: ParseError) | ItemError(msg: string) | Panic(msg: string) | CompileError(msg: string)

  /** The filter functions for the attribute's keys, resolved against the
      struct's fields. */
  function FiltersFor(args: Args, fields: seq<Field>): Result<seq<FilterFn>, string>
    requires args.partitionKey.Some?
  {
    GenerateFilters(ResolveFields(Unresolved(args.partitionKey.value), fields),
                    if args.clusteringKey.Some?
                    then Some(ResolveFields(Unresolved(args.clusteringKey.value), fields))
                    else None)
  }

  /** The attribute macro, in the source's order of checks. `item` is the
      result of parsing the annotated item as a `DeriveInput`; its error
      message is syn's and is carried as given. */
  function Nosql(attrs: seq<Tok>, item: Result<DeriveInput, string>): (r: Result<Generated, MacroError>)
    ensures ParseArgs(attrs).Err? ==> r == Err(AttrError(ParseArgs(attrs).error))
    ensures ParseArgs(attrs).Ok? && item.Err? ==> r == Err(ItemError(item.error))
    ensures ParseArgs(attrs).Ok? && item.Ok? && ParseArgs(attrs).value.table.None? ==>
              r == Err(Panic("table name expected"))
    ensures (ParseArgs(attrs).Ok? && item.Ok? && ParseArgs(attrs).value.table.Some?
             && ParseArgs(attrs).value.keyspace.None?) ==> r == Err(Panic("keyspace expected"))
    ensures (ParseArgs(attrs).Ok? && item.Ok? && ParseArgs(attrs).value.table.Some?
             && ParseArgs(attrs).value.keyspace.Some? && ParseArgs(attrs).value.partitionKey.None?) ==>
              r == Err(CompileError("primary keys not found"))
    ensures (ParseArgs(attrs).Ok? && item.Ok? && ParseArgs(attrs).value.table.Some?
             && ParseArgs(attrs).value.keyspace.Some? && ParseArgs(attrs).value.partitionKey.Some?
             && !(item.value.data.Struct? && item.value.data.body.Named?)) ==>
              r == Err(CompileError("expected struct with named fields"))
    ensures (ParseArgs(attrs).Ok? && item.Ok? && ParseArgs(attrs).value.table.Some?
             && ParseArgs(attrs).value.keyspace.Some? && ParseArgs(attrs).value.partitionKey.Some?
             && item.value.data.Struct? && item.value.data.body.Named?
             && FiltersFor(ParseArgs(attrs).value, item.value.data.body.fields).Err?) ==>
              r == Err(Panic(UnwrapNone))
    ensures r.Ok? ==> ParseArgs(attrs).Ok? && ParseArgs(attrs).value.table == Some(r.value.table)
                      && ParseArgs(attrs).value.keyspace == Some(r.value.keyspace)
                      && ParseArgs(attrs).value.partitionKey.Some?
                      && item.Ok? && item.value.data == Struct(Named(r.value.fields))
    ensures r.Ok? ==> r.value.insertStatement == GenerateInsert(r.value.table, r.value.keyspace, r.value.fields)
    ensures r.Ok? ==> FiltersFor(ParseArgs(attrs).value, r.value.fields) == Ok(r.value.filters)
  {
    match ParseArgs(attrs)
    case Err(e) => Err(AttrError(e))
    case Ok(args) =>
      match item
      case Err(msg) => Err(ItemError(msg))
      case Ok(input) =>
        if args.table.None? then Err(Panic("table name expected"))
        else if args.keyspace.None? then Err(Panic("keyspace expected"))
        else if args.partitionKey.None? then Err(CompileError("primary keys not found"))
        else
          match DeriveFromCql(input.data)
          case Err(_) => Err(CompileError("expected struct with named fields"))
          case Ok(fields) =>
            var table := args.table.value;
            var keyspace := args.keyspace.value;
            match FiltersFor(args, fields)
            case Err(msg) => Err(Panic(msg))
            case Ok(filters) =>
              Ok(Generated(table, keyspace, GenerateInsert(table, keyspace, fields), fields, filters))
  }

  /** A partition key that names no field of the struct makes the macro
      panic on the unresolved key. */
  lemma NosqlUnknownKeyPanics(attrs: seq<Tok>, input: DeriveInput, k: nat)
    requires ParseArgs(attrs).Ok? && ParseArgs(attrs).value.table.Some?
    requires ParseArgs(attrs).value.keyspace.Some? && ParseArgs(attrs).value.partitionKey.Some?
    requires input.data.Struct? && input.data.body.Named? && DistinctNames(input.data.body.fields)
    requires k < |ParseArgs(attrs).value.partitionKey.value|
    requires !Names(input.data.body.fields, ParseArgs(attrs).value.partitionKey.value[k])
    ensures Nosql(attrs, Ok(input)) == Err(Panic(UnwrapNone))
  {
    var args := ParseArgs(attrs).value;
    var fields := input.data.body.fields;
    var pk := ResolveFields(Unresolved(args.partitionKey.value), fields);
    var ck := if args.clusteringKey.Some?
              then Some(ResolveFields(Unresolved(args.clusteringKey.value), fields))
              else None;
    ResolveKeys(args.partitionKey.value, fields, k);
    assert !AllResolved(pk);
    GenerateFiltersOk(pk, ck);
  }

  /** When the arguments parse with a table, a keyspace and a partition
      key, the item is a struct with named fields and every key resolves,
      the macro emits the insert statement and the filter functions. */
  lemma {:induction false} NosqlSucceeds(attrs: seq<Tok>, input: DeriveInput, args: Args,
                                         fields: seq<Field>, filters: seq<FilterFn>)
    requires ParseArgs(attrs) == Ok(args)
    requires args.table.Some? && args.keyspace.Some? && args.partitionKey.Some?
    requires input.data == Struct(Named(fields))
    requires GenerateFilters(ResolveFields(Unresolved(args.partitionKey.value), fields),
                             if args.clusteringKey.Some?
                             then Some(ResolveFields(Unresolved(args.clusteringKey.value), fields))
                             else None) == Ok(filters)
    ensures Nosql(attrs, Ok(input))
         == Ok(Generated(args.table.value, args.keyspace.value,
                         GenerateInsert(args.table.value, args.keyspace.value, fields),
                         fields, filters))
  {
  }

  // ----- the two models of the repository -----

  const PaymentFields: seq<Field> := PaymentColumnFields

  const PaymentAttrs: seq<Tok> :=
    [IdentTok("partition_key"), EqTok, ArrayTok(["id"]), CommaTok,
     IdentTok("clustering_key"), EqTok, ArrayTok(["status"]), CommaTok,
     IdentTok("keyspace"), EqTok, IdentTok("test"), CommaTok,
     IdentTok("table"), EqTok, IdentTok("payments")]

  lemma PaymentKeys()
    ensures ResolveFields(Unresolved(["id"]), PaymentFields) == [KeyRef("id", Some(Field("id", KI64)))]
    ensures ResolveFields(Unresolved(["status"]), PaymentFields)
         == [KeyRef("status", Some(Field("status", KString)))]
  {
    var fields := PaymentFields;
    assert DistinctNames(fields);
    ResolveKeys(["id"], fields, 0);
    ResolveKeys(["status"], fields, 0);
    assert fields[0].name == "id" && fields[1].name == "status";
  }

  lemma PaymentFilterNames()
    ensures FilterName(["id"]) == "filter_by_id"
    ensures FilterName(["id", "status"]) == "filter_by_id_status"
  {
    assert ["id"][..0] == [];
    assert ["id", "status"][..1] == ["id"];
  }

  lemma PaymentFilters()
    ensures GenerateFilters([KeyRef("id", Some(Field("id", KI64)))],
                            Some([KeyRef("status", Some(Field("status", KString)))]))
         == Ok([FilterFn("filter_by_id", [Field("id", KI64)]),
                FilterFn("filter_by_id_status", [Field("id", KI64), Field("status", KString)])])
  {
    var pk := [KeyRef("id", Some(Field("id", KI64)))];
    var ck := [KeyRef("status", Some(Field("status", KString)))];
    var f0 := FilterFn("filter_by_id", [Field("id", KI64)]);
    var f1 := FilterFn("filter_by_id_status", [Field("id", KI64), Field("status", KString)]);
    assert AllResolved(pk) && AllResolved(ck);
    GenerateFiltersOk(pk, Some(ck));
    GenerateFiltersSpec(pk, Some(ck));
    var r := GenerateFilters(pk, Some(ck));
    assert |r.value| == 2;
    assert pk + ck[..0] == pk && pk + ck[..1] == pk + ck;
    assert RefNames(pk + ck) == ["id", "status"];
    assert RefNames(pk) == ["id"];
    assert KeyFields(pk) == f0.params;
    assert KeyFields(pk + ck) == f1.params;
    PaymentFilterNames();
    assert r.value[0] == f0;
    assert r.value[1] == f1;
    assert r.value == [f0, f1];
  }

  /** `Payment` (crates/try_sin/src/main.rs): table `payments` in keyspace
      `test`, its insert statement, and the two functions `filter_by_id` and
      `filter_by_id_status`. */
  lemma PaymentExpansion()
    ensures Nosql(PaymentAttrs, Ok(DeriveInput("Payment", Struct(Named(PaymentFields)))))
         == Ok(Generated("payments", "test",
                         "INSERT INTO test.payments (id,status,amount) VALUES(?,?,?)",
                         PaymentFields,
                         [FilterFn("filter_by_id", [Field("id", KI64)]),
                          FilterFn("filter_by_id_status", [Field("id", KI64), Field("status", KString)])]))
  {
    PaymentArgs();
    PaymentKeys();
    PaymentFilters();
    PaymentInsert();
    NosqlSucceeds(PaymentAttrs, DeriveInput("Payment", Struct(Named(PaymentFields))),
                  Args(Some(["id"]), Some(["status"]), Some("payments"), Some("test")),
                  PaymentFields,
                  [FilterFn("filter_by_id", [Field("id", KI64)]),
                   FilterFn("filter_by_id_status", [Field("id", KI64), Field("status", KString)])]);
  }

  const SchemaFields: seq<Field> :=
    [Field("version", KString), Field("time", KTime), Field("is_run", KBool)]

  const SchemaAttrs: seq<Tok> :=
    [IdentTok("partition_key"), EqTok, ArrayTok(["version"]), CommaTok,
     IdentTok("table"), EqTok, IdentTok("migration_metadata"), CommaTok,
     IdentTok("keyspace"), EqTok, IdentTok("metadata")]

  const SchemaArgs: Args := Args(Some(["version"]), None, Some("migration_metadata"), Some("metadata"))

  lemma SchemaArgsParse()
    ensures ParseArgs(SchemaAttrs) == Ok(SchemaArgs)
  {
    var a1 := Args(Some(["version"]), None, None, None);
    var a2 := a1.(table := Some("migration_metadata"));
    var t3 := [IdentTok("keyspace"), EqTok, IdentTok("metadata")];
    var t2 := [IdentTok("table"), EqTok, IdentTok("migration_metadata"), CommaTok] + t3;
    var t1 := [IdentTok("partition_key"), EqTok, ArrayTok(["version"]), CommaTok] + t2;
    LastEntry("keyspace", IdentTok("metadata"), a2);
    assert ParseFrom(t3, a2) == Ok(SchemaArgs);
    EntryThenRest("table", IdentTok("migration_metadata"), t3, a1);
    assert ParseFrom(t2, a1) == Ok(SchemaArgs);
    EntryThenRest("partition_key", ArrayTok(["version"]), t2, NoArgs);
    assert t1 == SchemaAttrs;
  }

  lemma SchemaKey()
    ensures ResolveFields(Unresolved(["version"]), SchemaFields)
         == [KeyRef("version", Some(Field("version", KString)))]
  {
    var fields := SchemaFields;
    assert DistinctNames(fields);
    ResolveKeys(["version"], fields, 0);
    assert fields[0].name == "version";
  }

  lemma SchemaFilters()
    ensures GenerateFilters(ResolveFields(Unresolved(["version"]), SchemaFields), None)
         == Ok([FilterFn("filter_by_version", [Field("version", KString)])])
  {
    SchemaKey();
    PartitionKeyOnly("version", Field("version", KString));
    assert ["version"][..0] == [];
    assert FilterName(["version"]) == "filter_by_version";
  }

  /** The migration tracking record (crates/sin_migrate/src/setup/schema.rs):
      table `migration_metadata` in keyspace `metadata`, one filter
      function `filter_by_version`. */
  lemma SchemaExpansion()
    ensures Nosql(SchemaAttrs, Ok(DeriveInput("Schema", Struct(Named(SchemaFields)))))
         == Ok(Generated("migration_metadata", "metadata",
                         GenerateInsert("migration_metadata", "metadata", SchemaFields),
                         SchemaFields,
                         [FilterFn("filter_by_version", [Field("version", KString)])]))
  {
    SchemaArgsParse();
    SchemaFilters();
    NosqlSucceeds(SchemaAttrs, DeriveInput("Schema", Struct(Named(SchemaFields))), SchemaArgs,
                  SchemaFields, [FilterFn("filter_by_version", [Field("version", KString)])]);
  }
}
