/** The typed builders of crates/traits/src/query/client.rs. A select,
    select-all or update builder starts in `Init`, where the only move is
    `filter_by`, which brings it to `Ready`, where the only move is `build`.
    The model type a builder is for is its `ModelInfo`; a filter made for
    one model type is accepted only by builders for that model type. */
module Client {
  import opened Wrappers
  import opened CqlTypes
  import opened QueryObjects

  /** `FilterBy<T>`: the bind map and the WHERE text, tagged with the model
      type it was made for. */
  datatype FilterBy = FilterBy(model: ModelInfo, filter: CqlMap, queryString: string)

  function NewFilterBy(model: ModelInfo, filter: CqlMap, queryString: string): (f: FilterBy)
    ensures f.model == model && f.filter == filter && f.queryString == queryString
  {
    FilterBy(model, filter, queryString)
  }

  datatype State = Init | Ready

  /** The message of the `expect` in every `build`. */
  const FilterNotFound: string := "filter not found"

  // ----- statement texts -----

  function SelectHead(m: ModelInfo): string {
    "SELECT * FROM " + m.keyspace + "." + m.table + " WHERE "
  }

  /** `SELECT * FROM {ks}.{table} WHERE {filter}`. */
  function SelectStatement(m: ModelInfo, queryString: string): string {
    SelectHead(m) + queryString
  }

  /** `UPDATE {ks}.{table} SET {set} WHERE {filter}`. */
  function UpdateStatement(m: ModelInfo, setText: string, queryString: string): string {
    "UPDATE " + m.keyspace + "." + m.table + " SET " + setText + " WHERE " + queryString
  }

  /** Reading the filter text back off a select statement for a known
      model type. */
  function SelectFilterText(m: ModelInfo, text: string): (r: Option<string>)
    ensures r.Some? ==> SelectStatement(m, r.value) == text
  {
    var h := SelectHead(m);
    if |h| <= |text| && text[..|h|] == h then
      assert h + text[|h|..] == text;
      Some(text[|h|..])
    else None
  }

  /** The select text keeps the filter text whole: it can be read back, so
      two filters with different texts never give the same statement. */
  lemma SelectFilterTextRoundTrip(m: ModelInfo, queryString: string)
    ensures SelectFilterText(m, SelectStatement(m, queryString)) == Some(queryString)
  {
    var h := SelectHead(m);
    var t := SelectStatement(m, queryString);
    assert t[..|h|] == h;
    assert t[|h|..] == queryString;
  }

  lemma SelectStatementInjective(m: ModelInfo, q1: string, q2: string)
    requires SelectStatement(m, q1) == SelectStatement(m, q2)
    ensures q1 == q2
  {
    SelectFilterTextRoundTrip(m, q1);
    SelectFilterTextRoundTrip(m, q2);
  }

  /** Both the select and the update text end in ` WHERE ` and the filter
      text. */
  lemma {:induction false} StatementsEndWithFilter(m: ModelInfo, setText: string, queryString: string)
    ensures var s := SelectStatement(m, queryString);
            var w := " WHERE " + queryString;
            |w| <= |s| && s[|s| - |w|..] == w
    ensures var u := UpdateStatement(m, setText, queryString);
            var w := " WHERE " + queryString;
            |w| <= |u| && u[|u| - |w|..] == w
  {
    var w := " WHERE " + queryString;
    var p := "SELECT * FROM " + m.keyspace + "." + m.table;
    assert SelectStatement(m, queryString) == p + w;
    var up := "UPDATE " + m.keyspace + "." + m.table + " SET " + setText;
    assert UpdateStatement(m, setText, queryString) == up + w;
  }

  // ----- select -----

  datatype SelectBuilder = SelectBuilder(model: ModelInfo, whClause: Option<FilterBy>, state: State)

  /** A builder is consistent when it holds a filter exactly in `Ready`;
      every builder the operations below produce is consistent. */
  predicate SelectConsistent(b: SelectBuilder) {
    b.state == Ready <==> b.whClause.Some?
  }

  /** `Selectable::select` / `SelectBuilder::default`. */
  function Select(m: ModelInfo): (b: SelectBuilder)
    ensures b.model == m && b.state == Init && SelectConsistent(b)
  {
    SelectBuilder(m, None, Init)
  }

  /** `filter_by`: only in `Init`, only with a filter for the same model type. */
  function SelectFilterBy(b: SelectBuilder, f: FilterBy): (r: SelectBuilder)
    requires b.state == Init && f.model == b.model
    ensures r.model == b.model && r.state == Ready && r.whClause == Some(f)
    ensures SelectConsistent(r)
  {
    SelectBuilder(b.model, Some(f), Ready)
  }

  /** `build`: only in `Ready`; the `expect` fails when no filter is held,
      which a consistent builder rules out. */
  function SelectBuild(b: SelectBuilder): (r: Result<FindOne, string>)
    requires b.state == Ready
    ensures r.Ok? <==> b.whClause.Some?
    ensures SelectConsistent(b) ==> r.Ok?
    ensures r.Err? ==> r.error == FilterNotFound
    ensures r.Ok? ==> r.value.model == b.model && r.value.binds == b.whClause.value.filter
    ensures r.Ok? ==> SelectFilterText(b.model, r.value.query) == Some(b.whClause.value.queryString)
  {
    match b.whClause
    case None => Err(FilterNotFound)
    case Some(f) =>
      SelectFilterTextRoundTrip(b.model, f.queryString);
      Ok(FindOneQuery(b.model, f.filter, SelectStatement(b.model, f.queryString)))
  }

  // ----- select all -----

  datatype SelectAllBuilder = SelectAllBuilder(model: ModelInfo, whClause: Option<FilterBy>, state: State)

  predicate SelectAllConsistent(b: SelectAllBuilder) {
    b.state == Ready <==> b.whClause.Some?
  }

  function SelectAll(m: ModelInfo): (b: SelectAllBuilder)
    ensures b.model == m && b.state == Init && SelectAllConsistent(b)
  {
    SelectAllBuilder(m, None, Init)
  }

  function SelectAllFilterBy(b: SelectAllBuilder, f: FilterBy): (r: SelectAllBuilder)
    requires b.state == Init && f.model == b.model
    ensures r.model == b.model && r.state == Ready && r.whClause == Some(f)
    ensures SelectAllConsistent(r)
  {
    SelectAllBuilder(b.model, Some(f), Ready)
  }

  function SelectAllBuild(b: SelectAllBuilder): (r: Result<FindAll, string>)
    requires b.state == Ready
    ensures r.Ok? <==> b.whClause.Some?
    ensures SelectAllConsistent(b) ==> r.Ok?
    ensures r.Err? ==> r.error == FilterNotFound
    ensures r.Ok? ==> r.value.model == b.model && r.value.binds == b.whClause.value.filter
    ensures r.Ok? ==> SelectFilterText(b.model, r.value.query) == Some(b.whClause.value.queryString)
  {
    match b.whClause
    case None => Err(FilterNotFound)
    case Some(f) =>
      SelectFilterTextRoundTrip(b.model, f.queryString);
      Ok(FindAllQuery(b.model, f.filter, SelectStatement(b.model, f.queryString)))
  }

  /** `select` and `select_all` given the same filter build the same text
      and binds; they differ only in the query kind, and so in what running
      it yields. */
  lemma {:induction false} SelectAndSelectAllAgree(m: ModelInfo, f: FilterBy)
    requires f.model == m
    ensures SelectBuild(SelectFilterBy(Select(m), f)).Ok?
    ensures SelectAllBuild(SelectAllFilterBy(SelectAll(m), f)).Ok?
    ensures SelectBuild(SelectFilterBy(Select(m), f)).value.query
         == SelectAllBuild(SelectAllFilterBy(SelectAll(m), f)).value.query
    ensures SelectBuild(SelectFilterBy(Select(m), f)).value.binds
         == SelectAllBuild(SelectAllFilterBy(SelectAll(m), f)).value.binds
  {
    var one := SelectBuild(SelectFilterBy(Select(m), f));
    var all := SelectAllBuild(SelectAllFilterBy(SelectAll(m), f));
    assert SelectFilterText(m, one.value.query) == SelectFilterText(m, all.value.query);
    assert one.value.query == SelectStatement(m, f.queryString);
  }

  // ----- update -----

  /** `CqlMapWithQuery`: the SET text and its binds. */
  datatype SetClause = SetClause(text: string, binds: CqlMap)

  datatype UpdateBuilder = UpdateBuilder(model: ModelInfo, setClause: SetClause, whClause: Option<FilterBy>, state: State)

  predicate UpdateConsistent(b: UpdateBuilder) {
    b.state == Ready <==> b.whClause.Some?
  }

  const RowConversionFailed: string := "Update struct to cql row conversion failed"

  /** `Updateable::update`: the first row the update struct converts to is
      the SET clause; with no row the `expect` fails. */
  function Updateable(m: ModelInfo, rows: seq<SetClause>): (r: Result<UpdateBuilder, string>)
    ensures r.Ok? <==> |rows| > 0
    ensures r.Err? ==> r.error == RowConversionFailed
    ensures r.Ok? ==> r.value.model == m && r.value.setClause == rows[0]
    ensures r.Ok? ==> r.value.state == Init && UpdateConsistent(r.value)
  {
    if |rows| == 0 then Err(RowConversionFailed) else Ok(NewUpdate(m, rows[0]))
  }

  function NewUpdate(m: ModelInfo, clause: SetClause): (b: UpdateBuilder)
    ensures b.model == m && b.setClause == clause && b.state == Init && UpdateConsistent(b)
  {
    UpdateBuilder(m, clause, None, Init)
  }

  /** `filter_by` leaves the SET clause as it was. */
  function UpdateFilterBy(b: UpdateBuilder, f: FilterBy): (r: UpdateBuilder)
    requires b.state == Init && f.model == b.model
    ensures r.model == b.model && r.setClause == b.setClause
    ensures r.state == Ready && r.whClause == Some(f) && UpdateConsistent(r)
  {
    UpdateBuilder(b.model, b.setClause, Some(f), Ready)
  }

  /** `build`: the where-binds come from the filter, the set-binds from the
      SET clause, and the text ends in the filter's WHERE text. */
  function UpdateBuild(b: UpdateBuilder): (r: Result<Update, string>)
    requires b.state == Ready
    ensures r.Ok? <==> b.whClause.Some?
    ensures UpdateConsistent(b) ==> r.Ok?
    ensures r.Err? ==> r.error == FilterNotFound
    ensures r.Ok? ==> r.value.model == b.model
    ensures r.Ok? ==> r.value.whereBinds == b.whClause.value.filter && r.value.setBinds == b.setClause.binds
    ensures r.Ok? ==> var w := " WHERE " + b.whClause.value.queryString;
                      |w| <= |r.value.query| && r.value.query[|r.value.query| - |w|..] == w
    ensures r.Ok? ==> r.value.query == "UPDATE " + b.model.keyspace + "." + b.model.table
                                       + " SET " + b.setClause.text + " WHERE " + b.whClause.value.queryString
  {
    match b.whClause
    case None => Err(FilterNotFound)
    case Some(f) =>
      StatementsEndWithFilter(b.model, b.setClause.text, f.queryString);
      Ok(UpdateQuery(b.model, f.filter, b.setClause.binds, UpdateStatement(b.model, b.setClause.text, f.queryString)))
  }

  // ----- insert -----

  datatype InsertBuilder<T> = InsertBuilder(model: ModelInfo, record: T, preparedStatement: Option<string>)

  /** `Insertable::create`: the record is kept and the model type's insert
      statement is prepared. */
  function Insert<T>(m: ModelInfo, record: T): (b: InsertBuilder<T>)
    ensures b.model == m && b.record == record && b.preparedStatement == Some(m.insertStatement)
  {
    InsertBuilder(m, record, Some(m.insertStatement))
  }

  /** `InsertBuilder::build` wraps the record, unchanged, into `Create`. */
  function InsertBuild<T>(b: InsertBuilder<T>): (q: Create<T>)
    ensures q.model == b.model && q.record == b.record
  {
    CreateQuery(b.model, b.record)
  }

  // ----- the whole chains -----

  /** `T::select().filter_by(f).build()` never reaches the `expect`. */
  lemma SelectChain(m: ModelInfo, f: FilterBy)
    requires f.model == m
    ensures SelectBuild(SelectFilterBy(Select(m), f))
         == Ok(FindOne(m, f.filter, "SELECT * FROM " + m.keyspace + "." + m.table + " WHERE " + f.queryString))
  {
  }

  /** `x.update().filter_by(f).build()` fails only when `x` converts to no
      row, and then with the conversion message. */
  lemma UpdateChain(m: ModelInfo, rows: seq<SetClause>, f: FilterBy)
    requires f.model == m && |rows| > 0
    ensures Updateable(m, rows).Ok?
    ensures UpdateBuild(UpdateFilterBy(Updateable(m, rows).value, f))
         == Ok(Update(m, f.filter, rows[0].binds,
                      "UPDATE " + m.keyspace + "." + m.table + " SET " + rows[0].text + " WHERE " + f.queryString))
  {
  }

  /** `x.create().build()` holds `x` itself. */
  lemma InsertChain<T>(m: ModelInfo, record: T)
    ensures InsertBuild(Insert(m, record)) == Create(m, record)
  {
  }
}
