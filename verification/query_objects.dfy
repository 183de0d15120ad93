/** The single-use query objects of crates/traits/src/query/query.rs: each
    holds what a store needs to run one statement, and each query kind
    declares the shape of what running it yields (`QueryResultType`). */
module QueryObjects {
  import opened CqlTypes

  /** What the `NoSql` trait tells about a model type: its table, its
      keyspace and its prepared insert statement. Two model types are told
      apart by this descriptor. */
  datatype ModelInfo = ModelInfo(table: string, keyspace: string, insertStatement: string)

  /** The errors a query reports; the code only names them. */
  datatype QueryError = E01 | E02 | E03

  datatype FindOne = FindOne(model: ModelInfo, binds: CqlMap, query: string)

  datatype FindAll = FindAll(model: ModelInfo, binds: CqlMap, query: string)

  /** The where-binds and the set-binds are kept in two separate maps. */
  datatype Update = Update(model: ModelInfo, whereBinds: CqlMap, setBinds: CqlMap, query: string)

  datatype Create<T> = Create(model: ModelInfo, record: T)

  /** `FindOne::create_query`: binds and text are stored as given. */
  function FindOneQuery(model: ModelInfo, binds: CqlMap, query: string): (q: FindOne)
    ensures q.model == model && q.binds == binds && q.query == query
  {
    FindOne(model, binds, query)
  }

  /** `FindAll::create_query`: binds and text are stored as given. */
  function FindAllQuery(model: ModelInfo, binds: CqlMap, query: string): (q: FindAll)
    ensures q.model == model && q.binds == binds && q.query == query
  {
    FindAll(model, binds, query)
  }

  /** `Update::create_query`: the two bind maps stay apart, in argument
      order, and are never merged. */
  function UpdateQuery(model: ModelInfo, whereBinds: CqlMap, setBinds: CqlMap, query: string): (q: Update)
    ensures q.model == model && q.whereBinds == whereBinds && q.setBinds == setBinds && q.query == query
  {
    Update(model, whereBinds, setBinds, query)
  }

  /** `Create::create_query`: the record is held unchanged. */
  function CreateQuery<T>(model: ModelInfo, record: T): (q: Create<T>)
    ensures q.model == model && q.record == record
  {
    Create(model, record)
  }

  // ----- what each query kind yields (QueryResultType::Output) -----

  /** The query kinds: the four above, the builder's `SelectQuery`, and the
      private `Delete`. */
  datatype QueryKind = FindOneKind | SelectQueryKind | FindAllKind | UpdateKind | CreateKind | DeleteKind

  /** A value a query of some kind may yield: one record, a list of
      records, a count of rows, or a success flag. */
  datatype Output<T> = OneRecord(record: T) | Records(records: seq<T>) | RowCount(n: nat) | Flag(ok: bool)

  /** The `Output` associated type of each kind, as a test on values. */
  predicate Yields<T>(k: QueryKind, o: Output<T>) {
    match k
    case FindOneKind => o.OneRecord?
    case SelectQueryKind => o.OneRecord?
    case FindAllKind => o.Records?
    case UpdateKind => o.RowCount?
    case CreateKind => o.Flag?
    case DeleteKind => o.Flag?
  }

  /** Every output value belongs to exactly the kinds of one shape: `FindOne`
      and `SelectQuery` yield the model itself, `FindAll` a list of models,
      `Update` a `usize`, `Create` and `Delete` a `bool`. */
  lemma OutputShapes<T>(o: Output<T>)
    ensures Yields(FindOneKind, o) <==> Yields(SelectQueryKind, o)
    ensures Yields(CreateKind, o) <==> Yields(DeleteKind, o)
    ensures Yields(FindOneKind, o) ==> !Yields(FindAllKind, o) && !Yields(UpdateKind, o) && !Yields(CreateKind, o)
    ensures Yields(FindAllKind, o) ==> !Yields(UpdateKind, o) && !Yields(CreateKind, o)
    ensures Yields(UpdateKind, o) ==> !Yields(CreateKind, o)
    ensures exists k :: Yields(k, o)
  {
    match o
    case OneRecord(_) => assert Yields(FindOneKind, o);
    case Records(_) => assert Yields(FindAllKind, o);
    case RowCount(_) => assert Yields(UpdateKind, o);
    case Flag(_) => assert Yields(CreateKind, o);
  }
}
