/** The fragment-level SELECT builder of
    crates/traits/src/query_builder/select.rs: `SelectBuilder` produces the
    statement head, `wh` opens a `SelectClause` whose chain of operations
    appends condition fragments, and `limit` / `build` close it into a
    `SelectQuery` that carries the text and the bind values. */
module SelectBuilding {
  import opened Text
  import opened CqlTypes
  import opened CassandraQuery

  /** The record type's table and keyspace (`T::table_name()`,
      `T::keyspace()`) are captured at construction. */
  datatype SelectBuilder = SelectBuilder(table: string, keyspace: string, fields: CqlMap)

  datatype SelectClause = SelectClause(query: Query, fields: CqlMap)

  datatype SelectQuery = SelectQuery(query: Query, fields: CqlMap)

  function NewSelect(table: string, keyspace: string, fields: CqlMap): (b: SelectBuilder)
    ensures b.table == table && b.keyspace == keyspace && b.fields == fields
  {
    SelectBuilder(table, keyspace, fields)
  }

  /** What the builder's `walk_ast` pushes: `SELECT * FROM {ks}.{table} `. */
  function Head(b: SelectBuilder): string {
    "SELECT * FROM " + b.keyspace + "." + b.table + " "
  }

  /** `SelectClause::new` walks the `WHERE ` condition onto the query. */
  function NewClause(q: Query, fields: CqlMap): (c: SelectClause)
    ensures c.query.text == q.text + "WHERE " && c.fields == fields
  {
    PushCqlThenRead(q, Fragment(WhereClause));
    SelectClause(WalkAst(WhereClause, q), fields)
  }

  /** `wh`: a fresh query, the head, then `WHERE `. */
  function Wh(b: SelectBuilder): (c: SelectClause)
    ensures c.query.text == Head(b) + "WHERE " && c.fields == b.fields
  {
    PushCqlThenRead(New(), Head(b));
    NewClause(PushCql(New(), Head(b)), b.fields)
  }

  /** `SelectBuilder::build`: the head alone, no condition. */
  function BuildAll(b: SelectBuilder): (s: SelectQuery)
    ensures s.query.text == Head(b) && s.fields == b.fields
  {
    PushCqlThenRead(New(), Head(b));
    SelectQuery(PushCql(New(), Head(b)), b.fields)
  }

  /** The clause operations: `eq`, `gt`, `gte`, `lt`, `lte` take a column
      name, `and` and `or` take nothing. */
  datatype ClauseOp =
    | OpEq(eqCol: string)
    | OpGt(gtCol: string)
    | OpGte(gteCol: string)
    | OpLt(ltCol: string)
    | OpLte(lteCol: string)
    | OpAnd
    | OpOr

  /** The condition each operation walks. */
  function CondOf(op: ClauseOp): (c: Cond)
    ensures c != WhereClause && !c.Limit?
  {
    match op
    case OpEq(s) => Eq(s)
    case OpGt(s) => Gt(s)
    case OpGte(s) => Gte(s)
    case OpLt(s) => Lt(s)
    case OpLte(s) => Lte(s)
    case OpAnd => And
    case OpOr => Or
  }

  /** One chained call: the condition is appended and the binds are
      carried along untouched. */
  function Apply(c: SelectClause, op: ClauseOp): SelectClause
  {
    SelectClause(WalkAst(CondOf(op), c.query), c.fields)
  }

  /** A whole chain of calls, left to right. */
  function Chain(c: SelectClause, ops: seq<ClauseOp>): SelectClause
    decreases |ops|
  {
    if |ops| == 0 then c else Chain(Apply(c, ops[0]), ops[1..])
  }

  function Conds(ops: seq<ClauseOp>): (cs: seq<Cond>)
    ensures |cs| == |ops|
    ensures forall i :: 0 <= i < |ops| ==> cs[i] == CondOf(ops[i])
  {
    if |ops| == 0 then [] else [CondOf(ops[0])] + Conds(ops[1..])
  }

  /** A chain appends exactly the fragments of its conditions, in call
      order, and never touches the binds. */
  lemma {:induction false} ChainAppends(c: SelectClause, ops: seq<ClauseOp>)
    ensures Chain(c, ops).query == WalkAll(Conds(ops), c.query)
    ensures Chain(c, ops).query.text == c.query.text + Concat(Fragments(Conds(ops)))
    ensures Chain(c, ops).fields == c.fields
    decreases |ops|
  {
    if |ops| > 0 {
      ChainAppends(Apply(c, ops[0]), ops[1..]);
      assert Conds(ops)[1..] == Conds(ops[1..]);
    }
    WalkAllAppends(Conds(ops), c.query);
  }

  /** `limit`: the `LIMIT n ` fragment closes the clause. */
  function LimitClause(c: SelectClause, n: u32): (s: SelectQuery)
    ensures s.fields == c.fields
    ensures s.query.text == c.query.text + "LIMIT " + Decimal(n as nat) + " "
  {
    PushCqlThenRead(c.query, Fragment(Limit(n)));
    SelectQuery(WalkAst(Limit(n), c.query), c.fields)
  }

  /** `SelectClause::build`: the clause as it stands. */
  function BuildClause(c: SelectClause): (s: SelectQuery)
    ensures s.query == c.query && s.fields == c.fields
  {
    SelectQuery(c.query, c.fields)
  }

  /** `binds()` hands back the value map given at construction. */
  function Binds(s: SelectQuery): CqlMap {
    s.fields
  }

  /** `PartialEq<T: AsRef<str>>`: compares the text only. */
  predicate SelectEqStr(s: SelectQuery, text: string) {
    EqStr(s.query, text)
  }

  /** The statement text depends on the table, keyspace and calls only:
      two builders that differ in their bind maps produce the same text,
      and each query hands back its own builder's binds. */
  lemma {:induction false} TextIndependentOfBinds(table: string, keyspace: string,
                                                  f1: CqlMap, f2: CqlMap,
                                                  ops: seq<ClauseOp>, n: u32)
    ensures LimitClause(Chain(Wh(NewSelect(table, keyspace, f1)), ops), n).query
         == LimitClause(Chain(Wh(NewSelect(table, keyspace, f2)), ops), n).query
    ensures Binds(LimitClause(Chain(Wh(NewSelect(table, keyspace, f1)), ops), n)) == f1
  {
    var c1 := Wh(NewSelect(table, keyspace, f1));
    var c2 := Wh(NewSelect(table, keyspace, f2));
    ChainAppends(c1, ops);
    ChainAppends(c2, ops);
  }

  /** One chained call appends its condition's fragment and carries the
      binds along. */
  lemma ApplyAppends(c: SelectClause, op: ClauseOp)
    ensures Apply(c, op).query.text == c.query.text + Fragment(CondOf(op))
    ensures Apply(c, op).fields == c.fields
  {
  }

  // ----- the module's three examples, with the keyspace prefix -----

  /** The text of a `wh()` chain closed by `limit(n)`. */
  lemma {:induction false} WhereLimitText(b: SelectBuilder, ops: seq<ClauseOp>, n: u32)
    ensures LimitClause(Chain(Wh(b), ops), n).query.text
         == Head(b) + "WHERE " + Concat(Fragments(Conds(ops))) + LimitFragment(Decimal(n as nat))
  {
    ChainAppends(Wh(b), ops);
  }

  lemma EqFragment(col: string)
    ensures Fragment(Eq(col)) == col + " = ? "
  {
  }

  lemma PaymentsHead(keyspace: string, fields: CqlMap)
    ensures Head(NewSelect("Payments", keyspace, fields)) == "SELECT * FROM " + keyspace + ".Payments "
  {
  }

  lemma LimitTwo(c: SelectClause)
    ensures LimitClause(c, 2).query.text == c.query.text + "LIMIT 2 "
  {
    assert Decimal(2) == "2";
  }

  /** `.wh().eq("payment_id").limit(2)`; the expected text is written in
      pieces, one per call. */
  lemma {:induction false} SelectWithClause(keyspace: string, fields: CqlMap)
    ensures SelectEqStr(
              LimitClause(Chain(Wh(NewSelect("Payments", keyspace, fields)), [OpEq("payment_id")]), 2),
              "SELECT * FROM " + keyspace + ".Payments " + "WHERE " + "payment_id = ? " + "LIMIT 2 ")
  {
    var b := NewSelect("Payments", keyspace, fields);
    var ops := [OpEq("payment_id")];
    var c0 := Wh(b);
    var c1 := Apply(c0, ops[0]);
    assert ops[1..] == [];
    assert Chain(c0, ops) == c1;
    ApplyAppends(c0, ops[0]);
    EqFragment("payment_id");
    PaymentsHead(keyspace, fields);
    LimitTwo(c1);
  }

  /** One chained call, stated on known text and fragment. */
  lemma StepText(c: SelectClause, op: ClauseOp, t: string, f: string)
    requires c.query.text == t && Fragment(CondOf(op)) == f
    ensures Apply(c, op).query.text == t + f
  {
    ApplyAppends(c, op);
  }

  lemma EqStep(c: SelectClause, col: string, t: string)
    requires c.query.text == t
    ensures Apply(c, OpEq(col)).query.text == t + col + " = ? "
  {
    EqFragment(col);
    StepText(c, OpEq(col), t, col + " = ? ");
  }

  /** `.wh().eq(a).and().eq(b).or().eq(c).limit(2)`, shown in the module's
      examples with the columns `payment_id`, `status` and `currency`. */
  lemma {:induction false} SelectAndOrClause(keyspace: string, fields: CqlMap, a: string, b: string, c: string)
    ensures SelectEqStr(
              LimitClause(Chain(Wh(NewSelect("Payments", keyspace, fields)),
                                [OpEq(a), OpAnd, OpEq(b), OpOr, OpEq(c)]), 2),
              "SELECT * FROM " + keyspace + ".Payments " + "WHERE " + a + " = ? " + "AND "
              + b + " = ? " + "OR " + c + " = ? " + "LIMIT 2 ")
  {
    var ops := [OpEq(a), OpAnd, OpEq(b), OpOr, OpEq(c)];
    var c0 := Wh(NewSelect("Payments", keyspace, fields));
    var c1 := Apply(c0, ops[0]);
    var c2 := Apply(c1, ops[1]);
    var c3 := Apply(c2, ops[2]);
    var c4 := Apply(c3, ops[3]);
    var c5 := Apply(c4, ops[4]);
    assert Chain(c4, ops[4..]) == c5;
    assert Chain(c3, ops[3..]) == c5;
    assert Chain(c2, ops[2..]) == c5;
    assert Chain(c1, ops[1..]) == c5;
    assert Chain(c0, ops) == c5;
    var h := "SELECT * FROM " + keyspace + ".Payments " + "WHERE ";
    PaymentsHead(keyspace, fields);
    EqStep(c0, a, h);
    StepText(c1, OpAnd, h + a + " = ? ", "AND ");
    EqStep(c2, b, h + a + " = ? " + "AND ");
    StepText(c3, OpOr, h + a + " = ? " + "AND " + b + " = ? ", "OR ");
    EqStep(c4, c, h + a + " = ? " + "AND " + b + " = ? " + "OR ");
    LimitTwo(c5);
  }

  /** `.build()` straight from the builder. */
  lemma {:induction false} SelectWithoutClause(keyspace: string, fields: CqlMap)
    ensures SelectEqStr(BuildAll(NewSelect("Payments", keyspace, fields)),
                        "SELECT * FROM " + keyspace + ".Payments ")
  {
  }
}
