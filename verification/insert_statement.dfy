/** The prepared INSERT statement the `#[nosql(...)]` attribute builds
    (`generate_insert`, crates/sin/src/lib.rs): every field of the struct is
    a column, in declaration order, with one bind marker each. */
module InsertStatement {
  import opened Text
  import opened Records

  function ColumnList(fields: seq<Field>): string {
    Join(FieldNames(fields), ",")
  }

  function BindList(n: nat): string {
    Join(Repeat("?", n), ",")
  }

  function InsertHead(table: string, keyspace: string): string {
    "INSERT INTO " + keyspace + "." + table + " ("
  }

  /** `INSERT INTO {ks}.{table} ({cols}) VALUES({?,...})`. */
  function GenerateInsert(table: string, keyspace: string, fields: seq<Field>): string {
    InsertHead(table, keyspace) + ColumnList(fields) + ") VALUES(" + BindList(|fields|) + ")"
  }

  /** The column list is the field names in declaration order: splitting it
      at commas gives them back, provided no name contains a comma. */
  lemma InsertColumnsSplitBack(fields: seq<Field>)
    requires |fields| > 0
    requires forall i :: 0 <= i < |fields| ==> !Contains(fields[i].name, ',')
    ensures SplitOn(ColumnList(fields), ',') == FieldNames(fields)
  {
    SplitJoin(FieldNames(fields), ',');
  }

  lemma HeadLiteralsHaveNoMark()
    ensures CountChar("INSERT INTO ", '?') == 0 && CountChar(".", '?') == 0 && CountChar(" (", '?') == 0
  {
    var a, b, c := "INSERT INTO ", ".", " (";
    assert '?' !in a && '?' !in b && '?' !in c;
    NoMark(a);
    NoMark(b);
    NoMark(c);
  }

  lemma TailLiteralsHaveNoMark()
    ensures CountChar(") VALUES(", '?') == 0 && CountChar(")", '?') == 0 && CountChar(",", '?') == 0
  {
    var a, b, c := ") VALUES(", ")", ",";
    assert '?' !in a && '?' !in b && '?' !in c;
    NoMark(a);
    NoMark(b);
    NoMark(c);
  }

  lemma {:induction false} HeadHasNoMark(table: string, keyspace: string)
    requires CountChar(table, '?') == 0 && CountChar(keyspace, '?') == 0
    ensures CountChar(InsertHead(table, keyspace), '?') == 0
  {
    HeadLiteralsHaveNoMark();
    var p0, p1, p2 := "INSERT INTO ", ".", " (";
    CountCharAppend(p0, keyspace, '?');
    CountCharAppend(p0 + keyspace, p1, '?');
    CountCharAppend(p0 + keyspace + p1, table, '?');
    CountCharAppend(p0 + keyspace + p1 + table, p2, '?');
  }

  /** There are as many bind markers as columns: the whole statement holds
      exactly one `?` per field when the table, keyspace and field names
      hold none. */
  lemma {:induction false} InsertBindsMatchColumns(table: string, keyspace: string, fields: seq<Field>)
    requires CountChar(table, '?') == 0 && CountChar(keyspace, '?') == 0
    requires forall i :: 0 <= i < |fields| ==> CountChar(fields[i].name, '?') == 0
    ensures CountChar(GenerateInsert(table, keyspace, fields), '?') == |fields|
  {
    var h := InsertHead(table, keyspace);
    var cols := ColumnList(fields);
    var binds := BindList(|fields|);
    HeadHasNoMark(table, keyspace);
    TailLiteralsHaveNoMark();
    NoMarksInJoin(FieldNames(fields), ",");
    CountInRepeatJoin('?', ",", |fields|);
    CountCharAppend(h, cols, '?');
    CountCharAppend(h + cols, ") VALUES(", '?');
    CountCharAppend(h + cols + ") VALUES(", binds, '?');
    CountCharAppend(h + cols + ") VALUES(" + binds, ")", '?');
  }

  lemma {:induction false} NoMark(s: string)
    requires '?' !in s
    ensures CountChar(s, '?') == 0
  {
    if |s| > 0 {
      assert '?' !in s[1..];
      NoMark(s[1..]);
    }
  }

  lemma {:induction false} NoMarksInJoin(xs: seq<string>, sep: string)
    requires CountChar(sep, '?') == 0
    requires forall i :: 0 <= i < |xs| ==> CountChar(xs[i], '?') == 0
    ensures CountChar(Join(xs, sep), '?') == 0
    decreases |xs|
  {
    if |xs| > 1 {
      NoMarksInJoin(xs[1..], sep);
      CountCharAppend(xs[0], sep, '?');
      CountCharAppend(xs[0] + sep, Join(xs[1..], sep), '?');
    }
  }

  // ----- the statement for `Payment` (crates/try_sin/src/main.rs) -----

  const PaymentColumnFields: seq<Field> :=
    [Field("id", KI64), Field("status", KString), Field("amount", KF64)]

  lemma PaymentColumns()
    ensures ColumnList(PaymentColumnFields) == "id,status,amount"
  {
    var ns := ["id", "status", "amount"];
    assert FieldNames(PaymentColumnFields) == ns;
    assert ns[1..] == ["status", "amount"] && ns[1..][1..] == ["amount"];
    assert Join(["amount"], ",") == "amount";
    assert Join(["status", "amount"], ",") == "status,amount";
  }

  lemma ThreeBinds()
    ensures BindList(3) == "?,?,?"
  {
    var qs := Repeat("?", 3);
    assert qs == ["?", "?", "?"];
    assert qs[1..] == ["?", "?"] && qs[1..][1..] == ["?"];
    assert Join(["?"], ",") == "?";
    assert Join(["?", "?"], ",") == "?,?";
  }

  lemma PaymentInsertHead()
    ensures InsertHead("payments", "test") == "INSERT INTO test.payments ("
  {
    assert "INSERT INTO " + "test" == "INSERT INTO test";
    assert "INSERT INTO test" + "." == "INSERT INTO test.";
    assert "INSERT INTO test." + "payments" == "INSERT INTO test.payments";
    assert "INSERT INTO test.payments" + " (" == "INSERT INTO test.payments (";
  }

  lemma PaymentInsertTail(h: string, cols: string, binds: string)
    requires h == "INSERT INTO test.payments (" && cols == "id,status,amount" && binds == "?,?,?"
    ensures h + cols + ") VALUES(" + binds + ")"
         == "INSERT INTO test.payments (id,status,amount) VALUES(?,?,?)"
  {
    assert "INSERT INTO test.payments (" + "id,status,amount" == "INSERT INTO test.payments (id,status,amount";
    assert "INSERT INTO test.payments (id,status,amount" + ") VALUES(" == "INSERT INTO test.payments (id,status,amount) VALUES(";
    assert "INSERT INTO test.payments (id,status,amount) VALUES(" + "?,?,?" == "INSERT INTO test.payments (id,status,amount) VALUES(?,?,?";
    assert "INSERT INTO test.payments (id,status,amount) VALUES(?,?,?" + ")" == "INSERT INTO test.payments (id,status,amount) VALUES(?,?,?)";
  }

  lemma PaymentInsert()
    ensures GenerateInsert("payments", "test", PaymentColumnFields)
         == "INSERT INTO test.payments (id,status,amount) VALUES(?,?,?)"
  {
    PaymentColumns();
    ThreeBinds();
    PaymentInsertHead();
    PaymentInsertTail(InsertHead("payments", "test"), ColumnList(PaymentColumnFields), BindList(|PaymentColumnFields|));
  }
}
