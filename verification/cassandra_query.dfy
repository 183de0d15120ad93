/** The append-only query text (`CassandraQuery`,
    crates/traits/src/query_builder/query.rs) and the condition fragments
    the `impl_walk_ast_conds!` macro (crates/traits/src/lib.rs) and
    crates/traits/src/query_builder/conds.rs define on top of it. */
module CassandraQuery {
  import opened Text

  newtype u32 = x: int | 0 <= x < 0x1_0000_0000

  datatype Query = Query(text: string)

  /** `CassandraQuery::new()` starts with no text. */
  function New(): (q: Query)
    ensures |q.text| == 0
  {
    Query("")
  }

  /** `push_cql`. */
  function PushCql(q: Query, s: string): Query
  {
    Query(q.text + s)
  }

  /** `query()`: the current text; reading it changes nothing. */
  function QueryText(q: Query): string {
    q.text
  }

  /** `PartialEq<T: AsRef<str>>`: exact text equality. */
  predicate EqStr(q: Query, s: string) {
    QueryText(q) == s
  }

  /** Pushing keeps the old text as a prefix and `s` follows it; the text
      read afterwards is the old text followed by `s`. */
  lemma PushCqlThenRead(q: Query, s: string)
    ensures |PushCql(q, s).text| == |q.text| + |s|
    ensures PushCql(q, s).text[..|q.text|] == q.text && PushCql(q, s).text[|q.text|..] == s
    ensures QueryText(PushCql(q, s)) == QueryText(q) + s
    ensures EqStr(PushCql(q, s), QueryText(q) + s)
  {
  }

  // ----- conditions -----

  /** The conditions of conds.rs: the three unit conditions of the macro's
      first arm, the five comparisons of its second arm over a `String`
      column name, and `Limit`. */
  datatype Cond =
    | And
    | Or
    | WhereClause
    | Gt(gtSource: string)
    | Gte(gteSource: string)
    | Lt(ltSource: string)
    | Lte(lteSource: string)
    | Eq(eqSource: string)
    | Limit(n: u32)

  predicate IsComparison(c: Cond) {
    c.Gt? || c.Gte? || c.Lt? || c.Lte? || c.Eq?
  }

  /** The literal of a unit condition. */
  function UnitLiteral(c: Cond): string
    requires c.And? || c.Or? || c.WhereClause?
  {
    match c
    case And => "AND "
    case Or => "OR "
    case WhereClause => "WHERE "
  }

  /** The operator literal of a comparison. */
  function Operator(c: Cond): string
    requires IsComparison(c)
  {
    match c
    case Gt(_) => ">"
    case Gte(_) => ">="
    case Lt(_) => "<"
    case Lte(_) => "<="
    case Eq(_) => "="
  }

  /** The column name a comparison was built from, as `new` stored it. */
  function Source(c: Cond): string
    requires IsComparison(c)
  {
    match c
    case Gt(s) => s
    case Gte(s) => s
    case Lt(s) => s
    case Lte(s) => s
    case Eq(s) => s
  }

  /** What `walk_ast` pushes: a unit condition its literal; a comparison
      `format!("{} {} ? ", source, op)`; a limit `format!("LIMIT {} ", n)`. */
  function Fragment(c: Cond): string {
    if c.And? || c.Or? || c.WhereClause? then UnitLiteral(c)
    else if c.Limit? then LimitFragment(Decimal(c.n as nat))
    else ComparisonFragment(Source(c), Operator(c))
  }

  function LimitFragment(digits: string): string {
    "LIMIT " + digits + " "
  }

  function ComparisonFragment(src: string, op: string): string {
    src + " " + op + " ? "
  }

  /** `walk_ast` takes the condition by reference and only appends. */
  function WalkAst(c: Cond, q: Query): Query
  {
    PushCql(q, Fragment(c))
  }

  /** Walking the same condition twice appends its fragment twice. */
  lemma {:induction false} WalkTwice(c: Cond, q: Query)
    ensures WalkAst(c, WalkAst(c, q)).text == q.text + Fragment(c) + Fragment(c)
  {
    PushCqlThenRead(q, Fragment(c));
    PushCqlThenRead(WalkAst(c, q), Fragment(c));
  }

  /** Walk a sequence of conditions in order. */
  function WalkAll(cs: seq<Cond>, q: Query): Query
    decreases |cs|
  {
    if |cs| == 0 then q else WalkAll(cs[1..], WalkAst(cs[0], q))
  }

  function Fragments(cs: seq<Cond>): (fs: seq<string>)
    ensures |fs| == |cs|
    ensures forall i :: 0 <= i < |cs| ==> fs[i] == Fragment(cs[i])
  {
    if |cs| == 0 then [] else [Fragment(cs[0])] + Fragments(cs[1..])
  }

  /** Walking conditions appends their fragments in order, with nothing
      added, dropped or reordered. */
  lemma {:induction false} WalkAllAppends(cs: seq<Cond>, q: Query)
    ensures WalkAll(cs, q).text == q.text + Concat(Fragments(cs))
    decreases |cs|
  {
    if |cs| > 0 {
      PushCqlThenRead(q, Fragment(cs[0]));
      WalkAllAppends(cs[1..], WalkAst(cs[0], q));
      assert Fragments(cs) == [Fragment(cs[0])] + Fragments(cs[1..]);
    }
  }

  // ----- reading fragments back -----

  predicate NoSpace(s: string) {
    !Contains(s, ' ')
  }

  /** Words each followed by one space split back into the words and a
      final empty piece. */
  lemma {:induction false} SpacedWords(ws: seq<string>)
    requires |ws| > 0 && ws[|ws| - 1] == ""
    requires forall i :: 0 <= i < |ws| ==> NoSpace(ws[i])
    ensures SplitOn(Join(ws, " "), ' ') == ws
  {
    SplitJoin(ws, ' ');
  }

  lemma TwoWords(a: string, b: string)
    requires NoSpace(a) && NoSpace(b)
    ensures SplitOn(a + " " + b + " ", ' ') == [a, b, ""]
  {
    var ws := [a, b, ""];
    assert ws[1..] == [b, ""] && ws[1..][1..] == [""];
    assert Join([""], " ") == "";
    assert Join([b, ""], " ") == b + " ";
    assert Join(ws, " ") == a + " " + b + " ";
    SpacedWords(ws);
  }

  lemma ThreeWords(a: string, b: string, c: string)
    requires NoSpace(a) && NoSpace(b) && NoSpace(c)
    ensures SplitOn(a + " " + b + " " + c + " ", ' ') == [a, b, c, ""]
  {
    var ws := [a, b, c, ""];
    assert ws[1..] == [b, c, ""] && ws[1..][1..] == [c, ""] && ws[1..][1..][1..] == [""];
    assert Join([""], " ") == "";
    assert Join([c, ""], " ") == c + " ";
    assert Join([b, c, ""], " ") == b + " " + c + " ";
    assert Join(ws, " ") == a + " " + b + " " + c + " ";
    SpacedWords(ws);
  }

  lemma UnitWords(c: Cond)
    requires c.And? || c.Or? || c.WhereClause?
    ensures SplitOn(Fragment(c), ' ') == [UnitLiteral(c)[..|UnitLiteral(c)| - 1], ""]
  {
    var w := UnitLiteral(c)[..|UnitLiteral(c)| - 1];
    assert Fragment(c) == Join([w, ""], " ");
    assert NoSpace(w) by {
      forall i | 0 <= i < |w| ensures w[i] != ' ' {
      }
    }
    SpacedWords([w, ""]);
  }

  lemma LimitWords(digits: string)
    requires forall i :: 0 <= i < |digits| ==> IsDigit(digits[i])
    ensures SplitOn(LimitFragment(digits), ' ') == ["LIMIT", digits, ""]
  {
    assert NoSpace(digits) by {
      forall i | 0 <= i < |digits| ensures digits[i] != ' ' {
        assert IsDigit(digits[i]);
      }
    }
    assert NoSpace("LIMIT") by {
      assert forall j :: 0 <= j < 5 ==> "LIMIT"[j] != ' ';
    }
    TwoWords("LIMIT", digits);
    assert LimitFragment(digits) == "LIMIT" + " " + digits + " ";
  }

  lemma ComparisonWords(src: string, op: string)
    requires NoSpace(src) && NoSpace(op)
    ensures SplitOn(ComparisonFragment(src, op), ' ') == [src, op, "?", ""]
  {
    assert NoSpace("?") by {
      assert "?"[0] != ' ';
    }
    ThreeWords(src, op, "?");
    assert ComparisonFragment(src, op) == src + " " + op + " " + "?" + " ";
  }

  /** Every fragment ends in a space, so splitting it at spaces gives its
      words followed by one empty piece. For a comparison over a column name
      without spaces the words are the name, the operator and `?`; for a
      limit they are `LIMIT` and the decimal count. */
  lemma FragmentWords(c: Cond)
    requires IsComparison(c) ==> NoSpace(Source(c))
    ensures c.And? ==> SplitOn(Fragment(c), ' ') == ["AND", ""]
    ensures c.Or? ==> SplitOn(Fragment(c), ' ') == ["OR", ""]
    ensures c.WhereClause? ==> SplitOn(Fragment(c), ' ') == ["WHERE", ""]
    ensures IsComparison(c) ==>
              SplitOn(Fragment(c), ' ') == [Source(c), Operator(c), "?", ""]
    ensures c.Limit? ==> SplitOn(Fragment(c), ' ') == ["LIMIT", Decimal(c.n as nat), ""]
  {
    if c.And? || c.Or? || c.WhereClause? {
      UnitWords(c);
      assert UnitLiteral(c)[..|UnitLiteral(c)| - 1] ==
             (if c.And? then "AND" else if c.Or? then "OR" else "WHERE");
    } else if c.Limit? {
      LimitWords(Decimal(c.n as nat));
    } else {
      var op := Operator(c);
      assert NoSpace(op) by {
        forall i | 0 <= i < |op| ensures op[i] != ' ' {
        }
      }
      ComparisonWords(Source(c), op);
    }
  }
}
