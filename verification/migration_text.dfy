/** The text side of the migration tool (crates/sin_migrate/src/utils.rs):
    cleaning a statement file and cutting it into `;`-terminated statements,
    and reading the version off a migration directory's name. */
module MigrationText {
  import opened Wrappers
  import opened Text

  /** What `generate` writes into a new `up.cql` and `down.cql`
      (crates/sin_migrate/src/consts.rs). */
  const Placeholder: string := "// Put your CQL here"

  /** The errors of the migration tool (crates/sin_migrate/src/error.rs);
      a query error and an I/O error are kept without their payload. */
  datatype MigrationError = QueryError | IoError | MigrationPathError

  // ----- str::replace(pat, "") -----

  /** `pat` occurs in `s` starting at `i`. */
  predicate OccursAt(s: string, pat: string, i: nat) {
    i + |pat| <= |s| && s[i..i + |pat|] == pat
  }

  /** `s.replace(pat, "")`: the matches are found left to right without
      overlapping, and each is dropped. */
  function RemoveAll(s: string, pat: string): (r: string)
    requires |pat| > 0
    ensures |r| <= |s|
    decreases |s|
  {
    if |s| < |pat| then s
    else if s[..|pat|] == pat then RemoveAll(s[|pat|..], pat)
    else [s[0]] + RemoveAll(s[1..], pat)
  }

  /** Text in which the pattern does not occur comes back unchanged. */
  lemma {:induction false} RemoveAllAbsent(s: string, pat: string)
    requires |pat| > 0
    requires forall i :: 0 <= i <= |s| ==> !OccursAt(s, pat, i)
    ensures RemoveAll(s, pat) == s
    decreases |s|
  {
    if |s| >= |pat| {
      assert !OccursAt(s, pat, 0);
      assert s[..|pat|] != pat;
      forall i | 0 <= i <= |s[1..]| ensures !OccursAt(s[1..], pat, i) {
        assert !OccursAt(s, pat, i + 1);
        if i + |pat| <= |s[1..]| {
          assert s[1..][i..i + |pat|] == s[i + 1..i + 1 + |pat|];
        }
      }
      RemoveAllAbsent(s[1..], pat);
      assert s == [s[0]] + s[1..];
    }
  }

  /** The pattern alone is removed entirely. */
  lemma RemoveAllOfPattern(pat: string)
    requires |pat| > 0
    ensures RemoveAll(pat, pat) == ""
  {
    assert pat[..|pat|] == pat;
    assert pat[|pat|..] == "";
  }

  /** Removing a one-character pattern leaves no occurrence of that
      character and keeps every other character, as often as before. */
  lemma {:induction false} RemoveCharSpec(s: string, c: char)
    ensures !Contains(RemoveAll(s, [c]), c)
    ensures |RemoveAll(s, [c])| == |s| - CountChar(s, c)
    ensures forall d :: d != c ==> CountChar(RemoveAll(s, [c]), d) == CountChar(s, d)
    decreases |s|
  {
    var r := RemoveAll(s, [c]);
    if |s| > 0 {
      RemoveCharSpec(s[1..], c);
      var t := RemoveAll(s[1..], [c]);
      if s[0] == c {
        assert s[..1] == [c];
        assert r == t;
      } else {
        assert s[..1] != [c];
        assert r == [s[0]] + t;
        assert r[1..] == t;
        forall i | 0 <= i < |r| ensures r[i] != c {
          if i > 0 {
            assert r[i] == t[i - 1];
          }
        }
      }
    }
  }

  // ----- str::split_inclusive(c) -----

  /** `s.split_inclusive(c)`: pieces that each end just after a `c`, the last
      one possibly without it; the empty string gives no pieces at all. */
  function SplitInclusive(s: string, c: char): (r: seq<string>)
    decreases |s|
  {
    if |s| == 0 then []
    else match IndexOf(s, c)
      case None => [s]
      case Some(i) => [s[..i + 1]] + SplitInclusive(s[i + 1..], c)
  }

  /** The shape `split_inclusive` guarantees: no piece is empty, `c` appears
      in a piece only as its last character, and every piece but the last
      ends with `c`. */
  predicate InclusivePieces(ps: seq<string>, c: char) {
    && (forall k :: 0 <= k < |ps| ==> |ps[k]| > 0 && !Contains(ps[k][..|ps[k]| - 1], c))
    && (forall k :: 0 <= k < |ps| - 1 ==> ps[k][|ps[k]| - 1] == c)
  }

  /** A piece that ends with its only `c`, put in front of well-shaped
      pieces, keeps the shape. */
  lemma ConsPieces(head: string, rest: seq<string>, c: char)
    requires |head| > 0 && head[|head| - 1] == c && !Contains(head[..|head| - 1], c)
    requires InclusivePieces(rest, c)
    ensures InclusivePieces([head] + rest, c)
  {
    var ps := [head] + rest;
    forall k | 0 < k < |ps| ensures ps[k] == rest[k - 1] {
    }
  }

  /** One piece in front of others glues onto their concatenation. */
  lemma ConcatCons(head: string, rest: seq<string>)
    ensures Concat([head] + rest) == head + Concat(rest)
  {
    assert ([head] + rest)[1..] == rest;
  }

  lemma SplitAt(s: string, k: nat)
    requires k <= |s|
    ensures s[..k] + s[k..] == s
  {
  }

  /** Text without `c` is a single well-shaped piece. */
  lemma SingleWithout(s: string, c: char)
    requires |s| > 0 && !Contains(s, c)
    ensures InclusivePieces([s], c) && Concat([s]) == s
  {
    var a := s[..|s| - 1];
    forall j | 0 <= j < |a| ensures a[j] != c {
      assert a[j] == s[j];
    }
    ConcatCons(s, []);
  }

  /** The text up to and including the first `c` ends with its only `c`. */
  lemma UpToFirst(s: string, c: char, i: nat)
    requires IndexOf(s, c) == Some(i)
    ensures var head := s[..i + 1];
            |head| > 0 && head[|head| - 1] == c && !Contains(head[..|head| - 1], c)
  {
    var head := s[..i + 1];
    assert head[..|head| - 1] == s[..i];
    forall j | 0 <= j < i ensures s[..i][j] != c {
    }
  }

  /** The pieces have that shape and glue back into the text. */
  lemma {:induction false} SplitInclusiveShape(s: string, c: char)
    ensures InclusivePieces(SplitInclusive(s, c), c)
    ensures Concat(SplitInclusive(s, c)) == s
    decreases |s|
  {
    if |s| > 0 {
      match IndexOf(s, c)
      case None =>
        SingleWithout(s, c);
      case Some(i) =>
        var head := s[..i + 1];
        var tail := s[i + 1..];
        SplitInclusiveShape(tail, c);
        var rest := SplitInclusive(tail, c);
        assert SplitInclusive(s, c) == [head] + rest;
        UpToFirst(s, c, i);
        ConsPieces(head, rest, c);
        ConcatCons(head, rest);
        SplitAt(s, i + 1);
    }
  }

  /** Dropping the first well-shaped piece leaves well-shaped pieces. */
  lemma PiecesTail(ps: seq<string>, c: char)
    requires |ps| > 0 && InclusivePieces(ps, c)
    ensures InclusivePieces(ps[1..], c)
  {
    forall k | 0 <= k < |ps[1..]| ensures ps[1..][k] == ps[k + 1] {
    }
  }

  /** The shape pins the pieces down: any pieces of that shape are exactly
      what `split_inclusive` gives for their concatenation. */
  lemma {:induction false} SplitInclusiveUnique(ps: seq<string>, c: char)
    requires InclusivePieces(ps, c)
    ensures SplitInclusive(Concat(ps), c) == ps
    decreases |ps|
  {
    if |ps| > 0 {
      var p := ps[0];
      var rest := Concat(ps[1..]);
      ConcatCons(p, ps[1..]);
      assert [p] + ps[1..] == ps;
      PiecesTail(ps, c);
      SplitInclusiveUnique(ps[1..], c);
      if |ps| == 1 {
        assert ps[1..] == [] && rest == "";
        assert Concat(ps) == p;
        LastPiece(p, c);
      } else {
        FirstAtLast(p, c, rest);
        SplitAfterFirst(p, rest, c);
      }
    }
  }

  /** A final piece, with or without its `c`, splits into itself. */
  lemma LastPiece(p: string, c: char)
    requires |p| > 0 && !Contains(p[..|p| - 1], c)
    ensures SplitInclusive(p, c) == [p]
  {
    if Contains(p, c) {
      forall j | 0 <= j < |p| - 1 ensures p[j] != c {
        assert p[j] == p[..|p| - 1][j];
      }
      assert IndexOf(p, c) == Some(|p| - 1);
      assert p[|p|..] == "";
      assert p[..|p|] == p;
    }
  }

  /** A text whose first `c` closes `p` splits into `p` and the split of
      what follows. */
  lemma SplitAfterFirst(p: string, rest: string, c: char)
    requires |p| > 0 && IndexOf(p + rest, c) == Some(|p| - 1)
    ensures SplitInclusive(p + rest, c) == [p] + SplitInclusive(rest, c)
  {
    var s := p + rest;
    assert s[..|p|] == p;
    assert s[|p|..] == rest;
  }

  /** A piece whose only `c` is its last character: in any text it starts,
      the first `c` is that last character. */
  lemma FirstAtLast(p: string, c: char, rest: string)
    requires |p| > 0 && p[|p| - 1] == c && !Contains(p[..|p| - 1], c)
    ensures IndexOf(p + rest, c) == Some(|p| - 1)
  {
    var a := p[..|p| - 1];
    assert p + rest == a + [c] + rest;
    IndexAfterFreePrefix(a, c, rest);
  }

  // ----- parse_cql_statements -----

  /** The file text with the placeholder and every newline removed. */
  function Cleaned(text: string): string {
    RemoveAll(RemoveAll(text, Placeholder), "\n")
  }

  /** `parse_cql_statements` on the text of a file. */
  function ParseCqlStatements(text: string): (stmts: seq<string>)
    ensures Concat(stmts) == Cleaned(text)
    ensures InclusivePieces(stmts, ';')
  {
    SplitInclusiveShape(Cleaned(text), ';');
    SplitInclusive(Cleaned(text), ';')
  }

  /** No statement holds a newline, and none is empty. */
  lemma StatementsHaveNoNewline(text: string)
    ensures forall k :: 0 <= k < |ParseCqlStatements(text)| ==>
              |ParseCqlStatements(text)[k]| > 0 && !Contains(ParseCqlStatements(text)[k], '\n')
  {
    var stmts := ParseCqlStatements(text);
    var t := RemoveAll(text, Placeholder);
    RemoveCharSpec(t, '\n');
    assert "\n" == ['\n'];
    ConcatContains(stmts, '\n');
  }

  /** A character in one of the pieces is a character of their concatenation. */
  lemma {:induction false} ConcatContains(ps: seq<string>, c: char)
    requires !Contains(Concat(ps), c)
    ensures forall k :: 0 <= k < |ps| ==> !Contains(ps[k], c)
    decreases |ps|
  {
    if |ps| > 0 {
      assert Concat(ps) == ps[0] + Concat(ps[1..]);
      var t := Concat(ps[1..]);
      forall j | 0 <= j < |t| ensures t[j] != c {
        assert Concat(ps)[|ps[0]| + j] == t[j];
      }
      forall j | 0 <= j < |ps[0]| ensures ps[0][j] != c {
        assert Concat(ps)[j] == ps[0][j];
      }
      ConcatContains(ps[1..], c);
      forall k | 0 < k < |ps| ensures !Contains(ps[k], c) {
        assert ps[1..][k - 1] == ps[k];
      }
    }
  }

  /** A file freshly written by `generate` holds only the placeholder, and
      yields no statement at all. */
  lemma GeneratedFileHasNoStatements()
    ensures ParseCqlStatements(Placeholder) == []
  {
    RemoveAllOfPattern(Placeholder);
    assert RemoveAll("", "\n") == "";
  }

  // ----- extract_version -----

  /** A path as its components, as `Path::components` yields them. */
  datatype Component = RootDir | CurDir | ParentDir | Normal(name: string)

  /** `Path::file_name`: the last component when it is a normal one. */
  function FileName(p: seq<Component>): (r: Option<string>)
    ensures r.Some? <==> |p| > 0 && p[|p| - 1].Normal?
    ensures r.Some? ==> r.value == p[|p| - 1].name
  {
    if |p| > 0 && p[|p| - 1].Normal? then Some(p[|p| - 1].name) else None
  }

  /** `extract_version`: the file name's text before its first `_`. */
  function ExtractVersion(p: seq<Component>): (r: Result<string, MigrationError>)
    ensures r.Ok? <==> FileName(p).Some? && Contains(FileName(p).value, '_')
    ensures r.Err? ==> r.error == MigrationPathError
    ensures r.Ok? ==> var n := FileName(p).value;
                      |r.value| < |n| && n[..|r.value|] == r.value && n[|r.value|] == '_'
                      && !Contains(r.value, '_')
  {
    match FileName(p)
    case None => Err(MigrationPathError)
    case Some(n) =>
      match IndexOf(n, '_')
      case None => Err(MigrationPathError)
      case Some(i) =>
        assert !Contains(n[..i], '_');
        Ok(n[..i])
  }

  /** `generate` names a migration directory `{version}_{name}`; a version
      without `_` is read back from such a directory, whatever the name. */
  lemma {:induction false} VersionOfGeneratedDirectory(dir: seq<Component>, version: string, name: string)
    requires !Contains(version, '_')
    ensures ExtractVersion(dir + [Normal(version + "_" + name)]) == Ok(version)
  {
    var n := version + "_" + name;
    var p := dir + [Normal(n)];
    assert p[|p| - 1] == Normal(n);
    IndexAfterFreePrefix(version, '_', name);
    assert n == version + ['_'] + name;
    assert n[..|version|] == version;
  }
}
