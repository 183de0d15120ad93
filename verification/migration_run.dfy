/** Choosing and running migrations (crates/sin_migrate/src/migrations/run/run_impl.rs
    and `run_cql_queries` in crates/sin_migrate/src/utils.rs). The tracking
    rows the store returns, whether the setup is fresh, which statements the
    store accepts and whether the metadata insert succeeds are inputs. */
module MigrationRun {
  import opened Wrappers
  import opened Text
  import opened LexOrder
  import opened MigrationText
  import opened MigrationTree

  /** A row of `metadata.migration_metadata` (the `Schema` record); its time
      stamp plays no part in the selection. */
  datatype TrackingRow = TrackingRow(version: string, isRun: bool)

  /** The rows that decoded; the others are dropped without a word. */
  function Decoded(raw: seq<Result<TrackingRow, ()>>): (rows: seq<TrackingRow>)
    ensures forall x :: x in rows <==> Ok(x) in raw
  {
    if |raw| == 0 then []
    else
      assert raw == [raw[0]] + raw[1..];
      (if raw[0].Ok? then [raw[0].value] else []) + Decoded(raw[1..])
  }

  predicate HasRow(rows: seq<TrackingRow>, v: string) {
    exists j :: 0 <= j < |rows| && rows[j].version == v
  }

  predicate HasUnrunRow(rows: seq<TrackingRow>, v: string) {
    exists j :: 0 <= j < |rows| && rows[j] == TrackingRow(v, false)
  }

  /** The versions of the rows marked not run, in row order, repeats kept. */
  function NotRun(rows: seq<TrackingRow>): (vs: seq<string>)
    ensures forall v :: v in vs <==> HasUnrunRow(rows, v)
  {
    if |rows| == 0 then []
    else
      var rest := NotRun(rows[1..]);
      assert forall v :: HasUnrunRow(rows, v) <==> rows[0] == TrackingRow(v, false) || HasUnrunRow(rows[1..], v) by {
        forall v ensures HasUnrunRow(rows, v) ==> rows[0] == TrackingRow(v, false) || HasUnrunRow(rows[1..], v) {
          if HasUnrunRow(rows, v) && rows[0] != TrackingRow(v, false) {
            var j :| 0 <= j < |rows| && rows[j] == TrackingRow(v, false);
            assert rows[1..][j - 1] == rows[j];
          }
        }
        forall v | HasUnrunRow(rows[1..], v) ensures HasUnrunRow(rows, v) {
          var j :| 0 <= j < |rows[1..]| && rows[1..][j] == TrackingRow(v, false);
          assert rows[j + 1] == rows[1..][j];
        }
      }
      if rows[0].isRun then rest else [rows[0].version] + rest
  }

  /** The on-disk versions that have no tracking row, in key order. */
  function Fresh(keys: seq<string>, rows: seq<TrackingRow>): (vs: seq<string>)
    ensures forall v :: v in vs <==> v in keys && !HasRow(rows, v)
  {
    if |keys| == 0 then []
    else
      assert keys == [keys[0]] + keys[1..];
      (if HasRow(rows, keys[0]) then [] else [keys[0]]) + Fresh(keys[1..], rows)
  }

  /** `yet_to_run`: the fresh versions and then the unrun rows' versions,
      sorted ascending. */
  function YetToRun(keys: seq<string>, raw: seq<Result<TrackingRow, ()>>): (r: seq<string>)
    ensures Sorted(r)
    ensures multiset(r) == multiset(Fresh(keys, Decoded(raw))) + multiset(NotRun(Decoded(raw)))
  {
    Sort(Fresh(keys, Decoded(raw)) + NotRun(Decoded(raw)))
  }

  /** A version is yet to run exactly when it is on disk without any
      decoded tracking row, or some decoded row for it is marked not run;
      the latter holds whether or not the version is still on disk. */
  lemma YetToRunMembers(keys: seq<string>, raw: seq<Result<TrackingRow, ()>>, v: string)
    ensures v in YetToRun(keys, raw) <==>
              (v in keys && !HasRow(Decoded(raw), v)) || HasUnrunRow(Decoded(raw), v)
  {
    var r := YetToRun(keys, raw);
    var f := Fresh(keys, Decoded(raw));
    var n := NotRun(Decoded(raw));
    assert v in r <==> v in multiset(r);
    assert v in multiset(f + n) <==> v in f + n;
  }

  /** Number of raw rows that decoded to `version` marked not run. */
  function UnrunCount(raw: seq<Result<TrackingRow, ()>>, v: string): nat {
    if |raw| == 0 then 0
    else (if raw[0] == Ok(TrackingRow(v, false)) then 1 else 0) + UnrunCount(raw[1..], v)
  }

  /** No deduplication: a version appears once per unrun row, plus once if
      it is on disk without any row. */
  lemma {:induction false} NotRunCounts(raw: seq<Result<TrackingRow, ()>>, v: string)
    ensures multiset(NotRun(Decoded(raw)))[v] == UnrunCount(raw, v)
    decreases |raw|
  {
    if |raw| > 0 {
      NotRunCounts(raw[1..], v);
      var rest := Decoded(raw[1..]);
      var rows := Decoded(raw);
      if raw[0].Ok? {
        assert rows == [raw[0].value] + rest;
        assert rows[1..] == rest;
        if !raw[0].value.isRun {
          assert NotRun(rows) == [raw[0].value.version] + NotRun(rest);
        }
      } else {
        assert rows == rest;
      }
    }
  }

  lemma {:induction false} UnrunCountSplit(raw: seq<Result<TrackingRow, ()>>, v: string, i: nat)
    requires i <= |raw|
    ensures UnrunCount(raw, v) == UnrunCount(raw[..i], v) + UnrunCount(raw[i..], v)
    decreases i
  {
    if i > 0 {
      assert raw[..i][1..] == raw[1..][..i - 1];
      assert raw[i..] == raw[1..][i - 1..];
      UnrunCountSplit(raw[1..], v, i - 1);
    }
  }

  lemma {:induction false} UnrunCountPositive(raw: seq<Result<TrackingRow, ()>>, v: string, i: nat)
    requires i < |raw| && raw[i] == Ok(TrackingRow(v, false))
    ensures UnrunCount(raw, v) >= 1
    decreases i
  {
    if i > 0 {
      UnrunCountPositive(raw[1..], v, i - 1);
    }
  }

  /** Two unrun rows for one version list it twice. */
  lemma RepeatedUnrunRowsRepeat(keys: seq<string>, raw: seq<Result<TrackingRow, ()>>, v: string, i: nat, j: nat)
    requires i < j < |raw|
    requires raw[i] == Ok(TrackingRow(v, false)) && raw[j] == Ok(TrackingRow(v, false))
    ensures multiset(YetToRun(keys, raw))[v] >= 2
  {
    UnrunCountSplit(raw, v, j);
    UnrunCountPositive(raw[..j], v, i);
    UnrunCountPositive(raw[j..], v, 0);
    NotRunCounts(raw, v);
  }

  // ----- the run plan -----

  const UpCql: string := "up.cql"

  /** The directories `run` visits and runs, in the tree's ascending key
      order, each with `up.cql` pushed onto its path: all of them on a fresh
      setup, otherwise those whose version is yet to run. */
  function RunPlan(t: seq<Entry>, isFresh: bool, toRun: seq<string>): (plan: seq<Entry>)
    requires IsTree(t)
    ensures IsTree(plan)
    ensures forall w :: AllAbove(t, w) ==> AllAbove(plan, w)
    ensures forall v :: Lookup(plan, v)
                        == if Lookup(t, v).Some? && (isFresh || v in toRun)
                           then Some(Lookup(t, v).value + [Normal(UpCql)]) else None
  {
    if |t| == 0 then []
    else
      TreeTail(t);
      var rest := RunPlan(t[1..], isFresh, toRun);
      if isFresh || t[0].version in toRun then
        TreeCons(Entry(t[0].version, t[0].path + [Normal(UpCql)]), rest);
        var plan := [Entry(t[0].version, t[0].path + [Normal(UpCql)])] + rest;
        assert plan[1..] == rest;
        LookupAbsentBelow(rest, t[0].version);
        forall w | AllAbove(t, w) ensures AllAbove(plan, w) {
          assert AllAbove(t[1..], w);
          assert Less(w, t[0].version);
        }
        plan
      else
        LookupAbsentBelow(rest, t[0].version);
        forall w | AllAbove(t, w) ensures AllAbove(rest, w) {
          assert AllAbove(t[1..], w);
        }
        rest
  }

  lemma LookupAbsentBelow(t: seq<Entry>, v: string)
    requires AllAbove(t, v)
    ensures Lookup(t, v).None?
  {
    if v in Versions(t) {
      var i :| 0 <= i < |t| && Versions(t)[i] == v;
      LessIrreflexive(v);
    }
  }

  // ----- executing statements -----

  datatype Action = Execute(statement: string) | RecordMetadata(version: string, isRun: bool)

  /** What happened, in order, and how the call ended. */
  datatype Trace = Trace(actions: seq<Action>, outcome: Result<(), MigrationError>)

  function Executes(stmts: seq<string>): (acts: seq<Action>)
    ensures |acts| == |stmts|
    ensures forall k :: 0 <= k < |stmts| ==> acts[k] == Execute(stmts[k])
  {
    if |stmts| == 0 then [] else [Execute(stmts[0])] + Executes(stmts[1..])
  }

  /** The position of the first statement the store rejects, if any. */
  function FirstRejected(stmts: seq<string>, accepts: string -> bool): (r: Option<nat>)
    ensures r.None? <==> forall k :: 0 <= k < |stmts| ==> accepts(stmts[k])
    ensures r.Some? ==> r.value < |stmts| && !accepts(stmts[r.value])
                        && forall k :: 0 <= k < r.value ==> accepts(stmts[k])
  {
    if |stmts| == 0 then None
    else if !accepts(stmts[0]) then Some(0)
    else
      assert forall k :: 0 < k < |stmts| ==> stmts[1..][k - 1] == stmts[k];
      match FirstRejected(stmts[1..], accepts)
      case None => None
      case Some(i) => Some(i + 1)
  }

  lemma ExecutesCons(s: string, rest: seq<string>)
    ensures Executes([s] + rest) == [Execute(s)] + Executes(rest)
  {
    var l, r := Executes([s] + rest), [Execute(s)] + Executes(rest);
    forall k | 0 <= k < |l| ensures l[k] == r[k] {
      if k > 0 {
        assert ([s] + rest)[k] == rest[k - 1];
      }
    }
  }

  /** The statements in file order, stopping at the first the store
      rejects, which has been sent. */
  function ExecuteAll(stmts: seq<string>, accepts: string -> bool): (tr: Trace)
    ensures tr.outcome.Ok? <==> FirstRejected(stmts, accepts).None?
    ensures tr.outcome.Err? ==> tr.outcome.error == QueryError
    ensures FirstRejected(stmts, accepts).None? ==> tr.actions == Executes(stmts)
    ensures FirstRejected(stmts, accepts).Some? ==>
              tr.actions == Executes(stmts[..FirstRejected(stmts, accepts).value + 1])
  {
    if |stmts| == 0 then Trace([], Ok(()))
    else if !accepts(stmts[0]) then
      assert stmts[..1] == [stmts[0]];
      Trace([Execute(stmts[0])], Err(QueryError))
    else
      var rest := ExecuteAll(stmts[1..], accepts);
      match FirstRejected(stmts[1..], accepts)
      case None =>
        assert [stmts[0]] + stmts[1..] == stmts;
        ExecutesCons(stmts[0], stmts[1..]);
        Trace([Execute(stmts[0])] + rest.actions, rest.outcome)
      case Some(i) =>
        assert stmts[..i + 2] == [stmts[0]] + stmts[1..][..i + 1];
        ExecutesCons(stmts[0], stmts[1..][..i + 1]);
        Trace([Execute(stmts[0])] + rest.actions, rest.outcome)
  }

  /** `run_cql_queries`: read and split the file, run its statements, and
      only when all of them went through record the version once. */
  function RunCqlQueries(file: Result<string, MigrationError>, version: string, isRun: bool,
                         accepts: string -> bool, metadataOk: bool): (tr: Trace)
    ensures file.Err? ==> tr == Trace([], Err(file.error))
    ensures file.Ok? && ExecuteAll(ParseCqlStatements(file.value), accepts).outcome.Ok? ==>
              tr.actions == Executes(ParseCqlStatements(file.value)) + [RecordMetadata(version, isRun)]
              && (tr.outcome.Ok? <==> metadataOk)
              && (tr.outcome.Err? ==> tr.outcome.error == QueryError)
    ensures file.Ok? && ExecuteAll(ParseCqlStatements(file.value), accepts).outcome.Err? ==>
              tr == ExecuteAll(ParseCqlStatements(file.value), accepts)
    ensures forall k :: 0 <= k < |tr.actions| && tr.actions[k].RecordMetadata? ==>
              k == |tr.actions| - 1 && tr.actions[k] == RecordMetadata(version, isRun)
              && file.Ok? && ExecuteAll(ParseCqlStatements(file.value), accepts).outcome.Ok?
  {
    match file
    case Err(e) => Trace([], Err(e))
    case Ok(text) =>
      var run := ExecuteAll(ParseCqlStatements(text), accepts);
      if run.outcome.Err? then run
      else Trace(run.actions + [RecordMetadata(version, isRun)], if metadataOk then Ok(()) else Err(QueryError))
  }

  /** A file straight from `generate` runs nothing, yet its version is
      recorded. */
  lemma GeneratedFileOnlyRecords(version: string, isRun: bool, accepts: string -> bool)
    ensures RunCqlQueries(Ok(Placeholder), version, isRun, accepts, true)
         == Trace([RecordMetadata(version, isRun)], Ok(()))
  {
    GeneratedFileHasNoStatements();
    assert Executes([]) == [];
  }

  /** The versions recorded in a run, in order. */
  function Recorded(acts: seq<Action>): seq<string> {
    if |acts| == 0 then []
    else (if acts[0].RecordMetadata? then [acts[0].version] else []) + Recorded(acts[1..])
  }

  lemma {:induction false} RecordedAppend(a: seq<Action>, b: seq<Action>)
    ensures Recorded(a + b) == Recorded(a) + Recorded(b)
    decreases |a|
  {
    if |a| > 0 {
      assert (a + b)[1..] == a[1..] + b;
      RecordedAppend(a[1..], b);
    } else {
      assert a + b == b;
    }
  }

  lemma {:induction false} NoRecordInExecutes(stmts: seq<string>)
    ensures Recorded(Executes(stmts)) == []
    decreases |stmts|
  {
    if |stmts| > 0 {
      assert Executes(stmts)[1..] == Executes(stmts[1..]);
      NoRecordInExecutes(stmts[1..]);
    }
  }

  /** One pass of the loop of `run`: the directory's `up.cql`, with
      `is_run` set. `metadataOk(v)` is the store's answer to the metadata
      insert for version `v`. */
  function DirRun(e: Entry, files: seq<Component> -> Result<string, MigrationError>,
                  accepts: string -> bool, metadataOk: string -> bool): Trace
  {
    RunCqlQueries(files(e.path), e.version, true, accepts, metadataOk(e.version))
  }

  /** The loop of `run` over the plan, until the first failure: the run
      succeeds exactly when every directory does. */
  function RunAll(plan: seq<Entry>, files: seq<Component> -> Result<string, MigrationError>,
                  accepts: string -> bool, metadataOk: string -> bool): (tr: Trace)
    ensures tr.outcome.Ok? <==>
              forall j :: 0 <= j < |plan| ==> DirRun(plan[j], files, accepts, metadataOk).outcome.Ok?
    decreases |plan|
  {
    if |plan| == 0 then Trace([], Ok(()))
    else
      var first := DirRun(plan[0], files, accepts, metadataOk);
      if first.outcome.Err? then first
      else
        var rest := RunAll(plan[1..], files, accepts, metadataOk);
        assert forall j :: 0 < j < |plan| ==> plan[1..][j - 1] == plan[j];
        Trace(first.actions + rest.actions, rest.outcome)
  }

  /** `?` in the loop: when the directories before `k` succeed and the
      `k`-th fails, the run ends with its error, after the actions of the
      directories before it and its own, and no later directory runs. */
  lemma {:induction false} RunAllStopsAt(plan: seq<Entry>, files: seq<Component> -> Result<string, MigrationError>,
                                         accepts: string -> bool, metadataOk: string -> bool, k: nat)
    requires k < |plan|
    requires forall j :: 0 <= j < k ==> DirRun(plan[j], files, accepts, metadataOk).outcome.Ok?
    requires DirRun(plan[k], files, accepts, metadataOk).outcome.Err?
    ensures RunAll(plan, files, accepts, metadataOk).outcome == DirRun(plan[k], files, accepts, metadataOk).outcome
    ensures RunAll(plan, files, accepts, metadataOk).actions
         == RunAll(plan[..k], files, accepts, metadataOk).actions + DirRun(plan[k], files, accepts, metadataOk).actions
    decreases k
  {
    if k == 0 {
      assert RunAll(plan, files, accepts, metadataOk) == DirRun(plan[0], files, accepts, metadataOk);
      assert RunAll(plan[..0], files, accepts, metadataOk).actions == [];
    } else {
      StopsAtTail(plan, files, accepts, metadataOk, k);
      RunAllStopsAt(plan[1..], files, accepts, metadataOk, k - 1);
      PrefixSteps(plan, files, accepts, metadataOk, k);
      StopsAtCons(plan, files, accepts, metadataOk, k);
    }
  }

  /** The step of `RunAllStopsAt`: a successful first directory in front of
      a tail run that stops at its `k - 1`-th. */
  lemma StopsAtCons(plan: seq<Entry>, files: seq<Component> -> Result<string, MigrationError>,
                    accepts: string -> bool, metadataOk: string -> bool, k: nat)
    requires 0 < k < |plan|
    requires DirRun(plan[0], files, accepts, metadataOk).outcome.Ok?
    requires RunAll(plan[1..], files, accepts, metadataOk).outcome == DirRun(plan[1..][k - 1], files, accepts, metadataOk).outcome
    requires RunAll(plan[1..], files, accepts, metadataOk).actions
          == RunAll(plan[1..][..k - 1], files, accepts, metadataOk).actions
             + DirRun(plan[1..][k - 1], files, accepts, metadataOk).actions
    requires RunAll(plan[..k], files, accepts, metadataOk).actions
          == DirRun(plan[0], files, accepts, metadataOk).actions
             + RunAll(plan[1..][..k - 1], files, accepts, metadataOk).actions
    ensures RunAll(plan, files, accepts, metadataOk).outcome == DirRun(plan[k], files, accepts, metadataOk).outcome
    ensures RunAll(plan, files, accepts, metadataOk).actions
         == RunAll(plan[..k], files, accepts, metadataOk).actions + DirRun(plan[k], files, accepts, metadataOk).actions
  {
    assert plan[1..][k - 1] == plan[k];
    RunAllCons(plan, files, accepts, metadataOk);
    var first := DirRun(plan[0], files, accepts, metadataOk).actions;
    var before := RunAll(plan[1..][..k - 1], files, accepts, metadataOk).actions;
    var last := DirRun(plan[k], files, accepts, metadataOk).actions;
    AppendAssoc(first, before, last);
  }

  lemma AppendAssoc<T>(a: seq<T>, b: seq<T>, c: seq<T>)
    ensures a + (b + c) == (a + b) + c
  {
  }

  /** One unfolding of the loop past a successful first directory. */
  lemma RunAllCons(plan: seq<Entry>, files: seq<Component> -> Result<string, MigrationError>,
                   accepts: string -> bool, metadataOk: string -> bool)
    requires 0 < |plan|
    requires DirRun(plan[0], files, accepts, metadataOk).outcome.Ok?
    ensures RunAll(plan, files, accepts, metadataOk)
         == Trace(DirRun(plan[0], files, accepts, metadataOk).actions + RunAll(plan[1..], files, accepts, metadataOk).actions,
                  RunAll(plan[1..], files, accepts, metadataOk).outcome)
  {
  }

  /** The hypotheses of `RunAllStopsAt` carried to the tail of the plan. */
  lemma StopsAtTail(plan: seq<Entry>, files: seq<Component> -> Result<string, MigrationError>,
                    accepts: string -> bool, metadataOk: string -> bool, k: nat)
    requires 0 < k < |plan|
    requires forall j :: 0 <= j < k ==> DirRun(plan[j], files, accepts, metadataOk).outcome.Ok?
    requires DirRun(plan[k], files, accepts, metadataOk).outcome.Err?
    ensures forall j :: 0 <= j < k - 1 ==> DirRun(plan[1..][j], files, accepts, metadataOk).outcome.Ok?
    ensures DirRun(plan[1..][k - 1], files, accepts, metadataOk).outcome.Err?
  {
    assert forall j :: 0 <= j < k - 1 ==> plan[1..][j] == plan[j + 1];
    assert plan[1..][k - 1] == plan[k];
  }

  /** The run of the first `k` directories, when the first succeeds, is its
      actions followed by the run of the next `k - 1`. */
  lemma PrefixSteps(plan: seq<Entry>, files: seq<Component> -> Result<string, MigrationError>,
                    accepts: string -> bool, metadataOk: string -> bool, k: nat)
    requires 0 < k < |plan|
    requires DirRun(plan[0], files, accepts, metadataOk).outcome.Ok?
    ensures RunAll(plan[..k], files, accepts, metadataOk).actions
         == DirRun(plan[0], files, accepts, metadataOk).actions + RunAll(plan[1..][..k - 1], files, accepts, metadataOk).actions
  {
    assert plan[..k][0] == plan[0];
    assert plan[..k][1..] == plan[1..][..k - 1];
  }

  /** One directory whose file reads and whose statements all go through
      records its version and nothing else. */
  lemma FirstRecords(e: Entry, files: seq<Component> -> Result<string, MigrationError>,
                     accepts: string -> bool)
    requires files(e.path).Ok?
    requires forall s :: s in ParseCqlStatements(files(e.path).value) ==> accepts(s)
    ensures RunCqlQueries(files(e.path), e.version, true, accepts, true).outcome.Ok?
    ensures Recorded(RunCqlQueries(files(e.path), e.version, true, accepts, true).actions) == [e.version]
  {
    var stmts := ParseCqlStatements(files(e.path).value);
    assert forall k :: 0 <= k < |stmts| ==> accepts(stmts[k]);
    var first := RunCqlQueries(files(e.path), e.version, true, accepts, true);
    assert first.actions == Executes(stmts) + [RecordMetadata(e.version, true)];
    RecordedAppend(Executes(stmts), [RecordMetadata(e.version, true)]);
    NoRecordInExecutes(stmts);
    assert Recorded([RecordMetadata(e.version, true)]) == [e.version];
  }

  /** When every file reads, every statement goes through and every insert
      succeeds, each planned version is recorded once, in ascending order. */
  lemma {:induction false} RunAllRecordsPlan(plan: seq<Entry>, files: seq<Component> -> Result<string, MigrationError>,
                                             accepts: string -> bool, metadataOk: string -> bool)
    requires forall k :: 0 <= k < |plan| ==> files(plan[k].path).Ok? && metadataOk(plan[k].version)
    requires forall p, s :: files(p).Ok? && s in ParseCqlStatements(files(p).value) ==> accepts(s)
    ensures RunAll(plan, files, accepts, metadataOk).outcome.Ok?
    ensures Recorded(RunAll(plan, files, accepts, metadataOk).actions) == Versions(plan)
    decreases |plan|
  {
    if |plan| > 0 {
      var first := RunCqlQueries(files(plan[0].path), plan[0].version, true, accepts, true);
      assert metadataOk(plan[0].version);
      FirstRecords(plan[0], files, accepts);
      assert forall k :: 0 <= k < |plan[1..]| ==> plan[1..][k] == plan[k + 1];
      RunAllRecordsPlan(plan[1..], files, accepts, metadataOk);
      var rest := RunAll(plan[1..], files, accepts, metadataOk);
      assert RunAll(plan, files, accepts, metadataOk) == Trace(first.actions + rest.actions, rest.outcome);
      RecordedAppend(first.actions, rest.actions);
      assert Versions(plan) == [plan[0].version] + Versions(plan[1..]);
    }
  }

  /** On a fresh setup the plan is the whole tree, whatever `yet_to_run`
      returned. */
  lemma {:induction false} FreshPlanIgnoresList(t: seq<Entry>, a: seq<string>, b: seq<string>)
    requires IsTree(t)
    ensures RunPlan(t, true, a) == RunPlan(t, true, b)
    decreases |t|
  {
    if |t| > 0 {
      TreeTail(t);
      FreshPlanIgnoresList(t[1..], a, b);
    }
  }

  /** `run`: on a fresh setup the setup statements run first (split as a
      statement file is) and then every directory; otherwise the directories
      yet to run. The tracking rows are read after the setup and before any
      directory runs; a failed read ends the run there. */
  function Run(t: seq<Entry>, isFresh: bool, setupText: string,
               rows: Result<seq<Result<TrackingRow, ()>>, MigrationError>,
               files: seq<Component> -> Result<string, MigrationError>,
               accepts: string -> bool, metadataOk: string -> bool): (tr: Trace)
    requires IsTree(t)
    ensures isFresh && ExecuteAll(ParseCqlStatements(setupText), accepts).outcome.Ok? ==>
              |ParseCqlStatements(setupText)| <= |tr.actions|
              && tr.actions[..|ParseCqlStatements(setupText)|] == Executes(ParseCqlStatements(setupText))
    ensures isFresh && ExecuteAll(ParseCqlStatements(setupText), accepts).outcome.Err? ==>
              tr == ExecuteAll(ParseCqlStatements(setupText), accepts)
    ensures isFresh && ExecuteAll(ParseCqlStatements(setupText), accepts).outcome.Ok? && rows.Err? ==>
              tr == Trace(Executes(ParseCqlStatements(setupText)), Err(rows.error))
    ensures isFresh && ExecuteAll(ParseCqlStatements(setupText), accepts).outcome.Ok? && rows.Ok? ==>
              var all := RunAll(RunPlan(t, true, []), files, accepts, metadataOk);
              tr == Trace(Executes(ParseCqlStatements(setupText)) + all.actions, all.outcome)
    ensures !isFresh && rows.Err? ==> tr == Trace([], Err(rows.error))
    ensures !isFresh && rows.Ok? ==>
              tr == RunAll(RunPlan(t, false, YetToRun(Versions(t), rows.value)), files, accepts, metadataOk)
  {
    if isFresh then
      var setup := ExecuteAll(ParseCqlStatements(setupText), accepts);
      if setup.outcome.Err? then setup
      else
        match rows
        case Err(e) => Trace(setup.actions, Err(e))
        case Ok(raw) =>
          FreshPlanIgnoresList(t, YetToRun(Versions(t), raw), []);
          var rest := RunAll(RunPlan(t, true, YetToRun(Versions(t), raw)), files, accepts, metadataOk);
          assert (setup.actions + rest.actions)[..|setup.actions|] == setup.actions;
          Trace(setup.actions + rest.actions, rest.outcome)
    else
      match rows
      case Err(e) => Trace([], Err(e))
      case Ok(raw) => RunAll(RunPlan(t, false, YetToRun(Versions(t), raw)), files, accepts, metadataOk)
  }
}
