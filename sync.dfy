/** The pipeline driver of src/sync.ts: every report is loaded through
    `handleAppFolioData` with a bounded number of attempts, a report that still fails is
    skipped, and a run of the pipeline opens the session, loads every report, calls the
    stored procedure, refreshes the Tableau extract and closes the session. */
module Sync {
  import opened Wrappers
  import opened Sql
  import opened Snowflake
  import opened AppFolioService

  /** One entry of the report configuration. */
  datatype Report = Report(name: string, insertMethod: InsertMethod, params: ParamsArg,
                           optionalParams: Option<OptionalParam>)

  /** The `batchSize` every report is loaded with. */
  const BatchSize: nat := 50000

  /** The default `retries` of `processReport`. */
  const Retries: int := 3

  /** The destination table of a report. */
  function TableName(name: string): (table: string)
    ensures |table| == |name| + 9 && table[9..] == name
  {
    "appfolio_" + name
  }

  /** Every page chain of the report ends within `fuel` requests. */
  predicate ReportEnds(api: Api, report: Report, fuel: nat)
  {
    report.params.Array? ==> ChainsEnd(api, report.name, report.params.items, fuel)
  }

  /** What one attempt at a report does: `handleAppFolioData` with the report's name as
      endpoint, `appfolio_<name>` as table, and batch size 50000. */
  function ReportPlan(api: Api, report: Report, stamp: string, fuel: nat): Plan
    requires ReportEnds(api, report, fuel)
  {
    HandlePlan(api, report.name, TableName(report.name), report.insertMethod, BatchSize,
               report.params, report.optionalParams, stamp, fuel)
  }

  /** The outcome of the retry loop for the outcomes of its attempts: the last attempt's,
      or success when there was none. */
  function Final(attempts: seq<Outcome<Failure>>): Outcome<Failure>
  {
    if attempts == [] then Pass else attempts[|attempts| - 1]
  }

  /** Attempt `k` carried `plan` out from `states[k]` to `states[k + 1]` with outcome
      `attempts[k]`. */
  ghost predicate Attempted(plan: Plan, attempts: seq<Outcome<Failure>>, states: seq<(Tables, seq<Stmt>)>,
                            faulty: nat -> bool, step: Step)
  {
    && |states| == |attempts| + 1
    && forall k :: 0 <= k < |attempts| ==>
         Did(states[k].0, states[k].1, plan, attempts[k], states[k + 1].0, states[k + 1].1, faulty, step)
  }

  /** One more attempt, from where the last one ended. */
  lemma AttemptedSnoc(plan: Plan, attempts: seq<Outcome<Failure>>, states: seq<(Tables, seq<Stmt>)>,
                      r: Outcome<Failure>, t: Tables, log: seq<Stmt>, faulty: nat -> bool, step: Step)
    requires Attempted(plan, attempts, states, faulty, step)
    requires Did(states[|attempts|].0, states[|attempts|].1, plan, r, t, log, faulty, step)
    ensures Attempted(plan, attempts + [r], states + [(t, log)], faulty, step)
  {
    var attempts', states' := attempts + [r], states + [(t, log)];
    forall k | 0 <= k < |attempts'|
      ensures Did(states'[k].0, states'[k].1, plan, attempts'[k], states'[k + 1].0, states'[k + 1].1, faulty, step)
    {
      assert states'[k] == states[k];
      if k < |attempts| {
        assert attempts'[k] == attempts[k] && states'[k + 1] == states[k + 1];
      }
    }
  }

  /** The retry loop made the attempts `attempts`, attempt `k` carrying `plan` out from
      `states[k]` to `states[k + 1]`: none when `retries` is not positive, otherwise
      failed attempts until one succeeds or `retries` attempts have been made. */
  ghost predicate Tried(plan: Plan, retries: int, attempts: seq<Outcome<Failure>>,
                       states: seq<(Tables, seq<Stmt>)>, faulty: nat -> bool, step: Step)
  {
    && Attempted(plan, attempts, states, faulty, step)
    && (forall k :: 0 <= k < |attempts| - 1 ==> attempts[k].Fail?)
    && (retries <= 0 ==> attempts == [])
    && (retries > 0 ==> 0 < |attempts| <= retries && (|attempts| == retries || attempts[|attempts| - 1].Pass?))
  }

  /** The retry loop makes at most `retries` attempts; it ends in success exactly when
      some attempt succeeded, which is then the last one, or when it made none; and it
      ends in failure with the error of the last attempt, only after `retries` failed
      attempts. */
  lemma TriedOutcome(plan: Plan, retries: int, attempts: seq<Outcome<Failure>>,
                     states: seq<(Tables, seq<Stmt>)>, faulty: nat -> bool, step: Step)
    requires Tried(plan, retries, attempts, states, faulty, step)
    ensures |attempts| <= if retries > 0 then retries else 0
    ensures Final(attempts).Pass? <==> attempts == [] || exists k :: 0 <= k < |attempts| && attempts[k].Pass?
    ensures Final(attempts).Fail? ==> |attempts| == retries && forall k :: 0 <= k < |attempts| ==> attempts[k].Fail?
  {
    if Final(attempts).Fail? {
      assert attempts[|attempts| - 1].Fail?;
    }
  }

  /** The loop stops after an attempt that succeeded or was the last allowed one, all
      earlier attempts having failed. */
  lemma TriedStop(plan: Plan, retries: int, attempts: seq<Outcome<Failure>>,
                  states: seq<(Tables, seq<Stmt>)>, faulty: nat -> bool, step: Step)
    requires Attempted(plan, attempts, states, faulty, step)
    requires 0 < |attempts| <= retries
    requires forall k :: 0 <= k < |attempts| - 1 ==> attempts[k].Fail?
    requires |attempts| == retries || attempts[|attempts| - 1].Pass?
    ensures Tried(plan, retries, attempts, states, faulty, step)
  {
  }

  /** `processReport(reportKey, retries)`: up to `retries` attempts at the report, each a
      full `handleAppFolioData`; the first success ends the loop, and the error of the
      last attempt is re-thrown when all of them fail. */
  method ProcessReport(conn: Connection, api: Api, report: Report, retries: int, stamp: string, ghost fuel: nat)
    returns (r: Outcome<Failure>, ghost attempts: seq<Outcome<Failure>>, ghost states: seq<(Tables, seq<Stmt>)>)
    requires conn.Valid() && ReportEnds(api, report, fuel)
    modifies conn
    ensures Tried(ReportPlan(api, report, stamp, fuel), retries, attempts, states, conn.faulty, conn.step)
    ensures states[0] == (old(conn.tables), old(conn.log))
    ensures states[|attempts|] == (conn.tables, conn.log)
    ensures r == Final(attempts)
  {
    ghost var plan := ReportPlan(api, report, stamp, fuel);
    attempts := [];
    states := [(conn.tables, conn.log)];
    var attempt := 1;
    while attempt <= retries
      invariant 1 <= attempt <= if retries > 0 then retries else 1
      invariant |attempts| == attempt - 1
      invariant Attempted(plan, attempts, states, conn.faulty, conn.step)
      invariant states[0] == (old(conn.tables), old(conn.log))
      invariant states[attempt - 1] == (conn.tables, conn.log)
      invariant forall k :: 0 <= k < |attempts| ==> attempts[k].Fail?
      decreases retries - attempt
    {
      r := HandleAppFolioData(conn, api, report.name, TableName(report.name), report.insertMethod, BatchSize,
                              report.params, report.optionalParams, stamp, fuel);
      AttemptedSnoc(plan, attempts, states, r, conn.tables, conn.log, conn.faulty, conn.step);
      attempts := attempts + [r];
      states := states + [(conn.tables, conn.log)];
      if r.Pass? || attempt == retries {
        TriedStop(plan, retries, attempts, states, conn.faulty, conn.step);
        return;
      }
      attempt := attempt + 1;
    }
    r := Pass;
  }

  /** `report` was tried with the default number of attempts, from `mark` to `mark'`,
      whatever its outcome. */
  ghost predicate TriedReport(api: Api, report: Report, stamp: string, fuel: nat,
                              attempts: seq<Outcome<Failure>>, tried: seq<(Tables, seq<Stmt>)>,
                              mark: (Tables, seq<Stmt>), mark': (Tables, seq<Stmt>),
                              faulty: nat -> bool, step: Step)
    requires ReportEnds(api, report, fuel)
  {
    && Tried(ReportPlan(api, report, stamp, fuel), Retries, attempts, tried, faulty, step)
    && tried[0] == mark
    && tried[|attempts|] == mark'
  }

  /** The first `|runs|` reports were tried, report `i` from `marks[i]` to `marks[i + 1]`. */
  ghost predicate TriedEach(api: Api, reports: seq<Report>, stamp: string, fuel: nat,
                            marks: seq<(Tables, seq<Stmt>)>, runs: seq<seq<Outcome<Failure>>>,
                            states: seq<seq<(Tables, seq<Stmt>)>>, faulty: nat -> bool, step: Step)
    requires forall i :: 0 <= i < |reports| ==> ReportEnds(api, reports[i], fuel)
  {
    && |runs| <= |reports| && |marks| == |runs| + 1 && |states| == |runs|
    && forall i :: 0 <= i < |runs| ==>
         TriedReport(api, reports[i], stamp, fuel, runs[i], states[i], marks[i], marks[i + 1], faulty, step)
  }

  /** The pass made over `reports`: every report was tried. */
  ghost predicate AllTried(api: Api, reports: seq<Report>, stamp: string, fuel: nat,
                           marks: seq<(Tables, seq<Stmt>)>, runs: seq<seq<Outcome<Failure>>>,
                           states: seq<seq<(Tables, seq<Stmt>)>>, faulty: nat -> bool, step: Step)
    requires forall i :: 0 <= i < |reports| ==> ReportEnds(api, reports[i], fuel)
  {
    TriedEach(api, reports, stamp, fuel, marks, runs, states, faulty, step) && |runs| == |reports|
  }

  /** The next report tried, from where the previous one ended. */
  lemma TriedEachSnoc(api: Api, reports: seq<Report>, stamp: string, fuel: nat,
                      marks: seq<(Tables, seq<Stmt>)>, runs: seq<seq<Outcome<Failure>>>,
                      states: seq<seq<(Tables, seq<Stmt>)>>, attempts: seq<Outcome<Failure>>,
                      tried: seq<(Tables, seq<Stmt>)>, mark: (Tables, seq<Stmt>), faulty: nat -> bool, step: Step)
    requires forall i :: 0 <= i < |reports| ==> ReportEnds(api, reports[i], fuel)
    requires TriedEach(api, reports, stamp, fuel, marks, runs, states, faulty, step) && |runs| < |reports|
    requires TriedReport(api, reports[|runs|], stamp, fuel, attempts, tried, marks[|runs|], mark, faulty, step)
    ensures TriedEach(api, reports, stamp, fuel, marks + [mark], runs + [attempts], states + [tried], faulty, step)
  {
    var marks', runs', states' := marks + [mark], runs + [attempts], states + [tried];
    forall i | 0 <= i < |runs|
      ensures TriedReport(api, reports[i], stamp, fuel, runs'[i], states'[i], marks'[i], marks'[i + 1], faulty, step)
    {
      assert runs'[i] == runs[i] && states'[i] == states[i] && marks'[i] == marks[i] && marks'[i + 1] == marks[i + 1];
    }
    var n := |runs|;
    assert runs'[n] == attempts && states'[n] == tried && marks'[n] == marks[n] && marks'[n + 1] == mark;
  }

  /** `processAllReports()`: every report of the configuration generated for this pass,
      in order; a report that fails after its retries is skipped and the pass goes on. */
  method ProcessAllReports(conn: Connection, api: Api, reports: seq<Report>, stamp: string, ghost fuel: nat)
    returns (ghost marks: seq<(Tables, seq<Stmt>)>, ghost runs: seq<seq<Outcome<Failure>>>,
             ghost states: seq<seq<(Tables, seq<Stmt>)>>)
    requires conn.Valid()
    requires forall i :: 0 <= i < |reports| ==> ReportEnds(api, reports[i], fuel)
    modifies conn
    ensures AllTried(api, reports, stamp, fuel, marks, runs, states, conn.faulty, conn.step)
    ensures marks[0] == (old(conn.tables), old(conn.log))
    ensures marks[|reports|] == (conn.tables, conn.log)
  {
    marks := [(conn.tables, conn.log)];
    runs := [];
    states := [];
    for i := 0 to |reports|
      invariant |runs| == i
      invariant TriedEach(api, reports, stamp, fuel, marks, runs, states, conn.faulty, conn.step)
      invariant marks[0] == (old(conn.tables), old(conn.log))
      invariant marks[i] == (conn.tables, conn.log)
    {
      var r, attempts, tried := ProcessReport(conn, api, reports[i], Retries, stamp, fuel);
      TriedEachSnoc(api, reports, stamp, fuel, marks, runs, states, attempts, tried, (conn.tables, conn.log),
                    conn.faulty, conn.step);
      marks := marks + [(conn.tables, conn.log)];
      runs := runs + [attempts];
      states := states + [tried];
    }
  }

  /** Why a run of the pipeline stopped. */
  datatype PipelineError = ConnectFailed | ProcedureFailed | TableauFailed(reason: string) | DisconnectFailed

  /** `main()`: connect, process every report, call the stored procedure, refresh the
      Tableau extract (whose outcome is a parameter), disconnect. The first error ends the
      run and is re-thrown, so the session is not closed after a failed procedure or
      refresh. */
  method RunPipeline(conn: Connection, api: Api, reports: seq<Report>, stamp: string, tableau: Outcome<string>,
                     ghost fuel: nat)
    returns (r: Outcome<PipelineError>, ghost marks: seq<(Tables, seq<Stmt>)>,
             ghost runs: seq<seq<Outcome<Failure>>>, ghost states: seq<seq<(Tables, seq<Stmt>)>>)
    requires conn.Valid()
    requires forall i :: 0 <= i < |reports| ==> ReportEnds(api, reports[i], fuel)
    modifies conn
    ensures r == Fail(ConnectFailed) <==> conn.faulty(|old(conn.log)|)
    ensures r == Fail(ConnectFailed) ==> conn.tables == old(conn.tables) && conn.log == old(conn.log) + [OpenSession]
    ensures r != Fail(ConnectFailed) ==>
      && AllTried(api, reports, stamp, fuel, marks, runs, states, conn.faulty, conn.step)
      && marks[0] == (old(conn.tables), old(conn.log) + [OpenSession])
      && (r == Fail(ProcedureFailed) <==>
            conn.faulty(|marks[|reports|].1|) || conn.wh.procedure(marks[|reports|].0).None?)
      && (r == Fail(ProcedureFailed) ==> conn.tables == marks[|reports|].0)
      && (r != Fail(ProcedureFailed) ==> conn.wh.procedure(marks[|reports|].0) == Some(conn.tables))
      && (r == Fail(ProcedureFailed) || (r.Fail? && r.error.TableauFailed?) ==>
            conn.log == marks[|reports|].1 + [CallProcedure])
      && (r.Fail? && r.error.TableauFailed? <==> r != Fail(ProcedureFailed) && tableau.Fail?)
      && (r.Fail? && r.error.TableauFailed? ==> r.error.reason == tableau.error)
      && (r.Pass? || r == Fail(DisconnectFailed) ==>
            tableau.Pass? && conn.log == marks[|reports|].1 + [CallProcedure, CloseSession])
  {
    var connected := conn.Execute(OpenSession);
    assert [OpenSession][..1] == [OpenSession];
    if connected.Fail? {
      return Fail(ConnectFailed), [], [], [];
    }
    marks, runs, states := ProcessAllReports(conn, api, reports, stamp, fuel);
    r := FinishPipeline(conn, tableau);
  }

  /** The end of `main()` after the reports: the stored procedure, the Tableau refresh,
      then the disconnect, each only when everything before it succeeded. */
  method FinishPipeline(conn: Connection, tableau: Outcome<string>) returns (r: Outcome<PipelineError>)
    requires conn.Valid()
    modifies conn
    ensures r != Fail(ConnectFailed)
    ensures r == Fail(ProcedureFailed) <==>
      conn.faulty(|old(conn.log)|) || conn.wh.procedure(old(conn.tables)).None?
    ensures r == Fail(ProcedureFailed) ==> conn.tables == old(conn.tables)
    ensures r != Fail(ProcedureFailed) ==> conn.wh.procedure(old(conn.tables)) == Some(conn.tables)
    ensures r == Fail(ProcedureFailed) || (r.Fail? && r.error.TableauFailed?) ==>
      conn.log == old(conn.log) + [CallProcedure]
    ensures r.Fail? && r.error.TableauFailed? <==> r != Fail(ProcedureFailed) && tableau.Fail?
    ensures r.Fail? && r.error.TableauFailed? ==> r.error.reason == tableau.error
    ensures r.Pass? || r == Fail(DisconnectFailed) ==>
      tableau.Pass? && conn.log == old(conn.log) + [CallProcedure, CloseSession]
  {
    ghost var log0 := conn.log;
    var called := conn.Execute(CallProcedure);
    assert [CallProcedure][..1] == [CallProcedure];
    if called.Fail? {
      return Fail(ProcedureFailed);
    }
    if tableau.Fail? {
      return Fail(TableauFailed(tableau.error));
    }
    var closed := conn.Execute(CloseSession);
    assert [CloseSession][..1] == [CloseSession];
    assert log0 + [CallProcedure] + [CloseSession] == log0 + [CallProcedure, CloseSession];
    r := if closed.Fail? then Fail(DisconnectFailed) else Pass;
  }
}
