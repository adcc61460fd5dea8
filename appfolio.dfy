/** `handleAppFolioData` (src/services/appfolioService.ts): one report is fetched page by
    page for every query parameter object, each page is transformed and appended to the
    staging table `<table>_staging`, and at the end the destination table is dropped and
    the staging table renamed into its place.

    The report API is a function from a page address and a parameter object to a page
    or an error. What the call does is described by a `Plan`: the requests and the
    statements in the order they are issued, and the error that ends the call early when
    the API fails or the first page of a parameter is empty. The method carries the plan
    out on a `Connection`, so a statement that fails ends the call as well. */
module AppFolioService {
  import opened Wrappers
  import opened Records
  import opened Sql
  import opened Snowflake
  import DataTransformer
  import BulkInsertService
  import BatchInsertService
  import Csv

  /** `SnowFlakeInsertingMethod`. */
  datatype InsertMethod = BatchInsert | BulkInsert | BulkUpsert

  /** `OptionalParam`: the incremental-load options, with the two extra entries the
      upsert path reads. The source declares those only through the type's string index
      signature and casts them to strings, so they may be missing or booleans there;
      the model takes them to be strings. */
  datatype OptionalParam = OptionalParam(isFirstRun: bool, from: string, to: string,
                                         dateField: string, dateFormat: string)

  /** A value of a query parameter object: `string | number | boolean | string[]`. */
  datatype ParamValue = PStr(s: string) | PNum(n: int) | PBool(b: bool) | PList(items: seq<string>)

  type Param = seq<(string, ParamValue)>

  /** The `params` argument: an array of parameter objects, or any other value. */
  datatype ParamsArg = Array(items: seq<Param>) | NotAnArray

  /** One page of a report: its rows and `next_page_url`, with `""` standing for every
      falsy value (`null`, `undefined`, the empty string), which the loop treats alike. */
  datatype Page = Page(results: seq<Record>, next: string)

  /** `fetchAppFolioData(urlOrEndpoint, param)`: a page, or the error the request fails with. */
  type Api = (string, Param) -> Result<Page, string>

  /** Why a call ends before it has sent all of its statements, other than a statement failing. */
  datatype Abort =
    | FetchFailed(url: string, reason: string)
      // `Object.keys(transformedData[0])` on an empty first page throws a TypeError.
    | NoFirstRecord(param: Param)

  /** The error `handleAppFolioData` rejects with. */
  datatype Failure = StatementFailed(stmt: Stmt) | Aborted(abort: Abort)

  datatype Action = Send(stmt: Stmt) | Fetch(url: string, param: Param)

  /** The actions of a call in order and, when it ends early, why. */
  datatype Plan = Plan(actions: seq<Action>, abort: Option<Abort>)

  /** The staging table of `tableName`. */
  function StagingName(table: string): (staging: string)
    ensures staging != table
  {
    assert |table + "_staging"| != |table|;
    table + "_staging"
  }

  // ---------------------------------------------------------------------------
  // Plans
  // ---------------------------------------------------------------------------

  function Sends(stmts: seq<Stmt>): (acts: seq<Action>)
    ensures |acts| == |stmts|
    ensures forall i :: 0 <= i < |stmts| ==> acts[i] == Send(stmts[i])
  {
    seq(|stmts|, i requires 0 <= i < |stmts| => Send(stmts[i]))
  }

  /** The statements among `acts`, in order. */
  function Stmts(acts: seq<Action>): seq<Stmt>
    decreases |acts|
  {
    if acts == [] then [] else StmtOf(acts[0]) + Stmts(acts[1..])
  }

  function StmtOf(a: Action): seq<Stmt>
  {
    if a.Send? then [a.stmt] else []
  }

  /** The requests among `acts`, in order, as the page addresses requested. */
  function Fetches(acts: seq<Action>): seq<string>
    decreases |acts|
  {
    if acts == [] then [] else UrlOf(acts[0]) + Fetches(acts[1..])
  }

  function UrlOf(a: Action): seq<string>
  {
    if a.Fetch? then [a.url] else []
  }

  /** `a`, then `b` unless `a` ended early. */
  function Then(a: Plan, b: Plan): (c: Plan)
    ensures a.abort.Some? ==> c == a
    ensures a.abort.None? ==> c.actions == a.actions + b.actions && c.abort == b.abort
  {
    if a.abort.Some? then a else Plan(a.actions + b.actions, b.abort)
  }

  /** The branch taken: the replace path for `BatchInsert`, `BulkInsert` and a first
      `BulkUpsert`; the incremental path for a later `BulkUpsert`; none for `BulkUpsert`
      without options. */
  datatype Mode = Replace(insert: InsertMethod) | Upsert

  function Branch(m: InsertMethod, opts: Option<OptionalParam>): Option<Mode>
  {
    if m == BatchInsert || m == BulkInsert || (m == BulkUpsert && opts.Some? && opts.value.isFirstRun) then Some(Replace(m))
    else if m == BulkUpsert && opts.Some? && !opts.value.isFirstRun then Some(Upsert)
    else None
  }

  /** The page size limit matters only when pages go through `batchInsert`. */
  predicate SizeFits(mode: Mode, size: nat)
  {
    mode == Replace(BatchInsert) ==> size > 0
  }

  /** The statements one page sends: on the replace path the first page of a parameter
      first ensures the staging table with the keys of its first transformed record;
      then the page goes through `batchInsert` or `bulkInsert`. */
  function PageStmts(mode: Mode, staging: string, size: nat, data: seq<Record>, first: bool): seq<Stmt>
    requires SizeFits(mode, size)
    requires first && mode.Replace? ==> |data| > 0
  {
    (if first && mode.Replace? then [CreateTableIfNotExists(staging, Keys(data[0]))] else [])
    + PageInserts(mode, staging, size, data)
  }

  /** One turn of the page loop: the request, and the page's statements unless the request
      failed or, as the first page on the replace path, it holds no record. */
  function PagePlan(api: Api, url: string, p: Param, mode: Mode, staging: string, size: nat,
                    stamp: string, first: bool): Plan
    requires SizeFits(mode, size)
  {
    match api(url, p)
    case Err(e) => Plan([Fetch(url, p)], Some(FetchFailed(url, e)))
    case Ok(page) =>
      var data := DataTransformer.TransformData(page.results, stamp);
      if first && mode.Replace? && data == [] then Plan([Fetch(url, p)], Some(NoFirstRecord(p)))
      else Plan([Fetch(url, p)] + Sends(PageStmts(mode, staging, size, data, first)), None)
  }

  /** The chain of pages from `url` ends within `fuel` requests: a request fails or its
      page has no next page. */
  predicate ChainEnds(api: Api, url: string, p: Param, fuel: nat)
    decreases fuel
  {
    fuel > 0 &&
    match api(url, p)
    case Err(_) => true
    case Ok(page) => page.next == "" || ChainEnds(api, page.next, p, fuel - 1)
  }

  /** The page addresses a parameter's loop requests, by definition: `url`, then the next
      page address of each page that has one, until a request fails. */
  function Chain(api: Api, url: string, p: Param, fuel: nat): (urls: seq<string>)
    requires ChainEnds(api, url, p, fuel)
    ensures |urls| >= 1 && urls[0] == url
    decreases fuel
  {
    [url] +
    match api(url, p)
    case Err(_) => []
    case Ok(page) => if page.next == "" then [] else Chain(api, page.next, p, fuel - 1)
  }

  /** The `do ... while (nextPageUrl)` loop of one parameter, from page `url` on. */
  function ParamPlan(api: Api, url: string, p: Param, mode: Mode, staging: string, size: nat,
                     stamp: string, first: bool, fuel: nat): Plan
    requires SizeFits(mode, size)
    requires ChainEnds(api, url, p, fuel)
    decreases fuel
  {
    var here := PagePlan(api, url, p, mode, staging, size, stamp, first);
    match api(url, p)
    case Err(_) => here
    case Ok(page) =>
      if page.next == "" then here
      else Then(here, ParamPlan(api, page.next, p, mode, staging, size, stamp, false, fuel - 1))
  }

  /** Every parameter's page chain ends within `fuel` requests. */
  predicate ChainsEnd(api: Api, endpoint: string, ps: seq<Param>, fuel: nat)
  {
    forall j :: 0 <= j < |ps| ==> ChainEnds(api, endpoint, ps[j], fuel)
  }

  /** The `for (const param of params)` loop: each parameter starts afresh at `endpoint`. */
  function ParamsPlan(api: Api, endpoint: string, ps: seq<Param>, mode: Mode, staging: string,
                      size: nat, stamp: string, fuel: nat): Plan
    requires SizeFits(mode, size)
    requires ChainsEnd(api, endpoint, ps, fuel)
    decreases |ps|
  {
    if ps == [] then Plan([], None)
    else
      Then(ParamPlan(api, endpoint, ps[0], mode, staging, size, stamp, true, fuel),
           ParamsPlan(api, endpoint, ps[1..], mode, staging, size, stamp, fuel))
  }

  /** The window `removeExistingRecords` is given. */
  function WindowOf(o: OptionalParam): DateWindow
  {
    DateWindow(o.dateField, o.dateFormat, o.from, o.to)
  }

  /** The statements that prepare staging on the incremental path: a fresh copy of the
      destination without the rows of the window. */
  function UpsertPrelude(table: string, o: OptionalParam): seq<Stmt>
  {
    var staging := StagingName(table);
    [DropTableIfExists(staging), CreateTableAsSelect(staging, table), DeleteWindow(staging, WindowOf(o))]
  }

  /** Everything before the swap: the branch that fills staging, if any. */
  function LoadPlan(api: Api, endpoint: string, table: string, m: InsertMethod, size: nat,
                    ps: seq<Param>, opts: Option<OptionalParam>, stamp: string, fuel: nat): Plan
    requires m == BatchInsert ==> size > 0
    requires ChainsEnd(api, endpoint, ps, fuel)
  {
    var staging := StagingName(table);
    match Branch(m, opts)
    case Some(Replace(_)) =>
      Then(Plan([Send(DropTableIfExists(staging))], None),
           ParamsPlan(api, endpoint, ps, Replace(m), staging, size, stamp, fuel))
    case Some(Upsert) =>
      Then(Plan(Sends(UpsertPrelude(table, opts.value)), None),
           ParamsPlan(api, endpoint, ps, Upsert, staging, size, stamp, fuel))
    case None => Plan([], None)
  }

  /** The swap: drop the destination, then rename staging into its place. */
  function SwapStmts(table: string): seq<Stmt>
  {
    [DropTableIfExists(table), AlterTableRename(StagingName(table), table)]
  }

  /** `handleAppFolioData(endpoint, tableName, paginated, insertMethod, batchSize, params,
      optionalParams)`, as written: nothing when `params` is not an array, otherwise the
      branch and then, unconditionally, the swap. */
  function HandlePlan(api: Api, endpoint: string, table: string, m: InsertMethod, size: nat,
                      params: ParamsArg, opts: Option<OptionalParam>, stamp: string, fuel: nat): Plan
    requires m == BatchInsert ==> size > 0
    requires params.Array? ==> ChainsEnd(api, endpoint, params.items, fuel)
  {
    if params.NotAnArray? then Plan([], None)
    else Then(LoadPlan(api, endpoint, table, m, size, params.items, opts, stamp, fuel),
              Plan(Sends(SwapStmts(table)), None))
  }

  // ---------------------------------------------------------------------------
  // Carrying a plan out
  // ---------------------------------------------------------------------------

  /** From tables `t0` and log `log0` the connection reached tables `t` and log `log` by
      carrying out `plan` with result `r`: its statements ran up to the first failure;
      a failed statement is the error, and it is the last statement the log holds;
      otherwise the plan's own early end is. */
  ghost predicate Did(t0: Tables, log0: seq<Stmt>, plan: Plan, r: Outcome<Failure>,
                      t: Tables, log: seq<Stmt>, faulty: nat -> bool, step: Step)
  {
    var failed := r.Fail? && r.error.StatementFailed?;
    && RanFrom(t0, log0, Stmts(plan.actions), failed, t, log, faulty, step)
    && (failed ==> r.error.stmt in Stmts(plan.actions))
    && (failed ==> |log| > 0 && r.error.stmt == log[|log| - 1])
    && (!failed ==> r == if plan.abort.Some? then Fail(Aborted(plan.abort.value)) else Pass)
  }

  /** The error a service call's failed statement becomes. */
  function Lift(r: Outcome<Stmt>): Outcome<Failure>
  {
    if r.Pass? then Pass else Fail(StatementFailed(r.error))
  }

  lemma {:induction false} StmtsAppend(a: seq<Action>, b: seq<Action>)
    ensures Stmts(a + b) == Stmts(a) + Stmts(b)
    decreases |a|
  {
    if a == [] {
      assert a + b == b;
    } else {
      assert (a + b)[0] == a[0];
      assert (a + b)[1..] == a[1..] + b;
      StmtsAppend(a[1..], b);
      assert Stmts(a + b) == StmtOf(a[0]) + (Stmts(a[1..]) + Stmts(b));
    }
  }

  lemma {:induction false} FetchesAppend(a: seq<Action>, b: seq<Action>)
    ensures Fetches(a + b) == Fetches(a) + Fetches(b)
    decreases |a|
  {
    if a == [] {
      assert a + b == b;
    } else {
      assert (a + b)[0] == a[0];
      assert (a + b)[1..] == a[1..] + b;
      FetchesAppend(a[1..], b);
      assert Fetches(a + b) == UrlOf(a[0]) + (Fetches(a[1..]) + Fetches(b));
    }
  }

  /** The statements of sent statements are those statements, and they make no request. */
  lemma {:induction false} SendsOnly(stmts: seq<Stmt>)
    ensures Stmts(Sends(stmts)) == stmts
    ensures Fetches(Sends(stmts)) == []
    decreases |stmts|
  {
    if stmts != [] {
      SendsOnly(stmts[1..]);
      assert Sends(stmts)[1..] == Sends(stmts[1..]);
    }
  }

  /** Running statements through a service call is carrying out the plan that sends them. */
  lemma DidSends(t0: Tables, log0: seq<Stmt>, stmts: seq<Stmt>, r: Outcome<Stmt>,
                 t: Tables, log: seq<Stmt>, faulty: nat -> bool, step: Step)
    requires RanFrom(t0, log0, stmts, r.Fail?, t, log, faulty, step)
    requires r.Fail? ==> r.error in stmts
    requires r.Fail? ==> |log| > 0 && r.error == log[|log| - 1]
    ensures Did(t0, log0, Plan(Sends(stmts), None), Lift(r), t, log, faulty, step)
  {
    SendsOnly(stmts);
  }

  /** A plan without statements is carried out without touching the connection. */
  lemma DidNoStatements(t: Tables, log: seq<Stmt>, plan: Plan, faulty: nat -> bool, step: Step)
    requires Stmts(plan.actions) == []
    ensures Did(t, log, plan, if plan.abort.Some? then Fail(Aborted(plan.abort.value)) else Pass,
                t, log, faulty, step)
  {
    RanNothing(t, log, faulty, step);
  }

  /** Carrying out `a` without error and then `b` carries out `Then(a, b)`. */
  lemma DidThen(t0: Tables, log0: seq<Stmt>, a: Plan, t1: Tables, log1: seq<Stmt>,
                b: Plan, r: Outcome<Failure>, t2: Tables, log2: seq<Stmt>,
                faulty: nat -> bool, step: Step)
    requires Did(t0, log0, a, Pass, t1, log1, faulty, step)
    requires Did(t1, log1, b, r, t2, log2, faulty, step)
    ensures Did(t0, log0, Then(a, b), r, t2, log2, faulty, step)
  {
    StmtsAppend(a.actions, b.actions);
    RanThen(t0, log0, Stmts(a.actions), t1, log1, Stmts(b.actions),
            r.Fail? && r.error.StatementFailed?, t2, log2, faulty, step);
  }

  /** A call that ended with an error carries out `Then(a, b)` as well: nothing of `b`
      happens. */
  lemma DidStop(t0: Tables, log0: seq<Stmt>, a: Plan, r: Outcome<Failure>, t1: Tables, log1: seq<Stmt>,
                b: Plan, faulty: nat -> bool, step: Step)
    requires r.Fail?
    requires Did(t0, log0, a, r, t1, log1, faulty, step)
    ensures Did(t0, log0, Then(a, b), r, t1, log1, faulty, step)
  {
    if a.abort.None? {
      StmtsAppend(a.actions, b.actions);
      RanStop(t0, log0, Stmts(a.actions), t1, log1, Stmts(b.actions), faulty, step);
    }
  }

  lemma ThenAssoc(a: Plan, b: Plan, c: Plan)
    ensures Then(Then(a, b), c) == Then(a, Then(b, c))
  {
    if a.abort.None? && b.abort.None? {
      assert (a.actions + b.actions) + c.actions == a.actions + (b.actions + c.actions);
    }
  }

  lemma ThenDone(a: Plan)
    requires a.abort.None?
    ensures Then(a, Plan([], None)) == a
  {
    assert a.actions + [] == a.actions;
  }

  /** A page whose statements ran as a service call would run them. */
  lemma DidPage(t0: Tables, log0: seq<Stmt>, url: string, p: Param, stmts: seq<Stmt>, r: Outcome<Stmt>,
                t: Tables, log: seq<Stmt>, faulty: nat -> bool, step: Step)
    requires RanFrom(t0, log0, stmts, r.Fail?, t, log, faulty, step)
    requires r.Fail? ==> r.error in stmts
    requires r.Fail? ==> |log| > 0 && r.error == log[|log| - 1]
    ensures Did(t0, log0, Plan([Fetch(url, p)] + Sends(stmts), None), Lift(r), t, log, faulty, step)
  {
    FetchThenSends(url, p, stmts);
  }

  /** A page's actions: one request, then its statements. */
  lemma FetchThenSends(url: string, p: Param, stmts: seq<Stmt>)
    ensures Stmts([Fetch(url, p)] + Sends(stmts)) == stmts
    ensures Fetches([Fetch(url, p)] + Sends(stmts)) == [url]
  {
    SendsOnly(stmts);
    StmtsAppend([Fetch(url, p)], Sends(stmts));
    FetchesAppend([Fetch(url, p)], Sends(stmts));
    assert Stmts([Fetch(url, p)]) == [];
    assert Fetches([Fetch(url, p)]) == [url];
  }

  /** `nextPageUrl || endpoint`. */
  function PageUrl(nextPageUrl: string, endpoint: string): string
  {
    if nextPageUrl != "" then nextPageUrl else endpoint
  }

  /** One turn of the `do ... while` loop: fetch the page at `url`, transform it and
      store it. Returns the page's `next_page_url`. */
  method LoadPage(conn: Connection, api: Api, url: string, p: Param, mode: Mode, staging: string,
                  size: nat, stamp: string, first: bool) returns (r: Outcome<Failure>, next: string)
    requires conn.Valid() && SizeFits(mode, size)
    modifies conn
    ensures Did(old(conn.tables), old(conn.log), PagePlan(api, url, p, mode, staging, size, stamp, first),
                r, conn.tables, conn.log, conn.faulty, conn.step)
    ensures r.Pass? ==> api(url, p).Ok? && next == api(url, p).value.next
  {
    ghost var t0, log0 := conn.tables, conn.log;
    ghost var plan := PagePlan(api, url, p, mode, staging, size, stamp, first);
    var fetched := api(url, p);
    if fetched.Err? {
      DidNoStatements(t0, log0, plan, conn.faulty, conn.step);
      return Fail(Aborted(FetchFailed(url, fetched.error))), "";
    }
    next := fetched.value.next;
    var data := DataTransformer.TransformData(fetched.value.results, stamp);
    if first && mode.Replace? && |data| == 0 {
      DidNoStatements(t0, log0, plan, conn.faulty, conn.step);
      return Fail(Aborted(NoFirstRecord(p))), next;
    }
    var stored := StorePage(conn, mode, staging, size, data, first);
    DidPage(t0, log0, url, p, PageStmts(mode, staging, size, data, first), stored,
            conn.tables, conn.log, conn.faulty, conn.step);
    r := Lift(stored);
  }

  /** The statements `batchInsert` or `bulkInsert` send for a page. */
  function PageInserts(mode: Mode, staging: string, size: nat, data: seq<Record>): seq<Stmt>
    requires SizeFits(mode, size)
  {
    if mode == Replace(BatchInsert) then BatchInsertService.BatchStatements(data, staging, size)
    else BulkInsertService.BulkStatements(data, staging)
  }

  /** A fetched and transformed page: on the replace path, the first page of a parameter
      ensures the staging table with the keys of its first record; then the page goes
      through `batchInsert` for `BatchInsert` and through `bulkInsert` otherwise. */
  method StorePage(conn: Connection, mode: Mode, staging: string, size: nat, data: seq<Record>, first: bool)
    returns (r: Outcome<Stmt>)
    requires conn.Valid() && SizeFits(mode, size)
    requires first && mode.Replace? ==> |data| > 0
    modifies conn
    ensures conn.Ran(old(conn.tables), old(conn.log), PageStmts(mode, staging, size, data, first), r.Fail?)
    ensures r.Fail? ==> r.error in PageStmts(mode, staging, size, data, first)
    ensures r.Fail? ==> conn.SentLast(r.error)
  {
    ghost var t0, log0 := conn.tables, conn.log;
    ghost var pre: seq<Stmt> := [];
    ghost var ins := PageInserts(mode, staging, size, data);
    if first && mode.Replace? {
      pre := [CreateTableIfNotExists(staging, Keys(data[0]))];
      r := EnsureTableExists(conn, staging, Keys(data[0]));
      if r.Fail? {
        RanStop(t0, log0, pre, conn.tables, conn.log, ins, conn.faulty, conn.step);
        return;
      }
    } else {
      RanNothing(t0, log0, conn.faulty, conn.step);
    }
    ghost var t1, log1 := conn.tables, conn.log;
    if mode == Replace(BatchInsert) {
      r := BatchInsertService.BatchInsert(conn, data, staging, size);
    } else {
      r := BulkInsertService.BulkInsert(conn, data, staging);
    }
    RanThen(t0, log0, pre, t1, log1, ins, r.Fail?, conn.tables, conn.log, conn.faulty, conn.step);
  }

  /** The pages of one parameter: `do { fetch, transform, store } while (nextPageUrl)`,
      starting at `endpoint` and then following `next_page_url`. */
  method LoadParam(conn: Connection, api: Api, endpoint: string, p: Param, mode: Mode, staging: string,
                   size: nat, stamp: string, ghost fuel: nat) returns (r: Outcome<Failure>)
    requires conn.Valid() && SizeFits(mode, size)
    requires ChainEnds(api, endpoint, p, fuel)
    modifies conn
    ensures Did(old(conn.tables), old(conn.log), ParamPlan(api, endpoint, p, mode, staging, size, stamp, true, fuel),
                r, conn.tables, conn.log, conn.faulty, conn.step)
  {
    ghost var t0, log0 := conn.tables, conn.log;
    ghost var whole := ParamPlan(api, endpoint, p, mode, staging, size, stamp, true, fuel);
    var nextPageUrl := "";
    var isFirstBatch := true;
    ghost var f := fuel;
    ghost var done := Plan([], None);
    DidNoStatements(t0, log0, done, conn.faulty, conn.step);
    assert Then(done, whole) == whole by {
      assert [] + whole.actions == whole.actions;
    }
    while true
      invariant ChainEnds(api, PageUrl(nextPageUrl, endpoint), p, f)
      invariant Then(done, ParamPlan(api, PageUrl(nextPageUrl, endpoint), p, mode, staging, size, stamp, isFirstBatch, f)) == whole
      invariant Did(t0, log0, done, Pass, conn.tables, conn.log, conn.faulty, conn.step)
      decreases f
    {
      var url := PageUrl(nextPageUrl, endpoint);
      ghost var t1, log1 := conn.tables, conn.log;
      var next;
      r, next := LoadPage(conn, api, url, p, mode, staging, size, stamp, isFirstBatch);
      PageStep(t0, log0, done, t1, log1, api, url, p, mode, staging, size, stamp, isFirstBatch, f,
               r, next, conn.tables, conn.log, conn.faulty, conn.step);
      if r.Fail? || next == "" {
        return;
      }
      done := Then(done, PagePlan(api, url, p, mode, staging, size, stamp, isFirstBatch));
      nextPageUrl := next;
      isFirstBatch := false;
      f := f - 1;
    }
  }

  /** One turn of the page loop, in terms of plans: after a failure or the last page the
      parameter's plan is carried out; otherwise the loop goes on with the next page. */
  lemma PageStep(t0: Tables, log0: seq<Stmt>, done: Plan, t1: Tables, log1: seq<Stmt>,
                 api: Api, url: string, p: Param, mode: Mode, staging: string, size: nat, stamp: string,
                 first: bool, f: nat, r: Outcome<Failure>, next: string, t2: Tables, log2: seq<Stmt>,
                 faulty: nat -> bool, step: Step)
    requires SizeFits(mode, size) && ChainEnds(api, url, p, f)
    requires Did(t0, log0, done, Pass, t1, log1, faulty, step)
    requires Did(t1, log1, PagePlan(api, url, p, mode, staging, size, stamp, first), r, t2, log2, faulty, step)
    requires r.Pass? ==> api(url, p).Ok? && next == api(url, p).value.next
    ensures r.Fail? || next == "" ==>
      Did(t0, log0, Then(done, ParamPlan(api, url, p, mode, staging, size, stamp, first, f)), r, t2, log2, faulty, step)
    ensures r.Pass? && next != "" ==>
      && ChainEnds(api, next, p, f - 1) && f > 0
      && Did(t0, log0, Then(done, PagePlan(api, url, p, mode, staging, size, stamp, first)), Pass, t2, log2, faulty, step)
      && Then(Then(done, PagePlan(api, url, p, mode, staging, size, stamp, first)),
              ParamPlan(api, next, p, mode, staging, size, stamp, false, f - 1))
         == Then(done, ParamPlan(api, url, p, mode, staging, size, stamp, first, f))
  {
    var here := PagePlan(api, url, p, mode, staging, size, stamp, first);
    var whole := ParamPlan(api, url, p, mode, staging, size, stamp, first, f);
    if api(url, p).Ok? && api(url, p).value.next != "" {
      var later := ParamPlan(api, api(url, p).value.next, p, mode, staging, size, stamp, false, f - 1);
      assert whole == Then(here, later);
      if r.Fail? {
        DidStop(t1, log1, here, r, t2, log2, later, faulty, step);
        DidThen(t0, log0, done, t1, log1, whole, r, t2, log2, faulty, step);
      } else {
        DidThen(t0, log0, done, t1, log1, here, Pass, t2, log2, faulty, step);
        ThenAssoc(done, here, later);
      }
    } else {
      assert whole == here;
      DidThen(t0, log0, done, t1, log1, whole, r, t2, log2, faulty, step);
    }
  }

  /** `for (const param of params)`: the parameters in order, each with its own page loop. */
  method LoadParams(conn: Connection, api: Api, endpoint: string, ps: seq<Param>, mode: Mode, staging: string,
                    size: nat, stamp: string, ghost fuel: nat) returns (r: Outcome<Failure>)
    requires conn.Valid() && SizeFits(mode, size)
    requires ChainsEnd(api, endpoint, ps, fuel)
    modifies conn
    ensures Did(old(conn.tables), old(conn.log), ParamsPlan(api, endpoint, ps, mode, staging, size, stamp, fuel),
                r, conn.tables, conn.log, conn.faulty, conn.step)
  {
    ghost var t0, log0 := conn.tables, conn.log;
    ghost var whole := ParamsPlan(api, endpoint, ps, mode, staging, size, stamp, fuel);
    ghost var done := Plan([], None);
    DidNoStatements(t0, log0, done, conn.faulty, conn.step);
    assert ps[0..] == ps;
    assert Then(done, whole) == whole by {
      assert [] + whole.actions == whole.actions;
    }
    for j := 0 to |ps|
      invariant Then(done, ParamsPlan(api, endpoint, ps[j..], mode, staging, size, stamp, fuel)) == whole
      invariant Did(t0, log0, done, Pass, conn.tables, conn.log, conn.faulty, conn.step)
    {
      ghost var t1, log1 := conn.tables, conn.log;
      ghost var here := ParamPlan(api, endpoint, ps[j], mode, staging, size, stamp, true, fuel);
      ghost var later := ParamsPlan(api, endpoint, ps[j + 1..], mode, staging, size, stamp, fuel);
      assert ps[j..][0] == ps[j] && ps[j..][1..] == ps[j + 1..];
      r := LoadParam(conn, api, endpoint, ps[j], mode, staging, size, stamp, fuel);
      if r.Fail? {
        DidStop(t1, log1, here, r, conn.tables, conn.log, later, conn.faulty, conn.step);
        DidThen(t0, log0, done, t1, log1, Then(here, later), r, conn.tables, conn.log, conn.faulty, conn.step);
        return;
      }
      DidThen(t0, log0, done, t1, log1, here, Pass, conn.tables, conn.log, conn.faulty, conn.step);
      ThenAssoc(done, here, later);
      done := Then(done, here);
    }
    assert ps[|ps|..] == [];
    ThenDone(done);
    r := Pass;
  }

  /** `removeExistingRecords(table, dateField, dateFormat, from, to)`: one DELETE of the
      rows whose date column lies in the window. Its body is not part of this model;
      this is the role its call plays here. */
  method RemoveExistingRecords(conn: Connection, table: string, w: DateWindow) returns (r: Outcome<Stmt>)
    requires conn.Valid()
    modifies conn
    ensures conn.Ran(old(conn.tables), old(conn.log), [DeleteWindow(table, w)], r.Fail?)
    ensures r.Fail? ==> r.error == DeleteWindow(table, w)
    ensures r.Fail? ==> conn.SentLast(r.error)
  {
    r := conn.Execute(DeleteWindow(table, w));
  }

  /** The start of the incremental path: staging dropped, recreated as a copy of the
      destination, and stripped of the rows in the window. */
  method PrepareUpsert(conn: Connection, table: string, o: OptionalParam) returns (r: Outcome<Stmt>)
    requires conn.Valid()
    modifies conn
    ensures conn.Ran(old(conn.tables), old(conn.log), UpsertPrelude(table, o), r.Fail?)
    ensures r.Fail? ==> r.error in UpsertPrelude(table, o)
    ensures r.Fail? ==> conn.SentLast(r.error)
  {
    ghost var t0, log0 := conn.tables, conn.log;
    var staging := StagingName(table);
    ghost var drop, copy, delete := DropTableIfExists(staging), CreateTableAsSelect(staging, table), DeleteWindow(staging, WindowOf(o));
    assert [drop] + [copy, delete] == [drop, copy] + [delete] == UpsertPrelude(table, o);
    r := DropTable(conn, staging);
    if r.Fail? {
      RanStop(t0, log0, [drop], conn.tables, conn.log, [copy, delete], conn.faulty, conn.step);
      return;
    }
    ghost var t1, log1 := conn.tables, conn.log;
    r := DuplicateTable(conn, table, staging);
    RanThen(t0, log0, [drop], t1, log1, [copy], r.Fail?, conn.tables, conn.log, conn.faulty, conn.step);
    assert [drop] + [copy] == [drop, copy];
    if r.Fail? {
      RanStop(t0, log0, [drop, copy], conn.tables, conn.log, [delete], conn.faulty, conn.step);
      return;
    }
    ghost var t2, log2 := conn.tables, conn.log;
    r := RemoveExistingRecords(conn, staging, WindowOf(o));
    RanThen(t0, log0, [drop, copy], t2, log2, [delete], r.Fail?, conn.tables, conn.log, conn.faulty, conn.step);
  }

  /** The swap that ends every call on an array of parameters: drop the destination, then
      rename staging to it. */
  method SwapIntoPlace(conn: Connection, table: string) returns (r: Outcome<Stmt>)
    requires conn.Valid()
    modifies conn
    ensures conn.Ran(old(conn.tables), old(conn.log), SwapStmts(table), r.Fail?)
    ensures r.Fail? ==> r.error in SwapStmts(table)
    ensures r.Fail? ==> conn.SentLast(r.error)
  {
    ghost var t0, log0 := conn.tables, conn.log;
    var staging := StagingName(table);
    assert [DropTableIfExists(table)] + [AlterTableRename(staging, table)] == SwapStmts(table);
    r := DropTable(conn, table);
    if r.Fail? {
      RanStop(t0, log0, [DropTableIfExists(table)], conn.tables, conn.log, [AlterTableRename(staging, table)],
              conn.faulty, conn.step);
      return;
    }
    ghost var t1, log1 := conn.tables, conn.log;
    r := RenameTable(conn, staging, table);
    RanThen(t0, log0, [DropTableIfExists(table)], t1, log1, [AlterTableRename(staging, table)], r.Fail?,
            conn.tables, conn.log, conn.faulty, conn.step);
  }

  /** The branch of `handleAppFolioData` that fills staging. */
  method LoadStaging(conn: Connection, api: Api, endpoint: string, table: string, m: InsertMethod, size: nat,
                     ps: seq<Param>, opts: Option<OptionalParam>, stamp: string, ghost fuel: nat)
    returns (r: Outcome<Failure>)
    requires conn.Valid()
    requires m == BatchInsert ==> size > 0
    requires ChainsEnd(api, endpoint, ps, fuel)
    modifies conn
    ensures Did(old(conn.tables), old(conn.log), LoadPlan(api, endpoint, table, m, size, ps, opts, stamp, fuel),
                r, conn.tables, conn.log, conn.faulty, conn.step)
  {
    if m == BatchInsert || m == BulkInsert || (m == BulkUpsert && opts.Some? && opts.value.isFirstRun) {
      r := ReplaceStaging(conn, api, endpoint, table, m, size, ps, stamp, fuel);
    } else if m == BulkUpsert && opts.Some? && !opts.value.isFirstRun {
      r := UpsertStaging(conn, api, endpoint, table, size, ps, opts.value, stamp, fuel);
    } else {
      DidNoStatements(conn.tables, conn.log, Plan([], None), conn.faulty, conn.step);
      r := Pass;
    }
  }

  /** The replace path (`BatchInsert`, `BulkInsert`, or `BulkUpsert` on a first run):
      staging is dropped, then every parameter is loaded into it afresh. */
  method ReplaceStaging(conn: Connection, api: Api, endpoint: string, table: string, m: InsertMethod, size: nat,
                        ps: seq<Param>, stamp: string, ghost fuel: nat)
    returns (r: Outcome<Failure>)
    requires conn.Valid() && SizeFits(Replace(m), size)
    requires ChainsEnd(api, endpoint, ps, fuel)
    modifies conn
    ensures Did(old(conn.tables), old(conn.log),
                Then(Plan([Send(DropTableIfExists(StagingName(table)))], None),
                     ParamsPlan(api, endpoint, ps, Replace(m), StagingName(table), size, stamp, fuel)),
                r, conn.tables, conn.log, conn.faulty, conn.step)
  {
    ghost var t0, log0 := conn.tables, conn.log;
    var staging := StagingName(table);
    ghost var loads := ParamsPlan(api, endpoint, ps, Replace(m), staging, size, stamp, fuel);
    var dropped := DropTable(conn, staging);
    DidSends(t0, log0, [DropTableIfExists(staging)], dropped, conn.tables, conn.log, conn.faulty, conn.step);
    assert Sends([DropTableIfExists(staging)]) == [Send(DropTableIfExists(staging))];
    if dropped.Fail? {
      r := Lift(dropped);
      DidStop(t0, log0, Plan([Send(DropTableIfExists(staging))], None), r, conn.tables, conn.log, loads,
              conn.faulty, conn.step);
      return;
    }
    ghost var t1, log1 := conn.tables, conn.log;
    r := LoadParams(conn, api, endpoint, ps, Replace(m), staging, size, stamp, fuel);
    DidThen(t0, log0, Plan([Send(DropTableIfExists(staging))], None), t1, log1, loads, r,
            conn.tables, conn.log, conn.faulty, conn.step);
  }

  /** The incremental path (`BulkUpsert` after a first run): staging is rebuilt as the
      destination without the rows of the window, then every parameter is added to it. */
  method UpsertStaging(conn: Connection, api: Api, endpoint: string, table: string, size: nat,
                       ps: seq<Param>, o: OptionalParam, stamp: string, ghost fuel: nat)
    returns (r: Outcome<Failure>)
    requires conn.Valid()
    requires ChainsEnd(api, endpoint, ps, fuel)
    modifies conn
    ensures Did(old(conn.tables), old(conn.log),
                Then(Plan(Sends(UpsertPrelude(table, o)), None),
                     ParamsPlan(api, endpoint, ps, Upsert, StagingName(table), size, stamp, fuel)),
                r, conn.tables, conn.log, conn.faulty, conn.step)
  {
    ghost var t0, log0 := conn.tables, conn.log;
    var staging := StagingName(table);
    ghost var loads := ParamsPlan(api, endpoint, ps, Upsert, staging, size, stamp, fuel);
    var prepared := PrepareUpsert(conn, table, o);
    DidSends(t0, log0, UpsertPrelude(table, o), prepared, conn.tables, conn.log, conn.faulty, conn.step);
    if prepared.Fail? {
      r := Lift(prepared);
      DidStop(t0, log0, Plan(Sends(UpsertPrelude(table, o)), None), r, conn.tables, conn.log, loads,
              conn.faulty, conn.step);
      return;
    }
    ghost var t1, log1 := conn.tables, conn.log;
    r := LoadParams(conn, api, endpoint, ps, Upsert, staging, size, stamp, fuel);
    DidThen(t0, log0, Plan(Sends(UpsertPrelude(table, o)), None), t1, log1, loads, r,
            conn.tables, conn.log, conn.faulty, conn.step);
  }

  /** `handleAppFolioData(endpoint, tableName, paginated, insertMethod, batchSize, params,
      optionalParams)`. Any error is passed on unchanged. */
  method HandleAppFolioData(conn: Connection, api: Api, endpoint: string, table: string, m: InsertMethod,
                            size: nat, params: ParamsArg, opts: Option<OptionalParam>, stamp: string,
                            ghost fuel: nat)
    returns (r: Outcome<Failure>)
    requires conn.Valid()
    requires m == BatchInsert ==> size > 0
    requires params.Array? ==> ChainsEnd(api, endpoint, params.items, fuel)
    modifies conn
    ensures Did(old(conn.tables), old(conn.log), HandlePlan(api, endpoint, table, m, size, params, opts, stamp, fuel),
                r, conn.tables, conn.log, conn.faulty, conn.step)
    ensures params.NotAnArray? ==> r == Pass && conn.tables == old(conn.tables) && conn.log == old(conn.log)
  {
    ghost var t0, log0 := conn.tables, conn.log;
    if !params.Array? {
      DidNoStatements(t0, log0, Plan([], None), conn.faulty, conn.step);
      return Pass;
    }
    ghost var load := LoadPlan(api, endpoint, table, m, size, params.items, opts, stamp, fuel);
    ghost var swap := Plan(Sends(SwapStmts(table)), None);
    r := LoadStaging(conn, api, endpoint, table, m, size, params.items, opts, stamp, fuel);
    if r.Fail? {
      DidStop(t0, log0, load, r, conn.tables, conn.log, swap, conn.faulty, conn.step);
      return;
    }
    ghost var t1, log1 := conn.tables, conn.log;
    var swapped := SwapIntoPlace(conn, table);
    DidSends(t1, log1, SwapStmts(table), swapped, conn.tables, conn.log, conn.faulty, conn.step);
    r := Lift(swapped);
    DidThen(t0, log0, load, t1, log1, swap, r, conn.tables, conn.log, conn.faulty, conn.step);
  }

  // ---------------------------------------------------------------------------
  // Properties of the plan
  // ---------------------------------------------------------------------------

  /** The statements a branch sends before its parameters: the staging drop on the
      replace path, the windowed copy on the incremental path. */
  function Prelude(table: string, mode: Mode, opts: Option<OptionalParam>): seq<Stmt>
    requires mode.Upsert? ==> opts.Some?
  {
    if mode.Replace? then [DropTableIfExists(StagingName(table))] else UpsertPrelude(table, opts.value)
  }

  /** A prelude first drops staging, then only builds it, and leaves the destination alone. */
  lemma PreludeShape(table: string, mode: Mode, opts: Option<OptionalParam>)
    requires mode.Upsert? ==> opts.Some?
    ensures var pre := Prelude(table, mode, opts);
      && |pre| > 0 && pre[0] == DropTableIfExists(StagingName(table))
      && AllBuild(pre[1..], StagingName(table))
      && Spares(pre, table)
  {
  }

  /** The branch begins by sending its prelude, and its statements are the prelude's and
      then those of the parameters; with no branch taken it does nothing. */
  lemma LoadStmts(api: Api, endpoint: string, table: string, m: InsertMethod, size: nat,
                  ps: seq<Param>, opts: Option<OptionalParam>, stamp: string, fuel: nat)
    requires m == BatchInsert ==> size > 0
    requires ChainsEnd(api, endpoint, ps, fuel)
    ensures Branch(m, opts).None? ==> LoadPlan(api, endpoint, table, m, size, ps, opts, stamp, fuel) == Plan([], None)
    ensures Branch(m, opts).Some? ==>
      var mode := Branch(m, opts).value;
      var pre := Prelude(table, mode, opts);
      var load := LoadPlan(api, endpoint, table, m, size, ps, opts, stamp, fuel);
      var params := ParamsPlan(api, endpoint, ps, mode, StagingName(table), size, stamp, fuel);
      && |load.actions| >= |pre|
      && load.actions[..|pre|] == Sends(pre)
      && Stmts(load.actions) == pre + Stmts(params.actions)
      && load.abort == params.abort
  {
    var staging := StagingName(table);
    if Branch(m, opts).Some? {
      var mode := Branch(m, opts).value;
      var pre := Prelude(table, mode, opts);
      var rest := ParamsPlan(api, endpoint, ps, mode, staging, size, stamp, fuel);
      SendsOnly(pre);
      StmtsAppend(Sends(pre), rest.actions);
      assert LoadPlan(api, endpoint, table, m, size, ps, opts, stamp, fuel) == Then(Plan(Sends(pre), None), rest) by {
        if mode.Replace? {
          assert Sends(pre) == [Send(DropTableIfExists(staging))];
        }
      }
    }
  }

  /** Every call on an array of parameters ends with the swap once the branch has run
      without error, and nothing comes after it; an early end skips it. */
  lemma SwapLast(api: Api, endpoint: string, table: string, m: InsertMethod, size: nat,
                 ps: seq<Param>, opts: Option<OptionalParam>, stamp: string, fuel: nat)
    requires m == BatchInsert ==> size > 0
    requires ChainsEnd(api, endpoint, ps, fuel)
    ensures var load := LoadPlan(api, endpoint, table, m, size, ps, opts, stamp, fuel);
      var whole := HandlePlan(api, endpoint, table, m, size, Array(ps), opts, stamp, fuel);
      && (load.abort.None? ==> whole.abort.None? && Stmts(whole.actions) == Stmts(load.actions) + SwapStmts(table))
      && (load.abort.Some? ==> whole == load)
  {
    var load := LoadPlan(api, endpoint, table, m, size, ps, opts, stamp, fuel);
    if load.abort.None? {
      SendsOnly(SwapStmts(table));
      StmtsAppend(load.actions, Sends(SwapStmts(table)));
    }
  }

  /** The swap is sent even when nothing was loaded into staging: with no branch taken
      the call sends only the swap, and on the replace path with no parameters it sends
      only the staging drop and the swap. */
  lemma SwapRegardless(api: Api, endpoint: string, table: string, m: InsertMethod, size: nat,
                       ps: seq<Param>, opts: Option<OptionalParam>, stamp: string, fuel: nat)
    requires m == BatchInsert ==> size > 0
    requires ChainsEnd(api, endpoint, ps, fuel)
    requires Branch(m, opts).None? || (Branch(m, opts).Some? && Branch(m, opts).value.Replace? && ps == [])
    ensures var whole := HandlePlan(api, endpoint, table, m, size, Array(ps), opts, stamp, fuel);
      whole.abort.None? &&
      Stmts(whole.actions)
        == (if Branch(m, opts).None? then [] else [DropTableIfExists(StagingName(table))]) + SwapStmts(table)
  {
    LoadStmts(api, endpoint, table, m, size, ps, opts, stamp, fuel);
    SwapLast(api, endpoint, table, m, size, ps, opts, stamp, fuel);
    if Branch(m, opts).None? {
      assert Stmts([]) == [];
    } else {
      assert Stmts([]) == [];
    }
  }

  /** The page addresses of several parameters' loops, one chain after another. */
  function Chains(api: Api, endpoint: string, ps: seq<Param>, fuel: nat): (urls: seq<string>)
    requires ChainsEnd(api, endpoint, ps, fuel)
    ensures |urls| >= |ps|
    decreases |ps|
  {
    if ps == [] then [] else Chain(api, endpoint, ps[0], fuel) + Chains(api, endpoint, ps[1..], fuel)
  }

  /** A parameter's loop requests the chain of pages from `url`, following each page's
      next page address while there is one and stopping at a failed request; only an
      empty first page on the replace path cuts it short, after the first request. A
      later page never ends the loop that way. */
  lemma {:induction false} ParamFetches(api: Api, url: string, p: Param, mode: Mode, staging: string, size: nat,
                                        stamp: string, first: bool, fuel: nat)
    requires SizeFits(mode, size) && ChainEnds(api, url, p, fuel)
    ensures var plan := ParamPlan(api, url, p, mode, staging, size, stamp, first, fuel);
      Fetches(plan.actions) == if plan.abort == Some(NoFirstRecord(p)) then [url] else Chain(api, url, p, fuel)
    ensures var plan := ParamPlan(api, url, p, mode, staging, size, stamp, first, fuel);
      !first ==> plan.abort.None? || !plan.abort.value.NoFirstRecord?
    decreases fuel
  {
    var here := PagePlan(api, url, p, mode, staging, size, stamp, first);
    assert Fetches(here.actions) == [url] by {
      if api(url, p).Ok? && here.abort.None? {
        var data := DataTransformer.TransformData(api(url, p).value.results, stamp);
        FetchThenSends(url, p, PageStmts(mode, staging, size, data, first));
      } else {
        assert here.actions == [Fetch(url, p)];
        assert Fetches(here.actions) == UrlOf(Fetch(url, p)) + Fetches([]);
      }
    }
    if api(url, p).Ok? && api(url, p).value.next != "" && here.abort.None? {
      var next := api(url, p).value.next;
      var later := ParamPlan(api, next, p, mode, staging, size, stamp, false, fuel - 1);
      ParamFetches(api, next, p, mode, staging, size, stamp, false, fuel - 1);
      FetchesAppend(here.actions, later.actions);
    }
  }

  /** The loop over the parameters requests, when no parameter ends it early, each
      parameter's page chain in turn, every one starting afresh at `endpoint`. */
  lemma {:induction false} ParamsFetches(api: Api, endpoint: string, ps: seq<Param>, mode: Mode, staging: string,
                                         size: nat, stamp: string, fuel: nat)
    requires SizeFits(mode, size) && ChainsEnd(api, endpoint, ps, fuel)
    ensures var plan := ParamsPlan(api, endpoint, ps, mode, staging, size, stamp, fuel);
      plan.abort.None? ==> Fetches(plan.actions) == Chains(api, endpoint, ps, fuel)
    decreases |ps|
  {
    if ps != [] {
      var a := ParamPlan(api, endpoint, ps[0], mode, staging, size, stamp, true, fuel);
      var b := ParamsPlan(api, endpoint, ps[1..], mode, staging, size, stamp, fuel);
      if a.abort.None? {
        ParamFetches(api, endpoint, ps[0], mode, staging, size, stamp, true, fuel);
        ParamsFetches(api, endpoint, ps[1..], mode, staging, size, stamp, fuel);
        FetchesAppend(a.actions, b.actions);
      }
    }
  }

  /** `s` prepares or fills `staging` and nothing else: it creates, copies, trims or
      loads that table, and does not drop it. */
  predicate Builds(s: Stmt, staging: string)
  {
    Target(s) == Some(staging) && !s.DropTableIfExists?
  }

  predicate AllBuild(stmts: seq<Stmt>, staging: string)
  {
    forall i :: 0 <= i < |stmts| ==> Builds(stmts[i], staging)
  }

  lemma AllBuildAppend(a: seq<Stmt>, b: seq<Stmt>, staging: string)
    requires AllBuild(a, staging) && AllBuild(b, staging)
    ensures AllBuild(a + b, staging)
  {
    forall i | 0 <= i < |a + b|
      ensures Builds((a + b)[i], staging)
    {
      if i >= |a| {
        assert (a + b)[i] == b[i - |a|];
      }
    }
  }

  /** The statements of `batchInsert` and `bulkInsert` all load the table they are given. */
  lemma {:induction false} InsertsBuild(name: string, keys: seq<string>, bs: seq<seq<Record>>)
    ensures AllBuild(BatchInsertService.Inserts(name, keys, bs), name)
    decreases |bs|
  {
    if bs != [] {
      InsertsBuild(name, keys, bs[1..]);
      var head := [InsertValues(name, keys, |bs[0]|, BatchInsertService.Binds(bs[0]))];
      AllBuildAppend(head, BatchInsertService.Inserts(name, keys, bs[1..]), name);
    }
  }

  /** A page's statements all go to staging. */
  lemma PageBuilds(mode: Mode, staging: string, size: nat, data: seq<Record>, first: bool)
    requires SizeFits(mode, size)
    requires first && mode.Replace? ==> |data| > 0
    ensures AllBuild(PageStmts(mode, staging, size, data, first), staging)
  {
    var ins := PageInserts(mode, staging, size, data);
    if mode == Replace(BatchInsert) && |data| > 0 {
      var keys := Keys(data[0]);
      InsertsBuild(staging, keys, BatchInsertService.Batches(data, size));
      AllBuildAppend([CreateTableIfNotExists(staging, keys)], BatchInsertService.Inserts(staging, keys, BatchInsertService.Batches(data, size)), staging);
    }
    var pre: seq<Stmt> := if first && mode.Replace? then [CreateTableIfNotExists(staging, Keys(data[0]))] else [];
    AllBuildAppend(pre, ins, staging);
  }

  /** A parameter's statements all go to staging. */
  lemma {:induction false} ParamBuilds(api: Api, url: string, p: Param, mode: Mode, staging: string, size: nat,
                                       stamp: string, first: bool, fuel: nat)
    requires SizeFits(mode, size) && ChainEnds(api, url, p, fuel)
    ensures AllBuild(Stmts(ParamPlan(api, url, p, mode, staging, size, stamp, first, fuel).actions), staging)
    decreases fuel
  {
    var here := PagePlan(api, url, p, mode, staging, size, stamp, first);
    assert AllBuild(Stmts(here.actions), staging) by {
      if api(url, p).Ok? && here.abort.None? {
        var data := DataTransformer.TransformData(api(url, p).value.results, stamp);
        FetchThenSends(url, p, PageStmts(mode, staging, size, data, first));
        PageBuilds(mode, staging, size, data, first);
      } else {
        assert here.actions == [Fetch(url, p)];
        assert Stmts(here.actions) == StmtOf(Fetch(url, p)) + Stmts([]);
      }
    }
    if api(url, p).Ok? && api(url, p).value.next != "" && here.abort.None? {
      var later := ParamPlan(api, api(url, p).value.next, p, mode, staging, size, stamp, false, fuel - 1);
      ParamBuilds(api, api(url, p).value.next, p, mode, staging, size, stamp, false, fuel - 1);
      StmtsAppend(here.actions, later.actions);
      AllBuildAppend(Stmts(here.actions), Stmts(later.actions), staging);
    }
  }

  /** The statements of all parameters go to staging. */
  lemma {:induction false} ParamsBuild(api: Api, endpoint: string, ps: seq<Param>, mode: Mode, staging: string,
                                       size: nat, stamp: string, fuel: nat)
    requires SizeFits(mode, size) && ChainsEnd(api, endpoint, ps, fuel)
    ensures AllBuild(Stmts(ParamsPlan(api, endpoint, ps, mode, staging, size, stamp, fuel).actions), staging)
    decreases |ps|
  {
    if ps != [] {
      var a := ParamPlan(api, endpoint, ps[0], mode, staging, size, stamp, true, fuel);
      var b := ParamsPlan(api, endpoint, ps[1..], mode, staging, size, stamp, fuel);
      ParamBuilds(api, endpoint, ps[0], mode, staging, size, stamp, true, fuel);
      if a.abort.None? {
        ParamsBuild(api, endpoint, ps[1..], mode, staging, size, stamp, fuel);
        StmtsAppend(a.actions, b.actions);
        AllBuildAppend(Stmts(a.actions), Stmts(b.actions), staging);
      }
    }
  }

  /** No statement of `stmts` writes `table`. */
  predicate Spares(stmts: seq<Stmt>, table: string)
  {
    forall i :: 0 <= i < |stmts| ==> !Writes(stmts[i], table)
  }

  /** Statements that only touch staging spare the destination. */
  lemma BuildsSpare(pre: seq<Stmt>, rest: seq<Stmt>, table: string)
    requires Spares(pre, table) && AllBuild(rest, StagingName(table))
    ensures Spares(pre + rest, table)
  {
    forall i | 0 <= i < |pre + rest|
      ensures !Writes((pre + rest)[i], table)
    {
      if i >= |pre| {
        assert (pre + rest)[i] == rest[i - |pre|];
      }
    }
  }

  /** Nothing before the swap writes the destination table: the branch only drops,
      creates, copies into, trims and loads staging. */
  lemma LoadLeavesDestination(api: Api, endpoint: string, table: string, m: InsertMethod, size: nat,
                              ps: seq<Param>, opts: Option<OptionalParam>, stamp: string, fuel: nat)
    requires m == BatchInsert ==> size > 0
    requires ChainsEnd(api, endpoint, ps, fuel)
    ensures Spares(Stmts(LoadPlan(api, endpoint, table, m, size, ps, opts, stamp, fuel).actions), table)
  {
    var staging := StagingName(table);
    LoadStmts(api, endpoint, table, m, size, ps, opts, stamp, fuel);
    if Branch(m, opts).Some? {
      var mode := Branch(m, opts).value;
      var pre := Prelude(table, mode, opts);
      PreludeShape(table, mode, opts);
      ParamsBuild(api, endpoint, ps, mode, staging, size, stamp, fuel);
      BuildsSpare(pre, Stmts(ParamsPlan(api, endpoint, ps, mode, staging, size, stamp, fuel).actions), table);
    }
  }

  /** The destination is left exactly as it was by every call that ends before it sends
      the swap's first statement; in particular by every call the API or an empty first
      page ends early. */
  lemma DestinationIntactUntilSwap(t0: Tables, log0: seq<Stmt>, api: Api, endpoint: string, table: string,
                                   m: InsertMethod, size: nat, ps: seq<Param>, opts: Option<OptionalParam>,
                                   stamp: string, fuel: nat, r: Outcome<Failure>, t: Tables, log: seq<Stmt>,
                                   faulty: nat -> bool, step: Step, wh: Warehouse)
    requires Follows(step, wh)
    requires m == BatchInsert ==> size > 0
    requires ChainsEnd(api, endpoint, ps, fuel)
    requires Did(t0, log0, HandlePlan(api, endpoint, table, m, size, Array(ps), opts, stamp, fuel), r, t, log, faulty, step)
    requires (r.Fail? && r.error.Aborted?)
             || |log| <= |log0| + |Stmts(LoadPlan(api, endpoint, table, m, size, ps, opts, stamp, fuel).actions)|
    ensures table in t <==> table in t0
    ensures table in t0 ==> t[table] == t0[table]
  {
    var load := LoadPlan(api, endpoint, table, m, size, ps, opts, stamp, fuel);
    var whole := HandlePlan(api, endpoint, table, m, size, Array(ps), opts, stamp, fuel);
    var L := Stmts(load.actions);
    var W := if load.abort.None? then SwapStmts(table) else [];
    SwapLast(api, endpoint, table, m, size, ps, opts, stamp, fuel);
    assert Stmts(whole.actions) == L + W by {
      if load.abort.Some? {
        assert L + [] == L;
      }
    }
    LoadLeavesDestination(api, endpoint, table, m, size, ps, opts, stamp, fuel);
    RunAppend(t0, L, W, |log0|, faulty, step);
    RunPreserves(t0, L, |log0|, faulty, step, wh, table);
    var ra := RunFrom(t0, L, |log0|, faulty, step);
    if !ra.failed {
      var rb := RunFrom(ra.tables, W, |log0| + |L|, faulty, step);
      assert rb.issued == 0;
    }
  }

  /** On the incremental path staging starts as a copy of the destination without the
      rows whose date column lies in the window; the copy fails when the destination is
      missing or has no such column. */
  lemma UpsertPreludeMeaning(tables: Tables, table: string, o: OptionalParam, wh: Warehouse)
    ensures var staging := StagingName(table);
      ExecAll(tables, UpsertPrelude(table, o), wh)
        == if table in tables && o.dateField in tables[table].columns then
             var t := tables[table];
             Some(tables[staging := Table(t.columns, Filter(t.rows, IndexOf(t.columns, o.dateField), WindowOf(o), wh.inWindow), None)])
           else None
  {
    var staging := StagingName(table);
    var stmts := UpsertPrelude(table, o);
    var t1 := tables - {staging};
    assert Exec(tables, stmts[0], wh) == Some(t1);
    assert stmts[1..][1..] == [stmts[2]] && stmts[1..][0] == stmts[1];
    assert ExecAll(tables, stmts, wh) == ExecAll(t1, stmts[1..], wh);
    if table in tables {
      var t := tables[table];
      var t2 := t1[staging := Table(t.columns, t.rows, None)];
      assert Exec(t1, stmts[1], wh) == Some(t2);
      assert ExecAll(t1, stmts[1..], wh) == ExecAll(t2, [stmts[2]], wh);
      assert [stmts[2]][0] == stmts[2] && [stmts[2]][1..] == [];
      if o.dateField in t.columns {
        var kept := Filter(t.rows, IndexOf(t.columns, o.dateField), WindowOf(o), wh.inWindow);
        var t3 := t2[staging := Table(t.columns, kept, None)];
        assert Exec(t2, stmts[2], wh) == Some(t3);
        assert ExecAll(t2, [stmts[2]], wh) == ExecAll(t3, [], wh) == Some(t3);
        assert t3 == tables[staging := Table(t.columns, kept, None)];
      } else {
        assert Exec(t2, stmts[2], wh) == None;
      }
    } else {
      assert Exec(t1, stmts[1], wh) == None;
    }
  }

  /** The swap succeeds exactly when there is a staging table, and then staging takes the
      destination's place under the destination's name. */
  lemma SwapMeaning(t1: Tables, table: string, wh: Warehouse)
    ensures var staging := StagingName(table);
      ExecAll(t1, SwapStmts(table), wh)
        == if staging in t1 then Some((t1 - {table, staging})[table := t1[staging]]) else None
  {
    var staging := StagingName(table);
    var stmts := SwapStmts(table);
    var t2 := t1 - {table};
    assert Exec(t1, stmts[0], wh) == Some(t2);
    assert stmts[1..][0] == stmts[1] && stmts[1..][1..] == [];
    assert ExecAll(t1, stmts, wh) == ExecAll(t2, stmts[1..], wh);
    if staging in t1 {
      assert t2 - {staging} == t1 - {table, staging};
    }
  }

  /** As written: when no branch is taken, or the replace path has no parameters, a
      warehouse that holds the destination and no staging table accepts every statement
      up to the swap's rename, by which time the destination has been dropped, and then
      rejects the rename of the missing staging table. */
  lemma SwapWithoutStagingLosesDestination(api: Api, endpoint: string, table: string, m: InsertMethod, size: nat,
                                           ps: seq<Param>, opts: Option<OptionalParam>, stamp: string, fuel: nat,
                                           tables: Tables, wh: Warehouse)
    requires m == BatchInsert ==> size > 0
    requires ChainsEnd(api, endpoint, ps, fuel)
    requires Branch(m, opts).None? || (Branch(m, opts).Some? && Branch(m, opts).value.Replace? && ps == [])
    requires table in tables && StagingName(table) !in tables
    ensures var stmts := Stmts(HandlePlan(api, endpoint, table, m, size, Array(ps), opts, stamp, fuel).actions);
      && |stmts| >= 2
      && ExecAll(tables, stmts[..|stmts| - 1], wh) == Some(tables - {table, StagingName(table)})
      && ExecAll(tables, stmts, wh).None?
  {
    SwapRegardless(api, endpoint, table, m, size, ps, opts, stamp, fuel);
    var pre: seq<Stmt> := if Branch(m, opts).None? then [] else [DropTableIfExists(StagingName(table))];
    SwapAfterDrop(tables, table, pre, wh);
  }

  /** The swap after at most a drop of staging, with the destination present and no
      staging table: everything up to the rename is accepted and drops the destination,
      and the rename is rejected. */
  lemma SwapAfterDrop(tables: Tables, table: string, pre: seq<Stmt>, wh: Warehouse)
    requires table in tables && StagingName(table) !in tables
    requires pre == [] || pre == [DropTableIfExists(StagingName(table))]
    ensures var stmts := pre + SwapStmts(table);
      && ExecAll(tables, stmts[..|stmts| - 1], wh) == Some(tables - {table, StagingName(table)})
      && ExecAll(tables, stmts, wh).None?
  {
    var staging := StagingName(table);
    var stmts := pre + SwapStmts(table);
    assert ExecAll(tables, pre, wh) == Some(tables - {staging}) by {
      if pre == [] {
        assert tables - {staging} == tables;
      } else {
        assert ExecAll(tables, pre, wh) == ExecAll(tables - {staging}, [], wh);
      }
    }
    ExecAllAppend(tables, pre, SwapStmts(table), wh);
    SwapMeaning(tables - {staging}, table, wh);
    assert stmts[..|stmts| - 1] == pre + [DropTableIfExists(table)];
    ExecAllAppend(tables, pre, [DropTableIfExists(table)], wh);
    assert ExecAll(tables - {staging}, [DropTableIfExists(table)], wh) == Some((tables - {staging}) - {table});
    assert (tables - {staging}) - {table} == tables - {table, staging};
  }

  /** Whether the branch leaves a staging table to swap in: the incremental path always
      does, the replace path when it has a parameter to load. */
  predicate StagingBuilt(m: InsertMethod, opts: Option<OptionalParam>, ps: seq<Param>)
  {
    Branch(m, opts) == Some(Upsert) || (Branch(m, opts).Some? && |ps| > 0)
  }

  /** `handleAppFolioData` with the swap sent only when the branch built a staging table. */
  function GuardedPlan(api: Api, endpoint: string, table: string, m: InsertMethod, size: nat,
                       params: ParamsArg, opts: Option<OptionalParam>, stamp: string, fuel: nat): Plan
    requires m == BatchInsert ==> size > 0
    requires params.Array? ==> ChainsEnd(api, endpoint, params.items, fuel)
  {
    if params.NotAnArray? then Plan([], None)
    else Then(LoadPlan(api, endpoint, table, m, size, params.items, opts, stamp, fuel),
              Plan(if StagingBuilt(m, opts, params.items) then Sends(SwapStmts(table)) else [], None))
  }

  /** An accepted statement that builds staging leaves staging in place. */
  lemma BuildsKeeps(tables: Tables, s: Stmt, staging: string, wh: Warehouse)
    requires Builds(s, staging) && Exec(tables, s, wh).Some?
    ensures staging in Exec(tables, s, wh).value
  {
    if s.CopyInto? && tables[staging].staged.Some? {
      assert ExecCopy(tables, staging, wh).Some?;
    }
  }

  /** Accepted statements that build staging, at least one, leave a staging table. */
  lemma {:induction false} BuiltStays(tables: Tables, stmts: seq<Stmt>, staging: string, wh: Warehouse)
    requires AllBuild(stmts, staging) && |stmts| > 0 && ExecAll(tables, stmts, wh).Some?
    ensures staging in ExecAll(tables, stmts, wh).value
    decreases |stmts|
  {
    BuildsKeeps(tables, stmts[0], staging, wh);
    var next := Exec(tables, stmts[0], wh).value;
    if |stmts| > 1 {
      assert AllBuild(stmts[1..], staging) by {
        forall i | 0 <= i < |stmts[1..]|
          ensures Builds(stmts[1..][i], staging)
        {
          assert stmts[1..][i] == stmts[i + 1];
        }
      }
      BuiltStays(next, stmts[1..], staging, wh);
    } else {
      assert stmts[1..] == [];
    }
  }

  /** The first page of a parameter on the replace path, when it does not end the call,
      sends at least the creation of staging. */
  lemma FirstPageSends(api: Api, url: string, p: Param, mode: Mode, staging: string, size: nat, stamp: string)
    requires SizeFits(mode, size) && mode.Replace?
    requires PagePlan(api, url, p, mode, staging, size, stamp, true).abort.None?
    ensures |Stmts(PagePlan(api, url, p, mode, staging, size, stamp, true).actions)| > 0
  {
    var data := DataTransformer.TransformData(api(url, p).value.results, stamp);
    var stmts := PageStmts(mode, staging, size, data, true);
    assert stmts[0] == CreateTableIfNotExists(staging, Keys(data[0]));
    FetchThenSends(url, p, stmts);
  }

  /** The same for the whole loop of that parameter. */
  lemma FirstParamSends(api: Api, url: string, p: Param, mode: Mode, staging: string, size: nat,
                        stamp: string, fuel: nat)
    requires SizeFits(mode, size) && mode.Replace? && ChainEnds(api, url, p, fuel)
    requires ParamPlan(api, url, p, mode, staging, size, stamp, true, fuel).abort.None?
    ensures |Stmts(ParamPlan(api, url, p, mode, staging, size, stamp, true, fuel).actions)| > 0
  {
    var here := PagePlan(api, url, p, mode, staging, size, stamp, true);
    if api(url, p).Ok? && api(url, p).value.next != "" {
      var later := ParamPlan(api, api(url, p).value.next, p, mode, staging, size, stamp, false, fuel - 1);
      assert ParamPlan(api, url, p, mode, staging, size, stamp, true, fuel) == Then(here, later);
      FirstPageSends(api, url, p, mode, staging, size, stamp);
      StmtsAppend(here.actions, later.actions);
    } else {
      assert ParamPlan(api, url, p, mode, staging, size, stamp, true, fuel) == here;
      FirstPageSends(api, url, p, mode, staging, size, stamp);
    }
  }

  /** On the replace path, parameters whose loops all ran to their end sent at least the
      creation of the staging table. */
  lemma ReplaceParamsSend(api: Api, endpoint: string, ps: seq<Param>, mode: Mode, staging: string,
                          size: nat, stamp: string, fuel: nat)
    requires SizeFits(mode, size) && ChainsEnd(api, endpoint, ps, fuel)
    requires mode.Replace? && |ps| > 0
    requires ParamsPlan(api, endpoint, ps, mode, staging, size, stamp, fuel).abort.None?
    ensures |Stmts(ParamsPlan(api, endpoint, ps, mode, staging, size, stamp, fuel).actions)| > 0
  {
    var a := ParamPlan(api, endpoint, ps[0], mode, staging, size, stamp, true, fuel);
    var b := ParamsPlan(api, endpoint, ps[1..], mode, staging, size, stamp, fuel);
    assert ParamsPlan(api, endpoint, ps, mode, staging, size, stamp, fuel) == Then(a, b);
    FirstParamSends(api, endpoint, ps[0], mode, staging, size, stamp, fuel);
    StmtsAppend(a.actions, b.actions);
  }

  /** Once the branch has run without error, the guarded call puts staging in the
      destination's place when the branch built it and otherwise leaves the tables as the
      branch left them; a destination that existed is never lost. */
  lemma GuardedSwapReplaces(api: Api, endpoint: string, table: string, m: InsertMethod, size: nat,
                            ps: seq<Param>, opts: Option<OptionalParam>, stamp: string, fuel: nat,
                            tables: Tables, wh: Warehouse, t1: Tables)
    requires m == BatchInsert ==> size > 0
    requires ChainsEnd(api, endpoint, ps, fuel)
    requires LoadPlan(api, endpoint, table, m, size, ps, opts, stamp, fuel).abort.None?
    requires ExecAll(tables, Stmts(LoadPlan(api, endpoint, table, m, size, ps, opts, stamp, fuel).actions), wh) == Some(t1)
    ensures StagingBuilt(m, opts, ps) ==> StagingName(table) in t1
    ensures ExecAll(tables, Stmts(GuardedPlan(api, endpoint, table, m, size, Array(ps), opts, stamp, fuel).actions), wh)
      == Some(if StagingBuilt(m, opts, ps) then (t1 - {table, StagingName(table)})[table := t1[StagingName(table)]] else t1)
    ensures table in tables ==> table in t1
  {
    var staging := StagingName(table);
    var load := LoadPlan(api, endpoint, table, m, size, ps, opts, stamp, fuel);
    var L := Stmts(load.actions);
    var W: seq<Stmt> := if StagingBuilt(m, opts, ps) then SwapStmts(table) else [];
    SendsOnly(W);
    StmtsAppend(load.actions, Sends(W));
    ExecAllAppend(tables, L, W, wh);
    LoadLeavesDestination(api, endpoint, table, m, size, ps, opts, stamp, fuel);
    ExecAllPreserves(tables, L, wh, table);
    if StagingBuilt(m, opts, ps) {
      StagingAfterLoad(api, endpoint, table, m, size, ps, opts, stamp, fuel, tables, wh, t1);
      SwapMeaning(t1, table, wh);
    }
  }

  /** A branch that built staging and ran without error leaves a staging table. */
  lemma StagingAfterLoad(api: Api, endpoint: string, table: string, m: InsertMethod, size: nat,
                         ps: seq<Param>, opts: Option<OptionalParam>, stamp: string, fuel: nat,
                         tables: Tables, wh: Warehouse, t1: Tables)
    requires m == BatchInsert ==> size > 0
    requires ChainsEnd(api, endpoint, ps, fuel)
    requires StagingBuilt(m, opts, ps)
    requires LoadPlan(api, endpoint, table, m, size, ps, opts, stamp, fuel).abort.None?
    requires ExecAll(tables, Stmts(LoadPlan(api, endpoint, table, m, size, ps, opts, stamp, fuel).actions), wh) == Some(t1)
    ensures StagingName(table) in t1
  {
    var staging := StagingName(table);
    var mode := Branch(m, opts).value;
    var pre := Prelude(table, mode, opts);
    var params := ParamsPlan(api, endpoint, ps, mode, staging, size, stamp, fuel);
    var rest := Stmts(params.actions);
    LoadStmts(api, endpoint, table, m, size, ps, opts, stamp, fuel);
    ParamsBuild(api, endpoint, ps, mode, staging, size, stamp, fuel);
    PreludeShape(table, mode, opts);
    if mode.Replace? {
      ReplaceParamsSend(api, endpoint, ps, mode, staging, size, stamp, fuel);
    }
    BuiltAfterDrop(tables, pre, rest, staging, wh);
  }

  /** Dropping staging and then building it, in at least one accepted statement, leaves a
      staging table. */
  lemma BuiltAfterDrop(tables: Tables, pre: seq<Stmt>, rest: seq<Stmt>, staging: string, wh: Warehouse)
    requires |pre| > 0 && pre[0] == DropTableIfExists(staging)
    requires AllBuild(pre[1..], staging) && AllBuild(rest, staging) && |pre| + |rest| > 1
    requires ExecAll(tables, pre + rest, wh).Some?
    ensures staging in ExecAll(tables, pre + rest, wh).value
  {
    var built := pre[1..] + rest;
    AllBuildAppend(pre[1..], rest, staging);
    assert pre + rest == [DropTableIfExists(staging)] + built;
    ExecAllAppend(tables, [DropTableIfExists(staging)], built, wh);
    assert ExecAll(tables, [DropTableIfExists(staging)], wh) == ExecAll(tables - {staging}, [], wh);
    BuiltStays(tables - {staging}, built, staging, wh);
  }

  // ---------------------------------------------------------------------------
  // What the destination holds
  // ---------------------------------------------------------------------------

  /** The transformed records of the pages at `urls`, in order; a failed request gives none. */
  function PagesRows(api: Api, urls: seq<string>, p: Param, stamp: string): seq<Record>
    decreases |urls|
  {
    if urls == [] then []
    else
      (match api(urls[0], p)
       case Err(_) => []
       case Ok(page) => DataTransformer.TransformData(page.results, stamp))
      + PagesRows(api, urls[1..], p, stamp)
  }

  /** The transformed records of a parameter's loop from page `url` on. */
  function ChainRows(api: Api, url: string, p: Param, stamp: string, fuel: nat): seq<Record>
    requires ChainEnds(api, url, p, fuel)
    decreases fuel
  {
    match api(url, p)
    case Err(_) => []
    case Ok(page) =>
      DataTransformer.TransformData(page.results, stamp)
      + (if page.next == "" then [] else ChainRows(api, page.next, p, stamp, fuel - 1))
  }

  /** The transformed records of every parameter's loop, one parameter after another. */
  function ChainsRows(api: Api, endpoint: string, ps: seq<Param>, stamp: string, fuel: nat): seq<Record>
    requires ChainsEnd(api, endpoint, ps, fuel)
    decreases |ps|
  {
    if ps == [] then []
    else ChainRows(api, endpoint, ps[0], stamp, fuel) + ChainsRows(api, endpoint, ps[1..], stamp, fuel)
  }

  /** A parameter's records are those of the pages of its chain, in the chain's order. */
  lemma {:induction false} ChainRowsFollowChain(api: Api, url: string, p: Param, stamp: string, fuel: nat)
    requires ChainEnds(api, url, p, fuel)
    ensures ChainRows(api, url, p, stamp, fuel) == PagesRows(api, Chain(api, url, p, fuel), p, stamp)
    decreases fuel
  {
    var urls := Chain(api, url, p, fuel);
    assert urls[0] == url;
    if api(url, p).Ok? && api(url, p).value.next != "" {
      var next := api(url, p).value.next;
      ChainRowsFollowChain(api, next, p, stamp, fuel - 1);
      assert urls[1..] == Chain(api, next, p, fuel - 1);
    } else {
      assert urls[1..] == [];
    }
  }

  /** Every record has the keys `keys`, in that order, and when there is a record those
      keys name valid columns and fit on one CSV header line. */
  predicate SharedKeys(data: seq<Record>, keys: seq<string>, reserved: set<string>)
  {
    && BatchInsertService.Uniform(data, keys)
    && (|data| > 0 ==> ValidColumns(keys, reserved) && forall k :: k in keys ==> '\n' !in k)
  }

  lemma SharedKeysSplit(a: seq<Record>, b: seq<Record>, keys: seq<string>, reserved: set<string>)
    requires SharedKeys(a + b, keys, reserved)
    ensures SharedKeys(a, keys, reserved) && SharedKeys(b, keys, reserved)
  {
    forall r | r in a ensures r in a + b { }
    forall r | r in b ensures r in a + b { }
  }

  /** Staging holds `rows` under `keys` with no file staged, or, when `creating`, is still to
      be created and holds nothing yet. */
  predicate Ready(t: Tables, staging: string, keys: seq<string>, rows: seq<Row>, creating: bool)
  {
    (staging in t && t[staging] == Table(keys, rows, None)) || (creating && staging !in t && rows == [])
  }

  /** The inserts of a page append the page's rows, read under `keys`, to staging, whichever
      statement path carries them; `batchInsert` and `bulkInsert` both create staging when
      it is missing. */
  lemma PageInsertsLoad(t: Tables, mode: Mode, staging: string, size: nat, data: seq<Record>,
                        keys: seq<string>, rows: seq<Row>, wh: Warehouse)
    requires SizeFits(mode, size) && ReadsCsv(wh)
    requires SharedKeys(data, keys, wh.reserved) && (|data| > 0 ==> WellFormed(data[0]))
    requires Ready(t, staging, keys, rows, |data| > 0)
    ensures ExecAll(t, PageInserts(mode, staging, size, data), wh)
      == Some(t[staging := Table(keys, rows + Csv.RowCells(keys, data), None)])
  {
    if data == [] {
      assert PageInserts(mode, staging, size, data) == [];
      assert rows + Csv.RowCells(keys, data) == rows;
      assert t[staging := Table(keys, rows, None)] == t;
    } else {
      assert data[0] in data;
      if mode == Replace(BatchInsert) {
        BatchInsertService.BatchLoads(t, data, staging, size, wh);
      } else {
        BulkInsertService.BulkLoads(t, data, staging, wh);
      }
    }
  }

  /** A page's statements append its rows, read under `keys`, to staging; on the replace
      path the first page of a parameter creates staging when it is missing. */
  lemma PageLoads(t: Tables, mode: Mode, staging: string, size: nat, data: seq<Record>, first: bool,
                  keys: seq<string>, rows: seq<Row>, wh: Warehouse)
    requires SizeFits(mode, size) && ReadsCsv(wh)
    requires first && mode.Replace? ==> |data| > 0
    requires SharedKeys(data, keys, wh.reserved) && (|data| > 0 ==> WellFormed(data[0]))
    requires Ready(t, staging, keys, rows, first && mode.Replace?)
    ensures ExecAll(t, PageStmts(mode, staging, size, data, first), wh)
      == Some(t[staging := Table(keys, rows + Csv.RowCells(keys, data), None)])
  {
    if first && mode.Replace? {
      CreatingPageLoads(t, mode, staging, size, data, keys, rows, wh);
    } else {
      assert PageStmts(mode, staging, size, data, first) == PageInserts(mode, staging, size, data);
      PageInsertsLoad(t, mode, staging, size, data, keys, rows, wh);
    }
  }

  /** The first page of a parameter on the replace path. */
  lemma CreatingPageLoads(t: Tables, mode: Mode, staging: string, size: nat, data: seq<Record>,
                          keys: seq<string>, rows: seq<Row>, wh: Warehouse)
    requires SizeFits(mode, size) && ReadsCsv(wh)
    requires mode.Replace? && |data| > 0
    requires SharedKeys(data, keys, wh.reserved) && WellFormed(data[0])
    requires Ready(t, staging, keys, rows, true)
    ensures ExecAll(t, PageStmts(mode, staging, size, data, true), wh)
      == Some(t[staging := Table(keys, rows + Csv.RowCells(keys, data), None)])
  {
    var inserts := PageInserts(mode, staging, size, data);
    assert data[0] in data;
    var t1 := if staging in t then t else t[staging := Table(keys, [], None)];
    CreateThen(t, staging, keys, inserts, wh);
    PageInsertsLoad(t1, mode, staging, size, data, keys, rows, wh);
    RestageCreated(t, staging, keys, Table(keys, rows + Csv.RowCells(keys, data), None));
  }

  /** Setting staging after ensuring it is setting it. */
  lemma RestageCreated(t: Tables, staging: string, keys: seq<string>, x: Table)
    ensures (if staging in t then t else t[staging := Table(keys, [], None)])[staging := x] == t[staging := x]
  {
  }

  /** Ensuring a table with valid columns, then running `rest`, runs `rest` on the tables
      that hold that table. */
  lemma CreateThen(t: Tables, name: string, keys: seq<string>, rest: seq<Stmt>, wh: Warehouse)
    requires ValidColumns(keys, wh.reserved)
    ensures ExecAll(t, [CreateTableIfNotExists(name, keys)] + rest, wh)
      == ExecAll(if name in t then t else t[name := Table(keys, [], None)], rest, wh)
  {
    var create := CreateTableIfNotExists(name, keys);
    assert ([create] + rest)[0] == create && ([create] + rest)[1..] == rest;
  }

  /** Staging updated twice holds the second contents. */
  lemma RestageTwice(t: Tables, staging: string, keys: seq<string>, a: seq<Row>, b: seq<Row>,
                     c: seq<Row>)
    ensures t[staging := Table(keys, a + b, None)][staging := Table(keys, (a + b) + c, None)]
      == t[staging := Table(keys, a + (b + c), None)]
  {
    assert (a + b) + c == a + (b + c);
  }

  /** A parameter's loop that the API and the first record do not end early appends to
      staging the rows of every page of its chain, each read under the shared keys, in
      the order the pages come. */
  lemma {:induction false} ParamLoads(api: Api, url: string, p: Param, mode: Mode, staging: string, size: nat,
                                      stamp: string, first: bool, fuel: nat,
                                      t: Tables, keys: seq<string>, rows: seq<Row>, wh: Warehouse)
    requires SizeFits(mode, size) && ChainEnds(api, url, p, fuel) && ReadsCsv(wh)
    requires ParamPlan(api, url, p, mode, staging, size, stamp, first, fuel).abort.None?
    requires SharedKeys(ChainRows(api, url, p, stamp, fuel), keys, wh.reserved)
    requires Ready(t, staging, keys, rows, first && mode.Replace?)
    ensures ExecAll(t, Stmts(ParamPlan(api, url, p, mode, staging, size, stamp, first, fuel).actions), wh)
      == Some(t[staging := Table(keys, rows + Csv.RowCells(keys, ChainRows(api, url, p, stamp, fuel)), None)])
    decreases fuel
  {
    var page := api(url, p).value;
    var data := DataTransformer.TransformData(page.results, stamp);
    var stmts := PageStmts(mode, staging, size, data, first);
    var here := PagePlan(api, url, p, mode, staging, size, stamp, first);
    assert here.actions == [Fetch(url, p)] + Sends(stmts);
    FetchThenSends(url, p, stmts);
    var later: seq<Record> := if page.next == "" then [] else ChainRows(api, page.next, p, stamp, fuel - 1);
    assert ChainRows(api, url, p, stamp, fuel) == data + later;
    SharedKeysSplit(data, later, keys, wh.reserved);
    if |data| > 0 {
      DataTransformer.TransformRecordSpec(page.results[0], stamp);
    }
    PageLoads(t, mode, staging, size, data, first, keys, rows, wh);
    var t1 := t[staging := Table(keys, rows + Csv.RowCells(keys, data), None)];
    if page.next == "" {
      assert data + later == data;
    } else {
      var rest := ParamPlan(api, page.next, p, mode, staging, size, stamp, false, fuel - 1);
      StmtsAppend(here.actions, rest.actions);
      ExecAllAppend(t, stmts, Stmts(rest.actions), wh);
      ParamLoads(api, page.next, p, mode, staging, size, stamp, false, fuel - 1,
                 t1, keys, rows + Csv.RowCells(keys, data), wh);
      BatchInsertService.RowCellsAppend(keys, data, later);
      RestageTwice(t, staging, keys, rows, Csv.RowCells(keys, data), Csv.RowCells(keys, later));
    }
  }

  /** The loop over the parameters, when nothing ends it early, appends to staging the rows
      of every parameter's pages, parameter after parameter; on the replace path the first
      parameter creates staging. */
  lemma {:induction false} ParamsLoads(api: Api, endpoint: string, ps: seq<Param>, mode: Mode, staging: string,
                                       size: nat, stamp: string, fuel: nat,
                                       t: Tables, keys: seq<string>, rows: seq<Row>, wh: Warehouse)
    requires SizeFits(mode, size) && ChainsEnd(api, endpoint, ps, fuel) && ReadsCsv(wh)
    requires ParamsPlan(api, endpoint, ps, mode, staging, size, stamp, fuel).abort.None?
    requires SharedKeys(ChainsRows(api, endpoint, ps, stamp, fuel), keys, wh.reserved)
    requires Ready(t, staging, keys, rows, mode.Replace? && |ps| > 0)
    ensures ExecAll(t, Stmts(ParamsPlan(api, endpoint, ps, mode, staging, size, stamp, fuel).actions), wh)
      == Some(t[staging := Table(keys, rows + Csv.RowCells(keys, ChainsRows(api, endpoint, ps, stamp, fuel)), None)])
    decreases |ps|
  {
    if ps == [] {
      assert Stmts(ParamsPlan(api, endpoint, ps, mode, staging, size, stamp, fuel).actions) == [];
      assert rows + Csv.RowCells(keys, ChainsRows(api, endpoint, ps, stamp, fuel)) == rows;
      assert t[staging := Table(keys, rows, None)] == t;
    } else {
      var a := ParamPlan(api, endpoint, ps[0], mode, staging, size, stamp, true, fuel);
      var b := ParamsPlan(api, endpoint, ps[1..], mode, staging, size, stamp, fuel);
      var first := ChainRows(api, endpoint, ps[0], stamp, fuel);
      var later := ChainsRows(api, endpoint, ps[1..], stamp, fuel);
      SharedKeysSplit(first, later, keys, wh.reserved);
      ParamLoads(api, endpoint, ps[0], mode, staging, size, stamp, true, fuel, t, keys, rows, wh);
      var t1 := t[staging := Table(keys, rows + Csv.RowCells(keys, first), None)];
      StmtsAppend(a.actions, b.actions);
      ExecAllAppend(t, Stmts(a.actions), Stmts(b.actions), wh);
      ParamsLoads(api, endpoint, ps[1..], mode, staging, size, stamp, fuel,
                  t1, keys, rows + Csv.RowCells(keys, first), wh);
      BatchInsertService.RowCellsAppend(keys, first, later);
      RestageTwice(t, staging, keys, rows, Csv.RowCells(keys, first), Csv.RowCells(keys, later));
    }
  }

  /** The rows the destination keeps from before the call: none on the replace path; on
      the incremental path those whose date column lies outside the window. */
  function KeptRows(tables: Tables, table: string, m: InsertMethod, opts: Option<OptionalParam>, wh: Warehouse)
    : seq<Row>
    requires Branch(m, opts) == Some(Upsert) ==> table in tables && opts.value.dateField in tables[table].columns
  {
    if Branch(m, opts) == Some(Upsert) then
      var t := tables[table];
      Filter(t.rows, IndexOf(t.columns, opts.value.dateField), WindowOf(opts.value), wh.inWindow)
    else []
  }

  /** After its prelude the branch holds, in staging, the kept rows under the shared keys. */
  lemma PreludeStages(tables: Tables, table: string, m: InsertMethod, opts: Option<OptionalParam>,
                      ps: seq<Param>, keys: seq<string>, wh: Warehouse)
    requires StagingBuilt(m, opts, ps)
    requires Branch(m, opts) == Some(Upsert) ==>
      table in tables && tables[table].columns == keys && opts.value.dateField in keys
    ensures var mode := Branch(m, opts).value;
      var staging := StagingName(table);
      && ExecAll(tables, Prelude(table, mode, opts), wh).Some?
      && var t0 := ExecAll(tables, Prelude(table, mode, opts), wh).value;
      && Ready(t0, staging, keys, KeptRows(tables, table, m, opts, wh), mode.Replace? && |ps| > 0)
      && t0 - {table, staging} == tables - {table, staging}
  {
    var staging := StagingName(table);
    if Branch(m, opts) == Some(Upsert) {
      UpsertPreludeMeaning(tables, table, opts.value, wh);
    } else {
      assert ExecAll(tables, [DropTableIfExists(staging)], wh) == ExecAll(tables - {staging}, [], wh);
    }
  }

  /** The statements of the whole call, when the branch runs to its end: the prelude, the
      parameters' statements, then the swap. */
  lemma HandleStmtsSplit(api: Api, endpoint: string, table: string, m: InsertMethod, size: nat,
                         ps: seq<Param>, opts: Option<OptionalParam>, stamp: string, fuel: nat)
    requires m == BatchInsert ==> size > 0
    requires ChainsEnd(api, endpoint, ps, fuel)
    requires Branch(m, opts).Some?
    requires HandlePlan(api, endpoint, table, m, size, Array(ps), opts, stamp, fuel).abort.None?
    ensures var mode := Branch(m, opts).value;
      var params := ParamsPlan(api, endpoint, ps, mode, StagingName(table), size, stamp, fuel);
      && params.abort.None?
      && Stmts(HandlePlan(api, endpoint, table, m, size, Array(ps), opts, stamp, fuel).actions)
           == (Prelude(table, mode, opts) + Stmts(params.actions)) + SwapStmts(table)
  {
    var load := LoadPlan(api, endpoint, table, m, size, ps, opts, stamp, fuel);
    LoadStmts(api, endpoint, table, m, size, ps, opts, stamp, fuel);
    SendsOnly(SwapStmts(table));
    StmtsAppend(load.actions, Sends(SwapStmts(table)));
  }

  /** The branch, run to its end, leaves staging holding the kept rows followed by the
      loaded ones, and every table but the destination and staging as it was. */
  lemma BranchStages(api: Api, endpoint: string, table: string, m: InsertMethod, size: nat,
                     ps: seq<Param>, opts: Option<OptionalParam>, stamp: string, fuel: nat,
                     tables: Tables, keys: seq<string>, wh: Warehouse)
    requires m == BatchInsert ==> size > 0
    requires ChainsEnd(api, endpoint, ps, fuel) && ReadsCsv(wh)
    requires StagingBuilt(m, opts, ps)
    requires ParamsPlan(api, endpoint, ps, Branch(m, opts).value, StagingName(table), size, stamp, fuel).abort.None?
    requires SharedKeys(ChainsRows(api, endpoint, ps, stamp, fuel), keys, wh.reserved)
    requires Branch(m, opts) == Some(Upsert) ==>
      table in tables && tables[table].columns == keys && opts.value.dateField in keys
    ensures var mode := Branch(m, opts).value;
      var staging := StagingName(table);
      var params := ParamsPlan(api, endpoint, ps, mode, staging, size, stamp, fuel);
      var r := ExecAll(tables, Prelude(table, mode, opts) + Stmts(params.actions), wh);
      && r.Some?
      && staging in r.value
      && r.value[staging] == Table(keys, KeptRows(tables, table, m, opts, wh)
                                         + Csv.RowCells(keys, ChainsRows(api, endpoint, ps, stamp, fuel)), None)
      && r.value - {table, staging} == tables - {table, staging}
  {
    var staging := StagingName(table);
    var mode := Branch(m, opts).value;
    var pre := Prelude(table, mode, opts);
    var params := ParamsPlan(api, endpoint, ps, mode, staging, size, stamp, fuel);
    var kept := KeptRows(tables, table, m, opts, wh);
    PreludeStages(tables, table, m, opts, ps, keys, wh);
    var t0 := ExecAll(tables, pre, wh).value;
    ParamsLoads(api, endpoint, ps, mode, staging, size, stamp, fuel, t0, keys, kept, wh);
    StagedAfter(tables, pre, Stmts(params.actions), t0, table, staging,
                Table(keys, kept + Csv.RowCells(keys, ChainsRows(api, endpoint, ps, stamp, fuel)), None), wh);
  }

  /** Statements that stage `x` after a prelude that touched only the destination and
      staging leave staging holding `x` and the other tables as they were. */
  lemma StagedAfter(tables: Tables, pre: seq<Stmt>, rest: seq<Stmt>, t0: Tables, table: string,
                    staging: string, x: Table, wh: Warehouse)
    requires ExecAll(tables, pre, wh) == Some(t0) && t0 - {table, staging} == tables - {table, staging}
    requires ExecAll(t0, rest, wh) == Some(t0[staging := x])
    ensures var r := ExecAll(tables, pre + rest, wh);
      r.Some? && staging in r.value && r.value[staging] == x && r.value - {table, staging} == tables - {table, staging}
  {
    ExecAllAppend(tables, pre, rest, wh);
    assert t0[staging := x] - {table, staging} == t0 - {table, staging};
  }

  /** `handleAppFolioData`, carried out without error when the branch builds staging, leaves
      the destination holding the rows it kept from before the call followed by the rows
      of every page of every parameter, in the order the pages were requested, each read
      under the keys the records share; staging is gone and every other table is as it
      was. The kept rows are none on the replace path and, on the incremental path, the
      destination's rows whose date column lies outside the window. */
  lemma HandleLoadsDestination(api: Api, endpoint: string, table: string, m: InsertMethod, size: nat,
                               ps: seq<Param>, opts: Option<OptionalParam>, stamp: string, fuel: nat,
                               tables: Tables, keys: seq<string>, wh: Warehouse)
    requires m == BatchInsert ==> size > 0
    requires ChainsEnd(api, endpoint, ps, fuel) && ReadsCsv(wh)
    requires StagingBuilt(m, opts, ps)
    requires HandlePlan(api, endpoint, table, m, size, Array(ps), opts, stamp, fuel).abort.None?
    requires SharedKeys(ChainsRows(api, endpoint, ps, stamp, fuel), keys, wh.reserved)
    requires Branch(m, opts) == Some(Upsert) ==>
      table in tables && tables[table].columns == keys && opts.value.dateField in keys
    ensures ExecAll(tables, Stmts(HandlePlan(api, endpoint, table, m, size, Array(ps), opts, stamp, fuel).actions), wh)
      == Some((tables - {table, StagingName(table)})[table := Table(keys,
           KeptRows(tables, table, m, opts, wh) + Csv.RowCells(keys, ChainsRows(api, endpoint, ps, stamp, fuel)), None)])
  {
    var staging := StagingName(table);
    var mode := Branch(m, opts).value;
    var branch := Prelude(table, mode, opts) + Stmts(ParamsPlan(api, endpoint, ps, mode, staging, size, stamp, fuel).actions);
    HandleStmtsSplit(api, endpoint, table, m, size, ps, opts, stamp, fuel);
    BranchStages(api, endpoint, table, m, size, ps, opts, stamp, fuel, tables, keys, wh);
    var t1 := ExecAll(tables, branch, wh).value;
    ExecAllAppend(tables, branch, SwapStmts(table), wh);
    SwapMeaning(t1, table, wh);
  }
}
