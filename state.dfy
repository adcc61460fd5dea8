/** The sync-state store of src/utils/state.ts: a JSON file holding one state per
    function name, read whole and rewritten whole. The file is a value here: `None` when
    it does not exist, otherwise its text, which either parses to an object or does not. */
module SyncState {
  import opened Wrappers

  /** A JSON value as `JSON.parse` produces it. */
  datatype Json =
    | JNull
    | JBool(b: bool)
    | JNum(n: int)
    | JStr(s: string)
    | JArr(items: seq<Json>)
    | JObj(fields: map<string, Json>)

  type States = map<string, Json>

  /** The text of the state file: a JSON object, or text `JSON.parse` rejects. */
  datatype FileText = Document(states: States) | Malformed(text: string)

  type StateFile = Option<FileText>

  /** `loadState()`: no file is the empty map; text that does not parse throws. */
  function LoadState(file: StateFile): Result<States, string>
  {
    match file
    case None => Ok(map[])
    case Some(Document(states)) => Ok(states)
    case Some(Malformed(text)) => Err("JSON.parse: " + text)
  }

  /** `saveState(functionName, state)`: the loaded map with `functionName` set to `state`,
      written back whole; a file that does not load makes it throw before writing. */
  function SaveState(file: StateFile, name: string, state: Json): Result<StateFile, string>
  {
    match LoadState(file)
    case Err(e) => Err(e)
    case Ok(states) => Ok(Some(Document(states[name := state])))
  }

  /** JavaScript truthiness of a JSON value. */
  predicate Truthy(v: Json)
  {
    match v
    case JNull => false
    case JBool(b) => b
    case JNum(n) => n != 0
    case JStr(s) => s != ""
    case JArr(_) => true
    case JObj(_) => true
  }

  /** `{ isFirstRun: true }`. */
  const FirstRun: Json := JObj(map["isFirstRun" := JBool(true)])

  /** `getReportCacheState(functionName)`: the stored state when it is truthy, otherwise
      the first-run state. */
  function GetReportCacheState(file: StateFile, name: string): Result<Json, string>
  {
    match LoadState(file)
    case Err(e) => Err(e)
    case Ok(states) => Ok(if name in states && Truthy(states[name]) then states[name] else FirstRun)
  }

  /** The reset route: the general ledger goes back to its first run. */
  function ResetGeneralLedger(file: StateFile): Result<StateFile, string>
  {
    SaveState(file, "general_ledger", FirstRun)
  }

  /** Without a state file every name is on its first run. */
  lemma MissingFileIsFirstRun(name: string)
    ensures LoadState(None) == Ok(map[])
    ensures GetReportCacheState(None, name) == Ok(FirstRun)
  {
  }

  /** Text that does not parse is an error for every operation, not a first run, and a
      save leaves such a file as it is. */
  lemma MalformedFails(text: string, name: string, state: Json)
    ensures LoadState(Some(Malformed(text))).Err?
    ensures SaveState(Some(Malformed(text)), name, state).Err?
    ensures GetReportCacheState(Some(Malformed(text)), name).Err?
  {
  }

  /** A save succeeds exactly when the file loads, and then the file holds the old map
      with `name` set to `state` and nothing else changed. */
  lemma SaveUpdates(file: StateFile, name: string, state: Json)
    ensures SaveState(file, name, state).Ok? <==> LoadState(file).Ok?
    ensures SaveState(file, name, state).Ok? ==>
      var states := LoadState(file).value;
      var after := LoadState(SaveState(file, name, state).value);
      && after.Ok?
      && name in after.value && after.value[name] == state
      && after.value.Keys == states.Keys + {name}
      && forall other :: other in states && other != name ==> after.value[other] == states[other]
  {
  }

  /** A get after a save of the same name returns the saved state, or the first-run state
      when the saved one is falsy; other names read as before. */
  lemma SaveThenGet(file: StateFile, name: string, state: Json, other: string)
    requires SaveState(file, name, state).Ok?
    ensures GetReportCacheState(SaveState(file, name, state).value, name)
      == Ok(if Truthy(state) then state else FirstRun)
    ensures other != name ==>
      GetReportCacheState(SaveState(file, name, state).value, other) == GetReportCacheState(file, other)
  {
  }

  /** Saving the same state twice is saving it once. */
  lemma SaveIdempotent(file: StateFile, name: string, state: Json)
    requires SaveState(file, name, state).Ok?
    ensures SaveState(SaveState(file, name, state).value, name, state) == SaveState(file, name, state)
  {
    var states := LoadState(file).value;
    assert states[name := state][name := state] == states[name := state];
  }

  /** After the reset route the general ledger reads as a first run, and every other
      report's state is as it was. */
  lemma ResetIsFirstRun(file: StateFile, other: string)
    requires LoadState(file).Ok?
    ensures ResetGeneralLedger(file).Ok?
    ensures GetReportCacheState(ResetGeneralLedger(file).value, "general_ledger") == Ok(FirstRun)
    ensures other != "general_ledger" ==>
      GetReportCacheState(ResetGeneralLedger(file).value, other) == GetReportCacheState(file, other)
  {
    SaveThenGet(file, "general_ledger", FirstRun, other);
  }
}
