// A plan as the planner's model emits it, and as the factory accepts it.
module Plan {
  import opened Time
  import opened Text
  import opened Budget
  import opened Ledger
  import opened Sequences

  type TaskKey = string

  datatype Result<+V, +E> = Ok(value: V) | Err(error: E)

  datatype PlannedTask = PlannedTask(
    key: TaskKey,
    title: string,
    description: string,
    acceptance: seq<string>,
    verify: Commands,
    needs: seq<TaskKey>,
    budget: Limits,
    verifyTimeout: Duration)

  /** A validated plan; its tasks are in an order that puts needs before dependents. */
  datatype Plan = Plan(summary: string, reference: Option<string>, tasks: seq<PlannedTask>)

  datatype RawTask = RawTask(
    key: string,
    title: string,
    description: string,
    acceptance: seq<string>,
    verify: seq<string>,
    needs: seq<string>)

  datatype RawPlan = RawPlan(summary: string, reference: Option<string>, tasks: seq<RawTask>, blocked: Option<string>)

  datatype PlanDefaults = PlanDefaults(budget: Limits, verifyTimeout: Duration)

  datatype TextError = EmptyText | TooLong | BadCharacter

  datatype PlanError =
    | Empty
    | BlockedBy(detail: string)
    | BadKey(key: string)
    | DuplicateKey(key: string)
    | EmptyTitle(key: string, title: TextError)
    | BadSummary(summary: TextError)
    | BadVerify(key: string, verify: TextError)
    | NoVerify(key: string)
    | UnknownNeed(task: TaskKey, needs: TaskKey)
    | SelfNeed(key: string)
    | Cycle(key: TaskKey)

  /** Trimmed text that is not empty, not longer than `limit` and without `forbidden`. */
  function ParseText(s: string, limit: nat, forbidden: char): Result<string, TextError> {
    var t := Trim(s);
    if t == "" then Err(EmptyText)
    else if |t| > limit then Err(TooLong)
    else if forbidden in t then Err(BadCharacter)
    else Ok(t)
  }

  function ParseTitle(s: string): Result<string, TextError> {
    ParseText(s, 200, '\n')
  }

  function ParseCommand(s: string): Result<string, TextError> {
    ParseText(s, 4000, '\0')
  }

  predicate IsKeyChar(c: char) {
    'a' <= c <= 'z' || 'A' <= c <= 'Z' || '0' <= c <= '9' || c == '-' || c == '_'
  }

  predicate IsKey(s: string) {
    s != "" && forall i :: 0 <= i < |s| ==> IsKeyChar(s[i])
  }

  function ParseKey(s: string): Result<TaskKey, PlanError> {
    if IsKey(Trim(s)) then Ok(Trim(s)) else Err(BadKey(s))
  }

  predicate Blank(s: string) {
    Trim(s) == ""
  }

  /** The verify commands: blank ones dropped, the rest trimmed; the first bad one is the error. */
  function ParseCommands(raw: seq<string>): Result<seq<string>, TextError> {
    if raw == [] then Ok([])
    else if Blank(raw[0]) then ParseCommands(raw[1..])
    else
      match ParseCommand(raw[0])
      case Err(e) => Err(e)
      case Ok(command) =>
        match ParseCommands(raw[1..])
        case Err(e) => Err(e)
        case Ok(rest) => Ok([command] + rest)
  }

  /** The needed keys after `known`, first occurrences only. */
  function ParseNeeds(raw: seq<string>, known: seq<TaskKey>): Result<seq<TaskKey>, PlanError>
    decreases |raw|
  {
    if raw == [] then Ok(known)
    else
      match ParseKey(raw[0])
      case Err(e) => Err(e)
      case Ok(key) => ParseNeeds(raw[1..], if key in known then known else known + [key])
  }

  /** One task, given the keys of the tasks before it. The first problem found is the error. */
  function ParseTask(raw: RawTask, seen: set<TaskKey>, defaults: PlanDefaults): Result<PlannedTask, PlanError> {
    match ParseKey(raw.key)
    case Err(e) => Err(e)
    case Ok(key) =>
      if key in seen then Err(DuplicateKey(raw.key))
      else
        match ParseTitle(raw.title)
        case Err(e) => Err(EmptyTitle(raw.key, e))
        case Ok(title) =>
          match ParseCommands(raw.verify)
          case Err(e) => Err(BadVerify(raw.key, e))
          case Ok(verify) =>
            if verify == [] then Err(NoVerify(raw.key))
            else
              match ParseNeeds(raw.needs, [])
              case Err(e) => Err(e)
              case Ok(needs) =>
                if key in needs then Err(SelfNeed(raw.key))
                else
                  Ok(PlannedTask(key, title, raw.description, raw.acceptance, verify, needs,
                                 defaults.budget, defaults.verifyTimeout))
  }

  /** All tasks in order, each with the keys before it. */
  function ParseTasks(raw: seq<RawTask>, seen: set<TaskKey>, defaults: PlanDefaults)
      : Result<seq<PlannedTask>, PlanError>
    decreases |raw|
  {
    if raw == [] then Ok([])
    else
      match ParseTask(raw[0], seen, defaults)
      case Err(e) => Err(e)
      case Ok(task) =>
        match ParseTasks(raw[1..], seen + {task.key}, defaults)
        case Err(e) => Err(e)
        case Ok(rest) => Ok([task] + rest)
  }

  // ---- what parsed tasks are like ---------------------------------------------------------------------------

  predicate DistinctKeys(tasks: seq<PlannedTask>) {
    forall i, j :: 0 <= i < j < |tasks| ==> tasks[i].key != tasks[j].key
  }

  predicate HasKey(tasks: seq<PlannedTask>, key: TaskKey) {
    exists i :: 0 <= i < |tasks| && tasks[i].key == key
  }

  /** Unique keys, needs without duplicates, every need a key of the plan. */
  predicate Resolved(tasks: seq<PlannedTask>) {
    && DistinctKeys(tasks)
    && (forall i :: 0 <= i < |tasks| ==> Distinct(tasks[i].needs))
    && (forall i, key :: 0 <= i < |tasks| && key in tasks[i].needs ==> HasKey(tasks, key))
  }
}
