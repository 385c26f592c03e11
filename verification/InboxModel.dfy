/**
 The reason-task inbox as a value: task and run rows, and what each transaction
 makes of them at an instant `now` (microseconds). Ids, tokens, consumer names and
 routes arrive here already stripped of outer whitespace.
 */
module InboxModel {
  import opened Common
  import opened Text

  const SECOND := 1_000_000

  datatype TaskRequest = TaskRequest(taskId: string, requestId: string, evidence: set<string>)

  datatype Claim = Claim(text: string, evidence: seq<string>, confidence: real)

  datatype TaskResult = TaskResult(taskId: string, claims: seq<Claim>)

  datatype Status = Pending | Claimed | Completed | Fallback

  datatype Row = Row(
    requestId: string, request: TaskRequest, status: Status,
    token: Option<string>, claimedBy: string, leaseUntil: Option<int>, deadline: int,
    result: Option<TaskResult>, route: string, createdAt: int, updatedAt: int)

  datatype Run = Run(expected: nat, deadline: int, updatedAt: int, retired: bool)

  type Tasks = map<string, Row>

  datatype Inbox = Inbox(tasks: Tasks, runs: map<string, Run>)

  datatype Reply =
    | Refused
    | Done
    | NoTask
    | Leased(taskId: string, token: string)
    | Result(result: TaskResult)
    | Retired(eligible: seq<string>, blocked: seq<string>, removed: nat)

  datatype Outcome = Outcome(box: Inbox, reply: Reply)

  predicate InRange(result: TaskResult) {
    forall c :: c in result.claims ==> 0.0 <= c.confidence <= 1.0
  }

  /** The contract check on a result: its task, and evidence the task supplied. */
  predicate ValidFor(request: TaskRequest, result: TaskResult) {
    && InRange(result)
    && result.taskId == request.taskId
    && forall c, e :: c in result.claims && e in c.evidence ==> e in request.evidence
  }

  // -------------------------------------------------------------- registration

  function UpsertedRow(tasks: Tasks, task: TaskRequest, requestId: string, deadline: int, now: int): Row {
    if task.taskId in tasks then
      var row := tasks[task.taskId];
      var kept := row.(requestId := requestId, request := task, deadline := deadline, updatedAt := now);
      if row.status == Completed then kept
      else kept.(status := Pending, token := None, claimedBy := "", leaseUntil := None, result := None, route := "")
    else
      Row(requestId, task, Pending, None, "", None, deadline, None, "", now, now)
  }

  function Upsert(tasks: Tasks, task: TaskRequest, requestId: string, deadline: int, now: int): Tasks {
    tasks[task.taskId := UpsertedRow(tasks, task, requestId, deadline, now)]
  }

  function UpsertAll(tasks: Tasks, list: seq<TaskRequest>, requestId: string, deadline: int, now: int): Tasks
    decreases |list|
  {
    if list == [] then tasks
    else UpsertAll(Upsert(tasks, list[0], requestId, deadline, now), list[1..], requestId, deadline, now)
  }

  predicate UniqueIds(list: seq<TaskRequest>) {
    forall i, j :: 0 <= i < j < |list| ==> list[i].taskId != list[j].taskId
  }

  predicate Retirement(box: Inbox, requestId: string) {
    requestId in box.runs && box.runs[requestId].retired
  }

  predicate RegisterAccepted(box: Inbox, requestId: string, list: seq<TaskRequest>, wait: int) {
    && requestId != "" && wait >= 0 && UniqueIds(list)
    && (forall t :: t in list ==> t.requestId == requestId)
    && !Retirement(box, requestId)
  }

  function DoRegister(box: Inbox, requestId: string, list: seq<TaskRequest>, wait: int, now: int): Outcome {
    if !RegisterAccepted(box, requestId, list, wait) then Outcome(box, Refused)
    else
      Outcome(Inbox(UpsertAll(box.tasks, list, requestId, now + wait, now),
                    box.runs[requestId := Run(|list|, now + wait, now, false)]),
              Done)
  }

  function DoPublish(box: Inbox, task: TaskRequest, wait: int, runId: string, deadline: Option<int>, now: int): Outcome {
    if wait < 0 || runId == "" || Retirement(box, runId) then Outcome(box, Refused)
    else
      var until := if deadline.Some? then deadline.value else now + wait;
      Outcome(box.(tasks := Upsert(box.tasks, task, runId, until, now)), Done)
  }

  // ------------------------------------------------------------ claim and submit

  predicate Claimable(row: Row, now: int) {
    row.deadline > now
    && (row.status == Pending || (row.status == Claimed && (row.leaseUntil == None || row.leaseUntil.value <= now)))
  }

  /** Rows are offered oldest first, equal ages in order of task id. */
  predicate Before(tasks: Tasks, a: string, b: string)
    requires a in tasks && b in tasks
  {
    tasks[a].createdAt < tasks[b].createdAt || (tasks[a].createdAt == tasks[b].createdAt && TextLe(a, b))
  }

  predicate FirstClaimable(tasks: Tasks, now: int, pick: Option<string>) {
    match pick
    case None => forall id :: id in tasks ==> !Claimable(tasks[id], now)
    case Some(id) =>
      && id in tasks && Claimable(tasks[id], now)
      && forall other :: other in tasks && Claimable(tasks[other], now) ==> Before(tasks, id, other)
  }

  predicate ClaimAccepted(consumer: string, lease: int) {
    consumer != "" && 30 <= lease <= 3600
  }

  function DoClaim(box: Inbox, consumer: string, lease: int, token: string, pick: Option<string>, now: int): Outcome
    requires pick.Some? ==> pick.value in box.tasks
  {
    if !ClaimAccepted(consumer, lease) then Outcome(box, Refused)
    else
      match pick
      case None => Outcome(box, NoTask)
      case Some(id) =>
        var row := box.tasks[id].(status := Claimed, token := Some(token), claimedBy := consumer,
                                  leaseUntil := Some(now + lease * SECOND), updatedAt := now);
        Outcome(box.(tasks := box.tasks[id := row]), Leased(id, token))
  }

  /** The token may submit for the task now. */
  predicate Live(box: Inbox, id: string, token: string, now: int) {
    && id in box.tasks && box.tasks[id].status == Claimed && box.tasks[id].token == Some(token)
    && box.tasks[id].leaseUntil.Some? && box.tasks[id].leaseUntil.value > now && box.tasks[id].deadline > now
  }

  function DoSubmit(box: Inbox, id: string, token: string, claims: seq<Claim>, now: int): Outcome {
    var result := TaskResult(id, claims);
    if id == "" || token == "" || !Live(box, id, token, now) || !ValidFor(box.tasks[id].request, result) then
      Outcome(box, Refused)
    else
      var row := box.tasks[id].(status := Completed, result := Some(result), route := "mcp", updatedAt := now);
      Outcome(box.(tasks := box.tasks[id := row]), Result(result))
  }

  // ------------------------------------------------------------------- fallback

  function DoFallback(box: Inbox, id: string, result: TaskResult, route: string, now: int): Outcome {
    if id == "" || route == "" || route == "mcp" || id !in box.tasks then Outcome(box, Refused)
    else if box.tasks[id].status == Completed then
      if box.tasks[id].result.Some? then Outcome(box, Result(box.tasks[id].result.value)) else Outcome(box, Refused)
    else if !ValidFor(box.tasks[id].request, result) then Outcome(box, Refused)
    else
      var row := box.tasks[id].(status := Completed, result := Some(result), route := route, updatedAt := now);
      Outcome(box.(tasks := box.tasks[id := row]), Result(result))
  }

  function DoMark(box: Inbox, id: string, route: string, now: int): Outcome {
    if id !in box.tasks then Outcome(box, Refused)
    else if box.tasks[id].status == Completed then Outcome(box, Done)
    else Outcome(box.(tasks := box.tasks[id := box.tasks[id].(status := Fallback, route := route, updatedAt := now)]), Done)
  }

  // ----------------------------------------------------------------- retirement

  function InsertText(ids: seq<string>, x: string): seq<string> {
    if ids == [] then [x]
    else if ids[0] == x then ids
    else if TextLe(x, ids[0]) then [x] + ids
    else [ids[0]] + InsertText(ids[1..], x)
  }

  /** The distinct ids in text order. */
  function SortedIds(ids: seq<string>): seq<string> {
    if ids == [] then [] else InsertText(SortedIds(ids[..|ids| - 1]), ids[|ids| - 1])
  }

  function TasksOf(tasks: Tasks, requestId: string): set<string> {
    set id | id in tasks && tasks[id].requestId == requestId
  }

  /** A row that is still fresh, or whose lease is still running. */
  predicate Busy(row: Row, cutoff: int, now: int) {
    row.updatedAt >= cutoff || row.deadline >= cutoff || (row.leaseUntil.Some? && row.leaseUntil.value > now)
  }

  predicate Eligible(box: Inbox, requestId: string, cutoff: int, now: int) {
    && requestId in box.runs
    && var run := box.runs[requestId];
       && !run.retired && run.deadline < cutoff && run.updatedAt < cutoff
       && |TasksOf(box.tasks, requestId)| == run.expected
       && forall id :: id in TasksOf(box.tasks, requestId) ==> !Busy(box.tasks[id], cutoff, now)
  }

  function RetireOne(box: Inbox, requestId: string): Inbox
    requires requestId in box.runs
  {
    Inbox(box.tasks - TasksOf(box.tasks, requestId),
          box.runs[requestId := box.runs[requestId].(retired := true, expected := 0)])
  }

  function RetireList(box: Inbox, ids: seq<string>, cutoff: int, now: int, dryRun: bool): Outcome
    ensures RetireList(box, ids, cutoff, now, dryRun).reply.Retired?
    decreases |ids|
  {
    if ids == [] then Outcome(box, Retired([], [], 0))
    else if Eligible(box, ids[0], cutoff, now) then
      var rest := RetireList(if dryRun then box else RetireOne(box, ids[0]), ids[1..], cutoff, now, dryRun);
      Outcome(rest.box, Retired([ids[0]] + rest.reply.eligible, rest.reply.blocked,
                                |TasksOf(box.tasks, ids[0])| + rest.reply.removed))
    else
      var rest := RetireList(box, ids[1..], cutoff, now, dryRun);
      Outcome(rest.box, Retired(rest.reply.eligible, [ids[0]] + rest.reply.blocked, rest.reply.removed))
  }

  predicate RetireAccepted(sorted: seq<string>, before: int, now: int) {
    before <= now + 3600 * SECOND && 1 <= |sorted| <= 100 && "" !in sorted
  }

  function DoRetire(box: Inbox, ids: seq<string>, before: int, dryRun: bool, now: int): Outcome {
    var sorted := SortedIds(ids);
    if !RetireAccepted(sorted, before, now) then Outcome(box, Refused)
    else RetireList(box, sorted, if before > now then now else before, now, dryRun)
  }

  // --------------------------------------------------------------- transactions

  datatype Op =
    | Register(requestId: string, list: seq<TaskRequest>, wait: int)
    | Publish(task: TaskRequest, wait: int, runId: string, deadline: Option<int>)
    | ClaimNext(consumer: string, lease: int, token: string, pick: Option<string>)
    | Submit(taskId: string, token: string, claims: seq<Claim>)
    | CompleteFallback(taskId: string, result: TaskResult, route: string)
    | MarkFallback(taskId: string, route: string)
    | RetireRuns(ids: seq<string>, before: int, dryRun: bool)

  /** A claim takes the row the query would return. */
  predicate Possible(box: Inbox, op: Op, now: int) {
    op.ClaimNext? ==> FirstClaimable(box.tasks, now, op.pick)
  }

  function Apply(box: Inbox, op: Op, now: int): Outcome
    requires op.ClaimNext? && op.pick.Some? ==> op.pick.value in box.tasks
  {
    match op
    case Register(requestId, list, wait) => DoRegister(box, requestId, list, wait, now)
    case Publish(task, wait, runId, deadline) => DoPublish(box, task, wait, runId, deadline, now)
    case ClaimNext(consumer, lease, token, pick) => DoClaim(box, consumer, lease, token, pick, now)
    case Submit(taskId, token, claims) => DoSubmit(box, taskId, token, claims, now)
    case CompleteFallback(taskId, result, route) => DoFallback(box, taskId, result, route, now)
    case MarkFallback(taskId, route) => DoMark(box, taskId, route, now)
    case RetireRuns(ids, before, dryRun) => DoRetire(box, ids, before, dryRun, now)
  }
}
