/**
 The run-level reasoner: it registers its tasks, polls while other parties work on the inbox,
 and completes by fallback whatever is left.
 */
module RunReasoner {
  import opened Common
  import opened Text
  import opened InboxModel
  import opened InboxRuns
  import opened InboxGuarantees
  import opened InboxOutcomes
  import opened InboxService
  import opened Orchestration

  // ------------------------------------------------ what other parties may do

  /** Anything but registering these task ids again or really retiring this run. */
  predicate Foreign(op: Op, runId: string, ids: set<string>) {
    match op
    case Register(_, list, _) => forall t :: t in list ==> t.taskId !in ids
    case Publish(task, _, _, _) => task.taskId !in ids
    case RetireRuns(runs, _, dryRun) => dryRun || runId !in runs
    case _ => true
  }

  /** A completed row that satisfies the contract of its own request. */
  ghost predicate RowValid(row: Row) {
    row.result.Some? ==> ValidFor(row.request, row.result.value)
  }

  /** How others may have changed the rows of this run. */
  ghost predicate RowRely(before: Tasks, after: Tasks, runId: string, id: string) {
    id in before && before[id].requestId == runId ==>
      && id in after && after[id].requestId == runId && after[id].request == before[id].request
      && WinnerKept(before, after, id)
      && (RowValid(before[id]) ==> RowValid(after[id]))
  }

  ghost predicate Rely(before: Inbox, after: Inbox, runId: string, ids: set<string>) {
    forall id :: id in ids ==> RowRely(before.tasks, after.tasks, runId, id)
  }

  lemma RowForeign(s: System, e: Event, runId: string, ids: set<string>, id: string)
    requires Inv(s) && Enabled(s, e) && Foreign(e.op, runId, ids) && id in ids
    ensures RowRely(s.box.tasks, Step(s, e).box.tasks, runId, id)
  {
    EventFacts(s, e, id);
    if id in s.box.tasks && s.box.tasks[id].requestId == runId {
      assert RowOk(s, id, s.box.tasks[id]);
      if e.op.Register? {
        RegisterLeaves(s, e, id);
      } else if e.op.RetireRuns? {
        RetireLeaves(s, e, runId, id);
      }
    }
  }

  lemma RegisterLeaves(s: System, e: Event, id: string)
    requires Enabled(s, e) && e.op.Register? && id in s.box.tasks
    requires forall t :: t in e.op.list ==> t.taskId != id
    ensures id in Step(s, e).box.tasks && Step(s, e).box.tasks[id] == s.box.tasks[id]
  {
    var Register(requestId, list, wait) := e.op;
    if UniqueIds(list) { UpsertLeaves(s.box.tasks, list, requestId, e.now + wait, e.now, id); }
  }

  lemma UpsertLeaves(tasks: Tasks, list: seq<TaskRequest>, requestId: string, deadline: int, now: int, id: string)
    requires UniqueIds(list) && id in tasks && forall t :: t in list ==> t.taskId != id
    ensures var after := UpsertAll(tasks, list, requestId, deadline, now); id in after && after[id] == tasks[id]
  {
    assert Unlisted(list, id);
    UpsertAllRows(tasks, list, requestId, deadline, now);
  }

  lemma RetireLeaves(s: System, e: Event, runId: string, id: string)
    requires Enabled(s, e) && e.op.RetireRuns? && (e.op.dryRun || runId !in e.op.ids)
    requires id in s.box.tasks && s.box.tasks[id].requestId == runId
    ensures id in Step(s, e).box.tasks && Step(s, e).box.tasks[id] == s.box.tasks[id]
  {
    var sorted := SortedIds(e.op.ids);
    SortedIdsSpec(e.op.ids);
    RetireListReport(s.box, sorted, if e.op.before > e.now then e.now else e.op.before, e.now, e.op.dryRun);
  }

  lemma EventForeign(s: System, e: Event, runId: string, ids: set<string>)
    requires Inv(s) && Enabled(s, e) && Foreign(e.op, runId, ids)
    ensures Inv(Step(s, e)) && Rely(s.box, Step(s, e).box, runId, ids)
  {
    StepKeepsInv(s, e);
    forall id | id in ids ensures RowRely(s.box.tasks, Step(s, e).box.tasks, runId, id) {
      RowForeign(s, e, runId, ids, id);
    }
  }

  lemma RelyTwice(a: Inbox, b: Inbox, c: Inbox, runId: string, ids: set<string>)
    requires Rely(a, b, runId, ids) && Rely(b, c, runId, ids)
    ensures Rely(a, c, runId, ids)
  {
    forall id | id in ids ensures RowRely(a.tasks, c.tasks, runId, id) {
      assert RowRely(a.tasks, b.tasks, runId, id) && RowRely(b.tasks, c.tasks, runId, id);
    }
  }

  // ---------------------------------------------------------------- this run's rows

  function RequestOf(task: ReasoningTask): TaskRequest {
    TaskRequest(task.taskId, task.requestId, EvidenceIds(task))
  }

  function RequestsOf(tasks: seq<ReasoningTask>): seq<TaskRequest> {
    seq(|tasks|, k requires 0 <= k < |tasks| => RequestOf(tasks[k]))
  }

  function IdsOf(tasks: seq<ReasoningTask>): set<string> {
    set t | t in tasks :: t.taskId
  }

  /** The task's row is in the inbox, carries this run and this task, and (if fresh) is valid. */
  ghost predicate Placed(box: Inbox, runId: string, task: ReasoningTask, valid: bool) {
    && task.taskId in box.tasks
    && box.tasks[task.taskId].requestId == runId
    && box.tasks[task.taskId].request == RequestOf(task)
    && (valid ==> RowValid(box.tasks[task.taskId]))
  }

  ghost predicate AllPlaced(box: Inbox, runId: string, tasks: seq<ReasoningTask>, valid: bool) {
    forall k :: 0 <= k < |tasks| ==> Placed(box, runId, tasks[k], valid)
  }

  /** The result is the durable completed one of its task. */
  ghost predicate Durable(box: Inbox, task: ReasoningTask, result: TaskResult) {
    && task.taskId in box.tasks && box.tasks[task.taskId].status == Completed
    && box.tasks[task.taskId].result == Some(result)
  }

  lemma PlacedStays(before: Inbox, after: Inbox, runId: string, tasks: seq<ReasoningTask>, valid: bool)
    requires AllPlaced(before, runId, tasks, valid) && Rely(before, after, runId, IdsOf(tasks))
    ensures AllPlaced(after, runId, tasks, valid)
    ensures forall k, r :: 0 <= k < |tasks| && Durable(before, tasks[k], r) ==> Durable(after, tasks[k], r)
  {
    forall k | 0 <= k < |tasks|
      ensures Placed(after, runId, tasks[k], valid)
      ensures forall r :: Durable(before, tasks[k], r) ==> Durable(after, tasks[k], r)
    {
      assert tasks[k] in tasks && tasks[k].taskId in IdsOf(tasks);
      assert Placed(before, runId, tasks[k], valid);
      assert RowRely(before.tasks, after.tasks, runId, tasks[k].taskId);
    }
  }

  ghost predicate FreshTasks(box: Inbox, tasks: seq<ReasoningTask>) {
    forall k :: 0 <= k < |tasks| ==> tasks[k].taskId !in box.tasks
  }

  lemma RegisteredArePlaced(s: System, runId: string, tasks: seq<ReasoningTask>, wait: int, now: int)
    requires Inv(s) && RegisterAccepted(s.box, runId, RequestsOf(tasks), wait)
    ensures AllPlaced(DoRegister(s.box, runId, RequestsOf(tasks), wait, now).box, runId, tasks, FreshTasks(s.box, tasks))
  {
    var box := DoRegister(s.box, runId, RequestsOf(tasks), wait, now).box;
    UpsertedArePlaced(s.box.tasks, box, runId, tasks, now + wait, now, FreshTasks(s.box, tasks));
  }

  lemma UpsertedArePlaced(before: Tasks, box: Inbox, runId: string, tasks: seq<ReasoningTask>, deadline: int, now: int, valid: bool)
    requires UniqueIds(RequestsOf(tasks)) && box.tasks == UpsertAll(before, RequestsOf(tasks), runId, deadline, now)
    requires valid ==> forall k :: 0 <= k < |tasks| ==> tasks[k].taskId !in before
    ensures AllPlaced(box, runId, tasks, valid)
  {
    var list := RequestsOf(tasks);
    UpsertAllRows(before, list, runId, deadline, now);
    forall k | 0 <= k < |tasks|
      ensures Placed(box, runId, tasks[k], valid)
    {
      assert Reset(before, box.tasks, list[k], runId, deadline, now);
      ResetIsPlaced(before, box, runId, tasks[k], deadline, now, valid);
    }
  }

  lemma ResetIsPlaced(before: Tasks, box: Inbox, runId: string, task: ReasoningTask, deadline: int, now: int, valid: bool)
    requires Reset(before, box.tasks, RequestOf(task), runId, deadline, now)
    requires valid ==> task.taskId !in before
    ensures Placed(box, runId, task, valid)
  {
  }

  // ----------------------------------------------------------------- whose results they are

  const FALLBACK: string := "fallback-router"

  /** The transaction hands in this very result. */
  ghost predicate Settles(e: Event, id: string, result: TaskResult, route: string) {
    || (e.op.Submit? && e.op.taskId == id && result == TaskResult(id, e.op.claims) && route == "mcp")
    || (e.op.CompleteFallback? && e.op.taskId == id && result == e.op.result && route == e.op.route)
  }

  ghost predicate CompletedWith(tasks: Tasks, id: string, result: TaskResult, route: string) {
    id in tasks && tasks[id].status == Completed && tasks[id].result == Some(result) && tasks[id].route == route
  }

  /** A completed row was completed before with the same result, or by this transaction. */
  lemma EventSettles(s: System, e: Event, id: string, result: TaskResult, route: string)
    requires Inv(s) && Enabled(s, e) && CompletedWith(Step(s, e).box.tasks, id, result, route)
    ensures CompletedWith(s.box.tasks, id, result, route) || Settles(e, id, result, route)
  {
    EventFacts(s, e, id);
    if id in s.box.tasks { assert RowOk(s, id, s.box.tasks[id]); }
    if e.op.Register? { RegisterSettlesNothing(s, e, id); }
    else if e.op.RetireRuns? { RetireSettlesNothing(s, e, id); }
  }

  lemma RegisterSettlesNothing(s: System, e: Event, id: string)
    requires Inv(s) && Enabled(s, e) && e.op.Register? && id in Step(s, e).box.tasks && Step(s, e).box.tasks[id].status == Completed
    ensures id in s.box.tasks && s.box.tasks[id].status == Completed
  {
    var Register(requestId, list, wait) := e.op;
    if UniqueIds(list) { UpsertCompletesNothing(s.box.tasks, list, requestId, e.now + wait, e.now, id); }
  }

  lemma UpsertCompletesNothing(tasks: Tasks, list: seq<TaskRequest>, requestId: string, deadline: int, now: int, id: string)
    requires UniqueIds(list)
    ensures var after := UpsertAll(tasks, list, requestId, deadline, now);
            id in after && after[id].status == Completed ==> id in tasks && tasks[id].status == Completed
  {
    UpsertAllRows(tasks, list, requestId, deadline, now);
    if !Unlisted(list, id) {
      var k :| 0 <= k < |list| && list[k].taskId == id;
      assert Reset(tasks, UpsertAll(tasks, list, requestId, deadline, now), list[k], requestId, deadline, now);
    }
  }

  lemma RetireSettlesNothing(s: System, e: Event, id: string)
    requires Enabled(s, e) && e.op.RetireRuns? && id in Step(s, e).box.tasks
    ensures id in s.box.tasks && s.box.tasks[id] == Step(s, e).box.tasks[id]
  {
    var sorted := SortedIds(e.op.ids);
    SortedIdsSpec(e.op.ids);
    RetireListReport(s.box, sorted, if e.op.before > e.now then e.now else e.op.before, e.now, e.op.dryRun);
  }

  /**
   Where a run started: the inbox then, and the first turn of the environment that it saw. Where it
   resumed after its wait: at which turn, and whether the whole waiting time had passed.
   */
  datatype Watch = Watch(start: Inbox, since: nat, resumed: nat, patient: bool)

  /**
   The result was there before the run, or another party handed it in, or it is the run's own fallback
   answer, asked for only after the whole waiting time.
   */
  ghost predicate Origin(env: Environment, w: Watch, turn: nat, task: ReasoningTask, result: TaskResult, route: string) {
    || CompletedWith(w.start.tasks, task.taskId, result, route)
    || (exists n, k :: w.since <= n < turn && 0 <= k < |env.events(n)| && Settles(env.events(n)[k], task.taskId, result, route))
    || (route == FALLBACK && w.patient && exists asked :: w.resumed <= asked < turn && result == env.fallback(asked, task))
  }

  ghost predicate Explained(env: Environment, w: Watch, turn: nat, box: Inbox, tasks: seq<ReasoningTask>) {
    forall k, result, route :: 0 <= k < |tasks| && CompletedWith(box.tasks, tasks[k].taskId, result, route) ==>
      Origin(env, w, turn, tasks[k], result, route)
  }

  lemma OriginLater(env: Environment, w: Watch, turn: nat, later: nat, task: ReasoningTask, result: TaskResult, route: string)
    requires Origin(env, w, turn, task, result, route) && turn <= later
    ensures Origin(env, w, later, task, result, route)
  {
  }

  lemma ExplainedLater(env: Environment, w: Watch, turn: nat, later: nat, box: Inbox, tasks: seq<ReasoningTask>)
    requires Explained(env, w, turn, box, tasks) && turn <= later
    ensures Explained(env, w, later, box, tasks)
  {
    forall k, result, route | 0 <= k < |tasks| && CompletedWith(box.tasks, tasks[k].taskId, result, route)
      ensures Origin(env, w, later, tasks[k], result, route)
    {
      OriginLater(env, w, turn, later, tasks[k], result, route);
    }
  }

  /** What is explained while waiting, when the run has asked nobody yet, is explained afterwards. */
  lemma ExplainedOnResuming(env: Environment, start: Inbox, since: nat, turn: nat, patient: bool, box: Inbox, tasks: seq<ReasoningTask>)
    requires Explained(env, Watch(start, since, turn, false), turn, box, tasks)
    ensures Explained(env, Watch(start, since, turn, patient), turn, box, tasks)
  {
    forall k, result, route | 0 <= k < |tasks| && CompletedWith(box.tasks, tasks[k].taskId, result, route)
      ensures Origin(env, Watch(start, since, turn, patient), turn, tasks[k], result, route)
    {
      assert Origin(env, Watch(start, since, turn, false), turn, tasks[k], result, route);
    }
  }

  lemma EventExplained(env: Environment, w: Watch, turn: nat, k: nat, s: System, tasks: seq<ReasoningTask>)
    requires k < |env.events(turn)| && Inv(s) && Enabled(s, env.events(turn)[k]) && w.since <= turn
    requires Explained(env, w, turn + 1, s.box, tasks)
    ensures Explained(env, w, turn + 1, Step(s, env.events(turn)[k]).box, tasks)
  {
    var e := env.events(turn)[k];
    forall j, result, route | 0 <= j < |tasks| && CompletedWith(Step(s, e).box.tasks, tasks[j].taskId, result, route)
      ensures Origin(env, w, turn + 1, tasks[j], result, route)
    {
      EventSettles(s, e, tasks[j].taskId, result, route);
    }
  }

  lemma RegisterExplained(env: Environment, w: Watch, turn: nat, s: System, e: Event, tasks: seq<ReasoningTask>)
    requires Inv(s) && Enabled(s, e) && e.op.Register? && w.start == s.box
    ensures Explained(env, w, turn, Step(s, e).box, tasks)
  {
    forall j, result, route | 0 <= j < |tasks| && CompletedWith(Step(s, e).box.tasks, tasks[j].taskId, result, route)
      ensures Origin(env, w, turn, tasks[j], result, route)
    {
      EventSettles(s, e, tasks[j].taskId, result, route);
    }
  }

  lemma FallbackExplained(env: Environment, w: Watch, turn: nat, s: System, e: Event, tasks: seq<ReasoningTask>, k: nat, asked: nat)
    requires Inv(s) && Enabled(s, e) && Explained(env, w, turn, s.box, tasks) && DistinctTasks(tasks) && k < |tasks|
    requires w.patient && w.resumed <= asked < turn && e.op == CompleteFallback(tasks[k].taskId, env.fallback(asked, tasks[k]), FALLBACK)
    ensures Explained(env, w, turn, Step(s, e).box, tasks)
  {
    forall j, result, route | 0 <= j < |tasks| && CompletedWith(Step(s, e).box.tasks, tasks[j].taskId, result, route)
      ensures Origin(env, w, turn, tasks[j], result, route)
    {
      EventSettles(s, e, tasks[j].taskId, result, route);
      if j != k { assert tasks[j].taskId != tasks[k].taskId; }
    }
  }

  // ------------------------------------------------------------------------- the wait

  /** A turn of the environment: of its events, those that are possible and foreign to the run. */
  ghost function TurnAfter(s: System, es: seq<Event>, runId: string, ids: set<string>): System
    decreases |es|
  {
    if es == [] then s
    else TurnAfter(if Enabled(s, es[0]) && Foreign(es[0].op, runId, ids) then Step(s, es[0]) else s, es[1..], runId, ids)
  }

  /** What a turn makes of the inbox. */
  type Turns = (System, nat) -> System

  ghost function TurnsOf(env: Environment, runId: string, ids: set<string>): Turns {
    (s: System, n: nat) => TurnAfter(s, env.events(n), runId, ids)
  }

  ghost function AfterTurns(next: Turns, s: System, lo: nat, hi: nat): System
    requires lo <= hi
  {
    if lo == hi then s else next(AfterTurns(next, s, lo, hi - 1), hi - 1)
  }

  /** When turn n comes, if the wait is still on: a poll, or what is left of the wait, after the one before. */
  ghost function Moment(env: Environment, poll: nat, start: int, deadline: int, lo: nat, n: nat): int
    requires lo <= n
  {
    if n == lo then start
    else
      var before := Moment(env, poll, start, deadline, lo, n - 1);
      before + (if poll < deadline - before then poll else deadline - before) + env.tick(n)
  }

  /** Turns before the deadline are no further apart than a poll and what the clock adds. */
  lemma PollsAreClose(env: Environment, poll: nat, start: int, deadline: int, lo: nat, n: nat)
    requires lo <= n && poll > 0 && Moment(env, poll, start, deadline, lo, n) < deadline
    ensures var now := Moment(env, poll, start, deadline, lo, n);
            now < Moment(env, poll, start, deadline, lo, n + 1) <= now + poll + env.tick(n + 1)
  {
  }

  ghost predicate AllDone(box: Inbox, runId: string) {
    && (exists id :: id in box.tasks && box.tasks[id].requestId == runId)
    && forall id :: id in box.tasks && box.tasks[id].requestId == runId ==> box.tasks[id].status == Completed
  }

  ghost predicate OnTime(env: Environment, poll: nat, start: int, deadline: int, lo: nat, n: nat)
    requires lo <= n
  {
    Moment(env, poll, start, deadline, lo, n) < deadline
  }

  ghost predicate InTime(env: Environment, poll: nat, start: int, deadline: int, lo: nat, hi: nat) {
    forall n: nat :: lo <= n < hi ==> OnTime(env, poll, start, deadline, lo, n)
  }

  ghost predicate NotDoneBefore(next: Turns, runId: string, s: System, lo: nat, hi: nat) {
    forall n: nat :: lo < n < hi ==> !AllDone(AfterTurns(next, s, lo, n).box, runId)
  }

  /**
   A wait from turn `lo` to `hi`: each of these turns came before the deadline, and no earlier one left the
   run done; it ends at the deadline or later, or as soon as every row of the run is completed.
   */
  ghost predicate Waited(env: Environment, next: Turns, poll: nat, wait: nat, runId: string, tasks: seq<ReasoningTask>,
                         s: System, lo: nat, start: int, hi: nat, end: int) {
    && lo <= hi
    && InTime(env, poll, start, start + wait, lo, hi) && NotDoneBefore(next, runId, s, lo, hi)
    && (tasks == [] ==> hi == lo && end == start)
    && (tasks != [] ==>
          || (end >= start + wait && end == Moment(env, poll, start, start + wait, lo, hi))
          || (lo < hi && AllDone(AfterTurns(next, s, lo, hi).box, runId)
              && end == Moment(env, poll, start, start + wait, lo, hi - 1)))
  }

  /** One more turn of a wait that is on. */
  lemma OneMoreInTime(env: Environment, poll: nat, start: int, deadline: int, lo: nat, turn: nat)
    requires lo <= turn && OnTime(env, poll, start, deadline, lo, turn) && InTime(env, poll, start, deadline, lo, turn)
    ensures InTime(env, poll, start, deadline, lo, turn + 1)
  {
    forall n: nat | lo <= n < turn + 1 ensures OnTime(env, poll, start, deadline, lo, n) {
      if n < turn { assert OnTime(env, poll, start, deadline, lo, n); }
    }
  }

  /** Where a wait began. */
  datatype Began = Began(next: Turns, sys: System, turn: nat, mono: int)

  /** The wait is on at this turn. */
  ghost predicate Waiting(env: Environment, poll: nat, deadline: int, runId: string, began: Began, now: System, turn: nat, mono: int) {
    && began.turn <= turn
    && now == AfterTurns(began.next, began.sys, began.turn, turn)
    && mono == Moment(env, poll, began.mono, deadline, began.turn, turn)
    && InTime(env, poll, began.mono, deadline, began.turn, turn)
    && NotDoneBefore(began.next, runId, began.sys, began.turn, turn + 1)
  }

  /** The turn before this one has just been had; no earlier one left the run done. */
  ghost predicate Seen(env: Environment, poll: nat, deadline: int, runId: string, began: Began, now: System, turn: nat, mono: int) {
    && began.turn < turn
    && now == AfterTurns(began.next, began.sys, began.turn, turn)
    && mono == Moment(env, poll, began.mono, deadline, began.turn, turn - 1)
    && InTime(env, poll, began.mono, deadline, began.turn, turn)
    && NotDoneBefore(began.next, runId, began.sys, began.turn, turn)
  }

  lemma TurnIsSeen(env: Environment, poll: nat, deadline: int, runId: string, began: Began, before: System, now: System, turn: nat, mono: int)
    requires Waiting(env, poll, deadline, runId, began, before, turn, mono) && mono < deadline && now == began.next(before, turn)
    ensures Seen(env, poll, deadline, runId, began, now, turn + 1, mono)
  {
    assert OnTime(env, poll, began.mono, deadline, began.turn, turn);
    OneMoreInTime(env, poll, began.mono, deadline, began.turn, turn);
    assert now == AfterTurns(began.next, began.sys, began.turn, turn + 1);
  }

  lemma WaitsOn(env: Environment, poll: nat, deadline: int, runId: string, began: Began, now: System, turn: nat, mono: int, later: int)
    requires Seen(env, poll, deadline, runId, began, now, turn, mono) && !AllDone(now.box, runId)
    requires later == mono + (if poll < deadline - mono then poll else deadline - mono) + env.tick(turn)
    ensures Waiting(env, poll, deadline, runId, began, now, turn, later)
  {
    NotDoneYet(began.next, runId, began.sys, began.turn, turn);
  }

  lemma NotDoneYet(next: Turns, runId: string, s: System, lo: nat, turn: nat)
    requires lo < turn && NotDoneBefore(next, runId, s, lo, turn) && !AllDone(AfterTurns(next, s, lo, turn).box, runId)
    ensures NotDoneBefore(next, runId, s, lo, turn + 1)
  {
    forall n: nat | lo < n < turn + 1 ensures !AllDone(AfterTurns(next, s, lo, n).box, runId) {
      if n < turn { assert !AllDone(AfterTurns(next, s, lo, n).box, runId); }
    }
  }

  /** A wait is over at the deadline, at once without tasks, or with the turn that left the run done. */
  lemma WaitIsOver(env: Environment, poll: nat, wait: nat, runId: string, tasks: seq<ReasoningTask>,
                   began: Began, now: System, turn: nat, mono: int, done: bool)
    requires tasks == [] ==> turn == began.turn && mono == began.mono && !done
    requires !done ==> Waiting(env, poll, began.mono + wait, runId, began, now, turn, mono)
    requires !done && tasks != [] ==> mono >= began.mono + wait
    requires done ==> AllDone(now.box, runId) && Seen(env, poll, began.mono + wait, runId, began, now, turn, mono)
    ensures began.turn <= turn && now == AfterTurns(began.next, began.sys, began.turn, turn)
    ensures Waited(env, began.next, poll, wait, runId, tasks, began.sys, began.turn, began.mono, turn, mono)
  {
  }

  lemma {:induction false} TurnKeeps(s: System, es: seq<Event>, runId: string, ids: set<string>)
    requires Inv(s)
    ensures Inv(TurnAfter(s, es, runId, ids)) && Rely(s.box, TurnAfter(s, es, runId, ids).box, runId, ids)
    decreases |es|
  {
    if es != [] {
      var t := if Enabled(s, es[0]) && Foreign(es[0].op, runId, ids) then Step(s, es[0]) else s;
      if Enabled(s, es[0]) && Foreign(es[0].op, runId, ids) { EventForeign(s, es[0], runId, ids); }
      TurnKeeps(t, es[1..], runId, ids);
      RelyTwice(s.box, t.box, TurnAfter(s, es, runId, ids).box, runId, ids);
    }
  }

  /** A fitting result submitted in a turn under a live token is the stored one when the turn is over. */
  lemma {:induction false} SubmissionCounts(s: System, es: seq<Event>, runId: string, ids: set<string>, j: nat)
    requires Inv(s) && j < |es| && es[j].op.Submit? && es[j].op.taskId in ids
    requires var mid := TurnAfter(s, es[..j], runId, ids);
             && Submits(mid, es[j]) && mid.box.tasks[es[j].op.taskId].requestId == runId
    ensures CompletedWith(TurnAfter(s, es, runId, ids).box.tasks, es[j].op.taskId, TaskResult(es[j].op.taskId, es[j].op.claims), "mcp")
    decreases |es|
  {
    if j == 0 {
      SubmissionStores(s, es[0]);
      StepKeepsInv(s, es[0]);
      TurnKeeps(Step(s, es[0]), es[1..], runId, ids);
      assert RowRely(Step(s, es[0]).box.tasks, TurnAfter(s, es, runId, ids).box.tasks, runId, es[0].op.taskId);
    } else {
      var t := if Enabled(s, es[0]) && Foreign(es[0].op, runId, ids) then Step(s, es[0]) else s;
      if Enabled(s, es[0]) && Foreign(es[0].op, runId, ids) { EventForeign(s, es[0], runId, ids); }
      assert es[..j][0] == es[0] && es[..j][1..] == es[1..][..j - 1] && es[1..][j - 1] == es[j];
      SubmissionCounts(t, es[1..], runId, ids, j - 1);
    }
  }

  /** The event hands in a fitting result under the task's live token. */
  ghost predicate Submits(s: System, e: Event) {
    && e.op.Submit? && e.op.taskId != "" && e.op.token != "" && e.now >= s.clock
    && Live(s.box, e.op.taskId, e.op.token, e.now)
    && Fitting(s.box.tasks[e.op.taskId].request, TaskResult(e.op.taskId, e.op.claims))
  }

  lemma SubmissionStores(s: System, e: Event)
    requires Inv(s) && Submits(s, e)
    ensures Enabled(s, e) && CompletedWith(Step(s, e).box.tasks, e.op.taskId, TaskResult(e.op.taskId, e.op.claims), "mcp")
    ensures Step(s, e).box.tasks[e.op.taskId].requestId == s.box.tasks[e.op.taskId].requestId
  {
    assert RowOk(s, e.op.taskId, s.box.tasks[e.op.taskId]);
    SubmitOutcome(s, e);
  }

  /** Every turn keeps what foreign transactions keep. */
  ghost predicate Keeping(next: Turns, runId: string, ids: set<string>) {
    forall s, n :: Inv(s) ==> Inv(next(s, n)) && Rely(s.box, next(s, n).box, runId, ids)
  }

  lemma TurnsAreKeeping(env: Environment, runId: string, ids: set<string>)
    ensures Keeping(TurnsOf(env, runId, ids), runId, ids)
  {
    forall s, n | Inv(s)
      ensures Inv(TurnsOf(env, runId, ids)(s, n)) && Rely(s.box, TurnsOf(env, runId, ids)(s, n).box, runId, ids)
    {
      TurnKeeps(s, env.events(n), runId, ids);
    }
  }

  lemma {:induction false} TurnsKeep(next: Turns, runId: string, ids: set<string>, s: System, lo: nat, mid: nat, hi: nat)
    requires Inv(s) && lo <= mid <= hi && Keeping(next, runId, ids)
    ensures Inv(AfterTurns(next, s, lo, mid)) && Inv(AfterTurns(next, s, lo, hi))
    ensures Rely(AfterTurns(next, s, lo, mid).box, AfterTurns(next, s, lo, hi).box, runId, ids)
    decreases hi - lo
  {
    if lo < hi {
      var before, after := AfterTurns(next, s, lo, hi - 1), AfterTurns(next, s, lo, hi);
      TurnsKeep(next, runId, ids, s, lo, if mid < hi then mid else hi - 1, hi - 1);
      assert after == next(before, hi - 1) && Inv(after) && Rely(before.box, after.box, runId, ids);
      if mid < hi { RelyTwice(AfterTurns(next, s, lo, mid).box, before.box, after.box, runId, ids); }
    }
  }

  /** Every task of the run has its result. */
  ghost predicate AllSettled(box: Inbox, tasks: seq<ReasoningTask>) {
    forall k :: 0 <= k < |tasks| ==> tasks[k].taskId in box.tasks && box.tasks[tasks[k].taskId].status == Completed
  }

  lemma SettledStays(before: Inbox, after: Inbox, runId: string, tasks: seq<ReasoningTask>, valid: bool)
    requires AllSettled(before, tasks) && AllPlaced(before, runId, tasks, valid) && Rely(before, after, runId, IdsOf(tasks))
    ensures AllSettled(after, tasks)
  {
    forall k | 0 <= k < |tasks|
      ensures tasks[k].taskId in after.tasks && after.tasks[tasks[k].taskId].status == Completed
    {
      assert tasks[k] in tasks && tasks[k].taskId in IdsOf(tasks) && Placed(before, runId, tasks[k], valid);
      assert RowRely(before.tasks, after.tasks, runId, tasks[k].taskId);
    }
  }

  lemma DoneIsSettled(box: Inbox, runId: string, tasks: seq<ReasoningTask>, valid: bool)
    requires AllDone(box, runId) && AllPlaced(box, runId, tasks, valid)
    ensures AllSettled(box, tasks)
  {
    forall k | 0 <= k < |tasks|
      ensures tasks[k].taskId in box.tasks && box.tasks[tasks[k].taskId].status == Completed
    {
      assert Placed(box, runId, tasks[k], valid);
    }
  }

  /** A result stored at some turn is the result in the end, with its route. */
  lemma WinnerLasts(early: Inbox, late: Inbox, runId: string, tasks: seq<ReasoningTask>, valid: bool, k: nat,
                    result: TaskResult, route: string)
    requires k < |tasks| && AllPlaced(early, runId, tasks, valid) && Rely(early, late, runId, IdsOf(tasks))
    requires CompletedWith(early.tasks, tasks[k].taskId, result, route)
    ensures CompletedWith(late.tasks, tasks[k].taskId, result, route)
  {
    assert tasks[k] in tasks && tasks[k].taskId in IdsOf(tasks) && Placed(early, runId, tasks[k], valid);
    assert RowRely(early.tasks, late.tasks, runId, tasks[k].taskId);
  }

  /** What these rows have stored for a task is what the run uses for it. */
  ghost predicate Decides(early: Inbox, late: Inbox, tasks: seq<ReasoningTask>, results: seq<TaskResult>)
    requires |results| == |tasks|
  {
    forall k, result, route :: 0 <= k < |tasks| && CompletedWith(early.tasks, tasks[k].taskId, result, route) ==>
      results[k] == result && CompletedWith(late.tasks, tasks[k].taskId, result, route)
  }

  /** Whatever a turn of the wait had stored is what the run uses. */
  ghost predicate TurnsDecide(next: Turns, s: System, lo: nat, hi: nat, late: Inbox, tasks: seq<ReasoningTask>, results: seq<TaskResult>) {
    |results| == |tasks| && forall n: nat :: lo <= n <= hi ==> Decides(AfterTurns(next, s, lo, n).box, late, tasks, results)
  }

  lemma DoesDecide(early: Inbox, late: Inbox, runId: string, tasks: seq<ReasoningTask>, results: seq<TaskResult>, valid: bool)
    requires |results| == |tasks| && AllPlaced(early, runId, tasks, valid) && Rely(early, late, runId, IdsOf(tasks))
    requires forall k :: 0 <= k < |tasks| ==> Durable(late, tasks[k], results[k])
    ensures Decides(early, late, tasks, results)
  {
    forall k, result, route | 0 <= k < |tasks| && CompletedWith(early.tasks, tasks[k].taskId, result, route)
      ensures results[k] == result && CompletedWith(late.tasks, tasks[k].taskId, result, route)
    {
      WinnerLasts(early, late, runId, tasks, valid, k, result, route);
      assert Durable(late, tasks[k], results[k]);
    }
  }

  lemma TurnsDoDecide(next: Turns, runId: string, s: System, lo: nat, hi: nat, late: Inbox,
                      tasks: seq<ReasoningTask>, results: seq<TaskResult>, valid: bool)
    requires Inv(s) && lo <= hi && |results| == |tasks| && AllPlaced(s.box, runId, tasks, valid) && Keeping(next, runId, IdsOf(tasks))
    requires Rely(AfterTurns(next, s, lo, hi).box, late, runId, IdsOf(tasks))
    requires forall k :: 0 <= k < |tasks| ==> Durable(late, tasks[k], results[k])
    ensures TurnsDecide(next, s, lo, hi, late, tasks, results)
  {
    var ids := IdsOf(tasks);
    forall n: nat | lo <= n <= hi
      ensures Decides(AfterTurns(next, s, lo, n).box, late, tasks, results)
    {
      var early, resumed := AfterTurns(next, s, lo, n).box, AfterTurns(next, s, lo, hi).box;
      TurnsKeep(next, runId, ids, s, lo, lo, n);
      PlacedStays(s.box, early, runId, tasks, valid);
      TurnsKeep(next, runId, ids, s, lo, n, hi);
      RelyTwice(early, resumed, late, runId, ids);
      DoesDecide(early, late, runId, tasks, results, valid);
    }
  }

  // ------------------------------------------------------------------ the reasoner

  datatype ReasonOutcome =
    | RegistrationRefused | FallbackInvalid | Reasoned(assembly: Assembly)

  /** Outside choices: the turns of other parties, their events, fallback answers and the passing of time. */
  datatype Environment = Environment(
    events: nat -> seq<Event>, fallback: (nat, ReasoningTask) -> TaskResult, tick: nat -> nat)

  class MCPFirstDreamReasoner {
    const inbox: DreamReasonTaskInbox
    const env: Environment
    const lang: Language
    const wait: nat
    const poll: nat
    var turn: nat
    var mono: int

    constructor (inbox: DreamReasonTaskInbox, env: Environment, lang: Language, wait: nat, poll: nat)
      requires poll > 0
      ensures this.inbox == inbox && this.env == env && this.lang == lang && this.wait == wait && this.poll == poll
    {
      this.inbox, this.env, this.lang, this.wait, this.poll := inbox, env, lang, wait, poll;
      turn, mono := 0, 0;
    }

    /** Other parties act: every scheduled event that is possible and foreign to this run takes place. */
    method Interfere(runId: string, ids: set<string>, ghost tasks: seq<ReasoningTask>, ghost w: Watch)
      requires Inv(inbox.Sys()) && w.since <= turn && Explained(env, w, turn, inbox.Sys().box, tasks)
      modifies this`turn, inbox
      ensures Inv(inbox.Sys()) && Rely(old(inbox.Sys().box), inbox.Sys().box, runId, ids)
      ensures inbox.clock >= old(inbox.clock) && turn == old(turn) + 1
      ensures Explained(env, w, turn, inbox.Sys().box, tasks)
      ensures inbox.Sys() == TurnAfter(old(inbox.Sys()), env.events(old(turn)), runId, ids)
    {
      var events := env.events(turn);
      ghost var now := turn;
      turn := turn + 1;
      ExplainedLater(env, w, now, turn, inbox.Sys().box, tasks);
      var k := 0;
      while k < |events|
        invariant 0 <= k <= |events| && Inv(inbox.Sys())
        invariant Rely(old(inbox.Sys().box), inbox.Sys().box, runId, ids) && inbox.clock >= old(inbox.clock)
        invariant turn == now + 1 && Explained(env, w, turn, inbox.Sys().box, tasks)
        invariant TurnAfter(old(inbox.Sys()), events, runId, ids) == TurnAfter(inbox.Sys(), events[k..], runId, ids)
      {
        assert events[k..][0] == events[k] && events[k..][1..] == events[k + 1..];
        var s := inbox.Sys();
        if Enabled(s, events[k]) && Foreign(events[k].op, runId, ids) {
          var reply := inbox.Transact(events[k]);
          EventForeign(s, events[k], runId, ids);
          EventExplained(env, w, now, k, s, tasks);
          RelyTwice(old(inbox.Sys().box), s.box, inbox.Sys().box, runId, ids);
        }
        k := k + 1;
      }
    }

    /** Sleeps until the next poll or the deadline, and as much longer as the environment likes. */
    method Sleep(runId: string, deadline: int, ghost began: Began)
      requires poll > 0 && mono < deadline && Seen(env, poll, deadline, runId, began, inbox.Sys(), turn, mono)
      requires !AllDone(inbox.Sys().box, runId)
      modifies this`mono
      ensures Waiting(env, poll, deadline, runId, began, inbox.Sys(), turn, mono) && mono > old(mono)
    {
      ghost var s, now := inbox.Sys(), mono;
      var remaining := deadline - mono;
      var d := if poll < remaining then poll else remaining;
      mono := mono + d + env.tick(turn);
      WaitsOn(env, poll, deadline, runId, began, s, turn, now, mono);
    }

    method AllCompleted(runId: string) returns (all: bool)
      ensures all <==> AllDone(inbox.Sys().box, runId)
    {
      var rows := set id | id in inbox.tasks && inbox.tasks[id].requestId == runId;
      all := rows != {} && forall id :: id in rows ==> inbox.tasks[id].status == Completed;
      if id :| id in inbox.tasks && inbox.tasks[id].requestId == runId { assert id in rows; }
    }

    /** Whether every row of the run is completed after another turn. */
    method Look(runId: string, tasks: seq<ReasoningTask>, ghost valid: bool, ghost w: Watch, ghost next: Turns) returns (done: bool)
      requires Inv(inbox.Sys()) && AllPlaced(inbox.Sys().box, runId, tasks, valid) && next == TurnsOf(env, runId, IdsOf(tasks))
      requires w.since <= turn && Explained(env, w, turn, inbox.Sys().box, tasks)
      modifies this`turn, inbox
      ensures Inv(inbox.Sys()) && AllPlaced(inbox.Sys().box, runId, tasks, valid)
      ensures turn == old(turn) + 1 && Explained(env, w, turn, inbox.Sys().box, tasks)
      ensures inbox.Sys() == next(old(inbox.Sys()), old(turn))
      ensures done <==> AllDone(inbox.Sys().box, runId)
    {
      ghost var before := inbox.Sys();
      Interfere(runId, IdsOf(tasks), tasks, w);
      PlacedStays(before.box, inbox.Sys().box, runId, tasks, valid);
      done := AllCompleted(runId);
    }

    /** One turn of a wait that is on: it ends the wait, or the next poll follows. */
    method Poll(runId: string, tasks: seq<ReasoningTask>, deadline: int, ghost valid: bool, ghost w: Watch, ghost began: Began)
      returns (done: bool)
      requires Inv(inbox.Sys()) && AllPlaced(inbox.Sys().box, runId, tasks, valid) && poll > 0 && mono < deadline
      requires w.since <= turn && Explained(env, w, turn, inbox.Sys().box, tasks)
      requires began.next == TurnsOf(env, runId, IdsOf(tasks)) && Waiting(env, poll, deadline, runId, began, inbox.Sys(), turn, mono)
      modifies this`turn, this`mono, inbox
      ensures Inv(inbox.Sys()) && AllPlaced(inbox.Sys().box, runId, tasks, valid)
      ensures turn == old(turn) + 1 && Explained(env, w, turn, inbox.Sys().box, tasks)
      ensures !done ==> Waiting(env, poll, deadline, runId, began, inbox.Sys(), turn, mono) && mono > old(mono)
      ensures done ==> AllDone(inbox.Sys().box, runId) && Seen(env, poll, deadline, runId, began, inbox.Sys(), turn, mono)
    {
      ghost var before, now := inbox.Sys(), turn;
      done := Look(runId, tasks, valid, w, began.next);
      TurnIsSeen(env, poll, deadline, runId, began, before, inbox.Sys(), now, mono);
      if !done { Sleep(runId, deadline, began); }
    }

    /**
     Gives other parties the whole waiting time, a turn every poll, or less once every row of the run
     is completed.
     */
    method Wait(runId: string, tasks: seq<ReasoningTask>, ghost valid: bool, ghost w: Watch, ghost next: Turns)
      requires Inv(inbox.Sys()) && AllPlaced(inbox.Sys().box, runId, tasks, valid) && poll > 0
      requires w.since <= turn && Explained(env, w, turn, inbox.Sys().box, tasks) && next == TurnsOf(env, runId, IdsOf(tasks))
      modifies this`turn, this`mono, inbox
      ensures Inv(inbox.Sys()) && AllPlaced(inbox.Sys().box, runId, tasks, valid)
      ensures turn >= old(turn) && Explained(env, w, turn, inbox.Sys().box, tasks)
      ensures inbox.Sys() == AfterTurns(next, old(inbox.Sys()), old(turn), turn)
      ensures Waited(env, next, poll, wait, runId, tasks, old(inbox.Sys()), old(turn), old(mono), turn, mono)
    {
      ghost var began := Began(next, inbox.Sys(), turn, mono);
      var deadline := mono + wait;
      var done := false;
      while tasks != [] && !done && mono < deadline
        invariant Inv(inbox.Sys()) && AllPlaced(inbox.Sys().box, runId, tasks, valid)
        invariant turn >= began.turn && Explained(env, w, turn, inbox.Sys().box, tasks)
        invariant tasks == [] ==> turn == began.turn && mono == began.mono && !done
        invariant !done ==> Waiting(env, poll, deadline, runId, began, inbox.Sys(), turn, mono)
        invariant done ==> AllDone(inbox.Sys().box, runId) && Seen(env, poll, deadline, runId, began, inbox.Sys(), turn, mono)
        decreases !done, deadline - mono
      {
        done := Poll(runId, tasks, deadline, valid, w, began);
      }
      WaitIsOver(env, poll, wait, runId, tasks, began, inbox.Sys(), turn, mono, done);
    }

    /** One task's durable result: the stored winner, or a fallback that may still lose to one. */
    method ResolveTask(runId: string, tasks: seq<ReasoningTask>, k: nat, ghost valid: bool, ghost w: Watch)
      returns (outcome: Option<TaskResult>, ghost asked: nat)
      requires k < |tasks| && DistinctTasks(tasks) && tasks[k].taskId != ""
      requires Inv(inbox.Sys()) && AllPlaced(inbox.Sys().box, runId, tasks, valid)
      requires w.since <= turn && w.resumed <= turn && Explained(env, w, turn, inbox.Sys().box, tasks)
      requires w.patient || AllSettled(inbox.Sys().box, tasks)
      modifies this`turn, inbox
      ensures Inv(inbox.Sys()) && AllPlaced(inbox.Sys().box, runId, tasks, valid)
      ensures Rely(old(inbox.Sys().box), inbox.Sys().box, runId, IdsOf(tasks))
      ensures turn >= old(turn) && Explained(env, w, turn, inbox.Sys().box, tasks)
      ensures outcome.Some? ==> Durable(inbox.Sys().box, tasks[k], outcome.value)
      ensures outcome.Some? ==> Origin(env, w, turn, tasks[k], outcome.value, inbox.tasks[tasks[k].taskId].route)
      ensures outcome.None? ==> w.patient && old(turn) <= asked < turn && !ValidFor(RequestOf(tasks[k]), env.fallback(asked, tasks[k]))
    {
      ghost var start := inbox.Sys();
      var task := tasks[k];
      asked := turn;
      Interfere(runId, IdsOf(tasks), tasks, w);
      PlacedStays(start.box, inbox.Sys().box, runId, tasks, valid);
      assert Placed(inbox.Sys().box, runId, task, valid);
      if AllSettled(start.box, tasks) { SettledStays(start.box, inbox.Sys().box, runId, tasks, valid); }
      assert RowOk(inbox.Sys(), task.taskId, inbox.Sys().box.tasks[task.taskId]);
      var row := inbox.tasks[task.taskId];
      if row.status == Completed && row.result.Some? {
        assert CompletedWith(inbox.Sys().box.tasks, tasks[k].taskId, row.result.value, row.route);
        return row.result, asked;
      }
      asked := turn;
      var answer := env.fallback(turn, task);
      ghost var mid := inbox.Sys();
      Interfere(runId, IdsOf(tasks), tasks, w);
      PlacedStays(mid.box, inbox.Sys().box, runId, tasks, valid);
      RelyTwice(start.box, mid.box, inbox.Sys().box, runId, IdsOf(tasks));
      outcome := Complete(runId, tasks, k, answer, start, valid, w, asked);
    }

    method Complete(runId: string, tasks: seq<ReasoningTask>, k: nat, answer: TaskResult,
                    ghost start: System, ghost valid: bool, ghost w: Watch, ghost asked: nat) returns (outcome: Option<TaskResult>)
      requires k < |tasks| && DistinctTasks(tasks) && tasks[k].taskId != ""
      requires Inv(inbox.Sys()) && AllPlaced(inbox.Sys().box, runId, tasks, valid)
      requires Rely(start.box, inbox.Sys().box, runId, IdsOf(tasks))
      requires w.patient && w.resumed <= asked < turn && answer == env.fallback(asked, tasks[k]) && Explained(env, w, turn, inbox.Sys().box, tasks)
      modifies inbox
      ensures Inv(inbox.Sys()) && AllPlaced(inbox.Sys().box, runId, tasks, valid)
      ensures Rely(start.box, inbox.Sys().box, runId, IdsOf(tasks)) && Explained(env, w, turn, inbox.Sys().box, tasks)
      ensures outcome.Some? ==> Durable(inbox.Sys().box, tasks[k], outcome.value)
      ensures outcome.Some? ==> Origin(env, w, turn, tasks[k], outcome.value, inbox.tasks[tasks[k].taskId].route)
      ensures outcome.None? ==> !ValidFor(RequestOf(tasks[k]), answer)
    {
      ghost var before := inbox.Sys();
      var now := inbox.clock;
      ghost var e := Event(CompleteFallback(tasks[k].taskId, answer, FALLBACK), now);
      assert Placed(before.box, runId, tasks[k], valid);
      assert RowOk(before, tasks[k].taskId, before.box.tasks[tasks[k].taskId]);
      var reply := inbox.CompleteWithFallback(tasks[k].taskId, answer, FALLBACK, now);
      assert inbox.Sys() == Step(before, e);
      EventForeign(before, e, runId, IdsOf(tasks));
      FallbackExplained(env, w, turn, before, e, tasks, k, asked);
      PlacedStays(before.box, inbox.Sys().box, runId, tasks, valid);
      RelyTwice(start.box, before.box, inbox.Sys().box, runId, IdsOf(tasks));
      if reply.Result? {
        outcome := Some(reply.result);
        ghost var id := tasks[k].taskId;
        assert CompletedWith(inbox.Sys().box.tasks, id, reply.result, inbox.Sys().box.tasks[id].route);
      } else {
        outcome := None;
      }
    }

    /** Resolves every task in order; stops at the first invalid fallback answer. */
    method ResolveAll(runId: string, tasks: seq<ReasoningTask>, ghost valid: bool, ghost w: Watch)
      returns (results: Option<seq<TaskResult>>, ghost failed: nat, ghost asked: nat)
      requires Inv(inbox.Sys()) && AllPlaced(inbox.Sys().box, runId, tasks, valid)
      requires DistinctTasks(tasks) && forall k :: 0 <= k < |tasks| ==> tasks[k].taskId != ""
      requires w.since <= turn && w.resumed <= turn && Explained(env, w, turn, inbox.Sys().box, tasks)
      requires w.patient || AllSettled(inbox.Sys().box, tasks)
      modifies this`turn, inbox
      ensures Inv(inbox.Sys()) && AllPlaced(inbox.Sys().box, runId, tasks, valid)
      ensures turn >= old(turn) && Explained(env, w, turn, inbox.Sys().box, tasks)
      ensures Rely(old(inbox.Sys().box), inbox.Sys().box, runId, IdsOf(tasks))
      ensures results.Some? ==>
                |results.value| == |tasks| &&
                forall k :: 0 <= k < |tasks| ==> Durable(inbox.Sys().box, tasks[k], results.value[k])
      ensures results.None? ==>
                && failed < |tasks| && w.patient && old(turn) <= asked < turn
                && !ValidFor(RequestOf(tasks[failed]), env.fallback(asked, tasks[failed]))
    {
      ghost var start := inbox.Sys();
      var found: seq<TaskResult> := [];
      failed, asked := 0, 0;
      var k := 0;
      while k < |tasks|
        invariant 0 <= k <= |tasks| && |found| == k
        invariant Inv(inbox.Sys()) && AllPlaced(inbox.Sys().box, runId, tasks, valid)
        invariant turn >= old(turn) && Explained(env, w, turn, inbox.Sys().box, tasks)
        invariant Rely(start.box, inbox.Sys().box, runId, IdsOf(tasks)) && (w.patient || AllSettled(inbox.Sys().box, tasks))
        invariant forall j :: 0 <= j < k ==> Durable(inbox.Sys().box, tasks[j], found[j])
      {
        ghost var before := inbox.Sys();
        var outcome: Option<TaskResult>;
        outcome, asked := ResolveTask(runId, tasks, k, valid, w);
        PlacedStays(before.box, inbox.Sys().box, runId, tasks, valid);
        if AllSettled(before.box, tasks) { SettledStays(before.box, inbox.Sys().box, runId, tasks, valid); }
        RelyTwice(start.box, before.box, inbox.Sys().box, runId, IdsOf(tasks));
        if outcome.None? { return None, k, asked; }
        found := found + [outcome.value];
        k := k + 1;
      }
      return Some(found), failed, asked;
    }

    /**
     One dream run. A run that is registered waits for other parties until its time is up or every row of it is
     completed, and asks the fallback only when the time is up. It ends with an invalid fallback answer or with,
     task by task and in order, the durable completed results of the inbox; a result that was there at any turn of
     the wait is the one it uses. Assembling them trips no task-set check, and for fresh tasks refuses nothing
     but a blank or uncited claim.
     */
    method Reason(planner: Planner, request: DreamRequest)
      returns (outcome: ReasonOutcome, ghost tasks: seq<ReasoningTask>, ghost results: seq<TaskResult>,
               ghost failed: nat, ghost asked: nat, ghost registered: System, ghost resumed: nat)
      requires Inv(inbox.Sys()) && poll > 0
      modifies this`turn, this`mono, inbox
      ensures Inv(inbox.Sys())
      ensures var plan := Plan(planner, request.topics);
              |tasks| == |plan| && Numbered(MakerFor(request), plan, tasks) && DistinctTasks(tasks)
      ensures outcome.RegistrationRefused? <==>
                !RegisterAccepted(old(inbox.Sys().box), Trim(request.requestId), RequestsOf(tasks), wait)
      ensures !outcome.RegistrationRefused? ==>
                && registered.box == DoRegister(old(inbox.Sys().box), Trim(request.requestId), RequestsOf(tasks), wait, old(inbox.clock)).box
                && Waited(env, TurnsOf(env, Trim(request.requestId), IdsOf(tasks)), poll, wait, Trim(request.requestId), tasks,
                          registered, old(turn), old(mono), resumed, mono)
      ensures outcome.FallbackInvalid? ==>
                && failed < |tasks| && mono >= old(mono) + wait && resumed <= asked < turn
                && !ValidFor(RequestOf(tasks[failed]), env.fallback(asked, tasks[failed]))
      ensures outcome.Reasoned? ==>
                && |results| == |tasks|
                && (forall k :: 0 <= k < |tasks| ==>
                      && Durable(inbox.Sys().box, tasks[k], results[k])
                      && Origin(env, Watch(old(inbox.Sys().box), old(turn), resumed, mono >= old(mono) + wait), turn, tasks[k],
                                results[k], inbox.Sys().box.tasks[tasks[k].taskId].route))
                && TurnsDecide(TurnsOf(env, Trim(request.requestId), IdsOf(tasks)), registered, old(turn), resumed,
                               inbox.Sys().box, tasks, results)
                && outcome.assembly == Assemble(lang, tasks, results) && !SetError(outcome.assembly)
                && (FreshTasks(old(inbox.Sys().box), tasks) ==> ClaimRefusal(outcome.assembly))
    {
      failed, asked, results, resumed := 0, 0, [], turn;
      var list := BuildTasks(planner, request);
      tasks := list;
      var runId := Trim(request.requestId);
      ghost var start, lo := inbox.Sys(), turn;
      ghost var valid := FreshTasks(start.box, list);
      var now := inbox.clock;
      ghost var e := Event(Register(runId, RequestsOf(list), wait), now);
      var reply := inbox.RegisterRun(runId, RequestsOf(list), wait, now);
      registered := inbox.Sys();
      if reply == Refused { return RegistrationRefused, tasks, results, failed, asked, registered, resumed; }
      assert registered == Step(start, e);
      StepKeepsInv(start, e);
      RegisteredArePlaced(start, runId, list, wait, now);
      RegisterExplained(env, Watch(start.box, lo, lo, false), turn, start, e, list);
      NamesNotEmpty(planner, request, list);

      var resolved: Option<seq<TaskResult>>;
      resolved, failed, asked, resumed := Collect(runId, list, valid, start.box, registered);
      if resolved.None? { return FallbackInvalid, tasks, results, failed, asked, registered, resumed; }
      results := resolved.value;
      var assembly := AssembleDurable(runId, list, resolved.value, valid);
      return Reasoned(assembly), tasks, results, failed, asked, registered, resumed;
    }

    /** Waits and then resolves every task of the registered run. */
    method Collect(runId: string, tasks: seq<ReasoningTask>, ghost valid: bool, ghost start: Inbox, ghost registered: System)
      returns (resolved: Option<seq<TaskResult>>, ghost failed: nat, ghost asked: nat, ghost resumed: nat)
      requires Inv(inbox.Sys()) && inbox.Sys() == registered && AllPlaced(inbox.Sys().box, runId, tasks, valid) && poll > 0
      requires DistinctTasks(tasks) && forall k :: 0 <= k < |tasks| ==> tasks[k].taskId != ""
      requires Explained(env, Watch(start, turn, turn, false), turn, inbox.Sys().box, tasks)
      modifies this`turn, this`mono, inbox
      ensures Inv(inbox.Sys()) && AllPlaced(inbox.Sys().box, runId, tasks, valid)
      ensures Waited(env, TurnsOf(env, runId, IdsOf(tasks)), poll, wait, runId, tasks, registered, old(turn), old(mono), resumed, mono)
      ensures resolved.None? ==>
                && failed < |tasks| && mono >= old(mono) + wait && resumed <= asked < turn
                && !ValidFor(RequestOf(tasks[failed]), env.fallback(asked, tasks[failed]))
      ensures resolved.Some? ==>
                && |resolved.value| == |tasks|
                && forall k :: 0 <= k < |tasks| ==>
                     && Durable(inbox.Sys().box, tasks[k], resolved.value[k])
                     && Origin(env, Watch(start, old(turn), resumed, mono >= old(mono) + wait), turn, tasks[k],
                               resolved.value[k], inbox.Sys().box.tasks[tasks[k].taskId].route)
      ensures resolved.Some? ==>
                TurnsDecide(TurnsOf(env, runId, IdsOf(tasks)), registered, old(turn), resumed, inbox.Sys().box, tasks, resolved.value)
    {
      ghost var lo := turn;
      ghost var w := WaitFor(runId, tasks, valid, start, registered);
      resumed := turn;
      resolved, failed, asked := ResolveAll(runId, tasks, valid, w);
      if resolved.None? { return; }
      ResultsExplained(env, w, turn, inbox.Sys(), tasks, resolved.value);
      TurnsAreKeeping(env, runId, IdsOf(tasks));
      TurnsDoDecide(TurnsOf(env, runId, IdsOf(tasks)), runId, registered, lo, resumed, inbox.Sys().box, tasks, resolved.value, valid);
    }

    method AssembleDurable(runId: string, tasks: seq<ReasoningTask>, results: seq<TaskResult>, ghost valid: bool) returns (a: Assembly)
      requires Inv(inbox.Sys()) && AllPlaced(inbox.Sys().box, runId, tasks, valid) && DistinctTasks(tasks) && |results| == |tasks|
      requires forall k :: 0 <= k < |tasks| ==> Durable(inbox.Sys().box, tasks[k], results[k])
      ensures a == Assemble(lang, tasks, results) && !SetError(a) && (valid ==> ClaimRefusal(a))
    {
      a := AssembleResults(lang, tasks, results);
      DurableAreMatched(inbox.Sys(), runId, tasks, results, valid);
      MatchedNoSetError(lang, tasks, results);
      if valid { MatchedAssemble(lang, tasks, results); }
    }

    /** The wait of a run, and what may be said of its results from then on. */
    method WaitFor(runId: string, tasks: seq<ReasoningTask>, ghost valid: bool, ghost start: Inbox, ghost registered: System)
      returns (ghost w: Watch)
      requires Inv(inbox.Sys()) && inbox.Sys() == registered && AllPlaced(inbox.Sys().box, runId, tasks, valid) && poll > 0
      requires Explained(env, Watch(start, turn, turn, false), turn, inbox.Sys().box, tasks)
      modifies this`turn, this`mono, inbox
      ensures Inv(inbox.Sys()) && AllPlaced(inbox.Sys().box, runId, tasks, valid) && turn >= old(turn)
      ensures inbox.Sys() == AfterTurns(TurnsOf(env, runId, IdsOf(tasks)), registered, old(turn), turn)
      ensures Waited(env, TurnsOf(env, runId, IdsOf(tasks)), poll, wait, runId, tasks, registered, old(turn), old(mono), turn, mono)
      ensures w == Watch(start, old(turn), turn, mono >= old(mono) + wait)
      ensures Explained(env, w, turn, inbox.Sys().box, tasks) && (w.patient || AllSettled(inbox.Sys().box, tasks))
    {
      ghost var lo, began := turn, mono;
      Wait(runId, tasks, valid, Watch(start, turn, turn, false), TurnsOf(env, runId, IdsOf(tasks)));
      w := Watch(start, lo, turn, mono >= began + wait);
      ImpatientIsSame(env, start, lo, lo, turn, turn, inbox.Sys().box, tasks);
      ExplainedOnResuming(env, start, lo, turn, w.patient, inbox.Sys().box, tasks);
      if tasks != [] && !w.patient { DoneIsSettled(inbox.Sys().box, runId, tasks, valid); }
    }
  }

  lemma ImpatientIsSame(env: Environment, start: Inbox, since: nat, resumed: nat, other: nat, turn: nat, box: Inbox, tasks: seq<ReasoningTask>)
    requires Explained(env, Watch(start, since, resumed, false), turn, box, tasks)
    ensures Explained(env, Watch(start, since, other, false), turn, box, tasks)
  {
    forall k, result, route | 0 <= k < |tasks| && CompletedWith(box.tasks, tasks[k].taskId, result, route)
      ensures Origin(env, Watch(start, since, other, false), turn, tasks[k], result, route)
    {
      assert Origin(env, Watch(start, since, resumed, false), turn, tasks[k], result, route);
    }
  }

  lemma ResultsExplained(env: Environment, w: Watch, turn: nat, s: System, tasks: seq<ReasoningTask>, results: seq<TaskResult>)
    requires Explained(env, w, turn, s.box, tasks) && |results| == |tasks|
    requires forall k :: 0 <= k < |tasks| ==> Durable(s.box, tasks[k], results[k])
    ensures forall k :: 0 <= k < |tasks| ==>
              && Durable(s.box, tasks[k], results[k])
              && Origin(env, w, turn, tasks[k], results[k], s.box.tasks[tasks[k].taskId].route)
  {
    forall k | 0 <= k < |tasks|
      ensures Durable(s.box, tasks[k], results[k])
      ensures Origin(env, w, turn, tasks[k], results[k], s.box.tasks[tasks[k].taskId].route)
    {
      assert Durable(s.box, tasks[k], results[k]);
      assert CompletedWith(s.box.tasks, tasks[k].taskId, results[k], s.box.tasks[tasks[k].taskId].route);
    }
  }

  lemma NamesNotEmpty(planner: Planner, request: DreamRequest, tasks: seq<ReasoningTask>)
    requires |tasks| == |Plan(planner, request.topics)|
    requires Numbered(MakerFor(request), Plan(planner, request.topics), tasks)
    ensures forall k :: 0 <= k < |tasks| ==> tasks[k].taskId != ""
  {
  }

  /** Durable results carry their task's id and, for fresh tasks, cite only its evidence. */
  lemma DurableAreMatched(s: System, runId: string, tasks: seq<ReasoningTask>, results: seq<TaskResult>, valid: bool)
    requires Inv(s) && AllPlaced(s.box, runId, tasks, valid) && |results| == |tasks|
    requires forall k :: 0 <= k < |tasks| ==> Durable(s.box, tasks[k], results[k])
    ensures Matched(tasks, results)
    ensures valid ==> forall k :: 0 <= k < |tasks| ==> Grounded(tasks[k], results[k])
  {
    forall k | 0 <= k < |tasks|
      ensures results[k].taskId == tasks[k].taskId && (valid ==> Grounded(tasks[k], results[k]))
    {
      assert Placed(s.box, runId, tasks[k], valid);
      assert RowOk(s, tasks[k].taskId, s.box.tasks[tasks[k].taskId]);
    }
  }
}
