/** What every transaction keeps, and what holds over whole runs of the inbox. */
module InboxGuarantees {
  import opened Common
  import opened Text
  import opened InboxModel
  import opened InboxRuns

  // ---------------------------------------------- how one transaction treats a row

  /** A completed row that is not deleted keeps its status, result, route and token. */
  ghost predicate WinnerKept(before: Tasks, after: Tasks, id: string) {
    id in before && before[id].status == Completed && id in after ==>
      && after[id].status == Completed && after[id].result == before[id].result
      && after[id].route == before[id].route && after[id].token == before[id].token
  }

  /** Only a lease of this very transaction puts a token on a row. */
  ghost predicate NoOldToken(before: Tasks, after: Tasks, id: string, reply: Reply) {
    id in after && after[id].token.Some? ==>
      || (id in before && after[id].token == before[id].token
          && (after[id].status == Claimed ==> after[id] == before[id]))
      || reply == Leased(id, after[id].token.value)
  }

  ghost predicate RowFacts(s: System, e: Event, id: string)
    requires Enabled(s, e)
  {
    var t := Step(s, e);
    && (id in t.box.tasks ==> RowOk(t, id, t.box.tasks[id]))
    && WinnerKept(s.box.tasks, t.box.tasks, id)
    && NoOldToken(s.box.tasks, t.box.tasks, id, ReplyTo(s, e))
  }

  lemma RegisterFacts(s: System, e: Event, id: string)
    requires Inv(s) && Enabled(s, e) && e.op.Register?
    ensures RowFacts(s, e, id)
  {
    if RegisterAccepted(s.box, e.op.requestId, e.op.list, e.op.wait) {
      RegisteredFacts(s, e.op.requestId, e.op.list, e.op.wait, e.now, id, Step(s, e).box);
    } else if id in s.box.tasks {
      assert RowOk(s, id, s.box.tasks[id]);
    }
  }

  lemma RegisteredFacts(s: System, requestId: string, list: seq<TaskRequest>, wait: int, now: int, id: string, after: Inbox)
    requires Inv(s) && RegisterAccepted(s.box, requestId, list, wait) && after == DoRegister(s.box, requestId, list, wait, now).box
    ensures id in after.tasks ==> RowOk(System(after, now, s.issued, s.latest), id, after.tasks[id])
    ensures WinnerKept(s.box.tasks, after.tasks, id) && NoOldToken(s.box.tasks, after.tasks, id, Done)
  {
    RegisterRewrites(s.box, requestId, list, wait, now, after);
    RegisteredRow(s, requestId, list, now + wait, now, id, after);
  }

  lemma RegisteredRow(s: System, requestId: string, list: seq<TaskRequest>, deadline: int, now: int, id: string, box: Inbox)
    requires Inv(s) && !Retirement(s.box, requestId) && Rewritten(s.box.tasks, box.tasks, list, requestId, deadline, now)
    requires box.runs == s.box.runs[requestId := Run(|list|, deadline, now, false)]
    ensures id in box.tasks ==> RowOk(System(box, now, s.issued, s.latest), id, box.tasks[id])
    ensures WinnerKept(s.box.tasks, box.tasks, id) && NoOldToken(s.box.tasks, box.tasks, id, Done)
  {
    if id in s.box.tasks { assert RowOk(s, id, s.box.tasks[id]); }
    if !Unlisted(list, id) {
      var k :| 0 <= k < |list| && list[k].taskId == id;
      assert Reset(s.box.tasks, box.tasks, list[k], requestId, deadline, now);
    }
  }

  lemma PublishRowFacts(s: System, e: Event, id: string)
    requires Inv(s) && Enabled(s, e) && e.op.Publish?
    ensures RowFacts(s, e, id)
  {
    if id in s.box.tasks { assert RowOk(s, id, s.box.tasks[id]); }
  }

  lemma LeaseRowFacts(s: System, e: Event, id: string)
    requires Inv(s) && Enabled(s, e) && e.op.ClaimNext?
    ensures RowFacts(s, e, id)
  {
    if id in s.box.tasks { assert RowOk(s, id, s.box.tasks[id]); }
  }

  lemma ResultRowFacts(s: System, e: Event, id: string)
    requires Inv(s) && Enabled(s, e) && (e.op.Submit? || e.op.CompleteFallback? || e.op.MarkFallback?)
    ensures RowFacts(s, e, id)
  {
    if id in s.box.tasks { assert RowOk(s, id, s.box.tasks[id]); }
  }

  /** A row that survives retirement is unchanged, and its run was not retired. */
  lemma SurvivesRetiring(box: Inbox, ids: seq<string>, before: int, dryRun: bool, now: int, id: string)
    ensures var after := DoRetire(box, ids, before, dryRun, now).box;
            id in after.tasks ==>
              && id in box.tasks && after.tasks[id] == box.tasks[id]
              && (Retirement(after, box.tasks[id].requestId) ==> Retirement(box, box.tasks[id].requestId))
  {
    var sorted := SortedIds(ids);
    if RetireAccepted(sorted, before, now) {
      SortedIdsSpec(ids);
      RetireListReport(box, sorted, if before > now then now else before, now, dryRun);
    }
  }

  lemma RetireFacts(s: System, e: Event, id: string)
    requires Inv(s) && Enabled(s, e) && e.op.RetireRuns?
    ensures RowFacts(s, e, id)
  {
    SurvivesRetiring(s.box, e.op.ids, e.op.before, e.op.dryRun, e.now, id);
    if id in s.box.tasks { assert RowOk(s, id, s.box.tasks[id]); }
  }

  lemma EventFacts(s: System, e: Event, id: string)
    requires Inv(s) && Enabled(s, e)
    ensures RowFacts(s, e, id)
  {
    if e.op.Register? { RegisterFacts(s, e, id); }
    else if e.op.RetireRuns? { RetireFacts(s, e, id); }
    else if e.op.Publish? { PublishRowFacts(s, e, id); }
    else if e.op.ClaimNext? { LeaseRowFacts(s, e, id); }
    else { ResultRowFacts(s, e, id); }
  }

  lemma StepKeepsInv(s: System, e: Event)
    requires Inv(s) && Enabled(s, e)
    ensures Inv(Step(s, e)) && s.issued <= Step(s, e).issued && s.clock <= Step(s, e).clock
  {
    forall id | id in Step(s, e).box.tasks
      ensures RowOk(Step(s, e), id, Step(s, e).box.tasks[id])
    {
      EventFacts(s, e, id);
    }
  }

  // ------------------------------------------------------------------ leases

  /** At one instant only the newest token of a task can submit for it. */
  lemma LeaseIsExclusive(s: System, id: string, t: string, u: string, now: int)
    requires Inv(s) && Live(s.box, id, t, now) && Live(s.box, id, u, now)
    ensures t == u && id in s.latest && t == s.latest[id]
  {
    assert RowOk(s, id, s.box.tasks[id]);
  }

  /** A token that cannot submit now can never submit again. */
  lemma DeadTokenStaysDead(s: System, e: Event, id: string, token: string)
    requires Inv(s) && Enabled(s, e) && token in s.issued && !Live(s.box, id, token, s.clock)
    ensures token in Step(s, e).issued && !Live(Step(s, e).box, id, token, Step(s, e).clock)
  {
    EventFacts(s, e, id);
    StepKeepsInv(s, e);
    if ReplyTo(s, e).Leased? { LeasesAreNew(s, e); }
  }

  lemma LeasesAreNew(s: System, e: Event)
    requires Enabled(s, e) && ReplyTo(s, e).Leased?
    ensures e.op.ClaimNext? && ReplyTo(s, e).token == e.op.token && e.op.token !in s.issued
  {
  }

  /** Every transaction that settles, resets or re-leases a task kills the token it had. */
  lemma TransactionKillsToken(s: System, e: Event, id: string, token: string)
    requires Inv(s) && Enabled(s, e) && token in s.issued && ReplyTo(s, e) != Refused
    requires match e.op
             case Register(_, list, _) => exists k :: 0 <= k < |list| && list[k].taskId == id
             case Publish(task, _, _, _) => task.taskId == id
             case ClaimNext(_, _, _, pick) => pick == Some(id)
             case Submit(taskId, _, _) => taskId == id
             case CompleteFallback(taskId, _, _) => taskId == id
             case MarkFallback(taskId, _) => taskId == id
             case RetireRuns(_, _, _) => id in s.box.tasks && id !in Step(s, e).box.tasks
    ensures !Live(Step(s, e).box, id, token, e.now)
  {
    if e.op.Register? { RegistrationKillsToken(s.box, e.op.requestId, e.op.list, e.op.wait, e.now, Step(s, e).box, id, token); }
  }

  lemma RegistrationKillsToken(box: Inbox, requestId: string, list: seq<TaskRequest>, wait: int, now: int, after: Inbox,
                               id: string, token: string)
    requires RegisterAccepted(box, requestId, list, wait) && after == DoRegister(box, requestId, list, wait, now).box
    requires exists k :: 0 <= k < |list| && list[k].taskId == id
    ensures !Live(after, id, token, now)
  {
    RegisterRewrites(box, requestId, list, wait, now, after);
    RegisteredIsNotLive(box, after, requestId, list, now + wait, now, id, token);
  }

  lemma RegisteredIsNotLive(box: Inbox, after: Inbox, requestId: string, list: seq<TaskRequest>, deadline: int, now: int,
                            id: string, token: string)
    requires Rewritten(box.tasks, after.tasks, list, requestId, deadline, now) && !Unlisted(list, id)
    ensures !Live(after, id, token, now)
  {
    var k :| 0 <= k < |list| && list[k].taskId == id;
    assert Reset(box.tasks, after.tasks, list[k], requestId, deadline, now);
  }

  // -------------------------------------------------------------------- runs

  ghost predicate Runs(s: System, es: seq<Event>)
    decreases |es|
  {
    es == [] || (Enabled(s, es[0]) && Runs(Step(s, es[0]), es[1..]))
  }

  /** The state before event `k`. */
  ghost function At(s: System, es: seq<Event>, k: nat): System
    requires Runs(s, es) && k <= |es|
    decreases |es|
  {
    if k == 0 then s else At(Step(s, es[0]), es[1..], k - 1)
  }

  lemma {:induction false} AtNext(s: System, es: seq<Event>, k: nat)
    requires Runs(s, es) && k < |es|
    ensures Enabled(At(s, es, k), es[k]) && At(s, es, k + 1) == Step(At(s, es, k), es[k])
    decreases |es|
  {
    if k > 0 {
      AtNext(Step(s, es[0]), es[1..], k - 1);
    }
  }

  lemma {:induction false} AtInv(s: System, es: seq<Event>, k: nat)
    requires Runs(s, es) && k <= |es| && Inv(s)
    ensures Inv(At(s, es, k))
    decreases k
  {
    if k > 0 {
      AtInv(s, es, k - 1);
      AtNext(s, es, k - 1);
      StepKeepsInv(At(s, es, k - 1), es[k - 1]);
    }
  }

  /** The inbox starts empty. */
  const INITIAL := System(Inbox(map[], map[]), 0, {}, map[])

  lemma InitialInv()
    ensures Inv(INITIAL)
  {
  }

  /** A dead token stays dead for the rest of the run. */
  lemma {:induction false} DeadForever(s: System, es: seq<Event>, i: nat, j: nat, id: string, token: string)
    requires Runs(s, es) && Inv(s) && i <= j <= |es|
    requires token in At(s, es, i).issued && !Live(At(s, es, i).box, id, token, At(s, es, i).clock)
    ensures token in At(s, es, j).issued && !Live(At(s, es, j).box, id, token, At(s, es, j).clock)
    decreases j - i
  {
    if i < j {
      DeadForever(s, es, i, j - 1, id, token);
      AtInv(s, es, j - 1);
      AtNext(s, es, j - 1);
      DeadTokenStaysDead(At(s, es, j - 1), es[j - 1], id, token);
    }
  }

  /** First winner stays: while its row exists, a completed task keeps result, route and token. */
  lemma {:induction false} WinnerStays(s: System, es: seq<Event>, i: nat, j: nat, id: string)
    requires Runs(s, es) && Inv(s) && i <= j <= |es|
    requires forall k :: i <= k <= j ==> id in At(s, es, k).box.tasks
    requires At(s, es, i).box.tasks[id].status == Completed
    ensures WinnerKept(At(s, es, i).box.tasks, At(s, es, j).box.tasks, id)
    ensures At(s, es, j).box.tasks[id].status == Completed
    decreases j - i
  {
    if i < j {
      assert id in At(s, es, j - 1).box.tasks && id in At(s, es, j).box.tasks;
      WinnerStays(s, es, i, j - 1, id);
      AtInv(s, es, j - 1);
      AtNext(s, es, j - 1);
      EventFacts(At(s, es, j - 1), es[j - 1], id);
    }
  }

  ghost predicate SubmittedAt(s: System, es: seq<Event>, k: nat, id: string)
    requires Runs(s, es) && k < |es|
  {
    && es[k].op.Submit? && es[k].op.taskId == id
    && Enabled(At(s, es, k), es[k]) && ReplyTo(At(s, es, k), es[k]).Result?
  }

  lemma SubmitSettles(s: System, e: Event)
    requires Enabled(s, e) && e.op.Submit? && ReplyTo(s, e).Result?
    ensures e.op.taskId in s.box.tasks && s.box.tasks[e.op.taskId].status == Claimed
    ensures e.op.taskId in Step(s, e).box.tasks && Step(s, e).box.tasks[e.op.taskId].status == Completed
  {
  }

  /** A row takes at most one successful submission: between two of them it was deleted. */
  lemma SubmittedOnce(s: System, es: seq<Event>, i: nat, j: nat, id: string)
    requires Runs(s, es) && Inv(s) && i < j < |es|
    requires SubmittedAt(s, es, i, id) && SubmittedAt(s, es, j, id)
    ensures exists k :: i < k < j && id !in At(s, es, k).box.tasks
  {
    var first, last := At(s, es, i), At(s, es, j);
    SubmitSettles(first, es[i]);
    SubmitSettles(last, es[j]);
    AtNext(s, es, i);
    if forall k :: i < k < j ==> id in At(s, es, k).box.tasks {
      StaysCompleted(s, es, i + 1, j, id);
      assert false;
    }
  }

  lemma StaysCompleted(s: System, es: seq<Event>, i: nat, j: nat, id: string)
    requires Runs(s, es) && Inv(s) && i <= j <= |es|
    requires forall k :: i <= k < j ==> id in At(s, es, k).box.tasks
    requires id in At(s, es, i).box.tasks && At(s, es, i).box.tasks[id].status == Completed
    requires id in At(s, es, j).box.tasks
    ensures At(s, es, j).box.tasks[id].status == Completed
  {
    assert forall k :: i <= k <= j ==> id in At(s, es, k).box.tasks;
    WinnerStays(s, es, i, j, id);
  }

  // -------------------------------------------------------------- retirement

  /**
   Retirement, in full: the report partitions the distinct ids by their eligibility in the starting
   state, dry and real runs report alike, and a real run deletes exactly the eligible runs' rows.
   */
  lemma RetireOutcome(s: System, dry: Event, actual: Event)
    requires Enabled(s, dry) && Enabled(s, actual) && dry.now == actual.now
    requires dry.op.RetireRuns? && actual.op == dry.op.(dryRun := false) && dry.op.dryRun
    ensures ReplyTo(s, dry) == ReplyTo(s, actual) && Step(s, dry).box == s.box
    ensures ReplyTo(s, actual) != Refused ==>
              var sorted := SortedIds(actual.op.ids);
              var cutoff := if actual.op.before > actual.now then actual.now else actual.op.before;
              && ReportOf(s.box, sorted, cutoff, actual.now, false, Apply(s.box, actual.op, actual.now))
              && Ascending(sorted) && (forall x :: x in sorted <==> x in actual.op.ids)
  {
    var sorted := SortedIds(actual.op.ids);
    var cutoff := if actual.op.before > actual.now then actual.now else actual.op.before;
    SortedIdsSpec(actual.op.ids);
    if RetireAccepted(sorted, actual.op.before, actual.now) {
      RetireListReport(s.box, sorted, cutoff, actual.now, true);
      RetireListReport(s.box, sorted, cutoff, actual.now, false);
      SameReport(s.box, sorted, cutoff, actual.now);
    }
  }

  lemma {:induction false} SameReport(box: Inbox, ids: seq<string>, cutoff: int, now: int)
    requires NoDup(ids)
    ensures RetireList(box, ids, cutoff, now, true).reply == RetireList(box, ids, cutoff, now, false).reply
    decreases |ids|
  {
    if ids != [] {
      TailIds(ids);
      SameReport(box, ids[1..], cutoff, now);
      if Eligible(box, ids[0], cutoff, now) {
        RealTailReport(box, RetireOne(box, ids[0]), ids[0], ids[1..], cutoff, now);
      }
    }
  }

  /** The report on the remaining ids is not affected by a run already retired. */
  lemma {:induction false} RealTailReport(box: Inbox, after: Inbox, gone: string, ids: seq<string>, cutoff: int, now: int)
    requires NoDup(ids) && gone !in ids && gone in box.runs && after == RetireOne(box, gone)
    ensures RetireList(after, ids, cutoff, now, false).reply == RetireList(box, ids, cutoff, now, false).reply
    decreases |ids|
  {
    if ids != [] {
      TailIds(ids);
      RetireOneLeavesOthers(box, gone, ids[0], cutoff, now);
      if Eligible(box, ids[0], cutoff, now) {
        RetireOneCommutes(box, gone, ids[0]);
        RealTailReport(RetireOne(box, ids[0]), RetireOne(after, ids[0]), gone, ids[1..], cutoff, now);
      } else {
        RealTailReport(box, after, gone, ids[1..], cutoff, now);
      }
    }
  }

  lemma RetireTwoTasks(box: Inbox, a: string, b: string)
    requires a in box.runs && b in box.runs && a != b
    ensures RetireOne(RetireOne(box, a), b).tasks == box.tasks - (TasksOf(box.tasks, a) + TasksOf(box.tasks, b))
  {
    RetireOneLeavesOthers(box, a, b, 0, 0);
    var mid := RetireOne(box, a).tasks;
    assert mid == box.tasks - TasksOf(box.tasks, a);
    assert mid - TasksOf(mid, b) == box.tasks - (TasksOf(box.tasks, a) + TasksOf(box.tasks, b));
  }

  lemma RetireOneCommutes(box: Inbox, a: string, b: string)
    requires a in box.runs && b in box.runs && a != b
    ensures RetireOne(RetireOne(box, a), b) == RetireOne(RetireOne(box, b), a)
  {
    RetireTwoTasks(box, a, b);
    RetireTwoTasks(box, b, a);
    assert TasksOf(box.tasks, a) + TasksOf(box.tasks, b) == TasksOf(box.tasks, b) + TasksOf(box.tasks, a);
  }

  /** No row under a running lease is ever deleted. */
  lemma DeletedRowsAreIdle(s: System, e: Event, id: string)
    requires Inv(s) && Enabled(s, e) && id in s.box.tasks && id !in Step(s, e).box.tasks
    ensures e.op.RetireRuns? && !e.op.dryRun
    ensures forall token :: !Live(s.box, id, token, e.now)
  {
    EventDeletes(s, e, id);
    var RetireRuns(ids, before, dryRun) := e.op;
    var sorted := SortedIds(ids);
    SortedIdsSpec(ids);
    RetireListReport(s.box, sorted, if before > e.now then e.now else before, e.now, dryRun);
    assert id in TasksOf(s.box.tasks, s.box.tasks[id].requestId);
  }

  lemma {:induction false} UpsertAllKeeps(tasks: Tasks, list: seq<TaskRequest>, requestId: string, deadline: int, now: int, id: string)
    requires id in tasks
    ensures id in UpsertAll(tasks, list, requestId, deadline, now)
    decreases |list|
  {
    if list != [] {
      UpsertAllKeeps(Upsert(tasks, list[0], requestId, deadline, now), list[1..], requestId, deadline, now, id);
    }
  }

  lemma EventDeletes(s: System, e: Event, id: string)
    requires Enabled(s, e) && id in s.box.tasks && id !in Step(s, e).box.tasks
    ensures e.op.RetireRuns? && RetireAccepted(SortedIds(e.op.ids), e.op.before, e.now)
  {
    if e.op.Register? {
      UpsertAllKeeps(s.box.tasks, e.op.list, e.op.requestId, e.now + e.op.wait, e.now, id);
    }
  }

  /** A retired run stays retired. */
  lemma RetiredStays(s: System, e: Event, requestId: string)
    requires Enabled(s, e) && Retirement(s.box, requestId)
    ensures Retirement(Step(s, e).box, requestId)
  {
    if e.op.RetireRuns? {
      var sorted := SortedIds(e.op.ids);
      SortedIdsSpec(e.op.ids);
      RetireListReport(s.box, sorted, if e.op.before > e.now then e.now else e.op.before, e.now, e.op.dryRun);
    }
  }

  /** Once a run is retired no task row carries its id again, whatever is called later. */
  lemma {:induction false} NoReplay(s: System, es: seq<Event>, i: nat, j: nat, requestId: string, id: string)
    requires Runs(s, es) && Inv(s) && i <= j <= |es| && Retirement(At(s, es, i).box, requestId)
    ensures Retirement(At(s, es, j).box, requestId)
    ensures id in At(s, es, j).box.tasks ==> At(s, es, j).box.tasks[id].requestId != requestId
    decreases j - i
  {
    if i < j {
      NoReplay(s, es, i, j - 1, requestId, id);
      AtNext(s, es, j - 1);
      RetiredStays(At(s, es, j - 1), es[j - 1], requestId);
    }
    AtInv(s, es, j);
    var t := At(s, es, j);
    if id in t.box.tasks { assert RowOk(t, id, t.box.tasks[id]); }
  }
}
