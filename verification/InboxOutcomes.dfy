/** What each transaction of the inbox does, told from its arguments and the rows it finds. */
module InboxOutcomes {
  import opened Common
  import opened Text
  import opened InboxModel
  import opened InboxRuns
  import opened InboxGuarantees

  /** No other row was added, changed or removed. */
  ghost predicate OnlyRow(before: Tasks, after: Tasks, id: string) {
    forall other :: other != id ==> (other in after <==> other in before) && (other in after ==> after[other] == before[other])
  }

  /** The result names the task and cites only its evidence, with confidences from 0 to 1. */
  ghost predicate Fitting(request: TaskRequest, result: TaskResult) {
    && result.taskId == request.taskId
    && forall c :: c in result.claims ==>
         0.0 <= c.confidence && c.confidence <= 1.0 && forall id :: id in c.evidence ==> id in request.evidence
  }

  lemma FittingIsValid(request: TaskRequest, result: TaskResult)
    ensures Fitting(request, result) <==> ValidFor(request, result)
  {
  }

  // ---------------------------------------------------------------------- registration

  /** The task's row, new or again: a completed one keeps its result, any other waits afresh; its age stays. */
  ghost predicate Registered(before: Tasks, after: Tasks, task: TaskRequest, requestId: string, deadline: int, now: int) {
    && task.taskId in after
    && var row := after[task.taskId];
       && row.requestId == requestId && row.request == task && row.deadline == deadline && row.updatedAt == now
       && (task.taskId !in before ==> row.createdAt == now)
       && (task.taskId in before ==> row.createdAt == before[task.taskId].createdAt)
       && if task.taskId in before && before[task.taskId].status == Completed then
            var was := before[task.taskId];
            && row.status == Completed && row.result == was.result && row.route == was.route
            && row.token == was.token && row.claimedBy == was.claimedBy && row.leaseUntil == was.leaseUntil
          else
            && row.status == Pending && row.result == None && row.route == ""
            && row.token == None && row.claimedBy == "" && row.leaseUntil == None
  }

  lemma ResetIsRegistered(before: Tasks, after: Tasks, task: TaskRequest, requestId: string, deadline: int, now: int)
    requires Reset(before, after, task, requestId, deadline, now)
    ensures Registered(before, after, task, requestId, deadline, now)
  {
  }

  /** Every listed task is registered, and no other row changes. */
  ghost predicate AllRegistered(before: Tasks, after: Tasks, requestId: string, list: seq<TaskRequest>, deadline: int, now: int) {
    && (forall k {:trigger Registered(before, after, list[k], requestId, deadline, now)} ::
          0 <= k < |list| ==> Registered(before, after, list[k], requestId, deadline, now))
    && (forall id :: Unlisted(list, id) ==> (id in after <==> id in before) && (id in before ==> after[id] == before[id]))
  }

  /** Different task ids, every task of this run. */
  ghost predicate ProperList(requestId: string, list: seq<TaskRequest>) {
    && (forall i, j :: 0 <= i < j < |list| ==> list[i].taskId != list[j].taskId)
    && (forall k :: 0 <= k < |list| ==> list[k].requestId == requestId)
  }

  /** Registration is refused for an empty name, a negative wait, an improper list or a retired run. */
  lemma RegisterAnswer(s: System, e: Event)
    requires Enabled(s, e) && e.op.Register?
    ensures var Register(requestId, list, wait) := e.op;
            && (ReplyTo(s, e) == Done <==>
                  requestId != "" && wait >= 0 && ProperList(requestId, list) && !(requestId in s.box.runs && s.box.runs[requestId].retired))
            && (ReplyTo(s, e) != Done ==> ReplyTo(s, e) == Refused && Step(s, e).box == s.box)
  {
    ProperIsAccepted(s.box, e.op.requestId, e.op.list, e.op.wait);
  }

  /** Otherwise every task is registered, and the run is on record. */
  lemma RegisterEffect(s: System, e: Event, after: Inbox)
    requires Enabled(s, e) && e.op.Register? && ReplyTo(s, e) == Done && after == Step(s, e).box
    ensures AllRegistered(s.box.tasks, after.tasks, e.op.requestId, e.op.list, e.now + e.op.wait, e.now)
    ensures after.runs == s.box.runs[e.op.requestId := Run(|e.op.list|, e.now + e.op.wait, e.now, false)]
  {
    RegisterRows(s.box, e.op.requestId, e.op.list, e.op.wait, e.now, after);
  }

  lemma ProperIsAccepted(box: Inbox, requestId: string, list: seq<TaskRequest>, wait: int)
    ensures RegisterAccepted(box, requestId, list, wait) <==>
              requestId != "" && wait >= 0 && ProperList(requestId, list) && !(requestId in box.runs && box.runs[requestId].retired)
  {
    assert (forall k :: 0 <= k < |list| ==> list[k].requestId == requestId) <==> (forall t :: t in list ==> t.requestId == requestId);
  }

  lemma RowsRegistered(before: Tasks, after: Tasks, requestId: string, list: seq<TaskRequest>, deadline: int, now: int)
    requires Rewritten(before, after, list, requestId, deadline, now)
    ensures AllRegistered(before, after, requestId, list, deadline, now)
  {
    forall k | 0 <= k < |list| ensures Registered(before, after, list[k], requestId, deadline, now) {
      assert Reset(before, after, list[k], requestId, deadline, now);
      ResetIsRegistered(before, after, list[k], requestId, deadline, now);
    }
  }

  lemma RegisterRows(box: Inbox, requestId: string, list: seq<TaskRequest>, wait: int, now: int, after: Inbox)
    requires RegisterAccepted(box, requestId, list, wait) && after == DoRegister(box, requestId, list, wait, now).box
    ensures AllRegistered(box.tasks, after.tasks, requestId, list, now + wait, now)
  {
    RegisterRewrites(box, requestId, list, wait, now, after);
    RowsRegistered(box.tasks, after.tasks, requestId, list, now + wait, now);
  }

  /** Publication registers one task, under a deadline of its own if it brings one. */
  lemma PublishOutcome(s: System, e: Event)
    requires Enabled(s, e) && e.op.Publish?
    ensures var Publish(task, wait, runId, deadline) := e.op;
            && (ReplyTo(s, e) == Done || ReplyTo(s, e) == Refused)
            && (ReplyTo(s, e) == Refused <==> wait < 0 || runId == "" || (runId in s.box.runs && s.box.runs[runId].retired))
            && (ReplyTo(s, e) == Refused ==> Step(s, e).box == s.box)
            && (ReplyTo(s, e) == Done ==>
                  && Registered(s.box.tasks, Step(s, e).box.tasks, task, runId, if deadline.None? then e.now + wait else deadline.value, e.now)
                  && OnlyRow(s.box.tasks, Step(s, e).box.tasks, task.taskId) && Step(s, e).box.runs == s.box.runs)
  {
  }

  // ---------------------------------------------------------------------------- leases

  /** The task is open, waiting or abandoned: no token can submit for it now. */
  ghost predicate Open(box: Inbox, id: string, now: int) {
    && id in box.tasks && box.tasks[id].deadline > now
    && (box.tasks[id].status == Pending || box.tasks[id].status == Claimed)
    && forall token :: !Live(box, id, token, now)
  }

  lemma ClaimableIsOpen(s: System, id: string, now: int)
    requires Inv(s) && id in s.box.tasks
    ensures Claimable(s.box.tasks[id], now) <==> Open(s.box, id, now)
  {
    var row := s.box.tasks[id];
    assert RowOk(s, id, row);
    if row.status == Claimed && row.deadline > now && row.leaseUntil.value > now {
      assert Live(s.box, id, row.token.value, now);
    }
  }

  /** The token may submit from its lease on, until the lease or the task's deadline runs out. */
  ghost predicate LeasedUntil(box: Inbox, id: string, token: string, until: int) {
    forall t, now :: Live(box, id, t, now) <==> t == token && id in box.tasks && now < until && now < box.tasks[id].deadline
  }

  /**
   A claim takes the oldest open task, ties in order of the ids, and gives the new token, and no other, the time of
   the lease; there is no task to claim exactly when none is open.
   */
  lemma ClaimOutcome(s: System, e: Event)
    requires Inv(s) && Enabled(s, e) && e.op.ClaimNext?
    ensures ReplyTo(s, e) == Refused <==> e.op.consumer == "" || e.op.lease < 30 || e.op.lease > 3600
    ensures !ReplyTo(s, e).Leased? ==> Step(s, e).box == s.box
    ensures ReplyTo(s, e) != Refused ==> (ReplyTo(s, e) == NoTask <==> forall id :: !Open(s.box, id, e.now))
    ensures ReplyTo(s, e) != Refused && ReplyTo(s, e) != NoTask ==>
              && ReplyTo(s, e).Leased? && ReplyTo(s, e).token == e.op.token
              && var id := ReplyTo(s, e).taskId;
                 && Open(s.box, id, e.now) && Taken(s.box, Step(s, e).box, id, e.op.consumer)
                 && (forall other :: Open(s.box, other, e.now) ==>
                       || s.box.tasks[id].createdAt < s.box.tasks[other].createdAt
                       || (s.box.tasks[id].createdAt == s.box.tasks[other].createdAt && TextLe(id, other)))
                 && LeasedUntil(Step(s, e).box, id, e.op.token, e.now + e.op.lease * 1_000_000)
  {
    forall id | id in s.box.tasks ensures Claimable(s.box.tasks[id], e.now) <==> Open(s.box, id, e.now) {
      ClaimableIsOpen(s, id, e.now);
    }
    ClaimFirst(s.box, e.op.consumer, e.op.lease, e.op.token, e.op.pick, e.now);
  }

  /** The row is claimed by the consumer and otherwise as it was; no other row changes. */
  ghost predicate Taken(before: Inbox, after: Inbox, id: string, consumer: string) {
    && id in before.tasks && id in after.tasks && OnlyRow(before.tasks, after.tasks, id) && after.runs == before.runs
    && var was, row := before.tasks[id], after.tasks[id];
       && row.status == Claimed && row.claimedBy == consumer
       && row.requestId == was.requestId && row.request == was.request && row.deadline == was.deadline
       && row.createdAt == was.createdAt && row.result == was.result && row.route == was.route
  }

  lemma ClaimFirst(box: Inbox, consumer: string, lease: int, token: string, pick: Option<string>, now: int)
    requires FirstClaimable(box.tasks, now, pick)
    ensures var o := DoClaim(box, consumer, lease, token, pick, now);
            && (o.reply == Refused <==> consumer == "" || lease < 30 || lease > 3600)
            && (!o.reply.Leased? ==> o.box == box)
            && (o.reply != Refused ==> (o.reply == NoTask <==> forall id :: id in box.tasks ==> !Claimable(box.tasks[id], now)))
            && (o.reply.Leased? ==> && o.reply.token == token && o.reply.taskId in box.tasks && Claimable(box.tasks[o.reply.taskId], now)
                                    && Taken(box, o.box, o.reply.taskId, consumer)
                                    && LeasedUntil(o.box, o.reply.taskId, token, now + lease * 1_000_000)
                                    && forall other :: other in box.tasks && Claimable(box.tasks[other], now) ==>
                                         Before(box.tasks, o.reply.taskId, other))
  {
  }

  // --------------------------------------------------------------------------- results

  /** The task is completed with this result, and nothing else happened to it or to any other. */
  ghost predicate CompletedBy(before: Inbox, after: Inbox, id: string, result: TaskResult, route: string, now: int) {
    && id in before.tasks && id in after.tasks && OnlyRow(before.tasks, after.tasks, id) && after.runs == before.runs
    && var was, row := before.tasks[id], after.tasks[id];
       && row.status == Completed && row.result == Some(result) && row.route == route && row.updatedAt == now
       && row.token == was.token && row.claimedBy == was.claimedBy && row.leaseUntil == was.leaseUntil
       && row.requestId == was.requestId && row.request == was.request && row.deadline == was.deadline && row.createdAt == was.createdAt
  }

  /** A submission succeeds exactly for a live token and a fitting result, and it is then the stored one. */
  lemma SubmitOutcome(s: System, e: Event)
    requires Inv(s) && Enabled(s, e) && e.op.Submit? && e.op.taskId != "" && e.op.token != ""
    ensures var Submit(id, token, claims) := e.op;
            && (ReplyTo(s, e) == Refused || ReplyTo(s, e) == Result(TaskResult(id, claims)))
            && (ReplyTo(s, e) != Refused <==>
                  && id in s.box.tasks && s.box.tasks[id].status == Claimed && id in s.latest && token == s.latest[id]
                  && s.box.tasks[id].leaseUntil.Some? && e.now < s.box.tasks[id].leaseUntil.value && e.now < s.box.tasks[id].deadline
                  && Fitting(s.box.tasks[id].request, TaskResult(id, claims)))
            && (ReplyTo(s, e) == Refused ==> Step(s, e).box == s.box)
            && (ReplyTo(s, e) != Refused ==> CompletedBy(s.box, Step(s, e).box, id, TaskResult(id, claims), "mcp", e.now))
  {
    var Submit(id, token, claims) := e.op;
    if id in s.box.tasks {
      assert RowOk(s, id, s.box.tasks[id]);
      FittingIsValid(s.box.tasks[id].request, TaskResult(id, claims));
    }
  }

  /** The fallback writer always hands back what is stored: an earlier winner, else its own fitting result. */
  lemma FallbackOutcome(s: System, e: Event)
    requires Inv(s) && Enabled(s, e) && e.op.CompleteFallback?
    ensures var CompleteFallback(id, result, route) := e.op;
            var named := id != "" && route != "" && route != "mcp" && id in s.box.tasks;
            var won := named && s.box.tasks[id].status == Completed;
            && (ReplyTo(s, e) == Refused <==> !named || (!won && !Fitting(s.box.tasks[id].request, result)))
            && (won || ReplyTo(s, e) == Refused ==> Step(s, e).box == s.box)
            && (won ==> ReplyTo(s, e).Result? && s.box.tasks[id].result == Some(ReplyTo(s, e).result))
            && (!won && ReplyTo(s, e) != Refused ==>
                  ReplyTo(s, e) == Result(result) && CompletedBy(s.box, Step(s, e).box, id, result, route, e.now))
  {
    var CompleteFallback(id, result, route) := e.op;
    if id in s.box.tasks {
      assert RowOk(s, id, s.box.tasks[id]);
      FittingIsValid(s.box.tasks[id].request, result);
    }
  }

  /** The legacy mark closes a task without a result; it leaves a completed one alone. */
  lemma MarkOutcome(s: System, e: Event)
    requires Enabled(s, e) && e.op.MarkFallback?
    ensures var MarkFallback(id, route) := e.op;
            && (ReplyTo(s, e) == if id in s.box.tasks then Done else Refused)
            && (id !in s.box.tasks || s.box.tasks[id].status == Completed ==> Step(s, e).box == s.box)
            && (id in s.box.tasks && s.box.tasks[id].status != Completed ==>
                  && OnlyRow(s.box.tasks, Step(s, e).box.tasks, id) && Step(s, e).box.runs == s.box.runs
                  && id in Step(s, e).box.tasks
                  && Step(s, e).box.tasks[id] == s.box.tasks[id].(status := Fallback, route := route, updatedAt := e.now)
                  && (forall token, now :: !Live(Step(s, e).box, id, token, now))
                  && forall now :: !Open(Step(s, e).box, id, now))
  {
  }

  // ------------------------------------------------------------------------- retirement

  /** The run is over: known, not retired, as many rows as registered, all of it untouched since the cutoff, no lease running. */
  ghost predicate RunIsOver(box: Inbox, requestId: string, cutoff: int, now: int) {
    && requestId in box.runs && !box.runs[requestId].retired
    && box.runs[requestId].deadline < cutoff && box.runs[requestId].updatedAt < cutoff
    && |set id | id in box.tasks && box.tasks[id].requestId == requestId| == box.runs[requestId].expected
    && forall id :: id in box.tasks && box.tasks[id].requestId == requestId ==>
         && box.tasks[id].updatedAt < cutoff && box.tasks[id].deadline < cutoff
         && (box.tasks[id].leaseUntil.Some? ==> box.tasks[id].leaseUntil.value <= now)
  }

  lemma OverIsEligible(box: Inbox, requestId: string, cutoff: int, now: int)
    ensures RunIsOver(box, requestId, cutoff, now) <==> Eligible(box, requestId, cutoff, now)
  {
    assert TasksOf(box.tasks, requestId) == set id | id in box.tasks && box.tasks[id].requestId == requestId;
    if RunIsOver(box, requestId, cutoff, now) {
      assert forall id :: id in TasksOf(box.tasks, requestId) ==> !Busy(box.tasks[id], cutoff, now);
    }
    if Eligible(box, requestId, cutoff, now) {
      forall id | id in box.tasks && box.tasks[id].requestId == requestId
        ensures && box.tasks[id].updatedAt < cutoff && box.tasks[id].deadline < cutoff
                && (box.tasks[id].leaseUntil.Some? ==> box.tasks[id].leaseUntil.value <= now)
      {
        assert id in TasksOf(box.tasks, requestId) && !Busy(box.tasks[id], cutoff, now);
      }
    }
  }

  lemma DistinctIds(ids: seq<string>)
    ensures |SortedIds(ids)| == |Elements(ids)| && ("" in SortedIds(ids) <==> "" in ids)
  {
    SortedIdsSpec(ids);
    NoDupSize(SortedIds(ids));
    assert Elements(SortedIds(ids)) == Elements(ids);
  }

  /** Retirement is refused for a cutoff more than an hour ahead, no or too many different ids, or a blank one. */
  lemma RetireRefusal(s: System, e: Event)
    requires Enabled(s, e) && e.op.RetireRuns?
    ensures ReplyTo(s, e) == Refused <==>
              || e.op.before > e.now + 3_600_000_000 || |Elements(e.op.ids)| == 0 || |Elements(e.op.ids)| > 100 || "" in e.op.ids
    ensures ReplyTo(s, e) == Refused ==> Step(s, e).box == s.box
    ensures ReplyTo(s, e) == Refused || ReplyTo(s, e).Retired?
  {
    DistinctIds(e.op.ids);
  }

  /**
   Otherwise it names the runs that are over at the cutoff, at most now, and the others, and counts the rows of the
   former; unless it is a dry run those rows go, and those runs are retired; all else stays.
   */
  lemma RetireEffect(s: System, e: Event)
    requires Enabled(s, e) && e.op.RetireRuns? && ReplyTo(s, e) != Refused
    ensures ReplyTo(s, e).Retired?
    ensures var Retired(eligible, blocked, removed) := ReplyTo(s, e);
            var cutoff := if e.op.before < e.now then e.op.before else e.now;
            && NoDup(eligible) && NoDup(blocked)
            && (forall x :: x in eligible <==> x in e.op.ids && RunIsOver(s.box, x, cutoff, e.now))
            && (forall x :: x in blocked <==> x in e.op.ids && !RunIsOver(s.box, x, cutoff, e.now))
            && removed == |set id | id in s.box.tasks && s.box.tasks[id].requestId in eligible|
            && (e.op.dryRun ==> Step(s, e).box == s.box)
            && (!e.op.dryRun ==> RunsGone(s.box, Step(s, e).box, eligible))
  {
    var sorted := SortedIds(e.op.ids);
    var cutoff := if e.op.before > e.now then e.now else e.op.before;
    SortedIdsSpec(e.op.ids);
    RetireListReport(s.box, sorted, cutoff, e.now, e.op.dryRun);
    forall x ensures RunIsOver(s.box, x, cutoff, e.now) <==> Eligible(s.box, x, cutoff, e.now) {
      OverIsEligible(s.box, x, cutoff, e.now);
    }
    var eligible := ReplyTo(s, e).eligible;
    assert TasksOfAll(s.box.tasks, eligible) == set id | id in s.box.tasks && s.box.tasks[id].requestId in eligible;
  }

  /** The rows of these runs are gone and the runs retired. */
  ghost predicate RunsGone(before: Inbox, after: Inbox, gone: seq<string>) {
    && (forall id :: id in after.tasks <==> id in before.tasks && before.tasks[id].requestId !in gone)
    && (forall id :: id in after.tasks ==> after.tasks[id] == before.tasks[id])
    && (forall r :: r in after.runs <==> r in before.runs)
    && (forall r :: r in after.runs && r !in gone ==> after.runs[r] == before.runs[r])
    && (forall r :: r in after.runs && r in gone ==> after.runs[r] == before.runs[r].(retired := true, expected := 0))
  }
}
