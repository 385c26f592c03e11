/** The inbox object: each method is one transaction on its task and run tables. */
module InboxService {
  import opened Common
  import opened Text
  import opened InboxModel
  import opened InboxRuns

  /** A report continued from what earlier ids contributed. */
  function Continue(eligible: seq<string>, blocked: seq<string>, removed: nat, rest: Outcome): Outcome
    requires rest.reply.Retired?
  {
    Outcome(rest.box, Retired(eligible + rest.reply.eligible, blocked + rest.reply.blocked, removed + rest.reply.removed))
  }

  lemma ContinueStep(box: Inbox, ids: seq<string>, cutoff: int, now: int, dryRun: bool,
                     eligible: seq<string>, blocked: seq<string>, removed: nat)
    requires ids != []
    ensures Continue(eligible, blocked, removed, RetireList(box, ids, cutoff, now, dryRun)) ==
            if Eligible(box, ids[0], cutoff, now) then
              Continue(eligible + [ids[0]], blocked, removed + |TasksOf(box.tasks, ids[0])|,
                       RetireList(if dryRun then box else RetireOne(box, ids[0]), ids[1..], cutoff, now, dryRun))
            else
              Continue(eligible, blocked + [ids[0]], removed, RetireList(box, ids[1..], cutoff, now, dryRun))
  {
    if Eligible(box, ids[0], cutoff, now) {
      var rest := RetireList(if dryRun then box else RetireOne(box, ids[0]), ids[1..], cutoff, now, dryRun);
      assert eligible + ([ids[0]] + rest.reply.eligible) == (eligible + [ids[0]]) + rest.reply.eligible;
    } else {
      var rest := RetireList(box, ids[1..], cutoff, now, dryRun);
      assert blocked + ([ids[0]] + rest.reply.blocked) == (blocked + [ids[0]]) + rest.reply.blocked;
    }
  }

  class DreamReasonTaskInbox {
    var tasks: Tasks
    var runs: map<string, Run>
    var clock: int                     // instant of the last transaction
    var issued: set<string>            // tokens drawn so far
    var latest: map<string, string>    // last token drawn per task

    constructor ()
      ensures Sys() == System(Inbox(map[], map[]), 0, {}, map[])
    {
      tasks, runs, clock, issued, latest := map[], map[], 0, {}, map[];
    }

    function Sys(): System
      reads this
    {
      System(Inbox(tasks, runs), clock, issued, latest)
    }

    /** The state a transaction without a lease leaves. */
    ghost predicate Becomes(before: System, o: Outcome, now: int)
      reads this
    {
      Sys() == System(o.box, now, before.issued, before.latest)
    }

    method RegisterRun(requestId: string, list: seq<TaskRequest>, wait: int, now: int) returns (reply: Reply)
      modifies this
      ensures var o := DoRegister(old(Sys()).box, requestId, list, wait, now);
              Becomes(old(Sys()), o, now) && reply == o.reply
    {
      clock := now;
      if requestId == "" || wait < 0 { return Refused; }
      var seen: set<string> := {};
      var i := 0;
      while i < |list|
        invariant 0 <= i <= |list|
        invariant forall x :: x in seen <==> exists k :: 0 <= k < i && list[k].taskId == x
        invariant forall j, k :: 0 <= j < k < i ==> list[j].taskId != list[k].taskId
      {
        if list[i].taskId in seen { return Refused; }
        seen := seen + {list[i].taskId};
        i := i + 1;
      }
      if exists t :: t in list && t.requestId != requestId { return Refused; }
      if requestId in runs && runs[requestId].retired { return Refused; }

      ghost var before := tasks;
      runs := runs[requestId := Run(|list|, now + wait, now, false)];
      i := 0;
      while i < |list|
        invariant 0 <= i <= |list|
        invariant UpsertAll(before, list, requestId, now + wait, now) ==
                  UpsertAll(tasks, list[i..], requestId, now + wait, now)
        invariant runs == old(runs)[requestId := Run(|list|, now + wait, now, false)]
        invariant clock == now && issued == old(issued) && latest == old(latest)
      {
        assert list[i..][1..] == list[i + 1..];
        UpsertTask(list[i], requestId, now + wait, now);
        i := i + 1;
      }
      return Done;
    }

    method UpsertTask(task: TaskRequest, requestId: string, deadline: int, now: int)
      modifies this`tasks
      ensures tasks == Upsert(old(tasks), task, requestId, deadline, now)
    {
      if task.taskId !in tasks {
        var row := Row(requestId, task, Pending, None, "", None, deadline, None, "", now, now);
        tasks := tasks[task.taskId := row];
      } else if tasks[task.taskId].status == Completed {
        var row := tasks[task.taskId].(requestId := requestId, request := task, deadline := deadline, updatedAt := now);
        tasks := tasks[task.taskId := row];
      } else {
        var row := Row(requestId, task, Pending, None, "", None, deadline, None, "", tasks[task.taskId].createdAt, now);
        tasks := tasks[task.taskId := row];
      }
    }

    method PublishTask(task: TaskRequest, wait: int, runId: string, deadline: Option<int>, now: int)
      returns (reply: Reply)
      modifies this
      ensures var o := DoPublish(old(Sys()).box, task, wait, runId, deadline, now);
              Becomes(old(Sys()), o, now) && reply == o.reply
    {
      clock := now;
      if wait < 0 || runId == "" { return Refused; }
      if runId in runs && runs[runId].retired { return Refused; }
      UpsertTask(task, runId, if deadline.Some? then deadline.value else now + wait, now);
      return Done;
    }

    /** The oldest claimable row, equal ages in text order of their ids. */
    method SelectClaimable(now: int) returns (pick: Option<string>)
      ensures FirstClaimable(tasks, now, pick)
    {
      pick := None;
      var rest := tasks.Keys;
      while rest != {}
        invariant rest <= tasks.Keys
        invariant pick.Some? ==> pick.value in tasks && Claimable(tasks[pick.value], now)
        invariant forall id :: id in tasks && id !in rest && Claimable(tasks[id], now) ==>
                    pick.Some? && Before(tasks, pick.value, id)
        decreases |rest|
      {
        var id :| id in rest;
        rest := rest - {id};
        TextOrder(id, id, id);
        if Claimable(tasks[id], now) {
          if pick.None? {
            pick := Some(id);
          } else {
            TextOrder(id, pick.value, id);
            if !Before(tasks, pick.value, id) {
              ghost var old_pick := pick.value;
              pick := Some(id);
              forall other | other in tasks && Before(tasks, old_pick, other)
                ensures Before(tasks, id, other)
              {
                TextOrder(id, old_pick, other);
              }
            }
          }
        }
      }
    }

    method ClaimTask(consumer: string, lease: int, token: string, now: int)
      returns (reply: Reply, ghost pick: Option<string>)
      requires token !in issued && token != ""
      modifies this
      ensures FirstClaimable(old(tasks), now, pick)
      ensures var o := DoClaim(old(Sys()).box, consumer, lease, token, pick, now);
              && reply == o.reply
              && if o.reply.Leased? then
                   Sys() == System(o.box, now, old(issued) + {token}, old(latest)[o.reply.taskId := token])
                 else Becomes(old(Sys()), o, now)
    {
      clock := now;
      var found := SelectClaimable(now);
      pick := found;
      if consumer == "" || lease < 30 || lease > 3600 { return Refused, pick; }
      if found.None? { return NoTask, pick; }
      var id := found.value;
      tasks := tasks[id := tasks[id].(status := Claimed, token := Some(token), claimedBy := consumer,
                                      leaseUntil := Some(now + lease * SECOND), updatedAt := now)];
      issued := issued + {token};
      latest := latest[id := token];
      return Leased(id, token), pick;
    }

    method SubmitClaims(taskId: string, token: string, claims: seq<Claim>, now: int) returns (reply: Reply)
      modifies this
      ensures var o := DoSubmit(old(Sys()).box, taskId, token, claims, now);
              Becomes(old(Sys()), o, now) && reply == o.reply
    {
      clock := now;
      if taskId == "" || token == "" || taskId !in tasks { return Refused; }
      var row := tasks[taskId];
      if row.status != Claimed || row.token != Some(token) { return Refused; }
      if row.leaseUntil == None || row.leaseUntil.value <= now || row.deadline <= now { return Refused; }
      var result := TaskResult(taskId, claims);
      if !ValidFor(row.request, result) { return Refused; }
      tasks := tasks[taskId := row.(status := Completed, result := Some(result), route := "mcp", updatedAt := now)];
      return Result(result);
    }

    /** Completes an unfinished task, or hands back the winner that is already there. */
    method CompleteWithFallback(taskId: string, result: TaskResult, route: string, now: int) returns (reply: Reply)
      modifies this
      ensures var o := DoFallback(old(Sys()).box, taskId, result, route, now);
              Becomes(old(Sys()), o, now) && reply == o.reply
    {
      clock := now;
      if taskId == "" || route == "" || route == "mcp" || taskId !in tasks { return Refused; }
      var row := tasks[taskId];
      if row.status == Completed {
        if row.result.None? { return Refused; }
        return Result(row.result.value);
      }
      if !ValidFor(row.request, result) { return Refused; }
      tasks := tasks[taskId := row.(status := Completed, result := Some(result), route := route, updatedAt := now)];
      return Result(result);
    }

    /**
     The legacy marker looks the task up first and updates it later; `between` is what other
     parties do in the meantime.
     */
    method MarkAsFallback(taskId: string, route: string, between: seq<Event>, now: int) returns (reply: Reply, ghost mid: System)
      modifies this
      ensures reply == Refused <==> taskId !in old(tasks)
      ensures reply == Refused ==> Sys() == old(Sys())
      ensures reply != Refused ==> mid == After(old(Sys()), between) && reply == Done && Becomes(mid, DoMark(mid.box, taskId, route, now), now)
    {
      mid := Sys();
      if taskId !in tasks { return Refused, mid; }
      var k := 0;
      while k < |between|
        invariant 0 <= k <= |between| && After(old(Sys()), between) == After(Sys(), between[k..])
      {
        assert between[k..][0] == between[k] && between[k..][1..] == between[k + 1..];
        if Enabled(Sys(), between[k]) { var other := Transact(between[k]); }
        k := k + 1;
      }
      mid := Sys();
      var marked := MarkRow(taskId, route, now);
      reply := Done;
    }

    method MarkRow(taskId: string, route: string, now: int) returns (reply: Reply)
      modifies this
      ensures var o := DoMark(old(Sys()).box, taskId, route, now);
              Becomes(old(Sys()), o, now) && reply == o.reply
    {
      clock := now;
      if taskId !in tasks { return Refused; }
      if tasks[taskId].status != Completed {
        tasks := tasks[taskId := tasks[taskId].(status := Fallback, route := route, updatedAt := now)];
      }
      return Done;
    }

    /** Retires the eligible runs of the list, or only reports them. */
    method RetireEach(sorted: seq<string>, cutoff: int, dryRun: bool, now: int) returns (reply: Reply)
      modifies this`tasks, this`runs
      ensures Outcome(Inbox(tasks, runs), reply) ==
              RetireList(Inbox(old(tasks), old(runs)), sorted, cutoff, now, dryRun)
    {
      var eligible: seq<string>, blocked: seq<string>, removed: nat := [], [], 0;
      ghost var whole := RetireList(Inbox(tasks, runs), sorted, cutoff, now, dryRun);
      assert whole == Continue([], [], 0, whole);
      var i := 0;
      while i < |sorted|
        invariant 0 <= i <= |sorted|
        invariant whole == Continue(eligible, blocked, removed,
                                    RetireList(Inbox(tasks, runs), sorted[i..], cutoff, now, dryRun))
      {
        var box := Inbox(tasks, runs);
        assert sorted[i..][1..] == sorted[i + 1..] && sorted[i..][0] == sorted[i];
        ContinueStep(box, sorted[i..], cutoff, now, dryRun, eligible, blocked, removed);
        if Eligible(box, sorted[i], cutoff, now) {
          var gone := TasksOf(tasks, sorted[i]);
          eligible := eligible + [sorted[i]];
          removed := removed + |gone|;
          if !dryRun {
            tasks := tasks - gone;
            runs := runs[sorted[i] := runs[sorted[i]].(retired := true, expected := 0)];
          }
        } else {
          blocked := blocked + [sorted[i]];
        }
        i := i + 1;
      }
      return Retired(eligible, blocked, removed);
    }

    method RetireFinalizedRuns(ids: seq<string>, before: int, dryRun: bool, now: int) returns (reply: Reply)
      modifies this
      ensures var o := DoRetire(old(Sys()).box, ids, before, dryRun, now);
              Becomes(old(Sys()), o, now) && reply == o.reply
    {
      clock := now;
      var sorted := SortedIds(ids);
      if !RetireAccepted(sorted, before, now) { return Refused; }
      reply := RetireEach(sorted, if before > now then now else before, dryRun, now);
    }

    /** Any transaction another party may issue. */
    method Transact(e: Event) returns (reply: Reply)
      requires Enabled(Sys(), e)
      modifies this
      ensures Sys() == Step(old(Sys()), e) && reply == ReplyTo(old(Sys()), e)
    {
      match e.op {
        case Register(requestId, list, wait) => reply := RegisterRun(requestId, list, wait, e.now);
        case Publish(task, wait, runId, deadline) => reply := PublishTask(task, wait, runId, deadline, e.now);
        case ClaimNext(consumer, lease, token, pick) =>
          ghost var found: Option<string>;
          ghost var before := tasks;
          reply, found := ClaimTask(consumer, lease, token, e.now);
          FirstIsUnique(before, e.now, pick, found);
        case Submit(taskId, token, claims) => reply := SubmitClaims(taskId, token, claims, e.now);
        case CompleteFallback(taskId, result, route) => reply := CompleteWithFallback(taskId, result, route, e.now);
        case MarkFallback(taskId, route) => reply := MarkRow(taskId, route, e.now);
        case RetireRuns(ids, before, dryRun) => reply := RetireFinalizedRuns(ids, before, dryRun, e.now);
      }
    }
  }

  /** The state after those of the transactions that are possible. */
  ghost function After(s: System, es: seq<Event>): System
    decreases |es|
  {
    if es == [] then s else After(if Enabled(s, es[0]) then Step(s, es[0]) else s, es[1..])
  }

  /** The query order is total, so the row a claim takes is determined. */
  lemma FirstIsUnique(tasks: Tasks, now: int, a: Option<string>, b: Option<string>)
    requires FirstClaimable(tasks, now, a) && FirstClaimable(tasks, now, b)
    ensures a == b
  {
    if a.Some? && b.Some? { TextOrder(a.value, b.value, a.value); }
  }
}
