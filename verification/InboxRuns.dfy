/**
 Runs of the inbox: any transactions in any order under a monotone clock, with
 claim tokens that were never issued before.
 */
module InboxRuns {
  import opened Common
  import opened Text
  import opened InboxModel

  datatype Event = Event(op: Op, now: int)

  /** `issued` and `latest` remember the tokens handed out, and the last one per task. */
  datatype System = System(box: Inbox, clock: int, issued: set<string>, latest: map<string, string>)

  predicate Enabled(s: System, e: Event) {
    && e.now >= s.clock
    && Possible(s.box, e.op, e.now)
    && (e.op.ClaimNext? ==> e.op.token !in s.issued && e.op.token != "")
  }

  ghost function Step(s: System, e: Event): System
    requires Enabled(s, e)
  {
    var o := Apply(s.box, e.op, e.now);
    if o.reply.Leased? then
      System(o.box, e.now, s.issued + {o.reply.token}, s.latest[o.reply.taskId := o.reply.token])
    else System(o.box, e.now, s.issued, s.latest)
  }

  ghost function ReplyTo(s: System, e: Event): Reply
    requires Enabled(s, e)
  {
    Apply(s.box, e.op, e.now).reply
  }

  ghost predicate RowOk(s: System, id: string, row: Row) {
    && row.request.taskId == id
    && (row.token.Some? ==> row.token.value in s.issued)
    && (row.status == Claimed ==> id in s.latest && row.token == Some(s.latest[id]) && row.leaseUntil.Some?)
    && (row.status == Completed <==> row.result.Some?)
    && (row.result.Some? ==> row.result.value.taskId == id)
    && !Retirement(s.box, row.requestId)
  }

  ghost predicate Inv(s: System) {
    forall id :: id in s.box.tasks ==> RowOk(s, id, s.box.tasks[id])
  }

  // ------------------------------------------------------------- registration

  /** The row of an upserted task, whatever the rows before it were. */
  ghost predicate Reset(before: Tasks, after: Tasks, task: TaskRequest, requestId: string, deadline: int, now: int) {
    task.taskId in after && after[task.taskId] == UpsertedRow(before, task, requestId, deadline, now)
  }

  ghost predicate Unlisted(list: seq<TaskRequest>, id: string) {
    forall k :: 0 <= k < |list| ==> list[k].taskId != id
  }

  /** The listed rows are reset, all others as they were. */
  ghost predicate Rewritten(before: Tasks, after: Tasks, list: seq<TaskRequest>, requestId: string, deadline: int, now: int) {
    && (forall k {:trigger Reset(before, after, list[k], requestId, deadline, now)} ::
          0 <= k < |list| ==> Reset(before, after, list[k], requestId, deadline, now))
    && (forall id :: Unlisted(list, id) ==> (id in after <==> id in before) && (id in before ==> after[id] == before[id]))
  }

  lemma {:induction false} UpsertAllRows(tasks: Tasks, list: seq<TaskRequest>, requestId: string, deadline: int, now: int)
    requires UniqueIds(list)
    ensures Rewritten(tasks, UpsertAll(tasks, list, requestId, deadline, now), list, requestId, deadline, now)
    decreases |list|
  {
    if list != [] {
      var mid := Upsert(tasks, list[0], requestId, deadline, now);
      var rest := list[1..];
      UpsertAllRows(mid, rest, requestId, deadline, now);
      var after := UpsertAll(tasks, list, requestId, deadline, now);
      assert forall k :: 0 <= k < |rest| ==> rest[k] == list[k + 1];
      forall k | 0 <= k < |list|
        ensures Reset(tasks, after, list[k], requestId, deadline, now)
      {
        if k > 0 {
          assert Reset(mid, after, rest[k - 1], requestId, deadline, now);
        } else {
          assert Unlisted(rest, list[0].taskId);
        }
      }
      forall id | Unlisted(list, id)
        ensures (id in after <==> id in tasks) && (id in tasks ==> after[id] == tasks[id])
      {
        assert list[0].taskId != id && Unlisted(rest, id);
      }
    }
  }

  /** An accepted registration, as rows. */
  lemma RegisterRewrites(box: Inbox, requestId: string, list: seq<TaskRequest>, wait: int, now: int, after: Inbox)
    requires RegisterAccepted(box, requestId, list, wait) && after == DoRegister(box, requestId, list, wait, now).box
    ensures Rewritten(box.tasks, after.tasks, list, requestId, now + wait, now)
    ensures after.runs == box.runs[requestId := Run(|list|, now + wait, now, false)]
  {
    UpsertAllRows(box.tasks, list, requestId, now + wait, now);
  }

  // --------------------------------------------------------------- retirement

  ghost predicate AfterRetiring(before: Inbox, after: Inbox, gone: set<string>) {
    && after.tasks == (map id | id in before.tasks && before.tasks[id].requestId !in gone :: before.tasks[id])
    && (forall r :: r in after.runs <==> r in before.runs)
    && (forall r :: r in after.runs ==>
          after.runs[r] == if r in gone then before.runs[r].(retired := true, expected := 0) else before.runs[r])
  }

  /** Retiring one run changes nothing another run's eligibility depends on. */
  lemma RetireOneLeavesOthers(box: Inbox, a: string, b: string, cutoff: int, now: int)
    requires a in box.runs && a != b
    ensures TasksOf(RetireOne(box, a).tasks, b) == TasksOf(box.tasks, b)
    ensures Eligible(RetireOne(box, a), b, cutoff, now) == Eligible(box, b, cutoff, now)
    ensures forall id :: id in TasksOf(box.tasks, b) ==> RetireOne(box, a).tasks[id] == box.tasks[id]
  {
    var after := RetireOne(box, a);
    assert forall id :: id in TasksOf(box.tasks, b) ==> id in after.tasks && after.tasks[id] == box.tasks[id];
    assert forall id :: id in TasksOf(after.tasks, b) ==> id in box.tasks && box.tasks[id].requestId == b;
    assert TasksOf(after.tasks, b) == TasksOf(box.tasks, b);
  }

  ghost function TasksOfAll(tasks: Tasks, gone: seq<string>): set<string> {
    set id | id in tasks && tasks[id].requestId in gone
  }

  /**
   The report depends on the starting state alone: eligible and blocked partition the ids in
   order, the count is the rows of the eligible runs, and only a real run changes the inbox.
   */
  ghost predicate ReportOf(box: Inbox, ids: seq<string>, cutoff: int, now: int, dryRun: bool, o: Outcome) {
    && o.reply.Retired?
    && var Retired(eligible, blocked, removed) := o.reply;
       && NoDup(eligible) && NoDup(blocked) && |eligible| + |blocked| == |ids|
       && (forall x :: x in eligible <==> x in ids && Eligible(box, x, cutoff, now))
       && (forall x :: x in blocked <==> x in ids && !Eligible(box, x, cutoff, now))
       && removed == |TasksOfAll(box.tasks, eligible)|
       && if dryRun then o.box == box else AfterRetiring(box, o.box, Elements(eligible))
  }

  lemma TailIds(ids: seq<string>)
    requires NoDup(ids) && ids != []
    ensures NoDup(ids[1..]) && ids[0] !in ids[1..]
    ensures forall x :: x in ids <==> x == ids[0] || x in ids[1..]
  {
    assert ids == [ids[0]] + ids[1..];
    assert forall k :: 0 <= k < |ids[1..]| ==> ids[1..][k] == ids[k + 1];
  }

  lemma CountRows(tasks: Tasks, x: string, rest: seq<string>)
    requires x !in rest
    ensures |TasksOfAll(tasks, [x] + rest)| == |TasksOf(tasks, x)| + |TasksOfAll(tasks, rest)|
  {
    assert TasksOfAll(tasks, [x] + rest) == TasksOf(tasks, x) + TasksOfAll(tasks, rest);
    assert TasksOf(tasks, x) !! TasksOfAll(tasks, rest);
  }

  lemma {:induction false} RetireListReport(box: Inbox, ids: seq<string>, cutoff: int, now: int, dryRun: bool)
    requires NoDup(ids)
    ensures ReportOf(box, ids, cutoff, now, dryRun, RetireList(box, ids, cutoff, now, dryRun))
    decreases |ids|
  {
    var o := RetireList(box, ids, cutoff, now, dryRun);
    if ids == [] {
      assert TasksOfAll(box.tasks, []) == {};
      var none: seq<string> := [];
      assert Elements(none) == {};
    } else {
      TailIds(ids);
      var x, rest := ids[0], ids[1..];
      if Eligible(box, x, cutoff, now) {
        var mid := if dryRun then box else RetireOne(box, x);
        var tail := RetireList(mid, rest, cutoff, now, dryRun);
        RetireListReport(mid, rest, cutoff, now, dryRun);
        RetireEligibleReport(box, x, rest, cutoff, now, dryRun, mid, tail, o);
      } else {
        RetireListReport(box, rest, cutoff, now, dryRun);
      }
    }
  }

  lemma RetireEligibleReport(box: Inbox, x: string, rest: seq<string>, cutoff: int, now: int, dryRun: bool,
                             mid: Inbox, tail: Outcome, o: Outcome)
    requires Eligible(box, x, cutoff, now) && x !in rest && NoDup(rest)
    requires mid == if dryRun then box else RetireOne(box, x)
    requires ReportOf(mid, rest, cutoff, now, dryRun, tail)
    requires o == Outcome(tail.box, Retired([x] + tail.reply.eligible, tail.reply.blocked,
                                            |TasksOf(box.tasks, x)| + tail.reply.removed))
    ensures ReportOf(box, [x] + rest, cutoff, now, dryRun, o)
  {
    var e := tail.reply.eligible;
    forall y | y in rest
      ensures Eligible(mid, y, cutoff, now) == Eligible(box, y, cutoff, now)
    {
      if !dryRun { RetireOneLeavesOthers(box, x, y, cutoff, now); }
    }
    assert x !in e && x !in tail.reply.blocked;
    CountRows(box.tasks, x, e);
    assert TasksOfAll(mid.tasks, e) == TasksOfAll(box.tasks, e);
    if !dryRun { RetireMore(box, x, e, o.box); }
  }

  lemma RetireMore(box: Inbox, x: string, e: seq<string>, after: Inbox)
    requires x in box.runs && AfterRetiring(RetireOne(box, x), after, Elements(e)) && x !in e
    ensures AfterRetiring(box, after, Elements([x] + e))
  {
    assert Elements([x] + e) == {x} + Elements(e);
    assert after.tasks == (map id | id in box.tasks && box.tasks[id].requestId !in Elements([x] + e) :: box.tasks[id]);
  }

  // -------------------------------------------------------------- normalised ids

  lemma {:induction false} InsertTextSpec(ids: seq<string>, x: string)
    requires Ascending(ids)
    ensures Ascending(InsertText(ids, x))
    ensures forall y :: y in InsertText(ids, x) <==> y == x || y in ids
  {
    if ids != [] {
      TextOrder(x, ids[0], x);
      if ids[0] != x && !TextLe(x, ids[0]) {
        var rest := InsertText(ids[1..], x);
        assert forall k :: 0 <= k < |ids[1..]| ==> ids[1..][k] == ids[k + 1];
        InsertTextSpec(ids[1..], x);
        assert forall y :: y in rest ==> TextLt(ids[0], y);
      } else if ids[0] != x {
        forall y | y in ids ensures TextLt(x, y) {
          TextOrder(x, ids[0], y);
          TextOrder(y, x, ids[0]);
        }
      }
    }
  }

  ghost predicate Ascending(ids: seq<string>) {
    forall i, j :: 0 <= i < j < |ids| ==> TextLt(ids[i], ids[j])
  }

  /** Retirement works on the distinct ids, in text order. */
  lemma {:induction false} SortedIdsSpec(ids: seq<string>)
    ensures Ascending(SortedIds(ids)) && NoDup(SortedIds(ids))
    ensures forall y :: y in SortedIds(ids) <==> y in ids
    decreases |ids|
  {
    if ids != [] {
      var init := ids[..|ids| - 1];
      SortedIdsSpec(init);
      InsertTextSpec(SortedIds(init), ids[|ids| - 1]);
      assert ids == init + [ids[|ids| - 1]];
    }
  }
}
