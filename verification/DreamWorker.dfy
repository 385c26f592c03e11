/** The dream queue as an object, the worker that processes claimed jobs, and its main loop. */
module DreamWorker {
  import opened Common
  import opened QueueModel

  /** The least recently updated retryable jobs, in that order. */
  ghost predicate Chosen(jobs: Jobs, cap: Option<int>, ids: seq<nat>) {
    && NoDup(ids) && (forall n :: 0 <= n < |ids| ==> ids[n] < |jobs| && Retryable(jobs[ids[n]], cap))
    && (forall m, n :: 0 <= m < n < |ids| ==> jobs[ids[m]].updated <= jobs[ids[n]].updated)
    && (forall i, n :: 0 <= i < |jobs| && Retryable(jobs[i], cap) && i !in ids && 0 <= n < |ids| ==>
          jobs[ids[n]].updated <= jobs[i].updated)
  }

  ghost function Left(jobs: Jobs, ids: seq<nat>): set<int> {
    set i | 0 <= i < |jobs| && i !in ids
  }

  lemma OneMoreChosen(jobs: Jobs, cap: Option<int>, ids: seq<nat>, next: nat)
    requires Chosen(jobs, cap, ids) && next < |jobs| && next !in ids && Retryable(jobs[next], cap)
    requires forall i :: 0 <= i < |jobs| && Retryable(jobs[i], cap) && i !in ids ==> jobs[next].updated <= jobs[i].updated
    ensures Chosen(jobs, cap, ids + [next]) && Left(jobs, ids + [next]) < Left(jobs, ids)
  {
    assert next in Left(jobs, ids) && next !in Left(jobs, ids + [next]);
  }

  class DreamQueue {
    var jobs: Jobs

    constructor ()
      ensures jobs == []
    {
      jobs := [];
    }

    /** A session has one job; enqueuing again replaces its topics and its time of update. */
    method Enqueue(session: string, topics: seq<string>, now: int, ghost max: nat) returns (id: nat)
      modifies this
      ensures jobs == Apply(old(jobs), Event.Enqueue(session, topics, now), max)
      ensures id < |jobs| && jobs[id].session == session && jobs[id].topics == topics && jobs[id].updated == now
      ensures forall i :: 0 <= i < |old(jobs)| && i != id ==> jobs[i] == old(jobs)[i]
      ensures Unseen(old(jobs), session) ==>
                && |jobs| == |old(jobs)| + 1 && id == |old(jobs)|
                && jobs[id].status == Pending && jobs[id].attempts == 0 && jobs[id].error == None
                && jobs[id].created == now && jobs[id].available == 0
      ensures !Unseen(old(jobs), session) ==>
                && |jobs| == |old(jobs)| && old(jobs)[id].session == session
                && jobs[id].status == old(jobs)[id].status && jobs[id].attempts == old(jobs)[id].attempts
                && jobs[id].error == old(jobs)[id].error && jobs[id].created == old(jobs)[id].created
                && jobs[id].available == old(jobs)[id].available
    {
      var found := Find(jobs, session);
      if found.None? {
        jobs := jobs + [Job(session, topics, Pending, 0, now, now, 0, None)];
        id := |jobs| - 1;
      } else {
        id := found.value;
        jobs := jobs[id := jobs[id].(topics := topics, updated := now)];
      }
    }

    method SelectNext(now: int) returns (r: Option<nat>)
      ensures IsNext(jobs, now, r)
    {
      r := None;
      var i := 0;
      while i < |jobs|
        invariant 0 <= i <= |jobs|
        invariant r.None? ==> forall j :: 0 <= j < i ==> !Claimable(jobs[j], now)
        invariant r.Some? ==> && r.value < i && Claimable(jobs[r.value], now)
                              && forall j :: 0 <= j < i && Claimable(jobs[j], now) ==> jobs[r.value].created <= jobs[j].created
      {
        if Claimable(jobs[i], now) && (r.None? || jobs[i].created < jobs[r.value].created) { r := Some(i); }
        i := i + 1;
      }
    }

    /** Takes the oldest job that is due. */
    method ClaimNext(now: int, ghost max: nat) returns (r: Option<nat>)
      modifies this
      ensures IsNext(old(jobs), now, r)
      ensures r.None? ==> jobs == old(jobs)
      ensures r.Some? ==> jobs == Apply(old(jobs), Claim(r.value, now), max)
      ensures r.Some? ==> var job := old(jobs)[r.value];
                          jobs == old(jobs)[r.value := job.(status := Processing, attempts := job.attempts + 1, updated := now, error := None)]
    {
      r := SelectNext(now);
      if r.Some? { jobs := jobs[r.value := Claimed(jobs[r.value], now)]; }
    }

    /** The retryable job least recently updated, among those not yet chosen. */
    method LeastRecent(cap: Option<int>, ids: seq<nat>) returns (r: Option<nat>)
      ensures r.None? ==> forall i :: 0 <= i < |jobs| && Retryable(jobs[i], cap) ==> i in ids
      ensures r.Some? ==> && r.value < |jobs| && r.value !in ids && Retryable(jobs[r.value], cap)
                          && forall i :: 0 <= i < |jobs| && Retryable(jobs[i], cap) && i !in ids ==> jobs[r.value].updated <= jobs[i].updated
    {
      r := None;
      var i := 0;
      while i < |jobs|
        invariant 0 <= i <= |jobs|
        invariant r.None? ==> forall j :: 0 <= j < i && Retryable(jobs[j], cap) ==> j in ids
        invariant r.Some? ==> && r.value < i && r.value !in ids && Retryable(jobs[r.value], cap)
                              && forall j :: 0 <= j < i && Retryable(jobs[j], cap) && j !in ids ==> jobs[r.value].updated <= jobs[j].updated
      {
        if Retryable(jobs[i], cap) && i !in ids && (r.None? || jobs[i].updated < jobs[r.value].updated) { r := Some(i); }
        i := i + 1;
      }
    }

    method Select(cap: Option<int>, limit: int) returns (ids: seq<nat>)
      ensures IsSelection(jobs, cap, limit, ids)
    {
      ids := [];
      while limit < 0 || |ids| < limit
        invariant limit >= 0 ==> |ids| <= limit
        invariant Chosen(jobs, cap, ids)
        decreases Left(jobs, ids)
      {
        var next := LeastRecent(cap, ids);
        if next.None? { return; }
        OneMoreChosen(jobs, cap, ids, next.value);
        ids := ids + [next.value];
      }
    }

    /** Puts failed jobs with attempts left back in line; `None` for a senseless number of attempts. */
    method RetryFailed(maxAttempts: int, limit: int, now: int) returns (r: Option<nat>, ghost ids: seq<nat>)
      modifies this
      ensures r.None? <==> maxAttempts < 1
      ensures r.None? ==> jobs == old(jobs)
      ensures r.Some? ==> && IsSelection(old(jobs), Some(maxAttempts), limit, ids) && r.value == |ids|
                          && Enabled(old(jobs), Retry(ids, now), maxAttempts) && jobs == Apply(old(jobs), Retry(ids, now), maxAttempts)
      ensures r.Some? ==> |jobs| == |old(jobs)| && forall i :: 0 <= i < |jobs| ==>
                jobs[i] == if i in ids then old(jobs)[i].(status := Pending, updated := now) else old(jobs)[i]
      ensures r.Some? && (limit < 0 || r.value < limit) ==>
                forall i :: 0 <= i < |jobs| && jobs[i].status == Failed ==> jobs[i].attempts >= maxAttempts
    {
      ids := [];
      if maxAttempts < 1 { return None, ids; }
      ghost var before := jobs;
      var chosen := Select(Some(maxAttempts), limit);
      var n := 0;
      while n < |chosen|
        invariant 0 <= n <= |chosen| && |jobs| == |before|
        invariant forall i :: 0 <= i < |before| ==> jobs[i] == if i in chosen[..n] then Retried(before[i], now) else before[i]
      {
        assert chosen[..n + 1] == chosen[..n] + [chosen[n]];
        jobs := jobs[chosen[n] := Retried(jobs[chosen[n]], now)];
        n := n + 1;
      }
      assert chosen[..n] == chosen;
      ids := chosen;
      assert jobs == Apply(before, Retry(ids, now), maxAttempts);
      r := Some(|chosen|);
    }

    /** Gives failed jobs a fresh set of attempts. */
    method RequeueAllFailed(limit: int, now: int, ghost max: nat) returns (r: nat, ghost ids: seq<nat>)
      modifies this
      ensures IsSelection(old(jobs), None, limit, ids) && r == |ids|
      ensures Enabled(old(jobs), Requeue(ids, now), max) && jobs == Apply(old(jobs), Requeue(ids, now), max)
      ensures |jobs| == |old(jobs)| && forall i :: 0 <= i < |jobs| ==>
                jobs[i] == if i in ids then old(jobs)[i].(status := Pending, attempts := 0, error := None, available := 0, updated := now)
                           else old(jobs)[i]
      ensures limit < 0 || r < limit ==> forall i :: 0 <= i < |jobs| ==> jobs[i].status != Failed
    {
      ghost var before := jobs;
      var chosen := Select(None, limit);
      var n := 0;
      while n < |chosen|
        invariant 0 <= n <= |chosen| && |jobs| == |before|
        invariant forall i :: 0 <= i < |before| ==> jobs[i] == if i in chosen[..n] then Reset(before[i], now) else before[i]
      {
        assert chosen[..n + 1] == chosen[..n] + [chosen[n]];
        jobs := jobs[chosen[n] := Reset(jobs[chosen[n]], now)];
        n := n + 1;
      }
      assert chosen[..n] == chosen;
      ids := chosen;
      assert jobs == Apply(before, Requeue(ids, now), max);
      r := |chosen|;
    }

    /** After a restart no job stays running: it waits again, or has failed with its attempts used up. */
    method RecoverProcessing(maxAttempts: int, now: int) returns (r: Option<nat>)
      modifies this
      ensures r.None? <==> maxAttempts < 1
      ensures r.None? ==> jobs == old(jobs)
      ensures r.Some? ==> jobs == Apply(old(jobs), Recover(now), maxAttempts)
      ensures r.Some? ==> |jobs| == |old(jobs)| && forall i :: 0 <= i < |jobs| ==>
                var was := old(jobs)[i];
                jobs[i] == if was.status != Processing then was
                           else was.(status := if was.attempts < maxAttempts then Pending else Failed,
                                     error := Some("worker_restarted"), updated := now)
      ensures r.Some? ==> r.value == |set i | 0 <= i < |old(jobs)| && old(jobs)[i].status == Processing|
    {
      if maxAttempts < 1 { return None; }
      ghost var before := jobs;
      ghost var done: set<int> := {};
      var count := 0;
      var i := 0;
      while i < |jobs|
        invariant 0 <= i <= |jobs| == |before|
        invariant forall j :: 0 <= j < |before| ==> jobs[j] == if j < i then Restarted(before[j], maxAttempts, now) else before[j]
        invariant done == (set j | 0 <= j < i && before[j].status == Processing) && count == |done|
      {
        if jobs[i].status == Processing {
          jobs := jobs[i := Restarted(jobs[i], maxAttempts, now)];
          count := count + 1;
          done := done + {i};
        }
        i := i + 1;
      }
      assert jobs == Apply(before, Recover(now), maxAttempts);
      assert done == set j | 0 <= j < |before| && before[j].status == Processing;
      r := Some(count);
    }

    /** Puts a running job off; false when there is no such job. */
    method Defer(id: nat, retryAfter: int, now: int, ghost max: nat) returns (known: bool)
      modifies this
      ensures known <==> id < |old(jobs)|
      ensures jobs == if known then Apply(old(jobs), Event.Defer(id, now + retryAfter, now), max) else old(jobs)
      ensures known && old(jobs)[id].status != Processing ==> jobs == old(jobs)
      ensures known && old(jobs)[id].status == Processing ==>
                var was := old(jobs)[id];
                jobs == old(jobs)[id := was.(status := Pending, available := now + retryAfter, error := Some("quota_exceeded"), updated := now,
                                             attempts := if was.attempts == 0 then 0 else was.attempts - 1)]
    {
      known := id < |jobs|;
      if known && jobs[id].status == Processing { jobs := jobs[id := Deferred(jobs[id], now + retryAfter, now)]; }
    }

    method MarkProcessed(id: nat, now: int, ghost max: nat) returns (known: bool)
      modifies this
      ensures known <==> id < |old(jobs)|
      ensures jobs == if known then Apply(old(jobs), Finish(id, now), max) else old(jobs)
      ensures known ==> jobs == old(jobs)[id := old(jobs)[id].(status := Processed, updated := now)]
    {
      known := id < |jobs|;
      if known { jobs := jobs[id := Finished(jobs[id], now)]; }
    }

    method MarkFailed(id: nat, error: string, now: int, ghost max: nat) returns (known: bool)
      modifies this
      ensures known <==> id < |old(jobs)|
      ensures jobs == if known then Apply(old(jobs), Fail(id, error, now), max) else old(jobs)
      ensures known ==> && jobs == old(jobs)[id := old(jobs)[id].(status := Failed, error := jobs[id].error, updated := now)]
                        && jobs[id].error.Some? && jobs[id].error.value <= error
                        && |jobs[id].error.value| == (if |error| < 1000 then |error| else 1000)
    {
      known := id < |jobs|;
      if known { jobs := jobs[id := Refused(jobs[id], error, now)]; }
    }
  }

  // ------------------------------------------------------------------------- the worker

  /** How the work on a job ends; `marked`: its session was already marked, `noted`: the failure mark went through. */
  datatype Outcome = Succeeds | RunsOut(retryAfter: int) | Fails(error: string, marked: bool, noted: bool)

  datatype DreamStatus = SessionProcessed | SessionFailed

  function Ending(id: nat, outcome: Outcome, now: int): Event {
    match outcome
    case Succeeds => Finish(id, now)
    case RunsOut(after) => Event.Defer(id, now + after, now)
    case Fails(error, _, _) => Fail(id, error, now)
  }

  function Marks(sessions: map<string, DreamStatus>, session: string, outcome: Outcome): map<string, DreamStatus> {
    match outcome
    case Succeeds => sessions[session := SessionProcessed]
    case RunsOut(_) => sessions
    case Fails(_, marked, noted) =>
      if noted then sessions[session := SessionFailed]
      else if marked then sessions[session := SessionProcessed] else sessions
  }

  /** A processed job's session is marked processed. */
  ghost predicate SessionsFollow(jobs: Jobs, sessions: map<string, DreamStatus>) {
    forall i :: 0 <= i < |jobs| && jobs[i].status == Processed ==>
      jobs[i].session in sessions && sessions[jobs[i].session] == SessionProcessed
  }

  /** How a running job may end: done, put off with its attempt given back, or failed; nothing else changes. */
  ghost predicate Ended(before: Jobs, after: Jobs, were: map<string, DreamStatus>, sessions: map<string, DreamStatus>,
                        id: nat, outcome: Outcome, now: int) {
    && id < |before| == |after| && (forall i :: 0 <= i < |before| && i != id ==> after[i] == before[i])
    && var was, job := before[id], after[id];
       && job.session == was.session && job.topics == was.topics && job.created == was.created && job.updated == now
       && (forall other :: other != was.session ==>
             (other in sessions <==> other in were) && (other in sessions ==> sessions[other] == were[other]))
       && match outcome
          case Succeeds =>
            && job.status == Processed && job.attempts == was.attempts && job.available == was.available && job.error == was.error
            && was.session in sessions && sessions[was.session] == SessionProcessed
          case RunsOut(retryAfter) =>
            && job.status == Pending && job.available == now + retryAfter && job.error == Some("quota_exceeded")
            && job.attempts == (if was.attempts == 0 then 0 else was.attempts - 1)
            && sessions == were
          case Fails(error, marked, noted) =>
            && job.status == Failed && job.attempts == was.attempts && job.available == was.available
            && job.error.Some? && job.error.value <= error && |job.error.value| == (if |error| < 1000 then |error| else 1000)
            && (noted || marked ==>
                  was.session in sessions && sessions[was.session] == if noted then SessionFailed else SessionProcessed)
            && (!noted && !marked ==> sessions == were)
  }

  class Worker {
    const queue: DreamQueue
    var sessions: map<string, DreamStatus>

    constructor (queue: DreamQueue)
      ensures this.queue == queue && sessions == map[]
    {
      this.queue := queue;
      sessions := map[];
    }

    /** The end of a claimed job; `None` when the job was not claimed first. */
    method ProcessScopedJob(id: nat, outcome: Outcome, now: int, ghost max: nat) returns (r: Option<Outcome>)
      requires id < |queue.jobs|
      modifies this, queue
      ensures r == if old(queue.jobs)[id].status == Processing then Some(outcome) else None
      ensures r.None? ==> queue.jobs == old(queue.jobs) && sessions == old(sessions)
      ensures r.Some? ==> && queue.jobs == Apply(old(queue.jobs), Ending(id, outcome, now), max)
                          && sessions == Marks(old(sessions), old(queue.jobs)[id].session, outcome)
      ensures r.Some? ==> Ended(old(queue.jobs), queue.jobs, old(sessions), sessions, id, outcome, now)
    {
      var job := queue.jobs[id];
      if job.status != Processing { return None; }
      var known: bool;
      match outcome {
        case Succeeds =>
          sessions := sessions[job.session := SessionProcessed];
          known := queue.MarkProcessed(id, now, max);
        case RunsOut(after) =>
          known := queue.Defer(id, after, now, max);
        case Fails(error, marked, noted) =>
          if marked { sessions := sessions[job.session := SessionProcessed]; }
          if noted { sessions := sessions[job.session := SessionFailed]; }
          known := queue.MarkFailed(id, error, now, max);
      }
      r := Some(outcome);
    }

    /** Claims a job and sees it through; `None` when no job is due. */
    method ProcessNext(outcome: Outcome, now: int, ghost max: nat) returns (r: Option<nat>)
      requires Inv(queue.jobs, max) && max >= 1
      modifies this, queue
      ensures IsNext(old(queue.jobs), now, r)
      ensures r.None? ==> queue.jobs == old(queue.jobs) && sessions == old(sessions)
      ensures r.Some? ==> && queue.jobs == Worked(old(queue.jobs), r.value, outcome, now, max)
                          && sessions == Marks(old(sessions), old(queue.jobs)[r.value].session, outcome)
      ensures Inv(queue.jobs, max)
      ensures r.Some? && !outcome.RunsOut? ==> Weight(queue.jobs, max) < Weight(old(queue.jobs), max)
      ensures r.Some? && outcome.RunsOut? ==> Weight(queue.jobs, max) == Weight(old(queue.jobs), max)
      ensures SessionsFollow(old(queue.jobs), old(sessions)) ==> SessionsFollow(queue.jobs, sessions)
    {
      ghost var before, were := queue.jobs, sessions;
      r := queue.ClaimNext(now, max);
      if r.Some? {
        ghost var claimed := queue.jobs;
        StepKeepsInv(before, Claim(r.value, now), max);
        var ended := ProcessScopedJob(r.value, outcome, now, max);
        StepKeepsInv(claimed, Ending(r.value, outcome, now), max);
        WorkDecreases(before, r.value, outcome, now, max);
        SessionsKeepFollowing(before, were, r.value, outcome, now, max);
      }
    }

    /** With no job due, one failed job is retried; without one the worker is idle. */
    method RetryOne(maxAttempts: int, now: int) returns (idle: bool, ghost e: Event)
      requires maxAttempts >= 1 && Inv(queue.jobs, maxAttempts) && Quiet(queue.jobs) && IsNext(queue.jobs, now, None)
      modifies queue
      ensures idle ==> queue.jobs == old(queue.jobs) && Settled(queue.jobs, maxAttempts, now)
      ensures !idle ==> && Steps(old(queue.jobs), e, queue.jobs, maxAttempts) && Working(old(queue.jobs), e) && LastResort(old(queue.jobs), e)
                        && 0 <= Weight(queue.jobs, maxAttempts) < Weight(old(queue.jobs), maxAttempts)
      ensures Inv(queue.jobs, maxAttempts) && Quiet(queue.jobs)
      ensures SessionsFollow(old(queue.jobs), sessions) ==> SessionsFollow(queue.jobs, sessions)
    {
      ghost var before := queue.jobs;
      var retried: Option<nat>;
      ghost var ids: seq<nat>;
      retried, ids := queue.RetryFailed(maxAttempts, 1, now);
      e := Retry(ids, now);
      idle := retried.value == 0;
      if idle {
        assert ids == [] && queue.jobs == before;
        NothingLeft(before, now, maxAttempts);
      } else {
        RetryRound(before, ids, now, maxAttempts);
      }
    }

    /**
     The main loop, up to the first moment it has nothing to do or is told to stop. Without new
     work, and once no more jobs are deferred, it is not busy for longer than the queue's initial
     cost; when it is idle every job is settled, and every job that was waiting and due at the start,
     or due by now, has been claimed.
     */
    method RunUntilIdle(maxAttempts: int, clock: nat -> int, outcome: nat -> Outcome, stop: nat -> bool, ghost calm: nat)
      returns (idle: bool, rounds: nat, ghost states: seq<Jobs>, ghost events: seq<Event>)
      requires maxAttempts >= 1 ==> Inv(queue.jobs, maxAttempts)
      requires forall n :: n >= calm ==> !outcome(n).RunsOut?
      modifies this, queue
      ensures maxAttempts < 1 ==> !idle && rounds == 0 && queue.jobs == old(queue.jobs)
      ensures maxAttempts >= 1 ==> Inv(queue.jobs, maxAttempts) && rounds <= Weight(old(queue.jobs), maxAttempts) + calm
      ensures maxAttempts >= 1 ==> Quiet(queue.jobs)
      ensures idle ==> Settled(queue.jobs, maxAttempts, clock(rounds))
      ensures maxAttempts >= 1 && !idle ==> stop(rounds)
      ensures SessionsFollow(old(queue.jobs), old(sessions)) ==> SessionsFollow(queue.jobs, sessions)
      ensures maxAttempts >= 1 ==>
                Logged(states, events, maxAttempts, old(queue.jobs), queue.jobs)
      ensures idle ==> forall i :: 0 <= i < |old(queue.jobs)| && Claimable(old(queue.jobs)[i], clock(rounds)) ==> ClaimsOf(events, i) >= 1
    {
      idle, rounds, states, events := false, 0, [queue.jobs], [];
      ghost var first := queue.jobs;
      var recovered := queue.RecoverProcessing(maxAttempts, clock(0));
      if recovered.None? { return; }
      RecoveryKeeps(first, clock(0), maxAttempts);
      LogGrows(states, events, maxAttempts, first, first, Recover(clock(0)), queue.jobs);
      states, events := states + [queue.jobs], events + [Recover(clock(0))];
      while !stop(rounds)
        invariant Inv(queue.jobs, maxAttempts) && Weight(queue.jobs, maxAttempts) >= 0
        invariant rounds + Weight(queue.jobs, maxAttempts) <= Weight(first, maxAttempts) + if rounds < calm then rounds else calm
        invariant Quiet(queue.jobs)
        invariant Logged(states, events, maxAttempts, first, queue.jobs)
        invariant SessionsFollow(first, old(sessions)) ==> SessionsFollow(queue.jobs, sessions)
        decreases if rounds < calm then calm - rounds else 0, Weight(queue.jobs, maxAttempts)
      {
        ghost var before := queue.jobs;
        var now := clock(rounds);
        var result := ProcessNext(outcome(rounds), now, maxAttempts);
        if result.None? {
          ghost var e: Event;
          idle, e := RetryOne(maxAttempts, now);
          if idle {
            AllServed(states, events, maxAttempts, first, before, now);
            return;
          }
          LogGrows(states, events, maxAttempts, first, before, e, queue.jobs);
          states, events := states + [queue.jobs], events + [e];
        } else {
          WorkedIsQuiet(before, result.value, outcome(rounds), now, maxAttempts);
          WeightIsPositive(queue.jobs, maxAttempts);
          states, events := WorkLogged(states, events, maxAttempts, first, before, result.value, outcome(rounds), now);
        }
        rounds := rounds + 1;
      }
    }
  }

  /** The table after a claim and the end of that job. */
  function Worked(jobs: Jobs, id: nat, outcome: Outcome, now: int, max: nat): Jobs
    requires id < |jobs| && Claimable(jobs[id], now)
  {
    Apply(Apply(jobs, Claim(id, now), max), Ending(id, outcome, now), max)
  }

  /** A retry takes one job, and only when no job is due. */
  ghost predicate LastResort(jobs: Jobs, e: Event) {
    e.Retry? ==> |e.ids| == 1 && IsNext(jobs, e.now, None)
  }

  /** The run of a worker that leads from one table to another. */
  ghost predicate Logged(states: seq<Jobs>, events: seq<Event>, max: nat, first: Jobs, jobs: Jobs) {
    && WorkerRun(states, events, max) && states[0] == first && states[|events|] == jobs
    && forall k {:trigger LastResort(states[k], events[k])} :: 0 <= k < |events| ==> LastResort(states[k], events[k])
  }

  lemma LogGrows(states: seq<Jobs>, events: seq<Event>, max: nat, first: Jobs, jobs: Jobs, e: Event, after: Jobs)
    requires Logged(states, events, max, first, jobs) && Steps(jobs, e, after, max) && Working(jobs, e) && LastResort(jobs, e)
    ensures Logged(states + [after], events + [e], max, first, after)
  {
    RunGrows(states, events, max, e, after);
    forall k | 0 <= k < |events| + 1 ensures LastResort((states + [after])[k], (events + [e])[k]) {
      if k < |events| { assert LastResort(states[k], events[k]); }
    }
  }

  /** A claim and the end of its job are two steps of the run. */
  lemma WorkLogged(states: seq<Jobs>, events: seq<Event>, max: nat, first: Jobs, jobs: Jobs, id: nat, outcome: Outcome, now: int)
    returns (longer: seq<Jobs>, more: seq<Event>)
    requires Logged(states, events, max, first, jobs) && id < |jobs| && Claimable(jobs[id], now)
    ensures Logged(longer, more, max, first, Worked(jobs, id, outcome, now, max))
  {
    var claimed, worked := Apply(jobs, Claim(id, now), max), Worked(jobs, id, outcome, now, max);
    LogGrows(states, events, max, first, jobs, Claim(id, now), claimed);
    longer, more := states + [claimed], events + [Claim(id, now)];
    LogGrows(longer, more, max, first, claimed, Ending(id, outcome, now), worked);
    longer, more := longer + [worked], more + [Ending(id, outcome, now)];
  }

  lemma AllServed(states: seq<Jobs>, events: seq<Event>, max: nat, first: Jobs, jobs: Jobs, now: int)
    requires Logged(states, events, max, first, jobs) && Settled(jobs, max, now)
    ensures forall i :: 0 <= i < |first| && Claimable(first[i], now) ==> ClaimsOf(events, i) >= 1
  {
    forall i | 0 <= i < |first| && Claimable(first[i], now)
      ensures ClaimsOf(events, i) >= 1
    {
      DueJobsAreServed(states, events, max, i, now);
    }
  }

  lemma WorkDecreases(jobs: Jobs, id: nat, outcome: Outcome, now: int, max: nat)
    requires Inv(jobs, max) && id < |jobs| && Claimable(jobs[id], now) && max >= 1
    ensures !outcome.RunsOut? ==> Weight(Worked(jobs, id, outcome, now, max), max) < Weight(jobs, max)
    ensures outcome.RunsOut? ==> Weight(Worked(jobs, id, outcome, now, max), max) == Weight(jobs, max)
  {
    if outcome.RunsOut? { DeferralIsFree(jobs, id, outcome.retryAfter, now, max); }
    var claimed := Apply(jobs, Claim(id, now), max);
    StepKeepsInv(jobs, Claim(id, now), max);
    DrainingDecreases(jobs, Claim(id, now), max);
    if !outcome.RunsOut? { DrainingDecreases(claimed, Ending(id, outcome, now), max); }
  }

  /** A claim that ends in a deferral gives its attempt back. */
  lemma DeferralIsFree(jobs: Jobs, id: nat, after: int, now: int, max: nat)
    requires id < |jobs| && Claimable(jobs[id], now)
    ensures Weight(Worked(jobs, id, RunsOut(after), now, max), max) == Weight(jobs, max)
  {
    var worked := Worked(jobs, id, RunsOut(after), now, max);
    assert forall i :: 0 <= i < |jobs| ==> Cost(worked[i], max) == Cost(jobs[i], max);
    WeightFollowsCosts(jobs, worked, max);
    WeightFollowsCosts(worked, jobs, max);
  }

  lemma SessionsKeepFollowing(jobs: Jobs, sessions: map<string, DreamStatus>, id: nat, outcome: Outcome, now: int, max: nat)
    requires Inv(jobs, max) && id < |jobs| && Claimable(jobs[id], now)
    ensures SessionsFollow(jobs, sessions) ==>
              SessionsFollow(Worked(jobs, id, outcome, now, max), Marks(sessions, jobs[id].session, outcome))
  {
    if SessionsFollow(jobs, sessions) {
      var after := Worked(jobs, id, outcome, now, max);
      assert forall i :: 0 <= i < |jobs| && i != id ==> after[i] == jobs[i];
      assert after[id].session == jobs[id].session;
    }
  }

  /** No job is running. */
  ghost predicate Quiet(jobs: Jobs) {
    forall i :: 0 <= i < |jobs| ==> jobs[i].status != Processing
  }

  lemma WorkedIsQuiet(jobs: Jobs, id: nat, outcome: Outcome, now: int, max: nat)
    requires id < |jobs| && Claimable(jobs[id], now) && Quiet(jobs)
    ensures Quiet(Worked(jobs, id, outcome, now, max))
  {
    var after := Worked(jobs, id, outcome, now, max);
    assert forall i :: 0 <= i < |jobs| && i != id ==> after[i] == jobs[i];
  }

  lemma RetryRound(jobs: Jobs, ids: seq<nat>, now: int, max: nat)
    requires Inv(jobs, max) && max >= 1 && Quiet(jobs) && ids != [] && Enabled(jobs, Retry(ids, now), max)
    ensures var after := Apply(jobs, Retry(ids, now), max);
            && Inv(after, max) && 0 <= Weight(after, max) < Weight(jobs, max) && Quiet(after)
            && forall sessions :: SessionsFollow(jobs, sessions) ==> SessionsFollow(after, sessions)
  {
    var after := Apply(jobs, Retry(ids, now), max);
    StepKeepsInv(jobs, Retry(ids, now), max);
    DrainingDecreases(jobs, Retry(ids, now), max);
    WeightIsPositive(after, max);
  }

  lemma NothingLeft(jobs: Jobs, now: int, max: nat)
    requires Inv(jobs, max) && Quiet(jobs) && IsNext(jobs, now, None) && IsSelection(jobs, Some(max), 1, [])
    ensures Settled(jobs, max, now)
  {
    forall i | 0 <= i < |jobs|
      ensures || jobs[i].status == Processed || (jobs[i].status == Failed && jobs[i].attempts == max)
              || (jobs[i].status == Pending && jobs[i].available > now)
    {
      assert Bounded(jobs[i], max) && !Claimable(jobs[i], now) && i !in [];
      assert !Retryable(jobs[i], Some(max));
    }
  }

  lemma RecoveryKeeps(jobs: Jobs, now: int, max: nat)
    requires Inv(jobs, max) && max >= 1
    ensures var after := Apply(jobs, Recover(now), max);
            && Inv(after, max) && 0 <= Weight(after, max) <= Weight(jobs, max)
            && Quiet(after)
            && forall sessions :: SessionsFollow(jobs, sessions) ==> SessionsFollow(after, sessions)
  {
    var after := Apply(jobs, Recover(now), max);
    StepKeepsInv(jobs, Recover(now), max);
    WeightFollowsCosts(jobs, after, max);
    WeightIsPositive(after, max);
  }
}
