/** The dream job table, its operations as events, and what every run of them keeps. */
module QueueModel {
  import opened Common

  datatype Status = Pending | Processing | Failed | Processed

  datatype Job = Job(session: string, topics: seq<string>, status: Status, attempts: nat,
                     created: int, updated: int, available: int, error: Option<string>)

  type Jobs = seq<Job>

  datatype Event =
    | Enqueue(session: string, topics: seq<string>, now: int)
    | Claim(id: nat, now: int)
    | Finish(id: nat, now: int)
    | Fail(id: nat, error: string, now: int)
    | Defer(id: nat, until: int, now: int)
    | Retry(ids: seq<nat>, now: int)
    | Requeue(ids: seq<nat>, now: int)
    | Recover(now: int)

  const ERROR_LENGTH: nat := 1000
  const RESTARTED: string := "worker_restarted"
  const QUOTA: string := "quota_exceeded"

  // ------------------------------------------------------------------------ one row

  function Claimed(job: Job, now: int): Job {
    job.(status := Processing, attempts := job.attempts + 1, updated := now, error := None)
  }

  function Finished(job: Job, now: int): Job {
    job.(status := Processed, updated := now)
  }

  function Refused(job: Job, error: string, now: int): Job {
    job.(status := Failed, error := Some(if |error| > ERROR_LENGTH then error[..ERROR_LENGTH] else error), updated := now)
  }

  function Deferred(job: Job, until: int, now: int): Job {
    if job.status != Processing then job
    else job.(status := Pending, available := until, attempts := if job.attempts > 0 then job.attempts - 1 else 0,
              error := Some(QUOTA), updated := now)
  }

  function Retried(job: Job, now: int): Job {
    job.(status := Pending, updated := now)
  }

  function Reset(job: Job, now: int): Job {
    job.(status := Pending, attempts := 0, error := None, available := 0, updated := now)
  }

  function Restarted(job: Job, max: nat, now: int): Job {
    if job.status != Processing then job
    else job.(status := if job.attempts < max then Pending else Failed, error := Some(RESTARTED), updated := now)
  }

  // ---------------------------------------------------------------------- the table

  function Find(jobs: Jobs, session: string): (r: Option<nat>)
    ensures r.Some? ==> r.value < |jobs| && jobs[r.value].session == session
    ensures r.None? ==> forall i :: 0 <= i < |jobs| ==> jobs[i].session != session
  {
    if jobs == [] then None
    else if jobs[|jobs| - 1].session == session then Some(|jobs| - 1)
    else Find(jobs[..|jobs| - 1], session)
  }

  predicate Enabled(jobs: Jobs, e: Event, max: nat) {
    match e
    case Enqueue(_, _, _) => true
    case Claim(id, now) => id < |jobs| && jobs[id].status == Pending && jobs[id].available <= now
    case Finish(id, _) => id < |jobs|
    case Fail(id, _, _) => id < |jobs|
    case Defer(id, _, _) => id < |jobs|
    case Retry(ids, _) => forall id :: id in ids ==> id < |jobs| && jobs[id].status == Failed && jobs[id].attempts < max
    case Requeue(ids, _) => forall id :: id in ids ==> id < |jobs| && jobs[id].status == Failed
    case Recover(_) => true
  }

  /** The table after an event; `max` is the configured number of attempts. */
  function Apply(jobs: Jobs, e: Event, max: nat): (r: Jobs)
    requires Enabled(jobs, e, max)
    ensures |r| == |jobs| || |r| == |jobs| + 1
  {
    match e
    case Enqueue(session, topics, now) => (
      match Find(jobs, session)
      case None => jobs + [Job(session, topics, Pending, 0, now, now, 0, None)]
      case Some(id) => jobs[id := jobs[id].(topics := topics, updated := now)])
    case Claim(id, now) => jobs[id := Claimed(jobs[id], now)]
    case Finish(id, now) => jobs[id := Finished(jobs[id], now)]
    case Fail(id, error, now) => jobs[id := Refused(jobs[id], error, now)]
    case Defer(id, until, now) => jobs[id := Deferred(jobs[id], until, now)]
    case Retry(ids, now) => seq(|jobs|, i requires 0 <= i < |jobs| => if i in ids then Retried(jobs[i], now) else jobs[i])
    case Requeue(ids, now) => seq(|jobs|, i requires 0 <= i < |jobs| => if i in ids then Reset(jobs[i], now) else jobs[i])
    case Recover(now) => seq(|jobs|, i requires 0 <= i < |jobs| => Restarted(jobs[i], max, now))
  }

  // ---------------------------------------------------------------------- invariants

  /** A waiting job has attempts left, a running one has used at least one and at most all. */
  predicate Bounded(job: Job, max: nat) {
    match job.status
    case Pending => job.attempts < max
    case Processing => 1 <= job.attempts <= max
    case _ => job.attempts <= max
  }

  ghost predicate Inv(jobs: Jobs, max: nat) {
    && (forall i :: 0 <= i < |jobs| ==> Bounded(jobs[i], max))
    && (forall i, j :: 0 <= i < j < |jobs| ==> jobs[i].session != jobs[j].session)
  }

  /** Every operation, in any state, keeps the retry bound and one job per session. */
  lemma StepKeepsInv(jobs: Jobs, e: Event, max: nat)
    requires Inv(jobs, max) && Enabled(jobs, e, max) && max >= 1
    ensures Inv(Apply(jobs, e, max), max)
    ensures |jobs| <= |Apply(jobs, e, max)|
    ensures forall i :: 0 <= i < |jobs| ==> Apply(jobs, e, max)[i].session == jobs[i].session
  {
    var after := Apply(jobs, e, max);
    assert forall i :: 0 <= i < |jobs| ==> after[i].session == jobs[i].session && Bounded(after[i], max);
  }

  // ---------------------------------------------------------------------- termination

  function Rank(s: Status): nat {
    match s
    case Pending => 0
    case Failed => 1
    case _ => 2
  }

  /** What a job can still cost. */
  function Cost(job: Job, max: nat): int {
    if job.status == Processed then 0 else 3 * (max - job.attempts) + Rank(job.status)
  }

  function Weight(jobs: Jobs, max: nat): int {
    if jobs == [] then 0 else Weight(jobs[..|jobs| - 1], max) + Cost(jobs[|jobs| - 1], max)
  }

  lemma {:induction false} WeightIsPositive(jobs: Jobs, max: nat)
    requires forall i :: 0 <= i < |jobs| ==> Bounded(jobs[i], max)
    ensures Weight(jobs, max) >= 0
    ensures Weight(jobs, max) == 0 ==> forall i :: 0 <= i < |jobs| ==> jobs[i].status == Processed
  {
    if jobs != [] { WeightIsPositive(jobs[..|jobs| - 1], max); }
  }

  lemma {:induction false} WeightFollowsCosts(a: Jobs, b: Jobs, max: nat)
    requires |a| == |b| && forall i :: 0 <= i < |a| ==> Cost(b[i], max) <= Cost(a[i], max)
    ensures Weight(b, max) <= Weight(a, max)
    ensures (exists i :: 0 <= i < |a| && Cost(b[i], max) < Cost(a[i], max)) ==> Weight(b, max) < Weight(a, max)
  {
    if a != [] { WeightFollowsCosts(a[..|a| - 1], b[..|b| - 1], max); }
  }

  /** The events of a worker that neither receives work nor puts it off, and that change something. */
  predicate Draining(jobs: Jobs, e: Event) {
    match e
    case Claim(_, _) => true
    case Finish(id, _) => id < |jobs| && jobs[id].status != Processed
    case Fail(id, _, _) => id < |jobs| && jobs[id].status == Processing
    case Retry(ids, _) => ids != []
    case Recover(_) => exists i :: 0 <= i < |jobs| && jobs[i].status == Processing
    case _ => false
  }

  /** Each such event lowers the total cost. */
  lemma DrainingDecreases(jobs: Jobs, e: Event, max: nat)
    requires Inv(jobs, max) && Enabled(jobs, e, max) && Draining(jobs, e)
    ensures Weight(Apply(jobs, e, max), max) < Weight(jobs, max)
  {
    var after := Apply(jobs, e, max);
    assert forall i :: 0 <= i < |jobs| ==> Bounded(jobs[i], max);
    match e {
      case Retry(ids, now) => assert ids[0] in ids && Cost(after[ids[0]], max) < Cost(jobs[ids[0]], max);
      case Recover(now) =>
        var i :| 0 <= i < |jobs| && jobs[i].status == Processing;
        assert Cost(after[i], max) < Cost(jobs[i], max);
      case Claim(id, _) => assert Cost(after[id], max) < Cost(jobs[id], max);
      case Finish(id, _) => assert Cost(after[id], max) < Cost(jobs[id], max);
      case Fail(id, _, _) => assert Cost(after[id], max) < Cost(jobs[id], max);
    }
    WeightFollowsCosts(jobs, after, max);
  }

  /** Marking failed does not look at the status: it makes progress exactly on a running job. */
  lemma FailDecreasesExactlyWhenRunning(jobs: Jobs, id: nat, error: string, now: int, max: nat)
    requires Inv(jobs, max) && id < |jobs|
    ensures Weight(Apply(jobs, Fail(id, error, now), max), max) < Weight(jobs, max) <==> jobs[id].status == Processing
  {
    var after := Apply(jobs, Fail(id, error, now), max);
    assert Bounded(jobs[id], max);
    if jobs[id].status == Processing {
      DrainingDecreases(jobs, Fail(id, error, now), max);
    } else {
      WeightFollowsCosts(after, jobs, max);
    }
  }

  ghost predicate Steps(jobs: Jobs, e: Event, after: Jobs, max: nat) {
    Enabled(jobs, e, max) && after == Apply(jobs, e, max)
  }

  lemma StepKeeps(jobs: Jobs, e: Event, after: Jobs, max: nat)
    requires Inv(jobs, max) && Steps(jobs, e, after, max) && max >= 1
    ensures Inv(after, max) && |jobs| <= |after|
  {
    StepKeepsInv(jobs, e, max);
  }

  ghost predicate Run(states: seq<Jobs>, events: seq<Event>, max: nat) {
    && |states| == |events| + 1
    && forall i {:trigger Steps(states[i], events[i], NextOf(states, i), max)} ::
         0 <= i < |events| ==> Steps(states[i], events[i], NextOf(states, i), max)
  }

  function NextOf(states: seq<Jobs>, i: nat): Jobs
    requires i + 1 < |states|
  {
    states[i + 1]
  }

  lemma StepOfRun(states: seq<Jobs>, events: seq<Event>, max: nat, k: nat)
    requires Run(states, events, max) && max >= 1 && k < |events| && Inv(states[k], max)
    ensures Inv(states[k + 1], max) && |states[k]| <= |states[k + 1]|
  {
    assert Steps(states[k], events[k], NextOf(states, k), max);
    StepKeeps(states[k], events[k], NextOf(states, k), max);
  }

  lemma {:induction false} RunKeepsInv(states: seq<Jobs>, events: seq<Event>, max: nat, n: nat)
    requires Run(states, events, max) && max >= 1 && Inv(states[0], max) && n < |states|
    ensures Inv(states[n], max) && |states[0]| <= |states[n]|
  {
    if n > 0 {
      RunKeepsInv(states, events, max, n - 1);
      StepOfRun(states, events, max, n - 1);
    }
  }

  /** A draining run is never longer than the cost it started with: the worker goes idle. */
  lemma {:induction false} RunIsBounded(states: seq<Jobs>, events: seq<Event>, max: nat, n: nat)
    requires Run(states, events, max) && max >= 1 && Inv(states[0], max) && n <= |events|
    requires forall i :: 0 <= i < |events| ==> Draining(states[i], events[i])
    ensures n + Weight(states[n], max) <= Weight(states[0], max) && n <= Weight(states[0], max)
  {
    if n > 0 {
      RunIsBounded(states, events, max, n - 1);
      RunKeepsInv(states, events, max, n - 1);
      assert Draining(states[n - 1], events[n - 1]);
      assert Steps(states[n - 1], events[n - 1], NextOf(states, n - 1), max);
      DrainingDecreases(states[n - 1], events[n - 1], max);
    }
    RunKeepsInv(states, events, max, n);
    WeightIsPositive(states[n], max);
  }

  function ClaimsOf(events: seq<Event>, id: nat): nat {
    if events == [] then 0
    else ClaimsOf(events[..|events| - 1], id) + (if events[|events| - 1].Claim? && events[|events| - 1].id == id then 1 else 0)
  }

  /** With no deferral and no reset, a job is claimed at most as often as attempts are configured. */
  lemma {:induction false} ClaimsAreBounded(states: seq<Jobs>, events: seq<Event>, max: nat, id: nat, n: nat)
    requires Run(states, events, max) && max >= 1 && Inv(states[0], max) && id < |states[0]| && n <= |events|
    requires forall i :: 0 <= i < |events| ==> !events[i].Defer? && !events[i].Requeue?
    ensures |states[0]| <= |states[n]|
    ensures states[n][id].attempts == states[0][id].attempts + ClaimsOf(events[..n], id)
    ensures ClaimsOf(events[..n], id) <= max
  {
    if n > 0 {
      ClaimsAreBounded(states, events, max, id, n - 1);
      assert events[..n][..n - 1] == events[..n - 1];
      AttemptsInRun(states, events, max, id, n - 1);
    }
    RunKeepsInv(states, events, max, n);
    assert Bounded(states[n][id], max);
  }

  lemma AttemptsInRun(states: seq<Jobs>, events: seq<Event>, max: nat, id: nat, k: nat)
    requires Run(states, events, max) && k < |events| && id < |states[k]| && !events[k].Defer? && !events[k].Requeue?
    ensures |states[k]| <= |states[k + 1]|
    ensures states[k + 1][id].attempts == states[k][id].attempts + (if events[k].Claim? && events[k].id == id then 1 else 0)
  {
    assert Steps(states[k], events[k], NextOf(states, k), max);
    AttemptsOnlyByClaim(states[k], events[k], max, id);
  }

  lemma AttemptsOnlyByClaim(jobs: Jobs, e: Event, max: nat, id: nat)
    requires Enabled(jobs, e, max) && id < |jobs| && !e.Defer? && !e.Requeue?
    ensures |jobs| <= |Apply(jobs, e, max)|
    ensures Apply(jobs, e, max)[id].attempts == jobs[id].attempts + (if e.Claim? && e.id == id then 1 else 0)
  {
  }

  // ----------------------------------------------------------------------- selection

  predicate Claimable(job: Job, now: int) {
    job.status == Pending && job.available <= now
  }

  /** The oldest claimable job, if any. */
  ghost predicate IsNext(jobs: Jobs, now: int, r: Option<nat>) {
    match r
    case None => forall i :: 0 <= i < |jobs| ==> !Claimable(jobs[i], now)
    case Some(id) => && id < |jobs| && Claimable(jobs[id], now)
                     && forall i :: 0 <= i < |jobs| && Claimable(jobs[i], now) ==> jobs[id].created <= jobs[i].created
  }

  predicate Retryable(job: Job, cap: Option<int>) {
    job.status == Failed && (cap.Some? ==> job.attempts < cap.value)
  }

  /** Up to `limit` retryable jobs, least recently updated first; a negative limit is no limit. */
  ghost predicate IsSelection(jobs: Jobs, cap: Option<int>, limit: int, ids: seq<nat>) {
    && NoDup(ids) && (limit >= 0 ==> |ids| <= limit)
    && (forall n :: 0 <= n < |ids| ==> ids[n] < |jobs| && Retryable(jobs[ids[n]], cap))
    && (forall m, n :: 0 <= m < n < |ids| ==> jobs[ids[m]].updated <= jobs[ids[n]].updated)
    && (forall i :: 0 <= i < |jobs| && Retryable(jobs[i], cap) && i !in ids ==>
          |ids| == limit && forall n :: 0 <= n < |ids| ==> jobs[ids[n]].updated <= jobs[i].updated)
  }

  /** No job is left that a worker could claim or retry: each is processed, out of attempts, or not due. */
  ghost predicate Settled(jobs: Jobs, max: nat, now: int) {
    forall i :: 0 <= i < |jobs| ==>
      || jobs[i].status == Processed
      || (jobs[i].status == Failed && jobs[i].attempts == max)
      || (jobs[i].status == Pending && jobs[i].available > now)
  }

  // ---------------------------------------------------------------- nobody is forgotten

  /** A session without a job yet. */
  ghost predicate Unseen(jobs: Jobs, session: string) {
    forall i :: 0 <= i < |jobs| ==> jobs[i].session != session
  }

  /** The event is a worker's: it claims, ends a running job, retries or recovers. */
  predicate Working(jobs: Jobs, e: Event) {
    match e
    case Claim(_, _) => true
    case Finish(id, _) => id < |jobs| && jobs[id].status == Processing
    case Fail(id, _, _) => id < |jobs| && jobs[id].status == Processing
    case Defer(id, _, _) => id < |jobs| && jobs[id].status == Processing
    case Retry(_, _) => true
    case Recover(_) => true
    case _ => false
  }

  ghost predicate WorkerRun(states: seq<Jobs>, events: seq<Event>, max: nat) {
    && Run(states, events, max)
    && forall k {:trigger Working(states[k], events[k])} :: 0 <= k < |events| ==> Working(states[k], events[k])
  }

  lemma RunGrows(states: seq<Jobs>, events: seq<Event>, max: nat, e: Event, after: Jobs)
    requires WorkerRun(states, events, max) && Steps(states[|events|], e, after, max) && Working(states[|events|], e)
    ensures WorkerRun(states + [after], events + [e], max)
  {
    var longer, more := states + [after], events + [e];
    forall k | 0 <= k < |more|
      ensures Steps(longer[k], more[k], NextOf(longer, k), max) && Working(longer[k], more[k])
    {
      if k < |events| {
        assert Steps(states[k], events[k], NextOf(states, k), max) && Working(states[k], events[k]);
      }
    }
  }

  lemma OnlyClaimsTouchPending(jobs: Jobs, e: Event, max: nat, i: nat)
    requires Enabled(jobs, e, max) && Working(jobs, e) && i < |jobs| && jobs[i].status == Pending
    requires !(e.Claim? && e.id == i)
    ensures |Apply(jobs, e, max)| == |jobs| && Apply(jobs, e, max)[i] == jobs[i]
  {
  }

  /** A waiting job stays as it is until it is claimed. */
  lemma {:induction false} PendingUntilClaimed(states: seq<Jobs>, events: seq<Event>, max: nat, i: nat, n: nat)
    requires WorkerRun(states, events, max) && n <= |events| && i < |states[0]| && states[0][i].status == Pending
    requires ClaimsOf(events[..n], i) == 0
    ensures i < |states[n]| && states[n][i] == states[0][i]
  {
    if n > 0 {
      assert events[..n][..n - 1] == events[..n - 1];
      PendingUntilClaimed(states, events, max, i, n - 1);
      assert Steps(states[n - 1], events[n - 1], NextOf(states, n - 1), max) && Working(states[n - 1], events[n - 1]);
      OnlyClaimsTouchPending(states[n - 1], events[n - 1], max, i);
    }
  }

  /** When nothing is left to do, every job that was waiting and is due has been claimed. */
  lemma DueJobsAreServed(states: seq<Jobs>, events: seq<Event>, max: nat, i: nat, now: int)
    requires WorkerRun(states, events, max) && Settled(states[|events|], max, now)
    requires i < |states[0]| && states[0][i].status == Pending && states[0][i].available <= now
    ensures ClaimsOf(events, i) >= 1
  {
    assert events[..|events|] == events;
    if ClaimsOf(events, i) == 0 { PendingUntilClaimed(states, events, max, i, |events|); }
  }

  /** A new session's job is found by the next claim at any instant from 0 on. */
  lemma NewSessionIsFound(jobs: Jobs, session: string, topics: seq<string>, sent: int, max: nat, now: int, r: Option<nat>)
    requires Unseen(jobs, session) && now >= 0
    requires IsNext(Apply(jobs, Enqueue(session, topics, sent), max), now, r)
    ensures r.Some?
  {
    var after := Apply(jobs, Enqueue(session, topics, sent), max);
    assert Claimable(after[|jobs|], now);
  }

  /** A new session is dreamed of: by the time a worker has nothing left to do its job has been claimed. */
  lemma NewSessionIsServed(jobs: Jobs, session: string, topics: seq<string>, sent: int, max: nat,
                           states: seq<Jobs>, events: seq<Event>, now: int)
    requires Unseen(jobs, session) && now >= 0 && WorkerRun(states, events, max)
    requires states[0] == Apply(jobs, Enqueue(session, topics, sent), max) && Settled(states[|events|], max, now)
    ensures |states[0]| == |jobs| + 1 && states[0][|jobs|].session == session && ClaimsOf(events, |jobs|) >= 1
  {
    DueJobsAreServed(states, events, max, |jobs|, now);
  }
}
