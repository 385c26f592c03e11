/** What the tasks of a request are, kind by kind, and when and in which order results assemble into candidates. */
module OrchestrationOutcomes {
  import opened Common
  import opened InboxModel
  import opened Orchestration

  // ------------------------------------------------------------------ the order of evidence

  /** The items with this time, in their order. */
  function SameTime(items: seq<Evidence>, time: Option<string>): seq<Evidence> {
    if items == [] then []
    else SameTime(items[..|items| - 1], time) + (if items[|items| - 1].time == time then [items[|items| - 1]] else [])
  }

  lemma SameTimeNext(items: seq<Evidence>, x: Evidence, time: Option<string>)
    ensures SameTime(items + [x], time) == SameTime(items, time) + (if x.time == time then [x] else [])
  {
    assert (items + [x])[..|items|] == items;
  }

  lemma EqualTimesTie(a: Evidence, b: Evidence)
    requires a.time == b.time
    ensures NotAfter(a, b)
  {
    TimesCompare(a, b, a);
  }

  lemma {:induction false} InsertIsStable(sorted: seq<Evidence>, x: Evidence, time: Option<string>)
    ensures SameTime(Insert(sorted, x), time) == SameTime(sorted, time) + (if x.time == time then [x] else [])
  {
    if sorted == [] {
      SameTimeNext([], x, time);
      assert [] + [x] == [x];
    } else {
      var init, last := sorted[..|sorted| - 1], sorted[|sorted| - 1];
      assert sorted == init + [last];
      if NotAfter(last, x) {
        SameTimeNext(sorted, x, time);
      } else {
        InsertIsStable(init, x, time);
        SameTimeNext(Insert(init, x), last, time);
        if last.time == x.time { EqualTimesTie(last, x); }
      }
    }
  }

  /** Sorting leaves items of one time in the order in which they came. */
  lemma {:induction false} OrderedIsStable(items: seq<Evidence>, time: Option<string>)
    ensures SameTime(Ordered(items), time) == SameTime(items, time)
  {
    if items != [] {
      var init, last := items[..|items| - 1], items[|items| - 1];
      OrderedIsStable(init, time);
      InsertIsStable(Ordered(init), last, time);
    }
  }

  // ----------------------------------------------------------------------- kinds of tasks

  /** The newest items, newest first, as many as may be cited. */
  ghost predicate Newest(items: seq<Evidence>, n: nat, latest: seq<Evidence>) {
    && |latest| == (if |items| <= n then |items| else n)
    && (forall i, j :: 0 <= i < j < |latest| ==> NotAfter(latest[j], latest[i]))
    && exists rest :: LeavesOut(items, latest, rest)
  }

  /** Exactly the items that speak of the marker, oldest first. */
  ghost predicate Speaking(lang: Language, items: seq<Evidence>, marker: Marker, list: seq<Evidence>) {
    && InOrder(list)
    && forall e :: multiset(list)[e] == if lang.matches(e, marker) then multiset(items)[e] else 0
  }

  lemma {:induction false} MatchingKeepsOrder(lang: Language, items: seq<Evidence>, marker: Marker)
    requires InOrder(items)
    ensures InOrder(Matching(lang, items, marker))
  {
    if items != [] {
      var rest := Matching(lang, items[1..], marker);
      assert forall i :: 0 <= i < |items[1..]| ==> items[1..][i] == items[i + 1];
      MatchingKeepsOrder(lang, items[1..], marker);
      forall e | e in rest ensures NotAfter(items[0], e) {
        var i :| 0 <= i < |items[1..]| && items[1..][i] == e;
        assert items[i + 1] == e;
      }
    }
  }

  lemma {:induction false} MatchingCounts(lang: Language, items: seq<Evidence>, marker: Marker, e: Evidence)
    ensures multiset(Matching(lang, items, marker))[e] == if lang.matches(e, marker) then multiset(items)[e] else 0
  {
    if items != [] {
      assert items == [items[0]] + items[1..];
      MatchingCounts(lang, items[1..], marker, e);
    }
  }

  lemma MatchingSpeaks(lang: Language, items: seq<Evidence>, marker: Marker)
    ensures Speaking(lang, items, marker, Matching(lang, Ordered(items), marker))
  {
    OrderedInOrder(items);
    MatchingKeepsOrder(lang, Ordered(items), marker);
    forall e
      ensures multiset(Matching(lang, Ordered(items), marker))[e] == if lang.matches(e, marker) then multiset(items)[e] else 0
    {
      MatchingCounts(lang, Ordered(items), marker, e);
    }
  }

  /** Where an id comes first in the list. */
  function Place(all: seq<Evidence>, id: string): (r: nat)
    ensures r <= |all|
  {
    if all == [] || all[0].id == id then 0 else 1 + Place(all[1..], id)
  }

  /** The item is the first of the list with its id, which is not excluded. */
  ghost predicate Leads(all: seq<Evidence>, excluded: set<string>, e: Evidence) {
    e.id !in excluded && Place(all, e.id) < |all| && all[Place(all, e.id)] == e
  }

  /** The first item of each id that is not excluded, in the order of the list. */
  ghost predicate OnePerId(all: seq<Evidence>, excluded: set<string>, sources: seq<Evidence>) {
    && (forall n :: 0 <= n < |sources| ==> Leads(all, excluded, sources[n]))
    && (forall m, n :: 0 <= m < n < |sources| ==> Place(all, sources[m].id) < Place(all, sources[n].id))
    && Covered(all, excluded, sources)
  }

  ghost predicate HasId(items: seq<Evidence>, id: string) {
    exists x :: x in items && x.id == id
  }

  ghost predicate Covered(all: seq<Evidence>, excluded: set<string>, sources: seq<Evidence>) {
    forall e :: e in all && e.id !in excluded ==> HasId(sources, e.id)
  }

  lemma {:induction false} DedupeIsFirst(all: seq<Evidence>, excluded: set<string>)
    ensures OnePerId(all, excluded, Dedupe(all, excluded))
    decreases |all|
  {
    if all != [] {
      var rest, more := all[1..], excluded + {all[0].id};
      if all[0].id in excluded { assert more == excluded; }
      DedupeIsFirst(rest, more);
      DedupeNext(all, excluded, Dedupe(rest, more), Dedupe(all, excluded));
    }
  }

  lemma PlaceNext(all: seq<Evidence>, id: string)
    requires all != [] && all[0].id != id
    ensures Place(all, id) == 1 + Place(all[1..], id)
    ensures Place(all[1..], id) < |all[1..]| ==> Place(all, id) < |all| && all[Place(all, id)] == all[1..][Place(all[1..], id)]
  {
  }

  lemma DedupeNext(all: seq<Evidence>, excluded: set<string>, later: seq<Evidence>, sources: seq<Evidence>)
    requires all != [] && OnePerId(all[1..], excluded + {all[0].id}, later)
    requires sources == if all[0].id in excluded then later else [all[0]] + later
    ensures OnePerId(all, excluded, sources)
  {
    forall n | 0 <= n < |later|
      ensures Leads(all, excluded, later[n]) && Place(all, later[n].id) == 1 + Place(all[1..], later[n].id)
    {
      assert Leads(all[1..], excluded + {all[0].id}, later[n]);
      PlaceNext(all, later[n].id);
    }
    NoneIsLost(all, excluded, later, sources);
  }

  lemma NoneIsLost(all: seq<Evidence>, excluded: set<string>, later: seq<Evidence>, sources: seq<Evidence>)
    requires all != [] && Covered(all[1..], excluded + {all[0].id}, later)
    requires sources == if all[0].id in excluded then later else [all[0]] + later
    ensures Covered(all, excluded, sources)
  {
    assert all == [all[0]] + all[1..];
    forall e | e in all && e.id !in excluded ensures HasId(sources, e.id) {
      if e.id == all[0].id {
        assert all[0] in sources;
      } else {
        assert HasId(later, e.id);
        var x :| x in later && x.id == e.id;
        assert x in sources;
      }
    }
  }

  /** The lesson sources: what speaks of decisions, then of validation, then the newest, each id once. */
  ghost predicate Sources(lang: Language, items: seq<Evidence>, latest: seq<Evidence>, sources: seq<Evidence>) {
    exists decisions, validations ::
      && Speaking(lang, items, Decision, decisions) && Speaking(lang, items, Validation, validations)
      && OnePerId(decisions + validations + latest, {}, sources)
  }

  lemma LessonSourcesAre(lang: Language, items: seq<Evidence>, latest: seq<Evidence>)
    ensures Sources(lang, items, latest, LessonSources(lang, Ordered(items), latest))
  {
    var decisions, validations := Matching(lang, Ordered(items), Decision), Matching(lang, Ordered(items), Validation);
    MatchingSpeaks(lang, items, Decision);
    MatchingSpeaks(lang, items, Validation);
    DedupeIsFirst(decisions + validations + latest, {});
  }

  /** Tasks on the current state: a newest item and the next, as many as the policy has. */
  ghost predicate CurrentOnes(policy: Policy, topic: string, latest: seq<Evidence>, drafts: seq<Draft>) {
    && |drafts| == Least(policy.currentTasks, |latest|)
    && forall k :: 0 <= k < |drafts| ==>
         drafts[k] == Draft(topic, CurrentState, if k + 1 < |latest| then [latest[k], latest[k + 1]] else [latest[k]])
  }

  /** One task on replacements, if anything speaks of any. */
  ghost predicate ReplacedOnes(policy: Policy, topic: string, replaced: seq<Evidence>, drafts: seq<Draft>) {
    && |drafts| == (if replaced == [] then 0 else 1)
    && (replaced != [] ==> drafts[0] == Draft(topic, SupersededOrRemoved,
                                              if |replaced| < policy.maxEvidence then replaced else replaced[..policy.maxEvidence]))
  }

  /** Lessons from neighbouring sources. */
  ghost predicate LessonOnes(policy: Policy, topic: string, sources: seq<Evidence>, drafts: seq<Draft>) {
    && |drafts| == (if |sources| < 2 then 0 else Least(policy.lessonTasks, |sources| - 1))
    && forall k :: 0 <= k < |drafts| ==> drafts[k] == Draft(topic, DurableLesson, [sources[k], sources[k + 1]])
  }

  /** A task for each of the oldest caveats. */
  ghost predicate CaveatOnes(policy: Policy, topic: string, caveats: seq<Evidence>, drafts: seq<Draft>) {
    && |drafts| == Least(policy.caveatTasks, |caveats|)
    && forall k :: 0 <= k < |drafts| ==> drafts[k] == Draft(topic, Caveat, [caveats[k]])
  }

  ghost predicate Drafted(policy: Policy, topic: string, plan: seq<Draft>, latest: seq<Evidence>, replaced: seq<Evidence>,
                          sources: seq<Evidence>, caveats: seq<Evidence>) {
    exists a, b, c, d ::
      && CurrentOnes(policy, topic, latest, a) && ReplacedOnes(policy, topic, replaced, b)
      && LessonOnes(policy, topic, sources, c) && CaveatOnes(policy, topic, caveats, d)
      && plan == a + b + c + d
  }

  /** The plan of a topic, in full. */
  lemma TopicPlanIs(lang: Language, policy: Policy, topic: string, evidence: seq<Evidence>)
    returns (latest: seq<Evidence>, replaced: seq<Evidence>, sources: seq<Evidence>, caveats: seq<Evidence>)
    ensures evidence == [] ==> TopicPlan(lang, policy, topic, evidence) == []
    ensures Newest(evidence, policy.maxEvidence, latest) && Sources(lang, evidence, latest, sources)
    ensures Speaking(lang, evidence, Replacement, replaced) && Speaking(lang, evidence, CaveatWords, caveats)
    ensures evidence != [] ==> Drafted(policy, topic, TopicPlan(lang, policy, topic, evidence), latest, replaced, sources, caveats)
  {
    var ordered := Ordered(evidence);
    latest := First(Reversed(ordered), policy.maxEvidence);
    replaced, caveats := Matching(lang, ordered, Replacement), Matching(lang, ordered, CaveatWords);
    sources := LessonSources(lang, ordered, latest);
    LatestIsLatest(evidence, policy.maxEvidence);
    MatchingSpeaks(lang, evidence, Replacement);
    MatchingSpeaks(lang, evidence, CaveatWords);
    LessonSourcesAre(lang, evidence, latest);
    if evidence != [] { DraftsJoin(policy, topic, latest, replaced, sources, caveats); }
  }

  lemma DraftsJoin(policy: Policy, topic: string, latest: seq<Evidence>, replaced: seq<Evidence>,
                   sources: seq<Evidence>, caveats: seq<Evidence>)
    ensures Drafted(policy, topic,
                    CurrentDrafts(policy, topic, latest) + ReplacedDrafts(policy, topic, replaced)
                    + LessonDrafts(policy, topic, sources) + CaveatDrafts(topic, First(caveats, policy.caveatTasks)),
                    latest, replaced, sources, caveats)
  {
    CurrentAre(policy, topic, latest);
    OthersAre(policy, topic, replaced, sources, caveats);
  }

  lemma CurrentAre(policy: Policy, topic: string, latest: seq<Evidence>)
    ensures CurrentOnes(policy, topic, latest, CurrentDrafts(policy, topic, latest))
  {
  }

  lemma OthersAre(policy: Policy, topic: string, replaced: seq<Evidence>, sources: seq<Evidence>, caveats: seq<Evidence>)
    ensures ReplacedOnes(policy, topic, replaced, ReplacedDrafts(policy, topic, replaced))
    ensures LessonOnes(policy, topic, sources, LessonDrafts(policy, topic, sources))
    ensures CaveatOnes(policy, topic, caveats, CaveatDrafts(topic, First(caveats, policy.caveatTasks)))
  {
  }

  /** A built task is its draft under the request, numbered from one. */
  lemma TaskIs(request: DreamRequest, plan: seq<Draft>, tasks: seq<ReasoningTask>, k: nat)
    requires Numbered(MakerFor(request), plan, tasks) && k < |tasks|
    ensures var t, d := tasks[k], plan[k];
            && t.requestId == request.requestId && t.topic == d.topic && t.kind == d.kind && t.evidence == d.evidence
            && t.taskId == request.requestId + ":" + Decimal(k + 1) + ":" + (
                 match d.kind
                 case CurrentState => "current_state"
                 case SupersededOrRemoved => "superseded_or_removed"
                 case DurableLesson => "durable_lesson"
                 case Caveat => "caveat")
  {
  }

  // ----------------------------------------------------------------------------- assembly

  /** The claim says something, with a confidence from 0 to 1, citing evidence of the task and no other. */
  ghost predicate Acceptable(lang: Language, task: ReasoningTask, claim: Claim) {
    && !lang.blank(claim.text) && 0.0 <= claim.confidence <= 1.0 && claim.evidence != []
    && forall id :: id in claim.evidence ==> exists e :: e in task.evidence && e.id == id
  }

  ghost predicate AllAcceptable(lang: Language, task: ReasoningTask, claims: seq<Claim>) {
    forall i :: 0 <= i < |claims| ==> Acceptable(lang, task, claims[i])
  }

  /** What refuses a claim: the first of the four checks that it fails. */
  lemma FaultIs(lang: Language, task: ReasoningTask, claim: Claim)
    ensures ClaimFault(lang, task, claim) == None <==> Acceptable(lang, task, claim)
    ensures ClaimFault(lang, task, claim) == Some(BlankClaim) <==> lang.blank(claim.text)
    ensures ClaimFault(lang, task, claim) == Some(ConfidenceOutside) <==>
              !lang.blank(claim.text) && (claim.confidence < 0.0 || claim.confidence > 1.0)
    ensures ClaimFault(lang, task, claim) == Some(NoEvidence) <==>
              !lang.blank(claim.text) && 0.0 <= claim.confidence <= 1.0 && claim.evidence == []
    ensures ClaimFault(lang, task, claim).Some? ==> !ClaimFault(lang, task, claim).value.Assembled? && !SetError(ClaimFault(lang, task, claim).value)
  {
    assert forall id :: id in EvidenceIds(task) <==> exists e :: e in task.evidence && e.id == id;
  }

  type Test = (ReasoningTask, Claim) -> bool

  function CountIf(test: Test, task: ReasoningTask, claims: seq<Claim>): nat {
    if claims == [] then 0 else (if test(task, claims[0]) then 1 else 0) + CountIf(test, task, claims[1..])
  }

  function Advice(lang: Language): Test {
    (t: ReasoningTask, c: Claim) => lang.advice(c.text)
  }

  function Beside(lang: Language): Test {
    (t: ReasoningTask, c: Claim) => !lang.advice(c.text) && !lang.relevant(t.topic, c.text)
  }

  /** The candidates of one result: its wanted claims in order, under their index. */
  ghost function Listed(lang: Language, task: ReasoningTask, claims: seq<Claim>, k: nat): seq<Candidate>
    decreases |claims|
  {
    if claims == [] then []
    else
      (if Wanted(lang, task, claims[0]) then [Candidate(task.taskId, task.topic, task.kind, k, claims[0])] else [])
      + Listed(lang, task, claims[1..], k + 1)
  }

  lemma {:induction false} GatherLists(lang: Language, task: ReasoningTask, claims: seq<Claim>, k: nat, so: Assembly)
    requires so.Assembled?
    ensures var a := Gather(lang, task, claims, k, so);
            && (a.Assembled? <==> AllAcceptable(lang, task, claims)) && !SetError(a)
            && (a.Assembled? ==>
                  && a.candidates == so.candidates + Listed(lang, task, claims, k)
                  && a.droppedAdvice == so.droppedAdvice + CountIf(Advice(lang), task, claims)
                  && a.droppedIrrelevant == so.droppedIrrelevant + CountIf(Beside(lang), task, claims))
    decreases |claims|
  {
    if claims != [] {
      FaultIs(lang, task, claims[0]);
      assert AllAcceptable(lang, task, claims) <==> Acceptable(lang, task, claims[0]) && AllAcceptable(lang, task, claims[1..]) by {
        assert claims == [claims[0]] + claims[1..];
        assert forall i :: 0 <= i < |claims[1..]| ==> claims[1..][i] == claims[i + 1];
      }
      if ClaimFault(lang, task, claims[0]).None? {
        GatherLists(lang, task, claims[1..], k + 1, AddClaim(lang, task, claims[0], k, so));
      }
    }
  }

  /** Over all tasks, each with its own result. */
  ghost function ListedAll(lang: Language, tasks: seq<ReasoningTask>, results: seq<TaskResult>): seq<Candidate> {
    if tasks == [] then [] else Listed(lang, tasks[0], ClaimsFor(results, tasks[0]), 0) + ListedAll(lang, tasks[1..], results)
  }

  function CountAll(test: Test, tasks: seq<ReasoningTask>, results: seq<TaskResult>): nat {
    if tasks == [] then 0 else CountIf(test, tasks[0], ClaimsFor(results, tasks[0])) + CountAll(test, tasks[1..], results)
  }

  function ClaimsFor(results: seq<TaskResult>, task: ReasoningTask): seq<Claim> {
    match ResultFor(results, task.taskId)
    case None => []
    case Some(r) => r.claims
  }

  ghost predicate Answered(lang: Language, tasks: seq<ReasoningTask>, results: seq<TaskResult>) {
    forall t :: t in tasks ==> ResultFor(results, t.taskId).Some? && AllAcceptable(lang, t, ClaimsFor(results, t))
  }

  lemma {:induction false} GatherAllLists(lang: Language, tasks: seq<ReasoningTask>, results: seq<TaskResult>, so: Assembly)
    requires so.Assembled?
    ensures var a := GatherAll(lang, tasks, results, so);
            && (a.Assembled? <==> Answered(lang, tasks, results))
            && (a.Assembled? ==>
                  && a.candidates == so.candidates + ListedAll(lang, tasks, results)
                  && a.droppedAdvice == so.droppedAdvice + CountAll(Advice(lang), tasks, results)
                  && a.droppedIrrelevant == so.droppedIrrelevant + CountAll(Beside(lang), tasks, results))
    decreases |tasks|
  {
    if tasks != [] {
      assert forall t :: t in tasks <==> t == tasks[0] || t in tasks[1..];
      if ResultFor(results, tasks[0].taskId).Some? {
        var claims := ClaimsFor(results, tasks[0]);
        GatherLists(lang, tasks[0], claims, 0, so);
        var next := Gather(lang, tasks[0], claims, 0, so);
        if next.Assembled? { GatherAllLists(lang, tasks[1..], results, next); }
      }
    }
  }

  lemma {:induction false} ResultIsFound(results: seq<TaskResult>, id: string)
    ensures ResultFor(results, id).None? <==> forall r :: r in results ==> r.taskId != id
    ensures ResultFor(results, id).Some? ==> ResultFor(results, id).value in results && ResultFor(results, id).value.taskId == id
  {
    if results != [] {
      var init, last := results[..|results| - 1], results[|results| - 1];
      assert results == init + [last];
      ResultIsFound(init, id);
    }
  }

  /**
   Results assemble exactly when tasks and results are distinct, every task has its result and every result its
   task, and each claim is acceptable; what comes out are the wanted claims in the order of tasks and claims,
   and the numbers of advice claims and of other irrelevant ones.
   */
  lemma AssembledExactly(lang: Language, tasks: seq<ReasoningTask>, results: seq<TaskResult>)
    ensures var a := Assemble(lang, tasks, results);
            && (a.Assembled? <==>
                  && DistinctTasks(tasks) && DistinctResults(results) && SameTaskSet(tasks, results)
                  && forall t :: t in tasks ==> AllAcceptable(lang, t, ClaimsFor(results, t)))
            && (a.DuplicateTask? <==> !DistinctTasks(tasks))
            && (a.DuplicateResult? <==> DistinctTasks(tasks) && !DistinctResults(results))
            && (a.Assembled? ==>
                  && a.candidates == ListedAll(lang, tasks, results)
                  && a.droppedAdvice == CountAll(Advice(lang), tasks, results)
                  && a.droppedIrrelevant == CountAll(Beside(lang), tasks, results))
  {
    if SameTaskSet(tasks, results) {
      forall t | t in tasks ensures ResultFor(results, t.taskId).Some? { ResultIsFound(results, t.taskId); }
    }
    GatherAllLists(lang, tasks, results, Assembled([], 0, 0));
    GatherAllOutcome(lang, tasks, results, Assembled([], 0, 0));
  }

  lemma {:induction false} GatherAllOutcome(lang: Language, tasks: seq<ReasoningTask>, results: seq<TaskResult>, so: Assembly)
    requires so.Assembled?
    ensures !GatherAll(lang, tasks, results, so).DuplicateTask? && !GatherAll(lang, tasks, results, so).DuplicateResult?
    decreases |tasks|
  {
    if tasks != [] && ResultFor(results, tasks[0].taskId).Some? {
      var claims := ResultFor(results, tasks[0].taskId).value.claims;
      GatherLists(lang, tasks[0], claims, 0, so);
      var next := Gather(lang, tasks[0], claims, 0, so);
      if next.Assembled? { GatherAllOutcome(lang, tasks[1..], results, next); }
    }
  }
}
