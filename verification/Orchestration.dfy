/** Decomposing a dream request into reasoning tasks, and assembling their results. */
module Orchestration {
  import opened Common
  import opened Text
  import opened InboxModel

  datatype Kind = CurrentState | SupersededOrRemoved | DurableLesson | Caveat

  function KindText(kind: Kind): string {
    match kind
    case CurrentState => "current_state"
    case SupersededOrRemoved => "superseded_or_removed"
    case DurableLesson => "durable_lesson"
    case Caveat => "caveat"
  }

  datatype Marker = Replacement | CaveatWords | Validation | Decision

  datatype Evidence = Evidence(id: string, content: string, time: Option<string>)

  datatype DreamRequest = DreamRequest(requestId: string, topics: seq<string>, evidence: map<string, seq<Evidence>>)

  datatype ReasoningTask = ReasoningTask(
    taskId: string, requestId: string, topic: string, kind: Kind, evidence: seq<Evidence>)

  datatype Policy = Policy(maxEvidence: nat, currentTasks: nat, lessonTasks: nat, caveatTasks: nat)

  const DEFAULT_POLICY := Policy(4, 2, 2, 2)

  /** Marker words, blank and advice claims and topic relevance are text tests left open. */
  datatype Language = Language(
    matches: (Evidence, Marker) -> bool, blank: string -> bool, advice: string -> bool,
    relevant: (string, string) -> bool)

  // ---------------------------------------------------------------- evidence order

  predicate NotAfter(a: Evidence, b: Evidence) {
    match (a.time, b.time)
    case (None, None) => true
    case (None, Some(_)) => false
    case (Some(_), None) => true
    case (Some(t), Some(u)) => TextLe(t, u)
  }

  /** Stable: an item goes behind everything it does not precede. */
  function Insert(sorted: seq<Evidence>, x: Evidence): (r: seq<Evidence>)
    ensures forall e :: e in r <==> e == x || e in sorted
    ensures |r| == |sorted| + 1
  {
    if sorted == [] then [x]
    else if NotAfter(sorted[|sorted| - 1], x) then sorted + [x]
    else
      assert sorted == sorted[..|sorted| - 1] + [sorted[|sorted| - 1]];
      Insert(sorted[..|sorted| - 1], x) + [sorted[|sorted| - 1]]
  }

  function Ordered(items: seq<Evidence>): (r: seq<Evidence>)
    ensures forall e :: e in r <==> e in items
    ensures |r| == |items|
  {
    if items == [] then []
    else
      assert items == items[..|items| - 1] + [items[|items| - 1]];
      Insert(Ordered(items[..|items| - 1]), items[|items| - 1])
  }

  function Reversed(items: seq<Evidence>): (r: seq<Evidence>)
    ensures |r| == |items| && forall k :: 0 <= k < |r| ==> r[k] == items[|items| - 1 - k]
  {
    seq(|items|, k requires 0 <= k < |items| => items[|items| - 1 - k])
  }

  function First(items: seq<Evidence>, n: nat): seq<Evidence> {
    if |items| <= n then items else items[..n]
  }

  ghost predicate InOrder(items: seq<Evidence>) {
    forall i, j :: 0 <= i < j < |items| ==> NotAfter(items[i], items[j])
  }

  lemma TimesCompare(a: Evidence, b: Evidence, c: Evidence)
    ensures NotAfter(a, b) || NotAfter(b, a)
    ensures NotAfter(a, b) && NotAfter(b, c) ==> NotAfter(a, c)
  {
    if a.time.Some? && b.time.Some? {
      TextOrder(a.time.value, b.time.value, if c.time.Some? then c.time.value else "");
    }
  }

  lemma {:induction false} InsertInOrder(sorted: seq<Evidence>, x: Evidence)
    requires InOrder(sorted)
    ensures InOrder(Insert(sorted, x)) && multiset(Insert(sorted, x)) == multiset(sorted) + multiset{x}
  {
    if sorted != [] {
      var n := |sorted| - 1;
      var last := sorted[n];
      assert sorted == sorted[..n] + [last];
      if NotAfter(last, x) {
        forall e | e in sorted ensures NotAfter(e, x) {
          TimesCompare(e, last, x);
          TimesCompare(e, e, e);
        }
      } else {
        InsertInOrder(sorted[..n], x);
        TimesCompare(last, x, x);
        assert forall e :: e in Insert(sorted[..n], x) ==> NotAfter(e, last);
      }
    }
  }

  lemma {:induction false} OrderedInOrder(items: seq<Evidence>)
    ensures InOrder(Ordered(items)) && multiset(Ordered(items)) == multiset(items)
  {
    if items != [] {
      var n := |items| - 1;
      assert items == items[..n] + [items[n]];
      OrderedInOrder(items[..n]);
      InsertInOrder(Ordered(items[..n]), items[n]);
    }
  }

  /** The evidence called latest: items without a time first, then the newest; nothing left out comes after any of it. */
  lemma LatestIsLatest(items: seq<Evidence>, n: nat)
    ensures var latest := First(Reversed(Ordered(items)), n);
            && |latest| == (if |items| <= n then |items| else n)
            && (forall i, j :: 0 <= i < j < |latest| ==> NotAfter(latest[j], latest[i]))
            && exists rest :: LeavesOut(items, latest, rest)
  {
    OrderedInOrder(items);
    TakeLast(items, Ordered(items), First(Reversed(Ordered(items)), n));
  }

  lemma TakeLast(items: seq<Evidence>, ordered: seq<Evidence>, latest: seq<Evidence>)
    requires InOrder(ordered) && multiset(ordered) == multiset(items) && |latest| <= |ordered|
    requires forall i :: 0 <= i < |latest| ==> latest[i] == ordered[|ordered| - 1 - i]
    ensures forall i, j :: 0 <= i < j < |latest| ==> NotAfter(latest[j], latest[i])
    ensures exists rest :: LeavesOut(items, latest, rest)
  {
    var m := |ordered| - |latest|;
    var rest, tail := ordered[..m], ordered[m..];
    assert ordered == rest + tail;
    assert forall i :: 0 <= i < |latest| ==> latest[i] == tail[|tail| - 1 - i];
    SameItems(tail, latest);
    assert LeavesOut(items, latest, rest);
  }

  ghost predicate LeavesOut(items: seq<Evidence>, latest: seq<Evidence>, rest: seq<Evidence>) {
    && multiset(items) == multiset(latest) + multiset(rest)
    && forall k, i :: 0 <= k < |rest| && 0 <= i < |latest| ==> NotAfter(rest[k], latest[i])
  }

  lemma {:induction false} SameItems(a: seq<Evidence>, b: seq<Evidence>)
    requires |a| == |b| && forall i :: 0 <= i < |b| ==> b[i] == a[|a| - 1 - i]
    ensures multiset(a) == multiset(b)
  {
    if a != [] {
      var n := |a| - 1;
      SameItems(a[..n], b[1..]);
      assert a == a[..n] + [a[n]] && b == [b[0]] + b[1..];
    }
  }

  function Matching(lang: Language, items: seq<Evidence>, marker: Marker): (r: seq<Evidence>)
    ensures forall e :: e in r <==> e in items && lang.matches(e, marker)
  {
    if items == [] then []
    else
      assert items == [items[0]] + items[1..];
      (if lang.matches(items[0], marker) then [items[0]] else []) + Matching(lang, items[1..], marker)
  }

  /** First occurrence of each evidence id. */
  function Dedupe(items: seq<Evidence>, seen: set<string>): (r: seq<Evidence>)
    ensures forall e :: e in r ==> e in items && e.id !in seen
  {
    if items == [] then []
    else
      assert items == [items[0]] + items[1..];
      if items[0].id in seen then Dedupe(items[1..], seen)
      else [items[0]] + Dedupe(items[1..], seen + {items[0].id})
  }

  // -------------------------------------------------------------------- the plan

  datatype Draft = Draft(topic: string, kind: Kind, evidence: seq<Evidence>)

  function Least(a: nat, b: nat): nat {
    if a < b then a else b
  }

  /** Drafts about one topic that cite only the given items. */
  ghost predicate Cites(drafts: seq<Draft>, topic: string, items: seq<Evidence>) {
    forall d :: d in drafts ==> d.topic == topic && forall e :: e in d.evidence ==> e in items
  }

  function CurrentDrafts(policy: Policy, topic: string, latest: seq<Evidence>): (r: seq<Draft>)
    ensures Cites(r, topic, latest)
  {
    seq(Least(policy.currentTasks, |latest|),
        k requires 0 <= k < |latest| => Draft(topic, CurrentState, First(latest[k..], 2)))
  }

  function ReplacedDrafts(policy: Policy, topic: string, replacement: seq<Evidence>): (r: seq<Draft>)
    ensures Cites(r, topic, replacement)
  {
    if replacement == [] then []
    else [Draft(topic, SupersededOrRemoved, First(replacement, policy.maxEvidence))]
  }

  function LessonDrafts(policy: Policy, topic: string, sources: seq<Evidence>): (r: seq<Draft>)
    ensures Cites(r, topic, sources)
  {
    var pairs := if |sources| >= 2 then Least(policy.lessonTasks, |sources| - 1) else 0;
    seq(pairs, k requires 0 <= k < |sources| - 1 => Draft(topic, DurableLesson, [sources[k], sources[k + 1]]))
  }

  function CaveatDrafts(topic: string, caveats: seq<Evidence>): (r: seq<Draft>)
    ensures Cites(r, topic, caveats)
  {
    seq(|caveats|, k requires 0 <= k < |caveats| => Draft(topic, Caveat, [caveats[k]]))
  }

  function LessonSources(lang: Language, ordered: seq<Evidence>, latest: seq<Evidence>): seq<Evidence> {
    Dedupe(Matching(lang, ordered, Decision) + Matching(lang, ordered, Validation) + latest, {})
  }

  /** The drafts of one topic, in the order in which they are numbered. */
  function TopicPlan(lang: Language, policy: Policy, topic: string, evidence: seq<Evidence>): seq<Draft>
  {
    if evidence == [] then []
    else
      var ordered := Ordered(evidence);
      var latest := First(Reversed(ordered), policy.maxEvidence);
      CurrentDrafts(policy, topic, latest)
      + ReplacedDrafts(policy, topic, Matching(lang, ordered, Replacement))
      + LessonDrafts(policy, topic, LessonSources(lang, ordered, latest))
      + CaveatDrafts(topic, First(Matching(lang, ordered, CaveatWords), policy.caveatTasks))
  }

  lemma FirstWithin(items: seq<Evidence>, n: nat)
    ensures forall e :: e in First(items, n) ==> e in items
  {
  }

  lemma ReversedWithin(items: seq<Evidence>)
    ensures forall e :: e in Reversed(items) ==> e in items
  {
    assert forall k :: 0 <= k < |items| ==> items[k] in items;
  }

  lemma CitesMore(drafts: seq<Draft>, topic: string, items: seq<Evidence>, all: seq<Evidence>)
    requires Cites(drafts, topic, items) && forall e :: e in items ==> e in all
    ensures Cites(drafts, topic, all)
  {
  }

  lemma CitesJoined(a: seq<Draft>, b: seq<Draft>, topic: string, items: seq<Evidence>)
    requires Cites(a, topic, items) && Cites(b, topic, items)
    ensures Cites(a + b, topic, items)
  {
  }

  /** Every task of a topic cites only evidence filed under that topic. */
  lemma TopicPlanCites(lang: Language, policy: Policy, topic: string, evidence: seq<Evidence>)
    ensures Cites(TopicPlan(lang, policy, topic, evidence), topic, evidence)
  {
    var ordered := Ordered(evidence);
    var latest := First(Reversed(ordered), policy.maxEvidence);
    var replacement, words := Matching(lang, ordered, Replacement), Matching(lang, ordered, CaveatWords);
    var sources, caveats := LessonSources(lang, ordered, latest), First(words, policy.caveatTasks);
    FirstWithin(Reversed(ordered), policy.maxEvidence);
    ReversedWithin(ordered);
    FirstWithin(words, policy.caveatTasks);
    var a, b := CurrentDrafts(policy, topic, latest), ReplacedDrafts(policy, topic, replacement);
    var c, d := LessonDrafts(policy, topic, sources), CaveatDrafts(topic, caveats);
    CitesMore(a, topic, latest, evidence);
    CitesMore(b, topic, replacement, evidence);
    CitesMore(c, topic, sources, evidence);
    CitesMore(d, topic, caveats, evidence);
    CitesJoined(a, b, topic, evidence);
    CitesJoined(a + b, c, topic, evidence);
    CitesJoined(a + b + c, d, topic, evidence);
  }

  /**
   Every task of a topic cites something, unless tasks may carry no evidence at all and some of
   it speaks of a replacement.
   */
  lemma TopicPlanCitesSome(lang: Language, policy: Policy, topic: string, evidence: seq<Evidence>)
    ensures (forall d :: d in TopicPlan(lang, policy, topic, evidence) ==> d.evidence != []) <==>
            policy.maxEvidence > 0 || forall e :: e in evidence ==> !lang.matches(e, Replacement)
  {
    if evidence != [] {
      var ordered := Ordered(evidence);
      var latest := First(Reversed(ordered), policy.maxEvidence);
      var replacement := Matching(lang, ordered, Replacement);
      var a, b := CurrentDrafts(policy, topic, latest), ReplacedDrafts(policy, topic, replacement);
      var c := LessonDrafts(policy, topic, LessonSources(lang, ordered, latest));
      var d := CaveatDrafts(topic, First(Matching(lang, ordered, CaveatWords), policy.caveatTasks));
      assert TopicPlan(lang, policy, topic, evidence) == a + b + c + d;
      assert forall x :: x in a || x in c || x in d ==> x.evidence != [];
      if replacement != [] {
        assert b[0] in b && b[0].evidence == First(replacement, policy.maxEvidence);
        assert replacement[0] in replacement && replacement[0] in evidence;
      }
    }
  }

  function Greater(a: nat, b: nat): nat {
    if a < b then b else a
  }

  /** A topic makes a bounded number of tasks of bounded size: seven of four items by default. */
  lemma TopicPlanIsSmall(lang: Language, policy: Policy, topic: string, evidence: seq<Evidence>)
    ensures |TopicPlan(lang, policy, topic, evidence)| <= policy.currentTasks + 1 + policy.lessonTasks + policy.caveatTasks
    ensures forall d :: d in TopicPlan(lang, policy, topic, evidence) ==> |d.evidence| <= Greater(2, policy.maxEvidence)
    ensures policy == DEFAULT_POLICY ==>
              |TopicPlan(lang, policy, topic, evidence)| <= 7
              && forall d :: d in TopicPlan(lang, policy, topic, evidence) ==> |d.evidence| <= 4
  {
  }

  type Planner = string -> seq<Draft>

  /** How a request's topics are planned under a language and a policy. */
  function PlannerFor(lang: Language, policy: Policy, request: DreamRequest): Planner
  {
    topic =>
      TopicPlan(lang, policy, topic, if topic in request.evidence then request.evidence[topic] else [])
  }

  function Plan(planner: Planner, topics: seq<string>): seq<Draft> {
    if topics == [] then [] else planner(topics[0]) + Plan(planner, topics[1..])
  }

  ghost predicate Sourced(request: DreamRequest, topics: seq<string>, d: Draft) {
    && d.topic in topics
    && forall e :: e in d.evidence ==> d.topic in request.evidence && e in request.evidence[d.topic]
  }

  /** The whole plan asks only about the request's topics, from the request's own evidence on them. */
  lemma {:induction false} PlanIsSourced(lang: Language, policy: Policy, request: DreamRequest, topics: seq<string>)
    ensures forall d :: d in Plan(PlannerFor(lang, policy, request), topics) ==> Sourced(request, topics, d)
  {
    if topics != [] {
      var topic := topics[0];
      var planner := PlannerFor(lang, policy, request);
      PlanIsSourced(lang, policy, request, topics[1..]);
      TopicPlanCites(lang, policy, topic, if topic in request.evidence then request.evidence[topic] else []);
      assert Cites(planner(topic), topic, if topic in request.evidence then request.evidence[topic] else []);
      forall d | d in Plan(planner, topics[1..]) ensures Sourced(request, topics, d) {
        assert Sourced(request, topics[1..], d);
      }
    }
  }

  // ------------------------------------------------------------------- numbering

  function Decimal(n: nat): (s: string)
    ensures s != "" && forall c :: c in s ==> '0' <= c <= '9'
  {
    if n < 10 then [Digit(n)] else Decimal(n / 10) + [Digit(n % 10)]
  }

  lemma {:induction false} NumberOfDecimal(n: nat)
    ensures Number(Decimal(n)) == n
  {
    if n >= 10 {
      NumberOfDecimal(n / 10);
      assert Decimal(n)[..|Decimal(n)| - 1] == Decimal(n / 10);
    } else {
      assert Decimal(n)[..|Decimal(n)| - 1] == "";
    }
  }

  function TaskId(requestId: string, sequence: nat, kind: Kind): string {
    requestId + ":" + Decimal(sequence) + ":" + KindText(kind)
  }

  /** Two numbered ids of one request are equal only for equal numbers. */
  lemma TaskIdsDiffer(requestId: string, m: nat, j: Kind, n: nat, k: Kind)
    requires TaskId(requestId, m, j) == TaskId(requestId, n, k)
    ensures m == n
  {
    SameNumber(requestId, Decimal(m), KindText(j), Decimal(n), KindText(k));
    NumberOfDecimal(m);
    NumberOfDecimal(n);
  }

  lemma SameNumber(p: string, d: string, x: string, e: string, y: string)
    requires p + ":" + d + ":" + x == p + ":" + e + ":" + y
    requires forall c :: c in d || c in e ==> c != ':'
    ensures d == e
  {
    var whole := p + ":" + d + ":" + x;
    var n := |p| + 1;
    assert whole[n + |d|] == ':' && whole[n + |e|] == ':';
    assert forall i :: 0 <= i < |d| ==> whole[n + i] == d[i] && d[i] in d;
    assert forall i :: 0 <= i < |e| ==> whole[n + i] == e[i] && e[i] in e;
    assert |d| >= |e| && |e| >= |d|;
  }

  lemma TaskIdTrimmed(requestId: string, n: nat, kind: Kind)
    requires requestId != "" && Trim(requestId) == requestId
    ensures Trim(TaskId(requestId, n, kind)) == TaskId(requestId, n, kind) != ""
  {
    var id := TaskId(requestId, n, kind);
    TrimStart(requestId);
    assert id[0] == requestId[0];
    assert id[|id| - 1] == KindText(kind)[|KindText(kind)| - 1];
    TrimKeeps(id);
  }

  lemma TrimStart(s: string)
    requires s != "" && Trim(s) == s
    ensures !IsSpace(s[0])
  {
  }

  function TaskOf(request: DreamRequest, sequence: nat, draft: Draft): ReasoningTask {
    ReasoningTask(TaskId(request.requestId, sequence, draft.kind), request.requestId, draft.topic, draft.kind, draft.evidence)
  }

  /** Makes the task with a given number from a draft. */
  type Maker = (nat, Draft) -> ReasoningTask

  function MakerFor(request: DreamRequest): Maker {
    (n: nat, draft: Draft) => TaskOf(request, n, draft)
  }

  ghost predicate Numbered(make: Maker, plan: seq<Draft>, tasks: seq<ReasoningTask>) {
    |tasks| <= |plan| && forall k :: 0 <= k < |tasks| ==> tasks[k] == make(k + 1, plan[k])
  }

  predicate DistinctTasks(tasks: seq<ReasoningTask>) {
    forall i, j :: 0 <= i < j < |tasks| ==> tasks[i].taskId != tasks[j].taskId
  }

  lemma NumberedAreDistinct(request: DreamRequest, plan: seq<Draft>, tasks: seq<ReasoningTask>)
    requires Numbered(MakerFor(request), plan, tasks)
    ensures DistinctTasks(tasks)
  {
    forall i, j | 0 <= i < j < |tasks|
      ensures tasks[i].taskId != tasks[j].taskId
    {
      if tasks[i].taskId == tasks[j].taskId {
        TaskIdsDiffer(request.requestId, i + 1, plan[i].kind, j + 1, plan[j].kind);
      }
    }
  }

  /** Walks the topics, numbering their drafts from one on. */
  method NumberDrafts(make: Maker, planner: Planner, topics: seq<string>) returns (tasks: seq<ReasoningTask>)
    ensures |tasks| == |Plan(planner, topics)| && Numbered(make, Plan(planner, topics), tasks)
  {
    tasks := [];
    ghost var plan := Plan(planner, topics);
    var sequence := 0;
    var t := 0;
    while t < |topics|
      invariant 0 <= t <= |topics| && sequence == |tasks|
      invariant Numbered(make, plan, tasks) && plan[|tasks|..] == Plan(planner, topics[t..])
    {
      var drafts := planner(topics[t]);
      assert topics[t..][1..] == topics[t + 1..];
      assert plan[|tasks|..] == drafts + Plan(planner, topics[t + 1..]);
      ghost var before := |tasks|;
      var k := 0;
      while k < |drafts|
        invariant 0 <= k <= |drafts| && sequence == |tasks| == before + k
        invariant |plan| >= before + |drafts| && plan[before..][..|drafts|] == drafts
        invariant Numbered(make, plan, tasks)
      {
        assert plan[|tasks|] == plan[before..][k] == drafts[k];
        sequence := sequence + 1;
        tasks := tasks + [make(sequence, drafts[k])];
        k := k + 1;
      }
      assert plan[|tasks|..] == plan[before..][|drafts|..];
      t := t + 1;
    }
    assert plan[|tasks|..] == [];
  }

  /** One numbered task per draft, in order; no two tasks share an id. */
  method BuildTasks(planner: Planner, request: DreamRequest) returns (tasks: seq<ReasoningTask>)
    ensures var plan := Plan(planner, request.topics);
            |tasks| == |plan| && Numbered(MakerFor(request), plan, tasks)
    ensures DistinctTasks(tasks)
  {
    tasks := NumberDrafts(MakerFor(request), planner, request.topics);
    NumberedAreDistinct(request, Plan(planner, request.topics), tasks);
  }

  // -------------------------------------------------------------------- assembly

  datatype Candidate = Candidate(taskId: string, topic: string, kind: Kind, index: nat, claim: Claim)

  datatype Assembly =
    | Assembled(candidates: seq<Candidate>, droppedAdvice: nat, droppedIrrelevant: nat)
    | DuplicateTask | DuplicateResult | TaskSetMismatch
    | BlankClaim | ConfidenceOutside | NoEvidence | FabricatedEvidence

  predicate DistinctResults(results: seq<TaskResult>) {
    forall i, j :: 0 <= i < j < |results| ==> results[i].taskId != results[j].taskId
  }

  function EvidenceIds(task: ReasoningTask): set<string> {
    set e | e in task.evidence :: e.id
  }

  function ClaimFault(lang: Language, task: ReasoningTask, claim: Claim): Option<Assembly> {
    if lang.blank(claim.text) then Some(BlankClaim)
    else if !(0.0 <= claim.confidence <= 1.0) then Some(ConfidenceOutside)
    else if claim.evidence == [] then Some(NoEvidence)
    else if exists e :: e in claim.evidence && e !in EvidenceIds(task) then Some(FabricatedEvidence)
    else None
  }

  function AddClaim(lang: Language, task: ReasoningTask, claim: Claim, index: nat, so: Assembly): Assembly
    requires so.Assembled?
  {
    if lang.advice(claim.text) then so.(droppedAdvice := so.droppedAdvice + 1)
    else if !lang.relevant(task.topic, claim.text) then so.(droppedIrrelevant := so.droppedIrrelevant + 1)
    else so.(candidates := so.candidates + [Candidate(task.taskId, task.topic, task.kind, index, claim)])
  }

  /** The claims of one result from `index` on, continuing an assembly. */
  function Gather(lang: Language, task: ReasoningTask, claims: seq<Claim>, index: nat, so: Assembly): Assembly
    requires so.Assembled?
    decreases |claims|
  {
    if claims == [] then so
    else if ClaimFault(lang, task, claims[0]).Some? then ClaimFault(lang, task, claims[0]).value
    else
      Gather(lang, task, claims[1..], index + 1,
             AddClaim(lang, task, claims[0], index, so))
  }

  function ResultFor(results: seq<TaskResult>, id: string): Option<TaskResult> {
    if results == [] then None
    else if results[|results| - 1].taskId == id then Some(results[|results| - 1])
    else ResultFor(results[..|results| - 1], id)
  }

  function GatherAll(lang: Language, tasks: seq<ReasoningTask>, results: seq<TaskResult>, so: Assembly): Assembly
    requires so.Assembled?
    decreases |tasks|
  {
    if tasks == [] then so
    else
      match ResultFor(results, tasks[0].taskId)
      case None => TaskSetMismatch
      case Some(result) =>
        var next := Gather(lang, tasks[0], result.claims, 0, so);
        if next.Assembled? then GatherAll(lang, tasks[1..], results, next) else next
  }

  predicate SameTaskSet(tasks: seq<ReasoningTask>, results: seq<TaskResult>) {
    && (forall t :: t in tasks ==> exists r :: r in results && r.taskId == t.taskId)
    && (forall r :: r in results ==> exists t :: t in tasks && t.taskId == r.taskId)
  }

  function Assemble(lang: Language, tasks: seq<ReasoningTask>, results: seq<TaskResult>): Assembly {
    if !DistinctTasks(tasks) then DuplicateTask
    else if !DistinctResults(results) then DuplicateResult
    else if !SameTaskSet(tasks, results) then TaskSetMismatch
    else GatherAll(lang, tasks, results, Assembled([], 0, 0))
  }

  /** The assembly as its loops run: checks first, then claim after claim. */
  method AssembleResults(lang: Language, tasks: seq<ReasoningTask>, results: seq<TaskResult>) returns (a: Assembly)
    ensures a == Assemble(lang, tasks, results)
  {
    if !DistinctTasks(tasks) { return DuplicateTask; }
    if !DistinctResults(results) { return DuplicateResult; }
    if !SameTaskSet(tasks, results) { return TaskSetMismatch; }
    a := Assembled([], 0, 0);
    var t := 0;
    while t < |tasks|
      invariant 0 <= t <= |tasks| && a.Assembled?
      invariant Assemble(lang, tasks, results) == GatherAll(lang, tasks[t..], results, a)
    {
      assert tasks[t..][0] == tasks[t] && tasks[t..][1..] == tasks[t + 1..];
      var found := ResultFor(results, tasks[t].taskId);
      if found.None? { return TaskSetMismatch; }
      a := GatherClaims(lang, tasks[t], found.value.claims, a);
      if !a.Assembled? { return; }
      t := t + 1;
    }
  }

  method GatherClaims(lang: Language, task: ReasoningTask, claims: seq<Claim>, so: Assembly) returns (a: Assembly)
    requires so.Assembled?
    ensures a == Gather(lang, task, claims, 0, so)
  {
    a := so;
    var index := 0;
    while index < |claims|
      invariant 0 <= index <= |claims| && a.Assembled?
      invariant Gather(lang, task, claims, 0, so) == Gather(lang, task, claims[index..], index, a)
    {
      assert claims[index..][0] == claims[index] && claims[index..][1..] == claims[index + 1..];
      var claim := claims[index];
      var fault := ClaimFault(lang, task, claim);
      if fault.Some? { return fault.value; }
      if lang.advice(claim.text) {
        a := a.(droppedAdvice := a.droppedAdvice + 1);
      } else if !lang.relevant(task.topic, claim.text) {
        a := a.(droppedIrrelevant := a.droppedIrrelevant + 1);
      } else {
        a := a.(candidates := a.candidates + [Candidate(task.taskId, task.topic, task.kind, index, claim)]);
      }
      index := index + 1;
    }
  }

  // what an assembly contains

  ghost predicate Wanted(lang: Language, task: ReasoningTask, claim: Claim) {
    !lang.advice(claim.text) && lang.relevant(task.topic, claim.text)
  }

  /** The candidate stands for a wanted claim of the task's result. */
  ghost predicate From(lang: Language, task: ReasoningTask, claims: seq<Claim>, c: Candidate) {
    && c.index < |claims| && c == Candidate(task.taskId, task.topic, task.kind, c.index, claims[c.index])
    && Wanted(lang, task, c.claim)
  }

  ghost predicate FromAny(lang: Language, tasks: seq<ReasoningTask>, results: seq<TaskResult>, c: Candidate) {
    exists t, r :: t in tasks && ResultFor(results, t.taskId) == Some(r) && From(lang, t, r.claims, c)
  }

  function Size(a: Assembly): nat
    requires a.Assembled?
  {
    |a.candidates| + a.droppedAdvice + a.droppedIrrelevant
  }

  function ClaimCount(tasks: seq<ReasoningTask>, results: seq<TaskResult>): nat {
    if tasks == [] then 0
    else
      (match ResultFor(results, tasks[0].taskId)
       case None => 0
       case Some(r) => |r.claims|)
      + ClaimCount(tasks[1..], results)
  }

  /** One result adds exactly its wanted claims, and counts every other one as dropped. */
  lemma {:induction false} GatherContains(lang: Language, task: ReasoningTask, claims: seq<Claim>, k: nat, so: Assembly)
    requires so.Assembled? && k <= |claims| && Gather(lang, task, claims[k..], k, so).Assembled?
    ensures var a := Gather(lang, task, claims[k..], k, so);
            && Size(a) == Size(so) + (|claims| - k)
            && (forall c :: c in a.candidates <==> c in so.candidates || (c.index >= k && From(lang, task, claims, c)))
            && (forall i :: k <= i < |claims| ==> ClaimFault(lang, task, claims[i]).None?)
    decreases |claims| - k
  {
    if k < |claims| {
      assert claims[k..][0] == claims[k] && claims[k..][1..] == claims[k + 1..];
      GatherContains(lang, task, claims, k + 1, AddClaim(lang, task, claims[k], k, so));
    }
  }

  lemma {:induction false} GatherAllContains(lang: Language, tasks: seq<ReasoningTask>, results: seq<TaskResult>, so: Assembly)
    requires so.Assembled? && GatherAll(lang, tasks, results, so).Assembled?
    ensures var a := GatherAll(lang, tasks, results, so);
            && Size(a) == Size(so) + ClaimCount(tasks, results)
            && (forall c :: c in a.candidates <==> c in so.candidates || FromAny(lang, tasks, results, c))
            && (forall t, r, x :: t in tasks && ResultFor(results, t.taskId) == Some(r) && x in r.claims ==>
                  ClaimFault(lang, t, x).None?)
    decreases |tasks|
  {
    if tasks != [] {
      var r := ResultFor(results, tasks[0].taskId).value;
      assert r.claims[0..] == r.claims;
      GatherContains(lang, tasks[0], r.claims, 0, so);
      var next := Gather(lang, tasks[0], r.claims, 0, so);
      GatherAllContains(lang, tasks[1..], results, next);
      assert forall t :: t in tasks <==> t == tasks[0] || t in tasks[1..];
      forall c
        ensures FromAny(lang, tasks, results, c) <==> From(lang, tasks[0], r.claims, c) || FromAny(lang, tasks[1..], results, c)
      {
        if t, q :| t in tasks && ResultFor(results, t.taskId) == Some(q) && From(lang, t, q.claims, c) {
          assert t == tasks[0] ==> q == r;
        }
      }
    }
  }

  /**
   An assembly is exactly the wanted claims of the results: no claim is refused, every one is
   either a candidate or counted as dropped, and the candidates are the relevant ones that are
   not advice, each under its own task and index.
   */
  lemma AssemblyIsExact(lang: Language, tasks: seq<ReasoningTask>, results: seq<TaskResult>)
    requires Assemble(lang, tasks, results).Assembled?
    ensures var a := Assemble(lang, tasks, results);
            && Size(a) == ClaimCount(tasks, results)
            && (forall c :: c in a.candidates <==> FromAny(lang, tasks, results, c))
            && (forall t, r, x :: t in tasks && ResultFor(results, t.taskId) == Some(r) && x in r.claims ==>
                  ClaimFault(lang, t, x).None?)
  {
    GatherAllContains(lang, tasks, results, Assembled([], 0, 0));
  }

  // what a list of matching results guarantees

  ghost predicate Matched(tasks: seq<ReasoningTask>, results: seq<TaskResult>) {
    |results| == |tasks| && forall k :: 0 <= k < |tasks| ==> results[k].taskId == tasks[k].taskId
  }

  ghost predicate Grounded(task: ReasoningTask, result: TaskResult) {
    forall c :: c in result.claims ==>
      0.0 <= c.confidence <= 1.0 && forall e :: e in c.evidence ==> e in EvidenceIds(task)
  }

  lemma {:induction false} ResultForMatched(tasks: seq<ReasoningTask>, results: seq<TaskResult>, k: nat)
    requires Matched(tasks, results) && DistinctTasks(tasks) && k < |tasks|
    ensures ResultFor(results, tasks[k].taskId) == Some(results[k])
    decreases |tasks|
  {
    if k < |tasks| - 1 {
      ResultForMatched(tasks[..|tasks| - 1], results[..|tasks| - 1], k);
    }
  }

  predicate ClaimRefusal(a: Assembly) {
    a.Assembled? || a.BlankClaim? || a.NoEvidence?
  }

  lemma {:induction false} GatherGrounded(lang: Language, task: ReasoningTask, result: TaskResult, k: nat, so: Assembly)
    requires Grounded(task, result) && so.Assembled? && k <= |result.claims|
    ensures ClaimRefusal(Gather(lang, task, result.claims[k..], k, so))
    decreases |result.claims| - k
  {
    if k < |result.claims| {
      var claims := result.claims[k..];
      assert claims[0] in result.claims && claims[1..] == result.claims[k + 1..];
      if ClaimFault(lang, task, claims[0]).None? {
        GatherGrounded(lang, task, result, k + 1, AddClaim(lang, task, claims[0], k, so));
      }
    }
  }

  lemma {:induction false} GatherAllGrounded(lang: Language, tasks: seq<ReasoningTask>, results: seq<TaskResult>, k: nat, so: Assembly)
    requires Matched(tasks, results) && DistinctTasks(tasks) && k <= |tasks| && so.Assembled?
    requires forall j :: 0 <= j < |tasks| ==> Grounded(tasks[j], results[j])
    ensures ClaimRefusal(GatherAll(lang, tasks[k..], results, so))
    decreases |tasks| - k
  {
    if k < |tasks| {
      ResultForMatched(tasks, results, k);
      assert tasks[k..][0] == tasks[k] && tasks[k..][1..] == tasks[k + 1..];
      GatherGrounded(lang, tasks[k], results[k], 0, so);
      assert results[k].claims[0..] == results[k].claims;
      var next := Gather(lang, tasks[k], results[k].claims, 0, so);
      if next.Assembled? { GatherAllGrounded(lang, tasks, results, k + 1, next); }
    }
  }

  predicate SetError(a: Assembly) {
    a.DuplicateTask? || a.DuplicateResult? || a.TaskSetMismatch?
  }

  lemma MatchedSets(tasks: seq<ReasoningTask>, results: seq<TaskResult>)
    requires Matched(tasks, results) && DistinctTasks(tasks)
    ensures DistinctResults(results) && SameTaskSet(tasks, results)
  {
    forall t | t in tasks ensures exists r :: r in results && r.taskId == t.taskId {
      var k :| 0 <= k < |tasks| && tasks[k] == t;
      assert results[k] in results;
    }
    forall r | r in results ensures exists t :: t in tasks && t.taskId == r.taskId {
      var k :| 0 <= k < |results| && results[k] == r;
      assert tasks[k] in tasks;
    }
  }

  lemma {:induction false} GatherNoSetError(lang: Language, task: ReasoningTask, claims: seq<Claim>, k: nat, so: Assembly)
    requires so.Assembled?
    ensures !SetError(Gather(lang, task, claims, k, so))
    decreases |claims|
  {
    if claims != [] && ClaimFault(lang, task, claims[0]).None? {
      GatherNoSetError(lang, task, claims[1..], k + 1, AddClaim(lang, task, claims[0], k, so));
    }
  }

  lemma {:induction false} GatherAllNoSetError(lang: Language, tasks: seq<ReasoningTask>, results: seq<TaskResult>, k: nat, so: Assembly)
    requires Matched(tasks, results) && DistinctTasks(tasks) && k <= |tasks| && so.Assembled?
    ensures !SetError(GatherAll(lang, tasks[k..], results, so))
    decreases |tasks| - k
  {
    if k < |tasks| {
      ResultForMatched(tasks, results, k);
      assert tasks[k..][0] == tasks[k] && tasks[k..][1..] == tasks[k + 1..];
      GatherNoSetError(lang, tasks[k], results[k].claims, 0, so);
      var next := Gather(lang, tasks[k], results[k].claims, 0, so);
      if next.Assembled? { GatherAllNoSetError(lang, tasks, results, k + 1, next); }
    }
  }

  /** Results matched to distinct tasks never trip a task-set check. */
  lemma MatchedNoSetError(lang: Language, tasks: seq<ReasoningTask>, results: seq<TaskResult>)
    requires Matched(tasks, results) && DistinctTasks(tasks)
    ensures !SetError(Assemble(lang, tasks, results))
  {
    MatchedSets(tasks, results);
    GatherAllNoSetError(lang, tasks, results, 0, Assembled([], 0, 0));
    assert tasks[0..] == tasks;
  }

  /**
   Results matched to distinct tasks and grounded in their evidence can only be refused for a
   blank claim or one that cites nothing; no task-set check fires.
   */
  lemma MatchedAssemble(lang: Language, tasks: seq<ReasoningTask>, results: seq<TaskResult>)
    requires Matched(tasks, results) && DistinctTasks(tasks)
    requires forall j :: 0 <= j < |tasks| ==> Grounded(tasks[j], results[j])
    ensures ClaimRefusal(Assemble(lang, tasks, results))
  {
    MatchedSets(tasks, results);
    GatherAllGrounded(lang, tasks, results, 0, Assembled([], 0, 0));
    assert tasks[0..] == tasks;
  }
}
