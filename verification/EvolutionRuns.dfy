/**
 Runs: any number of store and recovery calls, at most one per lock key,
 interleaved between their writes and stopped at any point.
 */
module EvolutionRuns {
  import opened Common
  import opened EvolutionModel
  import opened EvolutionInvariant

  /** The identity's records form a chain in some phase. */
  ghost predicate Healthy(repo: Repo, ident: Identity) {
    exists c: Chain, phase :: Chained(repo, ident, c, phase)
  }

  ghost predicate AllHealthy(repo: Repo) {
    forall ident :: Healthy(repo, ident)
  }

  lemma ChainIsUnique(repo: Repo, ident: Identity, c: Chain, phase: Phase, d: Chain, other: Phase)
    requires Chained(repo, ident, c, phase) && Chained(repo, ident, d, other)
    ensures c == d && phase == other
  {
    NoDupSize(c);
    NoDupSize(d);
    assert Elements(c) == Elements(d);
    forall j | 0 <= j < |c|
      ensures c[j] == d[j]
    {
      assert c[j] in c && c[j] in d;
      var k :| 0 <= k < |d| && d[k] == c[j];
      assert repo[d[k]].version == k + 1;
    }
    assert c == d;
    if |c| > 0 {
      assert c[|c| - 1] in c;
      assert |c| > 1 ==> c[|c| - 2] in c;
    }
  }

  /** The abstraction: contents stored for an identity, oldest first. */
  ghost function LogOf(repo: Repo, ident: Identity): seq<string> {
    if c: Chain, phase :| Chained(repo, ident, c, phase) then Log(repo, c) else []
  }

  lemma LogIs(repo: Repo, ident: Identity, c: Chain, phase: Phase)
    requires Chained(repo, ident, c, phase)
    ensures LogOf(repo, ident) == Log(repo, c)
  {
    var d: Chain, other :| Chained(repo, ident, d, other) && LogOf(repo, ident) == Log(repo, d);
    ChainIsUnique(repo, ident, c, phase, d, other);
  }

  // -------------------------------------------------------------------- system

  /** Calls exclude each other per lock key; nothing below depends on how keys are derived. */
  type Locking = Identity -> string

  datatype Call = Call(req: Request, pc: Pc)

  datatype System = System(repo: Repo, calls: map<string, Call>)

  datatype Event =
    | Start(req: Request)
    | Advance(key: string, hits: seq<Id>, newId: Id)
    | Leave(key: string)   // the call returned, or its process died

  ghost predicate Enabled(lock: Locking, s: System, e: Event) {
    match e
    case Start(req) => lock(req.ident) !in s.calls
    case Advance(key, hits, newId) =>
      && key in s.calls && newId !in s.repo
      && LegalAnswer(s.repo, s.calls[key].req, s.calls[key].pc, hits)
      && SeesAll(s.repo, s.calls[key].req.ident, s.calls[key].pc)
      && (s.calls[key].pc.Lookup? ==> s.calls[key].req.Store?)
    case Leave(key) => key in s.calls
  }

  ghost function Apply(lock: Locking, s: System, e: Event): System
    requires Enabled(lock, s, e)
  {
    match e
    case Start(req) => s.(calls := s.calls[lock(req.ident) := Call(req, Begin)])
    case Advance(key, hits, newId) =>
      var call := s.calls[key];
      var r := Step(s.repo, call.req, call.pc, hits, newId);
      System(r.repo, s.calls[key := call.(pc := r.pc)])
    case Leave(key) => s.(calls := s.calls - {key})
  }

  ghost predicate InStep(repo: Repo, call: Call) {
    exists c: Chain, phase ::
      Chained(repo, call.req.ident, c, phase) && Agrees(repo, c, phase, call.req, call.pc)
  }

  ghost predicate Inv(lock: Locking, s: System) {
    && AllHealthy(s.repo)
    && (forall key :: key in s.calls ==> lock(s.calls[key].req.ident) == key)
    && (forall key :: key in s.calls ==> InStep(s.repo, s.calls[key]))
  }

  /** What an event adds to an identity's log. */
  ghost function Added(lock: Locking, s: System, e: Event, ident: Identity): seq<string>
    requires Enabled(lock, s, e)
  {
    if e.Advance? && s.calls[e.key].req.Store? && s.calls[e.key].req.ident == ident
       && Commits(s.repo, Apply(lock, s, e).repo, e.newId)
    then [s.calls[e.key].req.content] else []
  }

  lemma OthersKept(repo: Repo, after: Repo, ident: Identity, other: Identity)
    requires Healthy(repo, other) && TouchesOnly(repo, after, ident) && other != ident
    ensures Healthy(after, other) && LogOf(after, other) == LogOf(repo, other)
  {
    var c: Chain, phase :| Chained(repo, other, c, phase);
    ElsewhereKept(repo, after, ident, other, c, phase);
    LogIs(repo, other, c, phase);
    LogIs(after, other, c, phase);
  }

  lemma OtherCallsKept(repo: Repo, after: Repo, ident: Identity, call: Call)
    requires InStep(repo, call) && TouchesOnly(repo, after, ident) && call.req.ident != ident
    ensures InStep(after, call)
  {
    var c: Chain, phase :| Chained(repo, call.req.ident, c, phase) && Agrees(repo, c, phase, call.req, call.pc);
    ElsewhereKept(repo, after, ident, call.req.ident, c, phase);
    assert |c| > 0 ==> c[|c| - 1] in c;
    assert Agrees(after, c, phase, call.req, call.pc);
  }

  /** The step of one call, seen through the abstraction. */
  lemma CallStep(repo: Repo, call: Call, hits: seq<Id>, newId: Id)
    requires InStep(repo, call) && newId !in repo && (call.pc.Lookup? ==> call.req.Store?)
    requires LegalAnswer(repo, call.req, call.pc, hits) && SeesAll(repo, call.req.ident, call.pc)
    ensures var r := Step(repo, call.req, call.pc, hits, newId);
            && InStep(r.repo, call.(pc := r.pc)) && Healthy(r.repo, call.req.ident)
            && TouchesOnly(repo, r.repo, call.req.ident)
            && (Commits(repo, r.repo, newId) ==> call.pc.Lookup? && call.req.Store?)
            && LogOf(r.repo, call.req.ident) ==
               LogOf(repo, call.req.ident) + (if Commits(repo, r.repo, newId) then [call.req.content] else [])
            && (r.pc.Done? && r.pc.outcome.Failed? && !call.pc.Done? ==> OwnFault(call.req, r.pc.outcome.fault))
  {
    var c: Chain, phase :| Chained(repo, call.req.ident, c, phase) && Agrees(repo, c, phase, call.req, call.pc);
    var r := Step(repo, call.req, call.pc, hits, newId);
    StepKeepsChain(repo, call.req, call.pc, hits, newId, c, phase);
    LogIs(repo, call.req.ident, c, phase);
    LogIs(r.repo, call.req.ident, NextChain(c, repo, r.repo, newId), NextPhase(phase, call.pc, r));
    assert Agrees(r.repo, NextChain(c, repo, r.repo, newId), NextPhase(phase, call.pc, r), call.req, r.pc);
    assert InStep(r.repo, call.(pc := r.pc));
  }

  lemma StartInStep(repo: Repo, req: Request)
    requires Healthy(repo, req.ident)
    ensures InStep(repo, Call(req, Begin))
  {
    var c: Chain, phase :| Chained(repo, req.ident, c, phase);
    assert Agrees(repo, c, phase, req, Begin);
  }

  lemma AdvanceOwn(lock: Locking, s: System, e: Event)
    requires Inv(lock, s) && Enabled(lock, s, e) && e.Advance?
    ensures var ident := s.calls[e.key].req.ident;
            && Healthy(Apply(lock, s, e).repo, ident)
            && LogOf(Apply(lock, s, e).repo, ident) == LogOf(s.repo, ident) + Added(lock, s, e, ident)
            && TouchesOnly(s.repo, Apply(lock, s, e).repo, ident)
            && InStep(Apply(lock, s, e).repo, Apply(lock, s, e).calls[e.key])
  {
    CallStep(s.repo, s.calls[e.key], e.hits, e.newId);
  }

  lemma AdvanceOther(lock: Locking, s: System, e: Event, ident: Identity)
    requires Inv(lock, s) && Enabled(lock, s, e) && e.Advance? && ident != s.calls[e.key].req.ident
    requires TouchesOnly(s.repo, Apply(lock, s, e).repo, s.calls[e.key].req.ident)
    ensures Healthy(Apply(lock, s, e).repo, ident)
    ensures LogOf(Apply(lock, s, e).repo, ident) == LogOf(s.repo, ident) + Added(lock, s, e, ident)
  {
    assert Healthy(s.repo, ident);
    OthersKept(s.repo, Apply(lock, s, e).repo, s.calls[e.key].req.ident, ident);
  }

  lemma AdvanceKeepsInv(lock: Locking, s: System, e: Event)
    requires Inv(lock, s) && Enabled(lock, s, e) && e.Advance?
    requires TouchesOnly(s.repo, Apply(lock, s, e).repo, s.calls[e.key].req.ident)
    requires Healthy(Apply(lock, s, e).repo, s.calls[e.key].req.ident)
    requires InStep(Apply(lock, s, e).repo, Apply(lock, s, e).calls[e.key])
    ensures Inv(lock, Apply(lock, s, e))
  {
    var t := Apply(lock, s, e);
    var own := s.calls[e.key].req.ident;
    forall ident ensures Healthy(t.repo, ident) {
      if ident != own { AdvanceOther(lock, s, e, ident); }
    }
    forall k | k in t.calls
      ensures InStep(t.repo, t.calls[k])
    {
      if k != e.key { OtherCallsKept(s.repo, t.repo, own, s.calls[k]); }
    }
  }

  lemma StartKeepsInv(lock: Locking, s: System, req: Request)
    requires Inv(lock, s) && Enabled(lock, s, Start(req))
    ensures Inv(lock, Apply(lock, s, Start(req)))
  {
    assert Healthy(s.repo, req.ident);
    StartInStep(s.repo, req);
  }

  /** Every event keeps the invariant and extends each log by exactly what it commits. */
  lemma EventRefines(lock: Locking, s: System, e: Event, ident: Identity)
    requires Inv(lock, s) && Enabled(lock, s, e)
    ensures Inv(lock, Apply(lock, s, e))
    ensures LogOf(Apply(lock, s, e).repo, ident) == LogOf(s.repo, ident) + Added(lock, s, e, ident)
  {
    match e {
      case Start(req) => StartKeepsInv(lock, s, req);
      case Advance(key, _, _) =>
        AdvanceOwn(lock, s, e);
        AdvanceKeepsInv(lock, s, e);
        if ident != s.calls[key].req.ident { AdvanceOther(lock, s, e, ident); }
      case Leave(_) =>
    }
  }

  // ---------------------------------------------------------------------- runs

  ghost predicate Run(lock: Locking, s: System, es: seq<Event>, t: System)
    decreases |es|
  {
    if es == [] then s == t else Enabled(lock, s, es[0]) && Run(lock, Apply(lock, s, es[0]), es[1..], t)
  }

  /** Contents committed for an identity, in the order of their upserts. */
  ghost function Committed(lock: Locking, s: System, es: seq<Event>, ident: Identity): seq<string>
    decreases |es|
  {
    if es == [] || !Enabled(lock, s, es[0]) then []
    else Added(lock, s, es[0], ident) + Committed(lock, Apply(lock, s, es[0]), es[1..], ident)
  }

  const INITIAL := System(map[], map[])

  lemma InitialInv(lock: Locking)
    ensures Inv(lock, INITIAL)
    ensures forall ident :: LogOf(INITIAL.repo, ident) == []
  {
    forall ident
      ensures Healthy(INITIAL.repo, ident) && LogOf(INITIAL.repo, ident) == []
    {
      assert Chained(INITIAL.repo, ident, [], Empty);
      LogIs(INITIAL.repo, ident, [], Empty);
    }
  }

  lemma {:induction false} RunKeepsInv(lock: Locking, s: System, es: seq<Event>, t: System)
    requires Inv(lock, s) && Run(lock, s, es, t)
    ensures Inv(lock, t)
    decreases |es|
  {
    if es != [] {
      var u := Apply(lock, s, es[0]);
      EventRefines(lock, s, es[0], Identity("", "", "", "", "", ""));
      RunKeepsInv(lock, u, es[1..], t);
    }
  }

  lemma Joined(log: seq<string>, a: seq<string>, b: seq<string>, whole: seq<string>)
    requires whole == a + b
    ensures (log + a) + b == log + whole
  {
  }

  /**
   Refinement: however the writes of all calls interleave and wherever calls stop,
   each identity's log is the append-only list of the upserts made for it.
   */
  lemma {:induction false} RunRefinesLog(lock: Locking, s: System, es: seq<Event>, t: System, ident: Identity)
    requires Inv(lock, s) && Run(lock, s, es, t)
    ensures LogOf(t.repo, ident) == LogOf(s.repo, ident) + Committed(lock, s, es, ident)
    decreases |es|
  {
    if es != [] {
      var u := Apply(lock, s, es[0]);
      EventRefines(lock, s, es[0], ident);
      RunRefinesLog(lock, u, es[1..], t, ident);
      Joined(LogOf(s.repo, ident), Added(lock, s, es[0], ident), Committed(lock, u, es[1..], ident),
             Committed(lock, s, es, ident));
    }
  }

  /** No reachable call reports a conflict other than one its own arguments ask for. */
  lemma {:induction false} CallsFailOnlyByArgument(lock: Locking, s: System, e: Event)
    requires Inv(lock, s) && Enabled(lock, s, e) && e.Advance? && !s.calls[e.key].pc.Done?
    ensures var after := Apply(lock, s, e).calls[e.key].pc;
            after.Done? && after.outcome.Failed? ==> OwnFault(s.calls[e.key].req, after.outcome.fault)
  {
    CallStep(s.repo, s.calls[e.key], e.hits, e.newId);
  }

  // --------------------------------------------------- the records, read plainly

  ghost predicate IsActive(repo: Repo, ident: Identity, x: Id) {
    x in repo && repo[x].ident == ident && repo[x].status == Active
  }

  ghost predicate IsPending(repo: Repo, ident: Identity, x: Id) {
    x in repo && repo[x].ident == ident && Pending(repo[x])
  }

  ghost predicate AtVersion(repo: Repo, ident: Identity, x: Id, v: int) {
    x in repo && repo[x].ident == ident && repo[x].version == v
  }

  lemma PlaceInChain(repo: Repo, ident: Identity, c: Chain, phase: Phase, x: Id)
    requires Chained(repo, ident, c, phase) && x in repo && repo[x].ident == ident
    ensures 1 <= repo[x].version <= |c| && c[repo[x].version - 1] == x
    ensures repo[x].status == Active ==> repo[x].version == if phase.StagedActive? then |c| - 1 else |c|
    ensures Pending(repo[x]) ==> repo[x].version == |c|
  {
    var j :| 0 <= j < |c| && c[j] == x;
  }

  /** One active record at most and one pending record at most. */
  lemma ShapeSingle(repo: Repo, ident: Identity, x: Id, y: Id)
    requires Healthy(repo, ident)
    ensures IsActive(repo, ident, x) && IsActive(repo, ident, y) ==> x == y
    ensures IsPending(repo, ident, x) && IsPending(repo, ident, y) ==> x == y
  {
    var c: Chain, phase :| Chained(repo, ident, c, phase);
    if x in repo && repo[x].ident == ident && y in repo && repo[y].ident == ident {
      PlaceInChain(repo, ident, c, phase, x);
      PlaceInChain(repo, ident, c, phase, y);
    }
  }

  /** The versions are exactly 1..n, one record each, holding the log entry of that number. */
  lemma ShapeVersions(repo: Repo, ident: Identity, v: int)
    requires Healthy(repo, ident)
    ensures 1 <= v <= |LogOf(repo, ident)| <==> exists x :: AtVersion(repo, ident, x, v)
    ensures forall x :: AtVersion(repo, ident, x, v) && 1 <= v <= |LogOf(repo, ident)| ==>
              repo[x].content == LogOf(repo, ident)[v - 1]
    ensures forall x, y :: AtVersion(repo, ident, x, v) && AtVersion(repo, ident, y, v) ==> x == y
  {
    var c: Chain, phase :| Chained(repo, ident, c, phase);
    LogIs(repo, ident, c, phase);
    VersionIsPlace(repo, ident, c, phase, v, LogOf(repo, ident));
  }

  lemma VersionIsPlace(repo: Repo, ident: Identity, c: Chain, phase: Phase, v: int, log: seq<string>)
    requires Chained(repo, ident, c, phase) && log == Log(repo, c)
    ensures 1 <= v <= |log| <==> exists x :: AtVersion(repo, ident, x, v)
    ensures forall x :: AtVersion(repo, ident, x, v) ==> 1 <= v <= |c| == |log| && x == c[v - 1] && repo[x].content == log[v - 1]
  {
    if 1 <= v <= |c| { assert c[v - 1] in c && AtVersion(repo, ident, c[v - 1], v); }
    forall x | AtVersion(repo, ident, x, v)
      ensures 1 <= v <= |c| && c[v - 1] == x
    {
      PlaceInChain(repo, ident, c, phase, x);
    }
  }

  /**
   The two link fields are inverse along the committed chain: a record points forward
   to its successor exactly when the successor points back and its commit has begun.
   */
  lemma ShapeLinks(repo: Repo, ident: Identity, x: Id, y: Id)
    requires Healthy(repo, ident) && x in repo && y in repo
    requires repo[x].ident == ident && repo[y].ident == ident
    ensures repo[x].supersededBy == Some(y) <==>
            repo[y].supersedes == Some(x) && !(repo[x].status == Active && Pending(repo[y]))
    ensures repo[x].supersededBy == Some(y) ==>
            repo[x].status == Superseded && repo[y].version == repo[x].version + 1
  {
    var c: Chain, phase :| Chained(repo, ident, c, phase);
    var i :| 0 <= i < |c| && c[i] == x;
    var j :| 0 <= j < |c| && c[j] == y;
    if i + 1 < |c| { assert c[i + 1] in c; }
    if j > 0 { assert c[j - 1] in c; }
  }

  ghost predicate CommitUnderWay(repo: Repo, ident: Identity, p: Id, q: Id) {
    && IsPending(repo, ident, p) && q in repo && repo[p].ext.previous == Some(q)
    && repo[q].status == Superseded && repo[q].supersededBy == Some(p)
  }

  /** A stored identity lacks an active record only while its pending record's predecessor already points at it. */
  lemma ShapeGap(repo: Repo, ident: Identity)
    requires Healthy(repo, ident) && LogOf(repo, ident) != []
    ensures (exists x :: IsActive(repo, ident, x)) <==> !exists p, q :: CommitUnderWay(repo, ident, p, q)
  {
    var c: Chain, phase :| Chained(repo, ident, c, phase);
    LogIs(repo, ident, c, phase);
    if phase.StagedSuperseded? { InGap(repo, ident, c, phase); } else { NoGap(repo, ident, c, phase); }
  }

  lemma InGap(repo: Repo, ident: Identity, c: Chain, phase: Phase)
    requires Chained(repo, ident, c, phase) && phase.StagedSuperseded?
    ensures CommitUnderWay(repo, ident, c[|c| - 1], c[|c| - 2])
    ensures forall x :: !IsActive(repo, ident, x)
  {
    assert c[|c| - 1] in c && c[|c| - 2] in c;
    forall x ensures !IsActive(repo, ident, x) {
      if x in repo && repo[x].ident == ident { PlaceInChain(repo, ident, c, phase, x); }
    }
  }

  lemma NoGap(repo: Repo, ident: Identity, c: Chain, phase: Phase)
    requires Chained(repo, ident, c, phase) && !phase.StagedSuperseded? && c != []
    ensures exists x :: IsActive(repo, ident, x)
    ensures forall p, q :: !CommitUnderWay(repo, ident, p, q)
  {
    var last := if phase.StagedActive? then c[|c| - 2] else c[|c| - 1];
    assert last in c;
    assert IsActive(repo, ident, last);
    forall p, q ensures !CommitUnderWay(repo, ident, p, q) {
      if IsPending(repo, ident, p) { PlaceInChain(repo, ident, c, phase, p); }
    }
  }

  /** One active and one pending record at most, versions 1..n with the log's contents, inverse links, and no other gap. */
  ghost predicate Shapely(repo: Repo, ident: Identity, log: seq<string>) {
    SingleShape(repo, ident) && VersionShape(repo, ident, log) && LinkShape(repo, ident) && (log != [] ==> GapShape(repo, ident))
  }

  ghost predicate SingleShape(repo: Repo, ident: Identity) {
    && (forall x, y :: IsActive(repo, ident, x) && IsActive(repo, ident, y) ==> x == y)
    && (forall x, y :: IsPending(repo, ident, x) && IsPending(repo, ident, y) ==> x == y)
  }

  ghost predicate HasVersion(repo: Repo, ident: Identity, v: int) {
    exists x :: AtVersion(repo, ident, x, v)
  }

  ghost predicate VersionShape(repo: Repo, ident: Identity, log: seq<string>) {
    && (forall v :: HasVersion(repo, ident, v) <==> 1 <= v <= |log|)
    && (forall x, v :: AtVersion(repo, ident, x, v) && 1 <= v <= |log| ==> repo[x].content == log[v - 1])
  }

  ghost predicate LinkShape(repo: Repo, ident: Identity) {
    forall x, y :: LinkedForward(repo, ident, x, y) <==> LinkedBack(repo, ident, x, y)
  }

  ghost predicate GapShape(repo: Repo, ident: Identity) {
    (exists x :: IsActive(repo, ident, x)) <==> !exists p, q :: CommitUnderWay(repo, ident, p, q)
  }

  ghost predicate LinkedForward(repo: Repo, ident: Identity, x: Id, y: Id) {
    x in repo && y in repo && repo[x].ident == repo[y].ident == ident && repo[x].supersededBy == Some(y)
  }

  ghost predicate LinkedBack(repo: Repo, ident: Identity, x: Id, y: Id) {
    && x in repo && y in repo && repo[x].ident == repo[y].ident == ident
    && repo[y].supersedes == Some(x) && !(repo[x].status == Active && Pending(repo[y]))
  }

  lemma HealthyIsShapely(repo: Repo, ident: Identity, log: seq<string>)
    requires Healthy(repo, ident) && log == LogOf(repo, ident)
    ensures Shapely(repo, ident, log)
  {
    forall x, y
      ensures IsActive(repo, ident, x) && IsActive(repo, ident, y) ==> x == y
      ensures IsPending(repo, ident, x) && IsPending(repo, ident, y) ==> x == y
    {
      ShapeSingle(repo, ident, x, y);
    }
    HealthyLinks(repo, ident);
    HealthyVersions(repo, ident, log);
    if log != [] { ShapeGap(repo, ident); }
  }

  lemma HealthyLinks(repo: Repo, ident: Identity)
    requires Healthy(repo, ident)
    ensures LinkShape(repo, ident)
  {
    forall x, y ensures LinkedForward(repo, ident, x, y) <==> LinkedBack(repo, ident, x, y) {
      if x in repo && y in repo && repo[x].ident == repo[y].ident == ident { ShapeLinks(repo, ident, x, y); }
    }
  }

  lemma HealthyVersions(repo: Repo, ident: Identity, log: seq<string>)
    requires Healthy(repo, ident) && log == LogOf(repo, ident)
    ensures VersionShape(repo, ident, log)
  {
    forall v ensures HasVersion(repo, ident, v) <==> 1 <= v <= |log| { ShapeVersions(repo, ident, v); }
    forall x, v | AtVersion(repo, ident, x, v) && 1 <= v <= |log| ensures repo[x].content == log[v - 1] {
      ShapeVersions(repo, ident, v);
    }
  }

  /** All of this holds in every state of every run, for the log of what was committed. */
  lemma ReachableShape(lock: Locking, es: seq<Event>, t: System, ident: Identity)
    requires Run(lock, INITIAL, es, t)
    ensures Healthy(t.repo, ident) && Shapely(t.repo, ident, LogOf(t.repo, ident))
    ensures LogOf(t.repo, ident) == Committed(lock, INITIAL, es, ident)
  {
    InitialInv(lock);
    RunKeepsInv(lock, INITIAL, es, t);
    RunRefinesLog(lock, INITIAL, es, t, ident);
    assert LogOf(INITIAL.repo, ident) == [];
    assert Healthy(t.repo, ident);
    HealthyIsShapely(t.repo, ident, LogOf(t.repo, ident));
  }
}
