/**
 One call from its start to its return or its crash: what it does to the log, and
 what repeating it does.
 */
module EvolutionCalls {
  import opened Common
  import opened EvolutionModel
  import opened EvolutionInvariant
  import opened EvolutionRuns

  predicate Sound(req: Request, pc: Pc) {
    pc.Lookup? ==> req.Store?
  }

  /**
   The outside world of a call: from the repository, the request and the program counter
   to the next step, with the query answers and the new record id already chosen.
   */
  type World = (Repo, Request, Pc) -> StepResult

  ghost predicate LegalStep(next: World, repo: Repo, req: Request, pc: Pc)
    requires Sound(req, pc)
  {
    exists hits, newId ::
      newId !in repo && LegalAnswer(repo, req, pc, hits) && next(repo, req, pc) == Step(repo, req, pc, hits, newId)
  }

  ghost predicate LegalSteps(next: World) {
    forall repo, req, pc :: Sound(req, pc) ==> LegalStep(next, repo, req, pc)
  }

  /** Every step of a legal world is one the model allows, so its calls end. */
  ghost predicate LegalWorld(next: World): (legal: bool)
    ensures legal ==> Descends(next)
  {
    if LegalSteps(next) then LegalDescends(next); true else false
  }

  ghost predicate Descends(next: World) {
    forall repo, req, pc :: Sound(req, pc) && !pc.Done? ==>
      var r := next(repo, req, pc); Sound(req, r.pc) && Rank(r.pc) < Rank(pc)
  }

  /** The call's end: `outcome == None` when the process died with its writes used up. */
  datatype Halt = Halt(repo: Repo, outcome: Option<Outcome>, budget: nat)

  /** Runs a call; the process survives `budget` repository writes. */
  ghost function Exec(next: World, repo: Repo, req: Request, pc: Pc, budget: nat): Halt
    requires Descends(next) && Sound(req, pc)
    decreases Rank(pc)
  {
    if pc.Done? then Halt(repo, Some(pc.outcome), budget)
    else
      var r := next(repo, req, pc);
      if r.wrote && budget == 0 then Halt(repo, None, 0)
      else Exec(next, r.repo, req, r.pc, if r.wrote then budget - 1 else budget)
  }

  // ------------------------------------------- a condition on the server's limits

  /** Contexts under which the entity and partition of `ident` are stored, with its own. */
  function Contexts(repo: Repo, ident: Identity): set<string> {
    (set x | x in repo && SameGroup(repo[x].ident, ident) :: repo[x].ident.context) + {ident.context}
  }

  predicate FewContexts(repo: Repo, ident: Identity) {
    |Contexts(repo, ident)| <= SEARCH_LIMIT
  }

  lemma {:induction false} InjectionSize(ids: set<Id>, tag: map<Id, string>, tags: set<string>)
    requires forall x :: x in ids ==> x in tag && tag[x] in tags
    requires forall x, y :: x in ids && y in ids && tag[x] == tag[y] ==> x == y
    ensures |ids| <= |tags|
    decreases |ids|
  {
    if ids != {} {
      var x :| x in ids;
      InjectionSize(ids - {x}, tag, tags - {tag[x]});
    }
  }

  /** Ten contexts at most, and both queries see every record they ask for. */
  lemma FewContextsSeeAll(repo: Repo, ident: Identity, pc: Pc)
    requires AllHealthy(repo) && FewContexts(repo, ident)
    ensures SeesAll(repo, ident, pc)
  {
    var tag := map x | x in repo :: repo[x].ident.context;
    var active, pending := ActiveLike(repo, ident), PendingLike(repo, ident);
    forall x, y | x in repo && y in repo && SameGroup(repo[x].ident, ident) && SameGroup(repo[y].ident, ident)
                  && tag[x] == tag[y]
      ensures repo[x].ident == repo[y].ident
    {
      SameGroupAndContext(repo[x].ident, repo[y].ident);
    }
    forall x, y | x in repo && y in repo && repo[x].ident == repo[y].ident
      ensures repo[x].status == Active && repo[y].status == Active ==> x == y
      ensures Pending(repo[x]) && Pending(repo[y]) ==> x == y
    {
      assert Healthy(repo, repo[x].ident);
      ShapeSingle(repo, repo[x].ident, x, y);
    }
    InjectionSize(active, tag, Contexts(repo, ident));
    InjectionSize(pending, tag, Contexts(repo, ident));
  }

  lemma ContextsKept(repo: Repo, after: Repo, ident: Identity)
    requires TouchesOnly(repo, after, ident)
    ensures Contexts(after, ident) == Contexts(repo, ident)
  {
    forall x | x in repo && SameGroup(repo[x].ident, ident)
      ensures repo[x].ident.context in Contexts(after, ident)
    {
      assert x in after && after[x].ident == repo[x].ident;
    }
  }

  // ------------------------------------------------- steps, seen at the newest version

  /** The newest version of an identity, as the abstraction sees it. */
  ghost function NewestFor(repo: Repo, ident: Identity): Newest {
    if c: Chain, phase :| Chained(repo, ident, c, phase) then NewestOf(repo, c) else Nothing
  }

  lemma NewestIs(repo: Repo, ident: Identity, c: Chain, phase: Phase)
    requires Chained(repo, ident, c, phase)
    ensures NewestFor(repo, ident) == NewestOf(repo, c)
  {
    var d: Chain, other :| Chained(repo, ident, d, other) && NewestFor(repo, ident) == NewestOf(repo, d);
    ChainIsUnique(repo, ident, c, phase, d, other);
  }

  function StoredRelations(req: Request): Bundle
    requires req.Store?
  {
    if req.relations.Some? then req.relations.value else NO_RELATIONS
  }

  /** An identity as its callers see it. */
  datatype View = View(log: seq<string>, newest: Newest)

  ghost function ViewOf(repo: Repo, ident: Identity): View {
    View(LogOf(repo, ident), NewestFor(repo, ident))
  }

  ghost predicate SameView(repo: Repo, after: Repo, ident: Identity) {
    ViewOf(after, ident) == ViewOf(repo, ident)
  }

  function Extended(view: View, req: Request, id: Id): View
    requires req.Store?
  {
    View(view.log + [req.content], Last(id, req.digest, StoredRelations(req)))
  }

  ghost predicate StepView(repo: Repo, req: Request, pc: Pc, r: StepResult, newId: Id)
    requires Sound(req, pc)
  {
    if !pc.Lookup? then SameView(repo, r.repo, req.ident)
    else
      match Decide(req, NewestFor(repo, req.ident))
      case Refuse(fault) => r == Fail(repo, fault)
      case Keep(id) => r == StepResult(repo, Done(NoChange(id)), false)
      case Commit =>
        && ViewOf(r.repo, req.ident) == Extended(ViewOf(repo, req.ident), req, newId) && r.wrote
        && if NewestFor(repo, req.ident).Nothing? then r.pc == Done(InsertNew(newId))
           else r.pc.CommitSupersede? && r.pc.staged == newId && r.pc.previous == NewestFor(repo, req.ident).id
  }

  lemma CommitStepView(repo: Repo, req: Request, pc: Pc, newId: Id, c: Chain, phase: Phase)
    requires Chained(repo, req.ident, c, phase) && Agrees(repo, c, phase, req, pc)
    requires !pc.Begin? && !pc.Lookup? && newId !in repo
    ensures var r := Step(repo, req, pc, [], newId);
            (forall x :: x in c ==> x in r.repo) && NewestOf(r.repo, c) == NewestOf(repo, c)
  {
    CommitKeeps(repo, req, pc, newId, c, phase);
    if c != [] { assert c[|c| - 1] in c; }
    if |c| > 1 { assert c[|c| - 2] in c && c[|c| - 2] != c[|c| - 1]; }
  }

  lemma BeginStepView(repo: Repo, req: Request, hits: seq<Id>, c: Chain, phase: Phase)
    requires Chained(repo, req.ident, c, phase)
    requires SeesAll(repo, req.ident, Begin) && LegalAnswer(repo, req, Begin, hits)
    ensures var r := StepBegin(repo, req, hits);
            (forall x :: x in c ==> x in r.repo) && NewestOf(r.repo, c) == NewestOf(repo, c)
  {
    BeginResult(repo, req, hits, c, phase);
    if c != [] { assert c[|c| - 1] in c; }
    if |c| > 1 { assert c[|c| - 2] in c && c[|c| - 2] != c[|c| - 1]; }
  }

  lemma LookupStepView(repo: Repo, req: Request, hits: seq<Id>, newId: Id, c: Chain, phase: Phase)
    requires Chained(repo, req.ident, c, phase) && Agrees(repo, c, phase, req, Lookup) && newId !in repo
    requires SeesAll(repo, req.ident, Lookup) && LegalAnswer(repo, req, Lookup, hits)
    ensures StepView(repo, req, Lookup, StepLookup(repo, req, hits, newId), newId)
  {
    var r := StepLookup(repo, req, hits, newId);
    FindsActive(repo, hits, req.ident, c, phase);
    LookupResult(repo, req, hits, newId, c);
    NewestIs(repo, req.ident, c, phase);
    if Decide(req, NewestOf(repo, c)).Commit? {
      LookupKeeps(repo, req, hits, newId, c, phase);
      var c' := NextChain(c, repo, r.repo, newId);
      assert c' == c + [newId];
      LogIs(repo, req.ident, c, phase);
      LogIs(r.repo, req.ident, c', NextPhase(phase, Lookup, r));
      NewestIs(r.repo, req.ident, c', NextPhase(phase, Lookup, r));
    }
  }

  lemma OtherStepView(repo: Repo, req: Request, pc: Pc, hits: seq<Id>, newId: Id, c: Chain, phase: Phase)
    requires Chained(repo, req.ident, c, phase) && Agrees(repo, c, phase, req, pc) && newId !in repo
    requires SeesAll(repo, req.ident, pc) && LegalAnswer(repo, req, pc, hits) && !pc.Lookup?
    ensures SameView(repo, Step(repo, req, pc, hits, newId).repo, req.ident)
  {
    var r := Step(repo, req, pc, hits, newId);
    StepKeepsChain(repo, req, pc, hits, newId, c, phase);
    if pc.Begin? { BeginStepView(repo, req, hits, c, phase); }
    else { CommitStepView(repo, req, pc, newId, c, phase); }
    LogIs(repo, req.ident, c, phase);
    NewestIs(repo, req.ident, c, phase);
    LogIs(r.repo, req.ident, c, NextPhase(phase, pc, r));
    NewestIs(r.repo, req.ident, c, NextPhase(phase, pc, r));
  }

  lemma StepDescends(repo: Repo, req: Request, pc: Pc, hits: seq<Id>, newId: Id)
    requires Sound(req, pc)
    ensures var r := Step(repo, req, pc, hits, newId);
            && Sound(req, r.pc) && !r.pc.Begin? && (!r.wrote ==> r.repo == repo)
            && (!pc.Done? ==> Rank(r.pc) < Rank(pc))
  {
  }

  /** A call after its commit point, with the record it replaces: nothing it still writes can be seen in the log. */
  ghost predicate Finishing(pc: Pc, id: Id, was: Newest) {
    match pc
    case CommitSupersede(staged, _, previous, _) => staged == id && was.Last? && previous == was.id
    case CommitActivate(staged, _, previous) => staged == id && was.Last? && previous == was.id
    case Done(outcome) => outcome == if was.Nothing? then InsertNew(id) else Evolve(id, was.id)
    case _ => false
  }

  predicate Preparing(pc: Pc) {
    pc.Begin? || pc.RecoverActivate? || pc.Lookup?
  }

  /** A store that left its identity as it was: it died before its upsert, or its verdict was not to commit. */
  ghost predicate Untouched(before: View, req: Request, after: View, outcome: Option<Outcome>)
    requires req.Store?
  {
    && after == before
    && match outcome
       case None => true
       case Some(NoChange(id)) => Decide(req, before.newest) == Keep(id)
       case Some(Failed(fault)) => Decide(req, before.newest) == Refuse(fault)
       case Some(_) => false
  }

  /** A store whose upsert landed: one new log entry, under an id the identity did not have. */
  ghost predicate Landed(before: View, req: Request, after: View, outcome: Option<Outcome>)
    requires req.Store?
  {
    && Decide(req, before.newest).Commit?
    && after.newest.Last? && after == Extended(before, req, after.newest.id)
    && (before.newest.Last? ==> before.newest.id != after.newest.id)
    && (outcome.Some? ==> Finishing(Done(outcome.value), after.newest.id, before.newest))
  }

  // ------------------------------------ one step in a legal world, in those terms

  /** What must hold for a call to run on, between any two of its writes. */
  ghost predicate Ready(repo: Repo, req: Request, pc: Pc) {
    && AllHealthy(repo) && Sound(req, pc)
    && (req.Store? ==> FewContexts(repo, req.ident))
    && (pc.Begin? ==> SeesAll(repo, req.ident, Begin))
    && InStep(repo, Call(req, pc))
  }

  /** What a step does to the identity as its callers see it. */
  ghost predicate ViewStep(before: View, req: Request, pc: Pc, r: StepResult, after: View)
    requires Sound(req, pc)
  {
    if !pc.Lookup? then
      && after == before
      && (req.Store? && Preparing(pc) ==> Preparing(r.pc))
      && (forall id, was :: Finishing(pc, id, was) ==> Finishing(r.pc, id, was))
      && (pc.Done? ==> r.pc == pc)
    else
      match Decide(req, before.newest)
      case Refuse(fault) => after == before && !r.wrote && r.pc == Done(Failed(fault))
      case Keep(id) => after == before && !r.wrote && r.pc == Done(NoChange(id))
      case Commit =>
        && Landed(before, req, after, None) && r.wrote
        && Finishing(r.pc, after.newest.id, before.newest) && Rank(r.pc) <= 2 && (before.newest.Last? ==> !r.pc.Done?)
  }

  ghost predicate StepTo(repo: Repo, req: Request, pc: Pc, r: StepResult)
    requires Sound(req, pc)
  {
    && TouchesOnly(repo, r.repo, req.ident) && Ready(r.repo, req, r.pc)
    && (!r.wrote ==> r.repo == repo)
    && ViewStep(ViewOf(repo, req.ident), req, pc, r, ViewOf(r.repo, req.ident))
  }

  lemma AllStayHealthy(repo: Repo, after: Repo, ident: Identity)
    requires AllHealthy(repo) && TouchesOnly(repo, after, ident) && Healthy(after, ident)
    ensures AllHealthy(after)
  {
    forall other ensures Healthy(after, other) {
      assert Healthy(repo, other);
      if other != ident { OthersKept(repo, after, ident, other); }
    }
  }

  lemma StepReady(repo: Repo, req: Request, pc: Pc, hits: seq<Id>, newId: Id)
    requires Ready(repo, req, pc) && newId !in repo
    requires LegalAnswer(repo, req, pc, hits) && SeesAll(repo, req.ident, pc)
    ensures var r := Step(repo, req, pc, hits, newId);
            TouchesOnly(repo, r.repo, req.ident) && Ready(r.repo, req, r.pc)
  {
    var r := Step(repo, req, pc, hits, newId);
    CallStep(repo, Call(req, pc), hits, newId);
    AllStayHealthy(repo, r.repo, req.ident);
    ContextsKept(repo, r.repo, req.ident);
    StepDescends(repo, req, pc, hits, newId);
  }

  lemma StaysOnTrack(repo: Repo, req: Request, pc: Pc, hits: seq<Id>, newId: Id, c: Chain, phase: Phase)
    requires Chained(repo, req.ident, c, phase) && Agrees(repo, c, phase, req, pc) && !pc.Lookup?
    requires LegalAnswer(repo, req, pc, hits) && SeesAll(repo, req.ident, pc)
    ensures var r := Step(repo, req, pc, hits, newId);
            && (req.Store? && Preparing(pc) ==> Preparing(r.pc))
            && (forall id, was :: Finishing(pc, id, was) ==> Finishing(r.pc, id, was))
            && (pc.Done? ==> r.pc == pc)
  {
    if pc.Begin? { BeginResult(repo, req, hits, c, phase); }
  }

  lemma LookupSummary(repo: Repo, req: Request, r: StepResult, newId: Id, before: View, after: View)
    requires req.Store? && newId !in repo && before == ViewOf(repo, req.ident) && after == ViewOf(r.repo, req.ident)
    requires StepView(repo, req, Lookup, r, newId)
    requires before.newest.Last? ==> before.newest.id in repo
    ensures ViewStep(before, req, Lookup, r, after)
  {
    if Decide(req, before.newest).Commit? { LandedView(before, req, after, newId); }
  }

  lemma LandedView(before: View, req: Request, after: View, newId: Id)
    requires req.Store? && Decide(req, before.newest).Commit? && after == Extended(before, req, newId)
    requires before.newest.Last? ==> before.newest.id != newId
    ensures Landed(before, req, after, None) && after.newest.id == newId
  {
  }

  /** A step that sees every match, seen through the abstraction. */
  lemma SeenStep(repo: Repo, req: Request, pc: Pc, hits: seq<Id>, newId: Id)
    requires InStep(repo, Call(req, pc)) && Sound(req, pc) && newId !in repo
    requires LegalAnswer(repo, req, pc, hits) && SeesAll(repo, req.ident, pc)
    ensures var r := Step(repo, req, pc, hits, newId);
            ViewStep(ViewOf(repo, req.ident), req, pc, r, ViewOf(r.repo, req.ident))
  {
    var c: Chain, phase :| Chained(repo, req.ident, c, phase) && Agrees(repo, c, phase, req, pc);
    if pc.Lookup? {
      LookupStepView(repo, req, hits, newId, c, phase);
      NewestIs(repo, req.ident, c, phase);
      if c != [] { assert c[|c| - 1] in c; }
      var r := StepLookup(repo, req, hits, newId);
      LookupSummary(repo, req, r, newId, ViewOf(repo, req.ident), ViewOf(r.repo, req.ident));
    } else {
      OtherStepView(repo, req, pc, hits, newId, c, phase);
      StaysOnTrack(repo, req, pc, hits, newId, c, phase);
    }
  }

  lemma StepIsTo(repo: Repo, req: Request, pc: Pc, hits: seq<Id>, newId: Id)
    requires Ready(repo, req, pc) && newId !in repo
    requires LegalAnswer(repo, req, pc, hits) && SeesAll(repo, req.ident, pc)
    ensures StepTo(repo, req, pc, Step(repo, req, pc, hits, newId))
  {
    StepReady(repo, req, pc, hits, newId);
    StepDescends(repo, req, pc, hits, newId);
    SeenStep(repo, req, pc, hits, newId);
  }

  /** Any step of a legal world, without mention of how it was chosen. */
  lemma WorldStep(next: World, repo: Repo, req: Request, pc: Pc)
    requires LegalWorld(next) && Ready(repo, req, pc)
    ensures StepTo(repo, req, pc, next(repo, req, pc))
  {
    assert LegalStep(next, repo, req, pc);
    var hits, newId :|
      newId !in repo && LegalAnswer(repo, req, pc, hits) && next(repo, req, pc) == Step(repo, req, pc, hits, newId);
    if pc.Lookup? { FewContextsSeeAll(repo, req.ident, pc); }
    StepIsTo(repo, req, pc, hits, newId);
  }

  lemma LegalDescends(next: World)
    requires LegalSteps(next)
    ensures Descends(next)
  {
    forall repo, req, pc | Sound(req, pc) && !pc.Done?
      ensures var r := next(repo, req, pc); Sound(req, r.pc) && Rank(r.pc) < Rank(pc)
    {
      assert LegalStep(next, repo, req, pc);
      var hits, newId :|
        newId !in repo && LegalAnswer(repo, req, pc, hits) && next(repo, req, pc) == Step(repo, req, pc, hits, newId);
      StepDescends(repo, req, pc, hits, newId);
    }
  }

  // --------------------------------------------------------------- whole calls

  lemma TouchesTwice(repo: Repo, mid: Repo, after: Repo, ident: Identity)
    requires TouchesOnly(repo, mid, ident) && TouchesOnly(mid, after, ident)
    ensures TouchesOnly(repo, after, ident)
  {
  }

  lemma {:induction false} ExecFinishes(next: World, repo: Repo, req: Request, pc: Pc, budget: nat, id: Id, was: Newest)
    requires LegalWorld(next) && Ready(repo, req, pc) && Finishing(pc, id, was)
    ensures var h := Exec(next, repo, req, pc, budget);
            && TouchesOnly(repo, h.repo, req.ident) && AllHealthy(h.repo)
            && SameView(repo, h.repo, req.ident)
            && (budget >= Rank(pc) ==> h.outcome.Some?)
            && (h.outcome.Some? ==> Finishing(Done(h.outcome.value), id, was))
    decreases Rank(pc)
  {
    if !pc.Done? {
      var r := next(repo, req, pc);
      WorldStep(next, repo, req, pc);
      if !(r.wrote && budget == 0) {
        ExecFinishes(next, r.repo, req, r.pc, if r.wrote then budget - 1 else budget, id, was);
      }
    }
  }

  /** Everything a store can do to its identity, whether or not it survives. */
  ghost predicate StoreEffect(repo: Repo, req: Request, h: Halt)
    requires req.Store?
  {
    || Untouched(ViewOf(repo, req.ident), req, ViewOf(h.repo, req.ident), h.outcome)
    || Landed(ViewOf(repo, req.ident), req, ViewOf(h.repo, req.ident), h.outcome)
  }

  lemma ExecFromLookup(next: World, repo: Repo, req: Request, budget: nat, h: Halt)
    requires LegalWorld(next) && Ready(repo, req, Lookup) && req.Store? && h == Exec(next, repo, req, Lookup, budget)
    ensures TouchesOnly(repo, h.repo, req.ident) && AllHealthy(h.repo)
    ensures StoreEffect(repo, req, h) && (budget >= 3 ==> h.outcome.Some?)
  {
    var r := next(repo, req, Lookup);
    if r.wrote && budget > 0 {
      ExecAfterUpsert(next, repo, req, r, budget - 1, h);
    } else {
      StopsAtLookup(next, repo, req, budget, r, h);
    }
  }

  lemma StopsAtLookup(next: World, repo: Repo, req: Request, budget: nat, r: StepResult, h: Halt)
    requires LegalWorld(next) && Ready(repo, req, Lookup) && req.Store? && h == Exec(next, repo, req, Lookup, budget)
    requires r == next(repo, req, Lookup) && (r.wrote ==> budget == 0)
    ensures TouchesOnly(repo, h.repo, req.ident) && AllHealthy(h.repo)
    ensures StoreEffect(repo, req, h) && (budget >= 3 ==> h.outcome.Some?)
  {
    WorldStep(next, repo, req, Lookup);
    NothingLanded(ViewOf(repo, req.ident), req, r, ViewOf(r.repo, req.ident));
  }

  lemma ExecAfterUpsert(next: World, repo: Repo, req: Request, r: StepResult, budget: nat, h: Halt)
    requires LegalWorld(next) && Ready(repo, req, Lookup) && req.Store? && r == next(repo, req, Lookup) && r.wrote
    requires Sound(req, r.pc) && h == Exec(next, r.repo, req, r.pc, budget)
    ensures TouchesOnly(repo, h.repo, req.ident) && AllHealthy(h.repo)
    ensures StoreEffect(repo, req, h) && (budget >= 2 ==> h.outcome.Some?)
  {
    WorldStep(next, repo, req, Lookup);
    var before, mid := ViewOf(repo, req.ident), ViewOf(r.repo, req.ident);
    UpsertLanded(before, req, r, mid);
    ExecFinishes(next, r.repo, req, r.pc, budget, mid.newest.id, before.newest);
    TouchesTwice(repo, r.repo, h.repo, req.ident);
    LandedEnds(before, req, mid, h.outcome);
  }

  lemma UpsertLanded(before: View, req: Request, r: StepResult, after: View)
    requires req.Store? && ViewStep(before, req, Lookup, r, after) && r.wrote
    ensures Landed(before, req, after, None) && Finishing(r.pc, after.newest.id, before.newest) && Rank(r.pc) <= 2
  {
  }

  lemma LandedEnds(before: View, req: Request, after: View, outcome: Option<Outcome>)
    requires req.Store? && Landed(before, req, after, None)
    requires outcome.Some? ==> Finishing(Done(outcome.value), after.newest.id, before.newest)
    ensures Landed(before, req, after, outcome)
  {
  }

  lemma NothingLanded(before: View, req: Request, r: StepResult, after: View)
    requires req.Store? && ViewStep(before, req, Lookup, r, after)
    ensures Untouched(before, req, before, None)
    ensures !r.wrote ==> r.pc.Done? && Untouched(before, req, after, Some(r.pc.outcome))
  {
  }

  /** A store either leaves the log alone or commits its own content once, as its verdict says. */
  lemma {:induction false} ExecStores(next: World, repo: Repo, req: Request, pc: Pc, budget: nat)
    requires LegalWorld(next) && Ready(repo, req, pc) && req.Store? && Preparing(pc)
    ensures var h := Exec(next, repo, req, pc, budget);
            && TouchesOnly(repo, h.repo, req.ident) && AllHealthy(h.repo)
            && StoreEffect(repo, req, h) && (budget >= Rank(pc) ==> h.outcome.Some?)
    decreases Rank(pc)
  {
    if pc.Lookup? {
      ExecFromLookup(next, repo, req, budget, Exec(next, repo, req, pc, budget));
    } else {
      var r := next(repo, req, pc);
      WorldStep(next, repo, req, pc);
      if !(r.wrote && budget == 0) {
        ExecStores(next, r.repo, req, r.pc, if r.wrote then budget - 1 else budget);
      }
    }
  }
}
