/**
 The service itself: its methods change the stored points write by write, and the
 process may die once its remaining writes are used up.
 */
module EvolutionService {
  import opened Common
  import opened EvolutionModel
  import opened EvolutionCalls
  import opened EvolutionGuarantees
  import opened EvolutionInvariant
  import opened EvolutionRuns
  import opened EvolutionVerdicts

  /** The storage server and the id source, as functions of what is stored. */
  datatype Server = Server(
    pending: (Repo, Identity) -> seq<Id>,
    active: (Repo, Identity) -> seq<Id>,
    allPending: (Repo, nat) -> seq<Id>,
    newId: Repo -> Id)

  ghost predicate LegalServer(srv: Server) {
    && (forall repo, ident :: Answers(srv.pending(repo, ident), PendingLike(repo, ident), SCROLL_LIMIT))
    && (forall repo, ident :: Answers(srv.active(repo, ident), ActiveLike(repo, ident), SEARCH_LIMIT))
    && (forall repo, limit :: Answers(srv.allPending(repo, limit), AllPending(repo), limit))
    && (forall repo :: srv.newId(repo) !in repo)
  }

  function Hits(srv: Server, repo: Repo, req: Request, pc: Pc): seq<Id> {
    if pc.Begin? then srv.pending(repo, req.ident)
    else if pc.Lookup? then srv.active(repo, req.ident)
    else []
  }

  function StepWith(srv: Server, repo: Repo, req: Request, pc: Pc): StepResult {
    if Sound(req, pc) then Step(repo, req, pc, Hits(srv, repo, req, pc), srv.newId(repo))
    else StepResult(repo, Done(Recovered), false)
  }

  function Drive(srv: Server): World {
    (repo, req, pc) => StepWith(srv, repo, req, pc)
  }

  lemma DriveDescends(srv: Server)
    ensures Descends(Drive(srv))
  {
    forall repo, req, pc | Sound(req, pc) && !pc.Done?
      ensures var r := Drive(srv)(repo, req, pc); Sound(req, r.pc) && Rank(r.pc) < Rank(pc)
    {
      StepDescends(repo, req, pc, Hits(srv, repo, req, pc), srv.newId(repo));
    }
  }

  /** A legal server makes a legal world, so every guarantee about calls is one about this service. */
  lemma DriveIsLegal(srv: Server)
    requires LegalServer(srv)
    ensures LegalWorld(Drive(srv))
  {
    forall repo, req, pc | Sound(req, pc)
      ensures LegalStep(Drive(srv), repo, req, pc)
    {
      var hits, newId := Hits(srv, repo, req, pc), srv.newId(repo);
      assert LegalAnswer(repo, req, pc, hits);
      assert Drive(srv)(repo, req, pc) == Step(repo, req, pc, hits, newId);
    }
    DriveDescends(srv);
  }

  ghost function Calls(srv: Server, repo: Repo, req: Request, pc: Pc, budget: nat): Halt
    requires Sound(req, pc)
  {
    DriveDescends(srv);
    Exec(Drive(srv), repo, req, pc, budget)
  }

  lemma CallsStep(srv: Server, repo: Repo, req: Request, pc: Pc, budget: nat)
    requires Sound(req, pc) && !pc.Done?
    ensures var r := Step(repo, req, pc, Hits(srv, repo, req, pc), srv.newId(repo));
            && Sound(req, r.pc)
            && Calls(srv, repo, req, pc, budget) ==
               if r.wrote && budget == 0 then Halt(repo, None, 0)
               else Calls(srv, r.repo, req, r.pc, if r.wrote then budget - 1 else budget)
  {
    DriveDescends(srv);
    StepDescends(repo, req, pc, Hits(srv, repo, req, pc), srv.newId(repo));
  }

  /** What a store over a server that answers within its limits does, alive to the end or not. */
  lemma StoreReports(srv: Server, repo: Repo, req: Request, budget: nat, h: Halt)
    requires LegalServer(srv) && req.Store? && AllHealthy(repo) && FewContexts(repo, req.ident)
    requires h == Calls(srv, repo, req, Begin, budget)
    ensures Reached(req, ViewOf(repo, req.ident), ViewOf(h.repo, req.ident), h.outcome)
    ensures AllHealthy(h.repo) && (budget >= 5 ==> h.outcome.Some?)
  {
    DriveIsLegal(srv);
    StoreEffects(Drive(srv), repo, req, budget, h);
    EffectReports(ViewOf(repo, req.ident), req, ViewOf(h.repo, req.ident), h.outcome);
  }

  datatype Progress = Alive | Dead | Raised(fault: Fault)

  class KnowledgeEvolutionService {
    var points: Repo
    var budget: nat   // repository writes left before the process dies
    const server: Server

    constructor (server: Server, points: Repo, budget: nat)
      ensures this.server == server && this.points == points && this.budget == budget
    {
      this.server, this.points, this.budget := server, points, budget;
    }

    method Write(next: Repo) returns (alive: bool)
      modifies this
      ensures alive == (old(budget) > 0)
      ensures if alive then points == next && budget == old(budget) - 1 else points == old(points) && budget == 0
    {
      alive := budget > 0;
      if alive {
        points := next;
        budget := budget - 1;
      }
    }

    method ActivateStaged(staged: Id, ext: Extensions) returns (alive: bool)
      modifies this
      ensures alive == (old(budget) > 0)
      ensures if alive then points == Activate(old(points), staged, ext) && budget == old(budget) - 1
              else points == old(points) && budget == 0
    {
      alive := true;
      if staged in points {
        var committed := ext.(state := Committed, previous := None);
        alive := Write(points[staged := points[staged].(status := Active, ext := committed)]);
      } else {
        alive := Write(points);
      }
    }

    method MarkSuperseded(previous: Id, staged: Id) returns (alive: bool)
      modifies this
      ensures alive == (old(budget) > 0)
      ensures if alive then points == Supersede(old(points), previous, staged) && budget == old(budget) - 1
              else points == old(points) && budget == 0
    {
      if previous in points {
        alive := Write(points[previous := points[previous].(status := Superseded, supersededBy := Some(staged))]);
      } else {
        alive := Write(points);
      }
    }

    /** Rolls a staged version of the identity forward, if a crash left one. */
    method RecoverPending(req: Request) returns (p: Progress)
      modifies this
      ensures p.Alive? ==>
                Calls(server, old(points), req, Begin, old(budget)) == Calls(server, points, req, AfterRecovery(req), budget)
      ensures p.Dead? ==> Calls(server, old(points), req, Begin, old(budget)) == Halt(points, None, budget)
      ensures p.Raised? ==>
                Calls(server, old(points), req, Begin, old(budget)) == Halt(points, Some(Failed(p.fault)), budget)
    {
      var exact := KeepExact(points, server.pending(points, req.ident), req.ident, true);
      CallsStep(server, points, req, Begin, budget);
      if exact == [] { return Alive; }
      if |exact| > 1 { return Raised(ManyPending); }
      var staged := exact[0];
      if staged !in points { return Raised(PredecessorMissing); }
      var ext := points[staged].ext;
      if ext.previous == None { return Raised(NoPredecessorId); }
      var previous := ext.previous.value;
      if previous !in points { return Raised(PredecessorMissing); }
      var before := points[previous];
      if before.ident.partition != req.ident.partition { return Raised(PredecessorScope); }
      if before.status == Active {
        if before.supersededBy != None && before.supersededBy != Some(staged) { return Raised(OtherSuccessor); }
        var alive := MarkSuperseded(previous, staged);
        if !alive { return Dead; }
      } else if before.status != Superseded || before.supersededBy != Some(staged) {
        return Raised(PredecessorState);
      }
      p := FinishRecovery(req, staged, ext);
    }

    /** The last write of a recovery. */
    method FinishRecovery(ghost req: Request, staged: Id, ext: Extensions) returns (p: Progress)
      modifies this
      ensures !p.Raised?
      ensures p.Alive? ==>
                Calls(server, old(points), req, RecoverActivate(staged, ext), old(budget))
                == Calls(server, points, req, AfterRecovery(req), budget)
      ensures p.Dead? ==>
                Calls(server, old(points), req, RecoverActivate(staged, ext), old(budget)) == Halt(points, None, budget)
    {
      CallsStep(server, points, req, RecoverActivate(staged, ext), budget);
      var alive := ActivateStaged(staged, ext);
      return if alive then Alive else Dead;
    }

    /** Marks the predecessor superseded, then activates the staged record. */
    method CommitStagedEvolution(ghost req: Request, staged: Id, ext: Extensions, previous: Id, next: Option<Id>)
      returns (outcome: Option<Outcome>)
      modifies this
      ensures Halt(points, outcome, budget) ==
              Calls(server, old(points), req, CommitSupersede(staged, ext, previous, next), old(budget))
    {
      CallsStep(server, points, req, CommitSupersede(staged, ext, previous, next), budget);
      if next != None && next != Some(staged) { return Some(Failed(OtherSuccessor)); }
      var alive := MarkSuperseded(previous, staged);
      if !alive { return None; }
      CallsStep(server, points, req, CommitActivate(staged, ext, previous), budget);
      alive := ActivateStaged(staged, ext);
      return if alive then Some(Evolve(staged, previous)) else None;
    }

    /** A store: what it answers and leaves, over healthy records that its queries can see. */
    method Store(req: Request) returns (outcome: Option<Outcome>)
      requires req.Store?
      modifies this
      ensures Halt(points, outcome, budget) == Calls(server, old(points), req, Begin, old(budget))
      ensures LegalServer(server) && AllHealthy(old(points)) && FewContexts(old(points), req.ident) ==>
                && Reached(req, ViewOf(old(points), req.ident), ViewOf(points, req.ident), outcome)
                && AllHealthy(points) && (old(budget) >= 5 ==> outcome.Some?)
    {
      ghost var repo, writes := points, budget;
      outcome := StoreStepwise(req);
      if LegalServer(server) && AllHealthy(repo) && FewContexts(repo, req.ident) {
        StoreReports(server, repo, req, writes, Halt(points, outcome, budget));
      }
    }

    /** The store as it runs, write by write. */
    method StoreStepwise(req: Request) returns (outcome: Option<Outcome>)
      requires req.Store?
      modifies this
      ensures Halt(points, outcome, budget) == Calls(server, old(points), req, Begin, old(budget))
    {
      var recovered := RecoverPending(req);
      if recovered.Dead? { return None; }
      if recovered.Raised? { return Some(Failed(recovered.fault)); }

      CallsStep(server, points, req, Lookup, budget);
      var exact := KeepExact(points, server.active(points, req.ident), req.ident, false);
      if |exact| > 1 { return Some(Failed(ManyActive)); }
      var newest := NewestIn(points, exact);
      var verdict := Decide(req, newest);
      if verdict.Refuse? { return Some(Failed(verdict.fault)); }
      if verdict.Keep? { return Some(NoChange(verdict.id)); }

      var previous := if newest.Last? then Some(newest.id) else None;
      var next := if newest.Last? then points[newest.id].supersededBy else None;
      var newId := server.newId(points);
      var record := NewRecord(points, req, previous);
      var alive := Write(points[newId := record]);
      if !alive { return None; }
      if newest.Nothing? { return Some(InsertNew(newId)); }
      outcome := CommitStagedEvolution(req, newId, record.ext, newest.id, next);
    }

    /** The identities of the pending points, refusing blank fields and shared lock keys. */
    method CollectIdentities(n: Naming, pending: seq<Id>) returns (c: Collected)
      ensures c == Collect(n, points, pending, {})
    {
      var idents: seq<Identity>, seen: set<string> := [], {};
      var i := 0;
      while i < |pending|
        invariant 0 <= i <= |pending|
        invariant Collect(n, points, pending, {}) ==
                  match Collect(n, points, pending[i..], seen)
                  case Found(rest) => Found(idents + rest)
                  case other => other
      {
        assert pending[i..][1..] == pending[i + 1..];
        if pending[i] in points {
          var ident := points[pending[i]].ident;
          if n.blank(ident) { return BlankField; }
          var stripped := n.strip(ident);
          var key := n.key(stripped);
          if key in seen { return Duplicate; }
          seen := seen + {key};
          assert forall rest: seq<Identity> :: idents + ([stripped] + rest) == (idents + [stripped]) + rest;
          idents := idents + [stripped];
        }
        i := i + 1;
      }
      assert idents + [] == idents;
      return Found(idents);
    }

    /** Recovers each identity in turn, stopping at the first that does not return. */
    method RecoverEach(idents: seq<Identity>) returns (outcome: Option<Outcome>)
      modifies this
      ensures Descends(Drive(server))
      ensures Halt(points, outcome, budget) == RecoverAll(Drive(server), old(points), idents, old(budget))
    {
      DriveDescends(server);
      var k := 0;
      while k < |idents|
        invariant 0 <= k <= |idents|
        invariant RecoverAll(Drive(server), old(points), idents, old(budget)) ==
                  RecoverAll(Drive(server), points, idents[k..], budget)
      {
        assert idents[k..][0] == idents[k] && idents[k..][1..] == idents[k + 1..];
        var recovered := RecoverPending(Recover(idents[k]));
        if recovered.Dead? { return None; }
        if recovered.Raised? { return Some(Failed(recovered.fault)); }
        k := k + 1;
      }
      return Some(Recovered);
    }

    /** Startup reconciliation; `None` when the limit is not positive. */
    method ReconcilePending(maxPending: int) returns (outcome: Option<Reconciliation>)
      modifies this
      ensures maxPending < 1 <==> outcome == None
      ensures maxPending < 1 ==> points == old(points) && budget == old(budget)
      ensures maxPending >= 1 ==>
                Descends(Drive(server)) &&
                Reconcile(points, outcome.value, budget) ==
                ReconcileAll(NAMING, Drive(server), old(points), server.allPending(old(points), maxPending + 1),
                             maxPending, old(budget))
    {
      if maxPending < 1 { return None; }
      DriveDescends(server);
      var pending := server.allPending(points, maxPending + 1);
      if |pending| > maxPending { return Some(LimitExceeded); }
      var collected := CollectIdentities(NAMING, pending);
      if collected.BlankField? { return Some(BlankIdentity); }
      if collected.Duplicate? { return Some(SharedIdentity); }
      var ended := RecoverEach(collected.idents);
      return Some(Summary(Halt(points, ended, budget), |collected.idents|).outcome);
    }
  }
}
