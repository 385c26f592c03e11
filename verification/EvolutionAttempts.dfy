/**
 Stores among other calls: what an attempt at a store does to its identity while calls on other
 identities run at the same time, and what repeating it does.
 */
module EvolutionAttempts {
  import opened Common
  import opened EvolutionModel
  import opened EvolutionInvariant
  import opened EvolutionRuns
  import opened EvolutionCalls
  import opened EvolutionGuarantees
  import opened EvolutionVerdicts

  /** How far a store has come, by the view it started from and the view there is now. */
  ghost predicate Progress(before: View, req: Request, pc: Pc, now: View)
    requires req.Store?
  {
    || (Preparing(pc) && now == before)
    || (pc.Done? && Untouched(before, req, now, Some(pc.outcome)))
    || (Landed(before, req, now, None) && Finishing(pc, now.newest.id, before.newest))
  }

  lemma ProgressStep(before: View, req: Request, pc: Pc, r: StepResult, mid: View, now: View)
    requires req.Store? && Progress(before, req, pc, mid) && ViewStep(mid, req, pc, r, now)
    ensures Progress(before, req, r.pc, now)
  {
  }

  lemma ViewKept(repo: Repo, after: Repo, ident: Identity, other: Identity)
    requires Healthy(repo, other) && TouchesOnly(repo, after, ident) && other != ident
    ensures ViewOf(after, other) == ViewOf(repo, other)
  {
    var c: Chain, phase :| Chained(repo, other, c, phase);
    ElsewhereKept(repo, after, ident, other, c, phase);
    LogIs(repo, other, c, phase);
    LogIs(after, other, c, phase);
    NewestIs(repo, other, c, phase);
    NewestIs(after, other, c, phase);
    if c != [] { assert c[|c| - 1] in c; }
  }

  ghost predicate Attends(lock: Locking, s: System, req: Request) {
    lock(req.ident) in s.calls && s.calls[lock(req.ident)].req == req
  }

  ghost function Stage(lock: Locking, s: System, req: Request): Pc
    requires Attends(lock, s, req)
  {
    s.calls[lock(req.ident)].pc
  }

  /** A step of another call leaves the identity's view alone. */
  lemma OtherAdvance(lock: Locking, s: System, e: Event, ident: Identity)
    requires Inv(lock, s) && Enabled(lock, s, e) && e.Advance? && s.calls[e.key].req.ident != ident
    ensures ViewOf(Apply(lock, s, e).repo, ident) == ViewOf(s.repo, ident)
  {
    AdvanceOwn(lock, s, e);
    assert Healthy(s.repo, ident);
    ViewKept(s.repo, Apply(lock, s, e).repo, s.calls[e.key].req.ident, ident);
  }

  lemma OwnAdvance(lock: Locking, s: System, e: Event, req: Request, before: View)
    requires Inv(lock, s) && Enabled(lock, s, e) && e.Advance? && req.Store? && Attends(lock, s, req) && e.key == lock(req.ident)
    requires Progress(before, req, Stage(lock, s, req), ViewOf(s.repo, req.ident))
    ensures var t := Apply(lock, s, e);
            Attends(lock, t, req) && Progress(before, req, Stage(lock, t, req), ViewOf(t.repo, req.ident))
  {
    var call := s.calls[e.key];
    SeenStep(s.repo, req, call.pc, e.hits, e.newId);
    var r := Step(s.repo, req, call.pc, e.hits, e.newId);
    ProgressStep(before, req, call.pc, r, ViewOf(s.repo, req.ident), ViewOf(r.repo, req.ident));
  }

  lemma EventProgress(lock: Locking, s: System, e: Event, req: Request, before: View)
    requires Inv(lock, s) && Enabled(lock, s, e) && req.Store? && Attends(lock, s, req) && e != Leave(lock(req.ident))
    requires Progress(before, req, Stage(lock, s, req), ViewOf(s.repo, req.ident))
    ensures var t := Apply(lock, s, e);
            Attends(lock, t, req) && Progress(before, req, Stage(lock, t, req), ViewOf(t.repo, req.ident))
  {
    if e.Advance? {
      if e.key == lock(req.ident) { OwnAdvance(lock, s, e, req, before); }
      else { OtherAdvance(lock, s, e, req.ident); }
    }
  }

  lemma {:induction false} RunProgress(lock: Locking, s: System, es: seq<Event>, t: System, req: Request, before: View)
    requires Inv(lock, s) && Run(lock, s, es, t) && req.Store? && Attends(lock, s, req) && Leave(lock(req.ident)) !in es
    requires Progress(before, req, Stage(lock, s, req), ViewOf(s.repo, req.ident))
    ensures Attends(lock, t, req) && Progress(before, req, Stage(lock, t, req), ViewOf(t.repo, req.ident))
    decreases |es|
  {
    if es != [] {
      EventProgress(lock, s, es[0], req, before);
      EventRefines(lock, s, es[0], req.ident);
      RunProgress(lock, Apply(lock, s, es[0]), es[1..], t, req, before);
    }
  }

  /** An attempt at a call: it starts, and at `t` it is still there, about to return or to die. */
  ghost predicate Attempt(lock: Locking, s: System, es: seq<Event>, t: System, req: Request) {
    && Enabled(lock, s, Start(req)) && Run(lock, Apply(lock, s, Start(req)), es, t)
    && Leave(lock(req.ident)) !in es && Attends(lock, t, req)
  }

  ghost function Reported(pc: Pc): Option<Outcome> {
    if pc.Done? then Some(pc.outcome) else None
  }

  /** Whatever others do meanwhile, a store leaves its identity alone or commits its content once. */
  lemma AttemptEffect(lock: Locking, s: System, es: seq<Event>, t: System, req: Request)
    requires Inv(lock, s) && Attempt(lock, s, es, t, req) && req.Store?
    ensures Inv(lock, t)
    ensures Effect(ViewOf(s.repo, req.ident), req, ViewOf(t.repo, req.ident), Reported(Stage(lock, t, req)))
    ensures Reached(req, ViewOf(s.repo, req.ident), ViewOf(t.repo, req.ident), Reported(Stage(lock, t, req)))
  {
    var u := Apply(lock, s, Start(req));
    EventRefines(lock, s, Start(req), req.ident);
    RunKeepsInv(lock, u, es, t);
    RunProgress(lock, u, es, t, req, ViewOf(s.repo, req.ident));
    EffectOfProgress(ViewOf(s.repo, req.ident), req, Stage(lock, t, req), ViewOf(t.repo, req.ident));
    EffectReports(ViewOf(s.repo, req.ident), req, ViewOf(t.repo, req.ident), Reported(Stage(lock, t, req)));
  }

  lemma EffectOfProgress(before: View, req: Request, pc: Pc, now: View)
    requires req.Store? && Progress(before, req, pc, now)
    ensures Effect(before, req, now, Reported(pc))
  {
  }

  // ------------------------------------------------------------------ between two attempts

  ghost predicate OnlyRecovers(es: seq<Event>, ident: Identity) {
    forall k :: 0 <= k < |es| && es[k].Start? && es[k].req.ident == ident ==> es[k].req.Recover?
  }

  ghost predicate OnlyRecovering(s: System, ident: Identity) {
    forall key :: key in s.calls && s.calls[key].req.ident == ident ==> s.calls[key].req.Recover?
  }

  lemma RecoverAdvance(lock: Locking, s: System, e: Event)
    requires Inv(lock, s) && Enabled(lock, s, e) && e.Advance? && s.calls[e.key].req.Recover?
    ensures ViewOf(Apply(lock, s, e).repo, s.calls[e.key].req.ident) == ViewOf(s.repo, s.calls[e.key].req.ident)
  {
    SeenStep(s.repo, s.calls[e.key].req, s.calls[e.key].pc, e.hits, e.newId);
  }

  lemma {:induction false} RecoveriesKeepView(lock: Locking, s: System, es: seq<Event>, t: System, ident: Identity)
    requires Inv(lock, s) && Run(lock, s, es, t) && OnlyRecovering(s, ident) && OnlyRecovers(es, ident)
    ensures ViewOf(t.repo, ident) == ViewOf(s.repo, ident) && Inv(lock, t)
    decreases |es|
  {
    if es != [] {
      var e := es[0];
      EventRefines(lock, s, e, ident);
      if e.Advance? {
        if s.calls[e.key].req.ident == ident { RecoverAdvance(lock, s, e); } else { OtherAdvance(lock, s, e, ident); }
      }
      assert OnlyRecovers(es[1..], ident) by {
        assert forall k :: 0 <= k < |es[1..]| ==> es[1..][k] == es[k + 1];
      }
      RecoveriesKeepView(lock, Apply(lock, s, e), es[1..], t, ident);
    }
  }

  lemma LeftAlone(lock: Locking, s: System, req: Request)
    requires Inv(lock, s) && Attends(lock, s, req)
    ensures var t := Apply(lock, s, Leave(lock(req.ident)));
            Inv(lock, t) && t.repo == s.repo && OnlyRecovering(t, req.ident)
  {
    EventRefines(lock, s, Leave(lock(req.ident)), req.ident);
  }

  /**
   Exactly once on retry, among calls on other identities. A store stops at any point and is
   repeated, with no store to its identity in between. The repetition leaves the log that one
   undisturbed attempt would have left exactly when the upsert had not landed, or the request does
   not force an evolution, or names an expected version; having landed, it reports NO_CHANGE.
   */
  lemma RetryExactlyOnce(lock: Locking, s: System, first: seq<Event>, stopped: System, between: seq<Event>, resumed: System,
                         again: seq<Event>, retried: System, alone: seq<Event>, once: System, req: Request)
    requires Inv(lock, s) && req.Store? && Attempt(lock, s, first, stopped, req)
    requires Run(lock, Apply(lock, stopped, Leave(lock(req.ident))), between, resumed) && OnlyRecovers(between, req.ident)
    requires Attempt(lock, resumed, again, retried, req) && Stage(lock, retried, req).Done?
    requires Attempt(lock, s, alone, once, req) && Stage(lock, once, req).Done?
    ensures LogOf(retried.repo, req.ident) == LogOf(once.repo, req.ident) <==>
              LogOf(stopped.repo, req.ident) == LogOf(s.repo, req.ident) || !req.force || req.expected.Some?
    ensures LogOf(stopped.repo, req.ident) != LogOf(s.repo, req.ident) ==>
              if req.expected.Some? then Stage(lock, retried, req).outcome == Failed(SourceChanged)
              else if !req.force then Stage(lock, retried, req).outcome == NoChange(NewestId(stopped.repo, req.ident))
              else LogOf(retried.repo, req.ident) == LogOf(s.repo, req.ident) + [req.content] + [req.content]
  {
    AttemptEffect(lock, s, first, stopped, req);
    LeftAlone(lock, stopped, req);
    RecoveriesKeepView(lock, Apply(lock, stopped, Leave(lock(req.ident))), between, resumed, req.ident);
    AttemptEffect(lock, resumed, again, retried, req);
    AttemptEffect(lock, s, alone, once, req);
    RetryViews(ViewOf(s.repo, req.ident), ViewOf(stopped.repo, req.ident), req, Reported(Stage(lock, stopped, req)),
               ViewOf(retried.repo, req.ident), Stage(lock, retried, req).outcome,
               ViewOf(once.repo, req.ident), Stage(lock, once, req).outcome);
  }
}
