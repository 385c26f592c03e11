/**
 Reachable inputs on which the service does less than one might assume: each is a run from the
 empty repository, and then the step or call that falls short.
 */
module EvolutionWitnesses {
  import opened Common
  import opened Text
  import opened EvolutionModel
  import opened EvolutionInvariant
  import opened EvolutionRuns
  import opened EvolutionCalls
  import opened EvolutionGuarantees
  import opened EvolutionService
  import opened EvolutionAttempts

  // ----------------------------------------------------------------- a legal server

  lemma {:induction false} AboveAll(ids: set<Id>) returns (n: Id)
    ensures forall x :: x in ids ==> x < n
  {
    if ids == {} {
      n := 0;
    } else {
      var x :| x in ids;
      var m := AboveAll(ids - {x});
      n := if x < m then m else x + 1;
      assert forall y :: y in ids ==> y == x || y in ids - {x};
    }
  }

  ghost function FreshId(repo: Repo): (id: Id)
    ensures id !in repo
  {
    FreshExists(repo);
    var id: Id :| id !in repo;
    id
  }

  lemma FreshExists(repo: Repo)
    ensures exists id: Id :: id !in repo
  {
    var n := AboveAll(repo.Keys);
    assert n !in repo;
  }

  ghost function AnAnswer(matches: set<Id>, limit: nat): (hits: seq<Id>)
    ensures Answers(hits, matches, limit)
  {
    AnswerExists(matches, limit);
    var hits :| Answers(hits, matches, limit);
    hits
  }

  lemma AnswerExists(matches: set<Id>, limit: nat)
    ensures exists hits :: Answers(hits, matches, limit)
  {
    var hits := PickSome(matches, if |matches| <= limit then |matches| else limit);
    assert Answers(hits, matches, limit);
  }

  /** Some server answers within its limits, so the guarantees are about something. */
  lemma LegalServerExists()
    ensures exists srv :: LegalServer(srv)
  {
    var srv := Server((repo: Repo, ident: Identity) => AnAnswer(PendingLike(repo, ident), SCROLL_LIMIT),
                      (repo: Repo, ident: Identity) => AnAnswer(ActiveLike(repo, ident), SEARCH_LIMIT),
                      (repo: Repo, limit: nat) => AnAnswer(AllPending(repo), limit),
                      (repo: Repo) => FreshId(repo));
    assert LegalServer(srv);
  }

  // ------------------------------------------------------------------------- running

  lemma {:induction false} RunJoin(lock: Locking, s: System, a: seq<Event>, t: System, b: seq<Event>, u: System)
    requires Run(lock, s, a, t) && Run(lock, t, b, u)
    ensures Run(lock, s, a + b, u)
    decreases |a|
  {
    if a == [] {
      assert a + b == b;
    } else {
      RunJoin(lock, Apply(lock, s, a[0]), a[1..], t, b, u);
      assert (a + b)[0] == a[0] && (a + b)[1..] == a[1..] + b;
    }
  }

  lemma RunOne(lock: Locking, s: System, e: Event)
    requires Enabled(lock, s, e)
    ensures Run(lock, s, [e], Apply(lock, s, e))
  {
    assert [e][1..] == [];
  }

  ghost predicate Reachable(lock: Locking, s: System) {
    exists es :: Run(lock, INITIAL, es, s)
  }

  lemma ReachableNext(lock: Locking, s: System, e: Event)
    requires Reachable(lock, s) && Enabled(lock, s, e)
    ensures Reachable(lock, Apply(lock, s, e))
  {
    var es :| Run(lock, INITIAL, es, s);
    RunOne(lock, s, e);
    RunJoin(lock, INITIAL, es, s, [e], Apply(lock, s, e));
  }

  lemma ReachableLater(lock: Locking, s: System, es: seq<Event>, t: System)
    requires Reachable(lock, s) && Run(lock, s, es, t)
    ensures Reachable(lock, t)
  {
    var before :| Run(lock, INITIAL, before, s);
    RunJoin(lock, INITIAL, before, s, es, t);
  }

  lemma ReachableInv(lock: Locking, s: System)
    requires Reachable(lock, s)
    ensures Inv(lock, s)
  {
    var es :| Run(lock, INITIAL, es, s);
    InitialInv(lock);
    RunKeepsInv(lock, INITIAL, es, s);
  }

  // ------------------------------------------------- attempts, carried as far as wanted

  /** The next step of a call, with some legal answer. */
  lemma Proceed(lock: Locking, s: System, req: Request) returns (e: Event)
    requires Inv(lock, s) && Attends(lock, s, req) && SeesAll(s.repo, req.ident, Stage(lock, s, req))
    ensures e.Advance? && e.key == lock(req.ident) && Enabled(lock, s, e)
  {
    var pc := Stage(lock, s, req);
    assert InStep(s.repo, s.calls[lock(req.ident)]);
    var matches := if pc.Begin? then PendingLike(s.repo, req.ident) else ActiveLike(s.repo, req.ident);
    var hits := AnAnswer(matches, if pc.Begin? then SCROLL_LIMIT else SEARCH_LIMIT);
    e := Advance(lock(req.ident), hits, FreshId(s.repo));
  }

  lemma AdvanceFacts(lock: Locking, s: System, e: Event, req: Request)
    requires Inv(lock, s) && Attends(lock, s, req) && Enabled(lock, s, e) && e.Advance? && e.key == lock(req.ident)
    ensures var t := Apply(lock, s, e);
            && Inv(lock, t) && Attends(lock, t, req) && TouchesOnly(s.repo, t.repo, req.ident) && t.calls.Keys == s.calls.Keys
            && (!Stage(lock, s, req).Done? ==> Rank(Stage(lock, t, req)) < Rank(Stage(lock, s, req)))
  {
    EventRefines(lock, s, e, req.ident);
    AdvanceOwn(lock, s, e);
    assert InStep(s.repo, s.calls[e.key]);
    StepDescends(s.repo, req, Stage(lock, s, req), e.hits, e.newId);
  }

  /** The same, with all that carrying on needs. */
  lemma Onward(lock: Locking, s: System, req: Request) returns (e: Event, u: System)
    requires Inv(lock, s) && Attends(lock, s, req) && FewContexts(s.repo, req.ident) && !Stage(lock, s, req).Done?
    ensures e.Advance? && e.key == lock(req.ident) && Enabled(lock, s, e) && u == Apply(lock, s, e)
    ensures Inv(lock, u) && Attends(lock, u, req) && FewContexts(u.repo, req.ident) && u.calls.Keys == s.calls.Keys
    ensures TouchesOnly(s.repo, u.repo, req.ident) && Rank(Stage(lock, u, req)) < Rank(Stage(lock, s, req))
  {
    FewContextsSeeAll(s.repo, req.ident, Stage(lock, s, req));
    e := Proceed(lock, s, req);
    AdvanceFacts(lock, s, e, req);
    u := Apply(lock, s, e);
    ContextsKept(s.repo, u.repo, req.ident);
  }

  lemma RunCons(lock: Locking, s: System, e: Event, u: System, rest: seq<Event>, t: System)
    requires Enabled(lock, s, e) && u == Apply(lock, s, e) && Run(lock, u, rest, t)
    ensures Run(lock, s, [e] + rest, t)
  {
    assert ([e] + rest)[1..] == rest;
  }

  /** Carries a call on until it is done. */
  lemma {:induction false} Carry(lock: Locking, s: System, req: Request) returns (es: seq<Event>, t: System)
    requires Inv(lock, s) && Attends(lock, s, req) && FewContexts(s.repo, req.ident)
    ensures Run(lock, s, es, t) && Leave(lock(req.ident)) !in es && Attends(lock, t, req) && t.calls.Keys == s.calls.Keys
    ensures TouchesOnly(s.repo, t.repo, req.ident) && Stage(lock, t, req).Done?
    decreases Rank(Stage(lock, s, req))
  {
    if Stage(lock, s, req).Done? {
      es, t := [], s;
    } else {
      var e, u := Onward(lock, s, req);
      var rest: seq<Event>;
      rest, t := Carry(lock, u, req);
      es := [e] + rest;
      RunCons(lock, s, e, u, rest, t);
      TouchesTwice(s.repo, u.repo, t.repo, req.ident);
    }
  }

  /** One step of a store that is going to commit a further version: preparation, or the upsert. */
  lemma TowardsUpsert(lock: Locking, s: System, e: Event, req: Request, t: System)
    requires Inv(lock, s) && Attends(lock, s, req) && req.Store? && Enabled(lock, s, e) && e.Advance? && e.key == lock(req.ident)
    requires Preparing(Stage(lock, s, req)) && ViewOf(s.repo, req.ident).newest.Last?
    requires Decide(req, ViewOf(s.repo, req.ident).newest).Commit? && t == Apply(lock, s, e)
    ensures var before, after := ViewOf(s.repo, req.ident), ViewOf(t.repo, req.ident);
            && Attends(lock, t, req)
            && if Stage(lock, s, req).Lookup? then after.log == before.log + [req.content] && !Stage(lock, t, req).Done? && !Preparing(Stage(lock, t, req))
               else after == before && Preparing(Stage(lock, t, req))
  {
    var pc := Stage(lock, s, req);
    SeenStep(s.repo, req, pc, e.hits, e.newId);
    StepTowardsUpsert(ViewOf(s.repo, req.ident), req, pc, Step(s.repo, req, pc, e.hits, e.newId), ViewOf(t.repo, req.ident));
  }

  lemma StepTowardsUpsert(before: View, req: Request, pc: Pc, r: StepResult, after: View)
    requires req.Store? && Preparing(pc) && ViewStep(before, req, pc, r, after) && before.newest.Last? && Decide(req, before.newest).Commit?
    ensures if pc.Lookup? then after.log == before.log + [req.content] && !r.pc.Done? && !Preparing(r.pc)
            else after == before && Preparing(r.pc)
  {
  }

  /** The store is going to commit a further version and has not upserted it yet. */
  ghost predicate Committing(lock: Locking, s: System, req: Request) {
    && Inv(lock, s) && Attends(lock, s, req) && FewContexts(s.repo, req.ident) && req.Store? && Preparing(Stage(lock, s, req))
    && ViewOf(s.repo, req.ident).newest.Last? && Decide(req, ViewOf(s.repo, req.ident).newest).Commit?
  }

  ghost predicate Upserted(lock: Locking, s: System, t: System, req: Request)
    requires req.Store?
  {
    && Attends(lock, t, req) && !Stage(lock, t, req).Done? && !Preparing(Stage(lock, t, req))
    && ViewOf(t.repo, req.ident).log == ViewOf(s.repo, req.ident).log + [req.content]
  }

  lemma OnwardToUpsert(lock: Locking, s: System, req: Request) returns (e: Event, u: System)
    requires Committing(lock, s, req)
    ensures e.Advance? && e.key == lock(req.ident) && Enabled(lock, s, e) && u == Apply(lock, s, e) && u.calls.Keys == s.calls.Keys
    ensures TouchesOnly(s.repo, u.repo, req.ident)
    ensures Stage(lock, s, req).Lookup? ==> Upserted(lock, s, u, req)
    ensures !Stage(lock, s, req).Lookup? ==>
              && Committing(lock, u, req) && ViewOf(u.repo, req.ident) == ViewOf(s.repo, req.ident)
              && Rank(Stage(lock, u, req)) < Rank(Stage(lock, s, req))
  {
    e, u := Onward(lock, s, req);
    TowardsUpsert(lock, s, e, req, u);
  }

  /** Carries such a store up to its upsert. */
  lemma {:induction false} CarryToUpsert(lock: Locking, s: System, req: Request) returns (es: seq<Event>, t: System)
    requires Committing(lock, s, req)
    ensures Run(lock, s, es, t) && Leave(lock(req.ident)) !in es && t.calls.Keys == s.calls.Keys
    ensures TouchesOnly(s.repo, t.repo, req.ident) && Upserted(lock, s, t, req)
    decreases Rank(Stage(lock, s, req))
  {
    var e, u := OnwardToUpsert(lock, s, req);
    if Stage(lock, s, req).Lookup? {
      es, t := [e], u;
      RunOne(lock, s, e);
    } else {
      var rest: seq<Event>;
      rest, t := CarryToUpsert(lock, u, req);
      es := [e] + rest;
      RunCons(lock, s, e, u, rest, t);
      TouchesTwice(s.repo, u.repo, t.repo, req.ident);
    }
  }

  lemma Begins(lock: Locking, s: System, req: Request)
    requires Inv(lock, s) && lock(req.ident) !in s.calls
    ensures var u := Apply(lock, s, Start(req));
            Enabled(lock, s, Start(req)) && Inv(lock, u) && Attends(lock, u, req) && Stage(lock, u, req) == Begin && u.repo == s.repo
  {
    EventRefines(lock, s, Start(req), req.ident);
  }

  /** A whole undisturbed store. */
  lemma WholeAttempt(lock: Locking, s: System, req: Request) returns (es: seq<Event>, t: System)
    requires Inv(lock, s) && s.calls == map[] && FewContexts(s.repo, req.ident)
    ensures Attempt(lock, s, es, t, req) && Stage(lock, t, req).Done? && TouchesOnly(s.repo, t.repo, req.ident)
    ensures t.calls.Keys == {lock(req.ident)}
  {
    Begins(lock, s, req);
    es, t := Carry(lock, Apply(lock, s, Start(req)), req);
  }

  /** A store that dies right after its upsert. */
  lemma DyingAttempt(lock: Locking, s: System, req: Request) returns (es: seq<Event>, t: System)
    requires Inv(lock, s) && s.calls == map[] && FewContexts(s.repo, req.ident) && req.Store?
    requires NewestFor(s.repo, req.ident).Last? && Decide(req, NewestFor(s.repo, req.ident)).Commit?
    ensures Attempt(lock, s, es, t, req) && TouchesOnly(s.repo, t.repo, req.ident)
    ensures !Stage(lock, t, req).Done? && !Preparing(Stage(lock, t, req))
    ensures LogOf(t.repo, req.ident) == LogOf(s.repo, req.ident) + [req.content] && t.calls.Keys == {lock(req.ident)}
  {
    Begins(lock, s, req);
    es, t := CarryToUpsert(lock, Apply(lock, s, Start(req)), req);
  }

  /** What an attempt leaves behind once its caller is gone. */
  lemma Gone(lock: Locking, s: System, es: seq<Event>, t: System, req: Request) returns (u: System)
    requires Reachable(lock, s) && Attempt(lock, s, es, t, req) && t.calls.Keys == {lock(req.ident)}
    ensures u == Apply(lock, t, Leave(lock(req.ident))) && Reachable(lock, u) && u.repo == t.repo && u.calls == map[] && Inv(lock, u)
  {
    ReachableNext(lock, s, Start(req));
    ReachableLater(lock, Apply(lock, s, Start(req)), es, t);
    ReachableNext(lock, t, Leave(lock(req.ident)));
    u := Apply(lock, t, Leave(lock(req.ident)));
    ReachableInv(lock, u);
  }

  // ------------------------------------------------------------------ repeated stores

  /** A store without relations, force or expectation. */
  function Plain(ident: Identity, content: string): (r: Request)
    ensures r.Store?
  {
    Store(ident, content, content, None, Absent, None, false, None, false)
  }

  function Forced(ident: Identity, content: string): Request {
    Store(ident, content, content, None, Absent, None, true, None, false)
  }

  function Expecting(ident: Identity, content: string, previous: Id): Request {
    Store(ident, content, content, None, Absent, None, false, Some(previous), false)
  }

  lemma AloneInRepo(repo: Repo, ident: Identity)
    requires forall x :: x in repo ==> repo[x].ident == ident
    ensures FewContexts(repo, ident)
  {
    assert Contexts(repo, ident) == {ident.context};
  }

  /** One identity, stored once. */
  lemma StoredOnce(lock: Locking, ident: Identity, content: string) returns (s: System)
    ensures Reachable(lock, s) && s.calls == map[] && Inv(lock, s) && (forall x :: x in s.repo ==> s.repo[x].ident == ident)
    ensures LogOf(s.repo, ident) == [content]
    ensures NewestFor(s.repo, ident).Last? && NewestFor(s.repo, ident).digest == content
    ensures NewestFor(s.repo, ident).relations == NO_RELATIONS
  {
    var req := Plain(ident, content);
    InitialInv(lock);
    assert Run(lock, INITIAL, [], INITIAL);
    AloneInRepo(INITIAL.repo, ident);
    var es, t := WholeAttempt(lock, INITIAL, req);
    FirstView(lock, es, t, ident, content);
    s := Gone(lock, INITIAL, es, t, req);
  }

  lemma FirstView(lock: Locking, es: seq<Event>, t: System, ident: Identity, content: string)
    requires Inv(lock, INITIAL) && Attempt(lock, INITIAL, es, t, Plain(ident, content)) && Stage(lock, t, Plain(ident, content)).Done?
    ensures ViewOf(t.repo, ident).log == [content] && ViewOf(t.repo, ident).newest.Last?
    ensures ViewOf(t.repo, ident).newest.digest == content && ViewOf(t.repo, ident).newest.relations == NO_RELATIONS
  {
    NothingStored(lock, ident);
    AttemptEffect(lock, INITIAL, es, t, Plain(ident, content));
    FirstEffect(ident, content, ViewOf(t.repo, ident), Stage(lock, t, Plain(ident, content)).outcome);
  }

  lemma FirstEffect(ident: Identity, content: string, after: View, outcome: Outcome)
    requires Effect(View([], Nothing), Plain(ident, content), after, Some(outcome))
    ensures after.log == [content] && after.newest.Last? && after.newest.digest == content
    ensures after.newest.relations == NO_RELATIONS
  {
  }

  lemma NothingStored(lock: Locking, ident: Identity)
    ensures ViewOf(INITIAL.repo, ident) == View([], Nothing)
  {
    assert Chained(INITIAL.repo, ident, [], Empty);
    LogIs(INITIAL.repo, ident, [], Empty);
    NewestIs(INITIAL.repo, ident, [], Empty);
  }

  /** A store dies after its upsert, is repeated, and is also carried out undisturbed. */
  lemma DiesAndIsRepeated(lock: Locking, s: System, req: Request)
    returns (first: seq<Event>, stopped: System, resumed: System, again: seq<Event>, retried: System,
             alone: seq<Event>, once: System)
    requires Reachable(lock, s) && s.calls == map[] && Inv(lock, s) && forall x :: x in s.repo ==> s.repo[x].ident == req.ident
    requires req.Store? && NewestFor(s.repo, req.ident).Last? && Decide(req, NewestFor(s.repo, req.ident)).Commit?
    ensures Attempt(lock, s, first, stopped, req) && !Stage(lock, stopped, req).Done?
    ensures resumed == Apply(lock, stopped, Leave(lock(req.ident)))
    ensures Attempt(lock, resumed, again, retried, req) && Stage(lock, retried, req).Done?
    ensures Attempt(lock, s, alone, once, req) && Stage(lock, once, req).Done?
    ensures LogOf(stopped.repo, req.ident) == LogOf(once.repo, req.ident) == LogOf(s.repo, req.ident) + [req.content]
    ensures if req.expected.Some? then Stage(lock, retried, req).outcome == Failed(SourceChanged)
            else req.force ==> LogOf(retried.repo, req.ident) == LogOf(s.repo, req.ident) + [req.content] + [req.content]
  {
    AloneInRepo(s.repo, req.ident);
    first, stopped := DyingAttempt(lock, s, req);
    resumed := Gone(lock, s, first, stopped, req);
    AloneInRepo(resumed.repo, req.ident);
    again, retried := WholeAttempt(lock, resumed, req);
    alone, once := WholeAttempt(lock, s, req);
    Repeated(lock, s, first, stopped, resumed, again, retried, alone, once, req);
  }

  lemma Repeated(lock: Locking, s: System, first: seq<Event>, stopped: System, resumed: System, again: seq<Event>, retried: System,
                 alone: seq<Event>, once: System, req: Request)
    requires Inv(lock, s) && req.Store? && Decide(req, NewestFor(s.repo, req.ident)).Commit?
    requires Attempt(lock, s, first, stopped, req) && resumed == Apply(lock, stopped, Leave(lock(req.ident)))
    requires LogOf(stopped.repo, req.ident) == LogOf(s.repo, req.ident) + [req.content]
    requires Attempt(lock, resumed, again, retried, req) && Stage(lock, retried, req).Done?
    requires Attempt(lock, s, alone, once, req) && Stage(lock, once, req).Done?
    ensures LogOf(once.repo, req.ident) == LogOf(s.repo, req.ident) + [req.content]
    ensures if req.expected.Some? then Stage(lock, retried, req).outcome == Failed(SourceChanged)
            else req.force ==> LogOf(retried.repo, req.ident) == LogOf(s.repo, req.ident) + [req.content] + [req.content]
  {
    assert Run(lock, resumed, [], resumed);
    assert |LogOf(stopped.repo, req.ident)| == |LogOf(s.repo, req.ident)| + 1;
    RetryExactlyOnce(lock, s, first, stopped, [], resumed, again, retried, alone, once, req);
    AttemptEffect(lock, s, alone, once, req);
    CommittedOnce(ViewOf(s.repo, req.ident), req, ViewOf(once.repo, req.ident), Stage(lock, once, req).outcome);
  }

  lemma CommittedOnce(before: View, req: Request, after: View, outcome: Outcome)
    requires req.Store? && Decide(req, before.newest).Commit? && Effect(before, req, after, Some(outcome))
    ensures after.log == before.log + [req.content]
  {
  }

  /**
   A forced store can die after its upsert, and repeating it then stores the content twice more
   where one undisturbed store would have stored it once.
   */
  lemma ForcedRetryStoresTwice(lock: Locking, ident: Identity, content: string)
    returns (s: System, req: Request, first: seq<Event>, stopped: System, again: seq<Event>, retried: System,
             alone: seq<Event>, once: System)
    ensures req == Forced(ident, content) && Reachable(lock, s)
    ensures Attempt(lock, s, first, stopped, req) && !Stage(lock, stopped, req).Done?
    ensures Attempt(lock, Apply(lock, stopped, Leave(lock(ident))), again, retried, req) && Stage(lock, retried, req).Done?
    ensures Attempt(lock, s, alone, once, req) && Stage(lock, once, req).Done?
    ensures LogOf(s.repo, ident) == [content] && LogOf(once.repo, ident) == [content, content]
    ensures LogOf(retried.repo, ident) == [content, content, content]
  {
    s := StoredOnce(lock, ident, content);
    req := Forced(ident, content);
    var resumed: System;
    first, stopped, resumed, again, retried, alone, once := DiesAndIsRepeated(lock, s, req);
  }

  /** A store that names the version it replaces dies after its upsert, and repeating it reports a conflict. */
  lemma ExpectedRetryConflicts(lock: Locking, ident: Identity, content: string, change: string)
    returns (s: System, req: Request, first: seq<Event>, stopped: System, again: seq<Event>, retried: System)
    requires change != content
    ensures req == Expecting(ident, change, NewestId(s.repo, ident)) && Reachable(lock, s)
    ensures Attempt(lock, s, first, stopped, req) && !Stage(lock, stopped, req).Done?
    ensures LogOf(s.repo, ident) == [content] && LogOf(stopped.repo, ident) == [content, change]
    ensures Attempt(lock, Apply(lock, stopped, Leave(lock(ident))), again, retried, req)
    ensures Stage(lock, retried, req) == Done(Failed(SourceChanged))
  {
    s := StoredOnce(lock, ident, content);
    req := Expecting(ident, change, NewestId(s.repo, ident));
    var resumed: System;
    var alone: seq<Event>, once: System;
    first, stopped, resumed, again, retried, alone, once := DiesAndIsRepeated(lock, s, req);
  }

  // ---------------------------------------------------------------- outer whitespace

  lemma PendingAtStage(repo: Repo, req: Request, pc: Pc) returns (x: Id)
    requires InStep(repo, Call(req, pc)) && !pc.Done? && !Preparing(pc)
    ensures IsPending(repo, req.ident, x)
  {
    var c: Chain, phase :| Chained(repo, req.ident, c, phase) && Agrees(repo, c, phase, req, pc);
    x := c[|c| - 1];
    assert x in c;
  }

  /** One pending record of one identity is all there is. */
  lemma LeftPending(lock: Locking, ident: Identity) returns (s: System, x: Id)
    ensures Reachable(lock, s) && s.calls == map[] && Inv(lock, s)
    ensures IsPending(s.repo, ident, x) && AllPending(s.repo) == {x}
  {
    var before := StoredOnce(lock, ident, "");
    var req := Plain(ident, "changed");
    AloneInRepo(before.repo, ident);
    var es, t := DyingAttempt(lock, before, req);
    x := PendingAtUpsert(lock, before, es, t, req);
    s := Gone(lock, before, es, t, req);
    OnlyOnePending(s.repo, ident, x);
  }

  lemma PendingAtUpsert(lock: Locking, s: System, es: seq<Event>, t: System, req: Request) returns (x: Id)
    requires Inv(lock, s) && Attempt(lock, s, es, t, req) && req.Store?
    requires !Stage(lock, t, req).Done? && !Preparing(Stage(lock, t, req))
    ensures IsPending(t.repo, req.ident, x)
  {
    AttemptEffect(lock, s, es, t, req);
    assert InStep(t.repo, t.calls[lock(req.ident)]);
    x := PendingAtStage(t.repo, req, Stage(lock, t, req));
  }

  lemma OnlyOnePending(repo: Repo, ident: Identity, x: Id)
    requires Healthy(repo, ident) && IsPending(repo, ident, x) && forall y :: y in repo ==> repo[y].ident == ident
    ensures AllPending(repo) == {x}
  {
    forall y | y in AllPending(repo) ensures y == x {
      ShapeSingle(repo, ident, x, y);
    }
  }

  /** Under any naming, a crashed store under a name that is not stripped is counted and not recovered. */
  lemma UnstrippedStaysPending(lock: Locking, n: Naming, ident: Identity, next: World, budget: nat)
    returns (s: System, x: Id, points: seq<Id>, r: Reconcile)
    requires StripsOnce(n) && n.strip(ident) != ident && !n.blank(ident) && LegalWorld(next) && budget >= 2000
    ensures Reachable(lock, s) && s.calls == map[] && IsPending(s.repo, ident, x)
    ensures Answers(points, AllPending(s.repo), 1001) && r == ReconcileAll(n, next, s.repo, points, 1000, budget)
    ensures r.outcome == Reconciled(1) && AllPending(r.repo) == {x}
  {
    s, x := LeftPending(lock, ident);
    points := AnAnswer(AllPending(s.repo), 1001);
    r := ReconcileAll(n, next, s.repo, points, 1000, budget);
    OnePendingIsAcceptable(n, s.repo, ident, x);
    RemainsAfter(n, next, s.repo, ident, x, points, budget, r);
  }

  lemma RemainsAfter(n: Naming, next: World, repo: Repo, ident: Identity, x: Id, points: seq<Id>, budget: nat, r: Reconcile)
    requires LegalWorld(next) && AllHealthy(repo) && StripsOnce(n) && PendingSeen(n, repo) && Acceptable(n, repo, 1000)
    requires budget >= 2000 && Answers(points, AllPending(repo), 1001) && r == ReconcileAll(n, next, repo, points, 1000, budget)
    requires IsPending(repo, ident, x) && AllPending(repo) == {x} && n.strip(ident) != ident
    ensures r.outcome == Reconciled(1) && AllPending(r.repo) == {x}
  {
    ReconcileExact(n, next, repo, points, 1000, budget, r);
  }

  lemma OnePendingIsAcceptable(n: Naming, repo: Repo, ident: Identity, x: Id)
    requires AllPending(repo) == {x} && IsPending(repo, ident, x) && !n.blank(ident)
    ensures Acceptable(n, repo, 1000) && PendingSeen(n, repo)
  {
    var other := n.strip(ident);
    assert PendingLike(repo, other) <= {x};
    SubsetSize(PendingLike(repo, other), {x});
  }

  predicate Bare(s: string) {
    s != "" && !IsSpace(s[0]) && !IsSpace(s[|s| - 1])
  }

  lemma PaddedIsNotStripped(d: string, t: string, e: string, n: string)
    requires Bare(d) && Bare(t) && Bare(e) && Bare(n)
    ensures var i := Identity(" " + d, t, e, n, "", "");
            Stripped(i) == Identity(d, t, e, n, "", "") && Stripped(i) != i && !Blank(i)
  {
    TrimPadded(d);
    TrimKeeps(t);
    TrimKeeps(e);
    TrimKeeps(n);
    assert |" " + d| == |d| + 1;
  }

  const SPACED: Identity := Identity(" " + "d", "t", "e", "n", "", "")

  /** So it is for a leading blank under the service's own naming. */
  lemma WhitespaceStaysPending(lock: Locking, next: World, budget: nat)
    returns (s: System, x: Id, points: seq<Id>, r: Reconcile)
    requires LegalWorld(next) && budget >= 2000
    ensures Reachable(lock, s) && s.calls == map[] && IsPending(s.repo, SPACED, x)
    ensures Answers(points, AllPending(s.repo), 1001) && r == ReconcileAll(NAMING, next, s.repo, points, 1000, budget)
    ensures r.outcome == Reconciled(1) && AllPending(r.repo) == {x}
  {
    PaddedIsNotStripped("d", "t", "e", "n");
    ServiceStripsOnce();
    s, x, points, r := UnstrippedStaysPending(lock, NAMING, SPACED, next, budget);
  }
}
