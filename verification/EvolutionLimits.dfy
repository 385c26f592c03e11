/**
 Reachable repositories in which one entity is stored under so many contexts that a limited query
 misses a record, and the step that then goes wrong.
 */
module EvolutionLimits {
  import opened Common
  import opened EvolutionModel
  import opened EvolutionInvariant
  import opened EvolutionRuns
  import opened EvolutionCalls
  import opened EvolutionGuarantees
  import opened EvolutionAttempts
  import opened EvolutionWitnesses

  // -------------------------------------------------------------- one call, step by step

  ghost predicate Alone(lock: Locking, s: System, req: Request, pc: Pc) {
    s.calls == map[lock(req.ident) := Call(req, pc)]
  }

  /** With nothing pending for it, a store gets to its lookup without a write. */
  lemma ToLookup(lock: Locking, s: System, req: Request, c: Chain, phase: Phase) returns (t: System)
    requires Reachable(lock, s) && s.calls == map[] && req.Store?
    requires Chained(s.repo, req.ident, c, phase) && (phase.Empty? || phase.Settled?) && SeesAll(s.repo, req.ident, Begin)
    ensures Reachable(lock, t) && Alone(lock, t, req, Lookup) && t.repo == s.repo
  {
    ReachableInv(lock, s);
    Begins(lock, s, req);
    ReachableNext(lock, s, Start(req));
    var u := Apply(lock, s, Start(req));
    var e := Proceed(lock, u, req);
    ReachableNext(lock, u, e);
    t := Apply(lock, u, e);
    BeginResult(u.repo, req, e.hits, c, phase);
  }

  /** The upsert of a store that commits. */
  lemma Upsert(lock: Locking, s: System, req: Request, c: Chain, phase: Phase) returns (t: System, newId: Id, pc: Pc)
    requires Reachable(lock, s) && req.Store? && Alone(lock, s, req, Lookup)
    requires Chained(s.repo, req.ident, c, phase) && (phase.Empty? || phase.Settled?) && SeesAll(s.repo, req.ident, Lookup)
    requires Decide(req, NewestOf(s.repo, c)).Commit?
    ensures Reachable(lock, t) && Alone(lock, t, req, pc) && newId !in s.repo
    ensures var previous := if c == [] then None else Some(c[|c| - 1]);
            && (c != [] ==> c[|c| - 1] in s.repo)
            && t.repo == s.repo[newId := NewRecord(s.repo, req, previous)]
            && (c != [] ==> pc == CommitSupersede(newId, NewRecord(s.repo, req, previous).ext, c[|c| - 1], None))
  {
    ReachableInv(lock, s);
    var e := Proceed(lock, s, req);
    newId := e.newId;
    ReachableNext(lock, s, e);
    t := Apply(lock, s, e);
    FindsActive(s.repo, e.hits, req.ident, c, phase);
    LookupResult(s.repo, req, e.hits, newId, c);
    if c != [] { assert c[|c| - 1] in c; }
    pc := t.calls[lock(req.ident)].pc;
  }

  lemma Dies(lock: Locking, s: System, req: Request, pc: Pc) returns (t: System)
    requires Reachable(lock, s) && Alone(lock, s, req, pc)
    ensures Reachable(lock, t) && t.calls == map[] && t.repo == s.repo
  {
    ReachableNext(lock, s, Leave(lock(req.ident)));
    t := Apply(lock, s, Leave(lock(req.ident)));
  }

  /** A first version. */
  lemma Inserted(lock: Locking, s: System, req: Request) returns (t: System, id: Id)
    requires Reachable(lock, s) && s.calls == map[] && req.Store? && Decide(req, Nothing).Commit?
    requires (forall x :: x in s.repo ==> s.repo[x].ident != req.ident)
    requires SeesAll(s.repo, req.ident, Begin) && SeesAll(s.repo, req.ident, Lookup)
    ensures Reachable(lock, t) && t.calls == map[] && id !in s.repo && t.repo == s.repo[id := NewRecord(s.repo, req, None)]
    ensures Chained(t.repo, req.ident, [id], Settled)
  {
    assert Chained(s.repo, req.ident, [], Empty);
    var u := ToLookup(lock, s, req, [], Empty);
    var v, newId, pc := Upsert(lock, u, req, [], Empty);
    id := newId;
    t := Dies(lock, v, req, pc);
    WriteInsert(s.repo, req, [], id);
  }

  /** A second version whose store dies after it superseded the first. */
  lemma Replaced(lock: Locking, s: System, req: Request, first: Id) returns (t: System, id: Id)
    requires Reachable(lock, s) && s.calls == map[] && req.Store? && Chained(s.repo, req.ident, [first], Settled)
    requires Decide(req, NewestOf(s.repo, [first])).Commit?
    requires SeesAll(s.repo, req.ident, Begin) && SeesAll(s.repo, req.ident, Lookup)
    ensures Reachable(lock, t) && t.calls == map[] && id !in s.repo && first in s.repo
    ensures t.repo == Supersede(s.repo[id := NewRecord(s.repo, req, Some(first))], first, id)
    ensures Chained(t.repo, req.ident, [first, id], StagedSuperseded)
  {
    var u := ToLookup(lock, s, req, [first], Settled);
    var v, newId, pc := Upsert(lock, u, req, [first], Settled);
    id := newId;
    t := DiesSuperseded(lock, v, req, first, id, pc);
    StagedChain(s.repo, v.repo, req, first, id);
  }

  lemma DiesSuperseded(lock: Locking, s: System, req: Request, first: Id, id: Id, pc: Pc) returns (t: System)
    requires Reachable(lock, s) && Alone(lock, s, req, pc) && pc.CommitSupersede? && pc.staged == id && pc.previous == first && pc.next == None
    ensures Reachable(lock, t) && t.calls == map[] && t.repo == Supersede(s.repo, first, id)
  {
    var e := Advance(lock(req.ident), [], FreshId(s.repo));
    ReachableNext(lock, s, e);
    var u := Apply(lock, s, e);
    t := Dies(lock, u, req, u.calls[lock(req.ident)].pc);
  }

  lemma StagedChain(repo: Repo, staged: Repo, req: Request, first: Id, id: Id)
    requires req.Store? && Chained(repo, req.ident, [first], Settled) && id !in repo && first in repo
    requires staged == repo[id := NewRecord(repo, req, Some(first))]
    ensures Chained(Supersede(staged, first, id), req.ident, [first, id], StagedSuperseded)
  {
    WriteStage(repo, req, [first], id);
    assert [first] + [id] == [first, id];
    WriteSupersede(staged, req.ident, [first, id]);
  }

  // ------------------------------------------------------- one entity in many contexts

  function Tally(n: nat): string {
    seq(n, _ => '|')
  }

  function Nth(n: nat): Identity {
    Identity("d", "t", "e", "n", Tally(n), "")
  }

  lemma NthDiffer(m: nat, n: nat)
    requires m != n
    ensures Nth(m) != Nth(n) && SameGroup(Nth(m), Nth(n))
  {
    assert |Tally(m)| == m && |Tally(n)| == n;
  }

  ghost predicate Among(ident: Identity, n: nat) {
    exists k :: 0 <= k < n && ident == Nth(k)
  }

  function Actives(repo: Repo): set<Id> {
    set x | x in repo && repo[x].status == Active
  }

  /** All records belong to the first n contexts. */
  ghost predicate Within(repo: Repo, n: nat) {
    forall x :: x in repo ==> Among(repo[x].ident, n)
  }

  lemma GroupIsAll(repo: Repo, n: nat, k: nat)
    requires Within(repo, n)
    ensures ActiveLike(repo, Nth(k)) == Actives(repo) && PendingLike(repo, Nth(k)) == AllPending(repo)
  {
    forall x | x in repo ensures SameGroup(repo[x].ident, Nth(k)) {
      var j :| 0 <= j < n && repo[x].ident == Nth(j);
      if j != k { NthDiffer(j, k); }
    }
  }

  lemma NextIsNew(repo: Repo, n: nat)
    requires Within(repo, n)
    ensures forall x :: x in repo ==> repo[x].ident != Nth(n)
    ensures Within(repo, n + 1)
  {
    forall x | x in repo ensures repo[x].ident != Nth(n) && Among(repo[x].ident, n + 1) {
      var j :| 0 <= j < n && repo[x].ident == Nth(j);
      NthDiffer(j, n);
    }
  }

  lemma PlainCommits(ident: Identity, content: string, before: string, id: Id)
    ensures Decide(Plain(ident, content), Nothing).Commit?
    ensures content != before ==> Decide(Plain(ident, content), Last(id, before, NO_RELATIONS)).Commit?
  {
  }

  /** One more context, while the queries still see everything. */
  lemma OneMoreContext(lock: Locking, s: System, n: nat) returns (t: System, id: Id)
    requires Reachable(lock, s) && s.calls == map[] && Within(s.repo, n)
    requires |Actives(s.repo)| <= SEARCH_LIMIT && |AllPending(s.repo)| <= SCROLL_LIMIT
    ensures Reachable(lock, t) && t.calls == map[] && Within(t.repo, n + 1) && id !in s.repo
    ensures Actives(t.repo) == Actives(s.repo) + {id} && |Actives(t.repo)| == |Actives(s.repo)| + 1
    ensures AllPending(t.repo) == AllPending(s.repo)
    ensures Chained(t.repo, Nth(n), [id], Settled) && id in t.repo && NewestOf(t.repo, [id]) == Last(id, "", NO_RELATIONS)
  {
    var req := Plain(Nth(n), "");
    GroupIsAll(s.repo, n, n);
    NextIsNew(s.repo, n);
    PlainCommits(Nth(n), "", "", 0);
    t, id := Inserted(lock, s, req);
    AfterInsert(s.repo, req, id, t.repo, n);
    OneBigger(Actives(s.repo), id);
  }

  lemma AfterInsert(repo: Repo, req: Request, id: Id, after: Repo, n: nat)
    requires req == Plain(Nth(n), "") && id !in repo && after == repo[id := NewRecord(repo, req, None)] && Within(repo, n + 1)
    ensures Within(after, n + 1) && Actives(after) == Actives(repo) + {id} && AllPending(after) == AllPending(repo)
    ensures id in after && NewestOf(after, [id]) == Last(id, "", NO_RELATIONS)
  {
    assert Among(Nth(n), n + 1);
  }

  ghost predicate OnlyActive(lock: Locking, s: System, n: nat, last: Id) {
    && Reachable(lock, s) && s.calls == map[] && Within(s.repo, n) && |Actives(s.repo)| == n && AllPending(s.repo) == {}
    && (n > 0 ==> Chained(s.repo, Nth(n - 1), [last], Settled))
  }

  lemma OneMoreActive(lock: Locking, s: System, n: nat, other: Id) returns (t: System, last: Id)
    requires OnlyActive(lock, s, n, other) && n <= SEARCH_LIMIT
    ensures OnlyActive(lock, t, n + 1, last)
  {
    t, last := OneMoreContext(lock, s, n);
  }

  /** So many contexts, each with one active record. */
  lemma {:induction false} ManyActive(lock: Locking, n: nat) returns (s: System, last: Id)
    requires n <= SEARCH_LIMIT + 1
    ensures OnlyActive(lock, s, n, last)
  {
    if n == 0 {
      StartsEmpty(lock);
      s, last := INITIAL, 0;
    } else {
      s, last := ManyActive(lock, n - 1);
      s, last := OneMoreActive(lock, s, n - 1, last);
    }
  }

  lemma StartsEmpty(lock: Locking)
    ensures Reachable(lock, INITIAL) && Within(INITIAL.repo, 0) && Actives(INITIAL.repo) == {} && AllPending(INITIAL.repo) == {}
  {
    assert Run(lock, INITIAL, [], INITIAL);
  }

  lemma OneBigger(ids: set<Id>, id: Id)
    requires id !in ids
    ensures |ids + {id}| == |ids| + 1
  {
  }

  /** One more context, with a second version pending. */
  lemma OneMorePending(lock: Locking, s: System, n: nat) returns (t: System, first: Id, id: Id)
    requires Reachable(lock, s) && s.calls == map[] && Within(s.repo, n)
    requires Actives(s.repo) == {} && |AllPending(s.repo)| <= SCROLL_LIMIT
    ensures Reachable(lock, t) && t.calls == map[] && Within(t.repo, n + 1) && Actives(t.repo) == {}
    ensures id !in AllPending(s.repo) && AllPending(t.repo) == AllPending(s.repo) + {id}
    ensures Chained(t.repo, Nth(n), [first, id], StagedSuperseded)
  {
    var u: System;
    u, first := OneMoreContext(lock, s, n);
    assert Actives(u.repo) == {first};
    GroupIsAll(u.repo, n + 1, n);
    PlainCommits(Nth(n), "changed", "", first);
    t, id := Replaced(lock, u, Plain(Nth(n), "changed"), first);
    PendingAfter(u.repo, Plain(Nth(n), "changed"), first, id, t.repo, n + 1);
  }

  lemma PendingAfter(repo: Repo, req: Request, first: Id, id: Id, after: Repo, n: nat)
    requires req.Store? && first in repo && id !in repo && Actives(repo) == {first} && first !in AllPending(repo)
    requires after == Supersede(repo[id := NewRecord(repo, req, Some(first))], first, id)
    requires Within(repo, n) && Among(req.ident, n)
    ensures Actives(after) == {} && AllPending(after) == AllPending(repo) + {id} && Within(after, n)
  {
    assert after[first].status == Superseded && Pending(after[id]) && after[first].ident == repo[first].ident;
    forall x | x in after && x != first && x != id
      ensures x in repo && after[x] == repo[x] && after[x].status != Active
    {
      assert x in Actives(repo) ==> x == first;
    }
  }

  lemma {:induction false} ManyPending(lock: Locking, n: nat) returns (s: System, first: Id, last: Id)
    requires 1 <= n <= SCROLL_LIMIT + 1
    ensures Reachable(lock, s) && s.calls == map[] && Within(s.repo, n) && Actives(s.repo) == {} && |AllPending(s.repo)| == n
    ensures Chained(s.repo, Nth(n - 1), [first, last], StagedSuperseded)
    decreases n
  {
    var before := INITIAL;
    StartsEmpty(lock);
    if n > 1 {
      var f, l: Id;
      before, f, l := ManyPending(lock, n - 1);
    }
    s, first, last := OneMorePending(lock, before, n - 1);
    OneBigger(AllPending(before.repo), last);
  }

  // ---------------------------------------------------------------------- what goes wrong

  /** Under eleven contexts a store of the last one can miss its own record and insert a second active version. */
  lemma SecondActive(lock: Locking) returns (s: System, req: Request, hits: seq<Id>, newId: Id, own: Id)
    ensures Reachable(lock, s) && req.Store? && Alone(lock, s, req, Lookup) && newId !in s.repo
    ensures LegalAnswer(s.repo, req, Lookup, hits) && |ActiveLike(s.repo, req.ident)| == SEARCH_LIMIT + 1
    ensures var after := Step(s.repo, req, Lookup, hits, newId).repo;
            own != newId && IsActive(after, req.ident, own) && IsActive(after, req.ident, newId)
  {
    var before, last := ManyActive(lock, SEARCH_LIMIT + 1);
    own := last;
    req := Plain(Nth(SEARCH_LIMIT), "");
    GroupIsAll(before.repo, SEARCH_LIMIT + 1, SEARCH_LIMIT);
    s := ToLookup(lock, before, req, [own], Settled);
    newId := FreshId(s.repo);
    hits := Missed(s.repo, req.ident, own);
    PlainCommits(req.ident, "", "", 0);
    InsertsAgain(s.repo, req, hits, newId, own);
  }

  lemma Missed(repo: Repo, ident: Identity, own: Id) returns (hits: seq<Id>)
    requires |ActiveLike(repo, ident)| == SEARCH_LIMIT + 1 && Chained(repo, ident, [own], Settled)
    ensures Answers(hits, ActiveLike(repo, ident), SEARCH_LIMIT) && own !in hits
  {
    assert own in [own] && own in ActiveLike(repo, ident);
    hits := PickSome(ActiveLike(repo, ident) - {own}, SEARCH_LIMIT);
    assert own in hits ==> own in Elements(hits);
  }

  lemma InsertsAgain(repo: Repo, req: Request, hits: seq<Id>, newId: Id, own: Id)
    requires req.Store? && Chained(repo, req.ident, [own], Settled) && newId !in repo && Decide(req, Nothing).Commit?
    requires Answers(hits, ActiveLike(repo, req.ident), SEARCH_LIMIT) && own !in hits
    ensures var after := StepLookup(repo, req, hits, newId).repo;
            own != newId && IsActive(after, req.ident, own) && IsActive(after, req.ident, newId)
  {
    assert own in [own] && Healthy(repo, req.ident) && IsActive(repo, req.ident, own);
    BlindKeep(repo, hits, req.ident, false, own);
    LookupResult(repo, req, hits, newId, []);
  }

  /** Under twenty-one contexts a call can overlook its own pending version. */
  lemma OverlooksPending(lock: Locking) returns (s: System, req: Request, hits: seq<Id>, own: Id)
    ensures Reachable(lock, s) && s.calls == map[] && req.Store? && IsPending(s.repo, req.ident, own)
    ensures LegalAnswer(s.repo, req, Begin, hits) && |PendingLike(s.repo, req.ident)| == SCROLL_LIMIT + 1
    ensures StepBegin(s.repo, req, hits) == StepResult(s.repo, Lookup, false)
  {
    var first: Id;
    s, first, own := ManyPending(lock, SCROLL_LIMIT + 1);
    req := Plain(Nth(SCROLL_LIMIT), "");
    GroupIsAll(s.repo, SCROLL_LIMIT + 1, SCROLL_LIMIT);
    hits := MissedPending(s.repo, req.ident, first, own);
    BlindKeep(s.repo, hits, req.ident, true, own);
  }

  lemma MissedPending(repo: Repo, ident: Identity, first: Id, own: Id) returns (hits: seq<Id>)
    requires |PendingLike(repo, ident)| == SCROLL_LIMIT + 1 && Chained(repo, ident, [first, own], StagedSuperseded)
    ensures Answers(hits, PendingLike(repo, ident), SCROLL_LIMIT) && own !in hits && NoDup(hits)
    ensures IsPending(repo, ident, own) && Healthy(repo, ident)
  {
    var c := [first, own];
    assert c[1] == own && own in c && own in PendingLike(repo, ident);
    hits := PickSome(PendingLike(repo, ident) - {own}, SCROLL_LIMIT);
    assert own in hits ==> own in Elements(hits);
  }
}
