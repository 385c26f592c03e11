/**
 Guarantees about whole evolution calls: repeating a store after a crash, what the
 query limits are worth, and startup reconciliation.
 */
module EvolutionGuarantees {
  import opened Common
  import opened Text
  import opened EvolutionModel
  import opened EvolutionInvariant
  import opened EvolutionRuns
  import opened EvolutionCalls

  // ---------------------------------------------------------- repeating a store

  lemma ReadyToStart(repo: Repo, req: Request)
    requires AllHealthy(repo) && FewContexts(repo, req.ident)
    ensures Ready(repo, req, Begin)
  {
    assert Healthy(repo, req.ident);
    StartInStep(repo, req);
    FewContextsSeeAll(repo, req.ident, Begin);
  }

  /** The verdict on a request whose own record is the newest version. */
  lemma VerdictOnOwnRecord(req: Request, id: Id)
    requires req.Store?
    ensures Decide(req, Last(id, req.digest, StoredRelations(req))) ==
            if req.expected != None && req.expected != Some(id) then Refuse(SourceChanged)
            else if req.force then Commit else Keep(id)
  {
  }

  ghost function NewestId(repo: Repo, ident: Identity): Id {
    if NewestFor(repo, ident).Last? then NewestFor(repo, ident).id else 0
  }

  /**
   Repeating a store that runs alone over a server, where five writes are enough for it to return.
   It dies after any number of writes and is repeated, with only activity that leaves its
   identity's view alone in between. The repetition leaves the log of one undisturbed store
   exactly when the upsert had not landed, or the request does not force an evolution, or names
   an expected version; having landed, it reports NO_CHANGE.
   */
  lemma RetryAlone(first: World, later: World, alone: World, repo: Repo, resumed: Repo, req: Request,
                         crashed: Halt, retried: Halt, once: Halt, died: nat, b: nat, b': nat)
    requires LegalWorld(first) && LegalWorld(later) && LegalWorld(alone)
    requires req.Store? && AllHealthy(repo) && FewContexts(repo, req.ident)
    requires AllHealthy(resumed) && FewContexts(resumed, req.ident) && b >= 5 && b' >= 5
    requires crashed == Exec(first, repo, req, Begin, died) && SameView(crashed.repo, resumed, req.ident)
    requires retried == Exec(later, resumed, req, Begin, b)
    requires once == Exec(alone, repo, req, Begin, b')
    ensures retried.outcome.Some? && once.outcome.Some?
    ensures LogOf(retried.repo, req.ident) == LogOf(once.repo, req.ident) <==>
            LogOf(resumed, req.ident) == LogOf(repo, req.ident) || !req.force || req.expected.Some?
    ensures LogOf(resumed, req.ident) != LogOf(repo, req.ident) ==>
              if req.expected.Some? then retried.outcome == Some(Failed(SourceChanged))
              else if !req.force then retried.outcome == Some(NoChange(NewestId(resumed, req.ident)))
              else LogOf(retried.repo, req.ident) == LogOf(repo, req.ident) + [req.content] + [req.content]
  {
    StoreEffects(first, repo, req, died, crashed);
    StoreEffects(later, resumed, req, b, retried);
    StoreEffects(alone, repo, req, b', once);
    RetryCore(repo, resumed, req, crashed, retried, once);
  }

  lemma RetryCore(repo: Repo, resumed: Repo, req: Request, crashed: Halt, retried: Halt, once: Halt)
    requires req.Store? && retried.outcome.Some? && once.outcome.Some?
    requires StoreEffect(repo, req, crashed) && SameView(crashed.repo, resumed, req.ident)
    requires StoreEffect(resumed, req, retried) && StoreEffect(repo, req, once)
    ensures LogOf(retried.repo, req.ident) == LogOf(once.repo, req.ident) <==>
            LogOf(resumed, req.ident) == LogOf(repo, req.ident) || !req.force || req.expected.Some?
    ensures LogOf(resumed, req.ident) != LogOf(repo, req.ident) ==>
              if req.expected.Some? then retried.outcome == Some(Failed(SourceChanged))
              else if !req.force then retried.outcome == Some(NoChange(NewestId(resumed, req.ident)))
              else LogOf(retried.repo, req.ident) == LogOf(repo, req.ident) + [req.content] + [req.content]
  {
    RetryViews(ViewOf(repo, req.ident), ViewOf(resumed, req.ident), req, crashed.outcome,
               ViewOf(retried.repo, req.ident), retried.outcome.value,
               ViewOf(once.repo, req.ident), once.outcome.value);
  }

  lemma StoreEffects(next: World, repo: Repo, req: Request, budget: nat, h: Halt)
    requires LegalWorld(next) && req.Store? && AllHealthy(repo) && FewContexts(repo, req.ident)
    requires h == Exec(next, repo, req, Begin, budget)
    ensures StoreEffect(repo, req, h) && AllHealthy(h.repo) && (budget >= 5 ==> h.outcome.Some?)
  {
    ReadyToStart(repo, req);
    ExecStores(next, repo, req, Begin, budget);
  }

  ghost predicate Effect(before: View, req: Request, after: View, outcome: Option<Outcome>)
    requires req.Store?
  {
    Untouched(before, req, after, outcome) || Landed(before, req, after, outcome)
  }

  /** The same, on views alone. */
  lemma RetryViews(before: View, mid: View, req: Request, crashed: Option<Outcome>,
                   after: View, retried: Outcome, single: View, once: Outcome)
    requires req.Store?
    requires Effect(before, req, mid, crashed)
    requires Effect(mid, req, after, Some(retried))
    requires Effect(before, req, single, Some(once))
    ensures after.log == single.log <==> mid.log == before.log || !req.force || req.expected.Some?
    ensures mid.log != before.log ==>
              if req.expected.Some? then retried == Failed(SourceChanged)
              else if !req.force then mid.newest.Last? && retried == NoChange(mid.newest.id)
              else after.log == before.log + [req.content] + [req.content]
  {
    assert |before.log + [req.content]| == |before.log| + 1;
    assert |mid.log + [req.content]| == |mid.log| + 1;
    if mid.log == before.log {
      assert mid == before;
      OneVerdict(before, req, after, retried, single, once);
    } else {
      assert Landed(before, req, mid, crashed);
      VerdictOnOwnRecord(req, mid.newest.id);
      OneVerdict(before, req, mid, OwnOutcome(before, mid), single, once);
    }
  }

  ghost function OwnOutcome(before: View, mid: View): Outcome
    requires mid.newest.Last?
  {
    if before.newest.Last? then Evolve(mid.newest.id, before.newest.id) else InsertNew(mid.newest.id)
  }

  /** From one view, two completed stores of one request leave equal logs. */
  lemma OneVerdict(before: View, req: Request, after: View, outcome: Outcome, other: View, outcome': Outcome)
    requires req.Store?
    requires Effect(before, req, after, Some(outcome)) && Effect(before, req, other, Some(outcome'))
    ensures after.log == other.log
  {
  }

  // ------------------------------------------------------- what the limits decide

  lemma {:induction false} PickSome(s: set<Id>, n: nat) returns (hits: seq<Id>)
    requires |s| >= n
    ensures NoDup(hits) && Elements(hits) <= s && |hits| == n
    decreases n
  {
    if n == 0 {
      hits := [];
    } else {
      var x :| x in s;
      var rest := PickSome(s - {x}, n - 1);
      hits := rest + [x];
      assert forall k :: 0 <= k < |rest| ==> rest[k] in Elements(rest);
    }
  }

  /** Among the records of one group, only those of the identity itself share its context. */
  lemma BlindKeep(repo: Repo, hits: seq<Id>, ident: Identity, pending: bool, own: Id)
    requires Healthy(repo, ident) && own !in hits
    requires if pending then IsPending(repo, ident, own) else IsActive(repo, ident, own)
    requires NoDup(hits)
    requires Elements(hits) <= if pending then PendingLike(repo, ident) else ActiveLike(repo, ident)
    ensures KeepExact(repo, hits, ident, pending) == []
  {
    var kept := KeepExact(repo, hits, ident, pending);
    KeepMember(repo, hits, ident, pending, own);
    forall x ensures x !in kept {
      KeepMember(repo, hits, ident, pending, x);
      if x in hits && x in repo {
        assert x in Elements(hits);
        SameGroupAndContext(repo[x].ident, ident);
        ShapeSingle(repo, ident, x, own);
      }
    }
    EmptyList(kept);
  }

  /**
   The search limit is decisive. Over a settled identity, a store keeps the chain whatever
   the server answers exactly when at most ten active records share entity and partition;
   beyond that some legal answer makes it insert a second active version.
   */
  lemma SearchLimitIsExact(repo: Repo, req: Request, newId: Id, c: Chain)
    requires Chained(repo, req.ident, c, Settled) && newId !in repo
    requires req.Store? && req.expected == None
    ensures (forall hits :: Answers(hits, ActiveLike(repo, req.ident), SEARCH_LIMIT) ==>
               Healthy(StepLookup(repo, req, hits, newId).repo, req.ident))
            <==> |ActiveLike(repo, req.ident)| <= SEARCH_LIMIT
  {
    var matches := ActiveLike(repo, req.ident);
    if |matches| <= SEARCH_LIMIT {
      forall hits | Answers(hits, matches, SEARCH_LIMIT)
        ensures Healthy(StepLookup(repo, req, hits, newId).repo, req.ident)
      {
        LookupKeeps(repo, req, hits, newId, c, Settled);
      }
    } else {
      var own := c[|c| - 1];
      assert own in c && own in matches;
      var hits := PickSome(matches - {own}, SEARCH_LIMIT);
      assert own !in hits by { assert own in hits ==> own in Elements(hits); }
      BlindKeep(repo, hits, req.ident, false, own);
      var after := StepLookup(repo, req, hits, newId).repo;
      assert IsActive(after, req.ident, own) && IsActive(after, req.ident, newId);
      if Healthy(after, req.ident) { ShapeSingle(after, req.ident, own, newId); }
    }
  }

  /**
   The scroll limit likewise: a pending version is picked up by every call, whatever the
   server answers, exactly when at most twenty pending records share entity and partition.
   */
  lemma ScrollLimitIsExact(repo: Repo, req: Request, c: Chain, phase: Phase)
    requires Chained(repo, req.ident, c, phase) && (phase.StagedActive? || phase.StagedSuperseded?)
    ensures (forall hits :: Answers(hits, PendingLike(repo, req.ident), SCROLL_LIMIT) ==>
               StepBegin(repo, req, hits).pc.RecoverActivate?)
            <==> |PendingLike(repo, req.ident)| <= SCROLL_LIMIT
  {
    var matches := PendingLike(repo, req.ident);
    if |matches| <= SCROLL_LIMIT {
      forall hits | Answers(hits, matches, SCROLL_LIMIT)
        ensures StepBegin(repo, req, hits).pc.RecoverActivate?
      {
        BeginResult(repo, req, hits, c, phase);
      }
    } else {
      var own := c[|c| - 1];
      assert own in c && own in matches;
      var hits := PickSome(matches - {own}, SCROLL_LIMIT);
      assert own !in hits by { assert own in hits ==> own in Elements(hits); }
      BlindKeep(repo, hits, req.ident, true, own);
      assert !StepBegin(repo, req, hits).pc.RecoverActivate?;
    }
  }

  // ------------------------------------------------------------- reconciliation

  function AllPending(repo: Repo): set<Id> {
    set x | x in repo && Pending(repo[x])
  }

  /** How reconciliation reads an identity: stripped fields, a blankness test and a lock key. */
  datatype Naming = Naming(strip: Identity -> Identity, blank: Identity -> bool, key: Identity -> string)

  const NAMING := Naming(Stripped, Blank, LockKey)

  ghost predicate StripsOnce(n: Naming) {
    forall i :: n.strip(n.strip(i)) == n.strip(i)
  }

  datatype Collected = Found(idents: seq<Identity>) | BlankField | Duplicate

  /** Identities to recover, in answer order, under their stripped names. */
  function Collect(n: Naming, repo: Repo, points: seq<Id>, seen: set<string>): Collected {
    if points == [] then Found([])
    else if points[0] !in repo then Collect(n, repo, points[1..], seen)
    else
      var ident := n.strip(repo[points[0]].ident);
      var key := n.key(ident);
      if n.blank(repo[points[0]].ident) then BlankField
      else if key in seen then Duplicate
      else
        match Collect(n, repo, points[1..], seen + {key})
        case Found(rest) => Found([ident] + rest)
        case other => other
  }

  ghost function RecoverAll(next: World, repo: Repo, idents: seq<Identity>, budget: nat): Halt
    requires Descends(next)
    decreases |idents|
  {
    if idents == [] then Halt(repo, Some(Recovered), budget)
    else
      var h := Exec(next, repo, Recover(idents[0]), Begin, budget);
      if h.outcome != Some(Recovered) then h else RecoverAll(next, h.repo, idents[1..], h.budget)
  }

  datatype Reconciliation =
    | Reconciled(count: nat) | LimitExceeded | BlankIdentity | SharedIdentity | Interrupted | RecoveryFailed

  datatype Reconcile = Reconcile(repo: Repo, outcome: Reconciliation, budget: nat)

  ghost function ReconcileAll(n: Naming, next: World, repo: Repo, points: seq<Id>, maxPending: nat, budget: nat)
    : Reconcile
    requires Descends(next)
  {
    if |points| > maxPending then Reconcile(repo, LimitExceeded, budget)
    else
      match Collect(n, repo, points, {})
      case BlankField => Reconcile(repo, BlankIdentity, budget)
      case Duplicate => Reconcile(repo, SharedIdentity, budget)
      case Found(idents) => Summary(RecoverAll(next, repo, idents, budget), |idents|)
  }

  function Summary(h: Halt, count: nat): Reconcile {
    Reconcile(h.repo,
              match h.outcome
              case None => Interrupted
              case Some(Recovered) => Reconciled(count)
              case Some(_) => RecoveryFailed,
              h.budget)
  }

  // what one recovery does

  ghost predicate RecoverReady(repo: Repo, ident: Identity) {
    AllHealthy(repo) && SeesAll(repo, ident, Begin)
  }

  /** One recovery of `cost` writes at most: no conflict, no change of log, and no pending record left. */
  ghost predicate RecoverEffect(repo: Repo, ident: Identity, h: Halt, budget: nat, cost: nat) {
    && TouchesOnly(repo, h.repo, ident) && AllHealthy(h.repo) && SameView(repo, h.repo, ident)
    && (h.outcome == None || h.outcome == Some(Recovered))
    && (budget >= cost ==> h.outcome == Some(Recovered) && h.budget + cost >= budget)
    && (h.outcome == Some(Recovered) ==> forall x :: !IsPending(h.repo, ident, x))
  }

  lemma NoPendingWhenDone(repo: Repo, req: Request, outcome: Outcome)
    requires InStep(repo, Call(req, Done(outcome))) && !outcome.Failed?
    ensures forall x :: !IsPending(repo, req.ident, x)
  {
    var c: Chain, phase :| Chained(repo, req.ident, c, phase) && Agrees(repo, c, phase, req, Done(outcome));
    forall x ensures !IsPending(repo, req.ident, x) {
      if IsPending(repo, req.ident, x) { PlaceInChain(repo, req.ident, c, phase, x); }
    }
  }

  lemma ActivateStep(next: World, repo: Repo, req: Request, staged: Id, ext: Extensions)
    requires LegalWorld(next) && req.Recover?
    ensures var r := next(repo, req, RecoverActivate(staged, ext)); r.pc == Done(Recovered) && r.wrote
  {
    assert LegalStep(next, repo, req, RecoverActivate(staged, ext));
  }

  lemma RecoverTail(next: World, repo: Repo, req: Request, staged: Id, ext: Extensions, budget: nat)
    requires LegalWorld(next) && req.Recover? && Ready(repo, req, RecoverActivate(staged, ext))
    ensures RecoverEffect(repo, req.ident, Exec(next, repo, req, RecoverActivate(staged, ext), budget), budget, 1)
  {
    var r := next(repo, req, RecoverActivate(staged, ext));
    WorldStep(next, repo, req, RecoverActivate(staged, ext));
    ActivateStep(next, repo, req, staged, ext);
    NoPendingWhenDone(r.repo, req, Recovered);
  }

  lemma RecoverFirstStep(next: World, repo: Repo, ident: Identity)
    requires LegalWorld(next) && RecoverReady(repo, ident) && Ready(repo, Recover(ident), Begin)
    ensures var r := next(repo, Recover(ident), Begin);
            r.pc.RecoverActivate? || (r.pc == Done(Recovered) && !r.wrote)
  {
    var req := Recover(ident);
    assert LegalStep(next, repo, req, Begin);
    var hits, newId :|
      newId !in repo && LegalAnswer(repo, req, Begin, hits) && next(repo, req, Begin) == Step(repo, req, Begin, hits, newId);
    var c: Chain, phase :| Chained(repo, ident, c, phase) && Agrees(repo, c, phase, req, Begin);
    BeginResult(repo, req, hits, c, phase);
  }

  lemma RecoverTwice(repo: Repo, mid: Repo, ident: Identity, h: Halt, budget: nat, rest: nat)
    requires TouchesOnly(repo, mid, ident) && SameView(repo, mid, ident)
    requires RecoverEffect(mid, ident, h, rest, 1) && rest <= budget <= rest + 1
    ensures RecoverEffect(repo, ident, h, budget, 2)
  {
    TouchesTwice(repo, mid, h.repo, ident);
  }

  lemma ExecRecovers(next: World, repo: Repo, ident: Identity, budget: nat)
    requires LegalWorld(next) && RecoverReady(repo, ident)
    ensures RecoverEffect(repo, ident, Exec(next, repo, Recover(ident), Begin, budget), budget, 2)
  {
    var req := Recover(ident);
    assert Healthy(repo, ident);
    StartInStep(repo, req);
    var r := next(repo, req, Begin);
    WorldStep(next, repo, req, Begin);
    RecoverFirstStep(next, repo, ident);
    if r.wrote && budget == 0 {
    } else if r.pc.RecoverActivate? {
      var rest := if r.wrote then budget - 1 else budget;
      RecoverTail(next, r.repo, req, r.pc.staged, r.pc.ext, rest);
      RecoverTwice(repo, r.repo, ident, Exec(next, r.repo, req, r.pc, rest), budget, rest);
    } else {
      NoPendingWhenDone(r.repo, req, Recovered);
    }
  }

  // what a list of recoveries does

  ghost predicate SameLogs(repo: Repo, after: Repo) {
    forall ident :: LogOf(after, ident) == LogOf(repo, ident)
  }

  lemma RecoverKeepsLogs(repo: Repo, ident: Identity, h: Halt, budget: nat)
    requires AllHealthy(repo) && RecoverEffect(repo, ident, h, budget, 2)
    ensures SameLogs(repo, h.repo)
  {
    forall other ensures LogOf(h.repo, other) == LogOf(repo, other) {
      assert Healthy(repo, other);
      if other != ident { OthersKept(repo, h.repo, ident, other); }
      else { assert ViewOf(h.repo, ident) == ViewOf(repo, ident); }
    }
  }

  lemma RecoverClears(repo: Repo, ident: Identity, h: Halt, budget: nat)
    requires RecoverEffect(repo, ident, h, budget, 2) && h.outcome == Some(Recovered)
    ensures AllPending(h.repo) == set x | x in AllPending(repo) && repo[x].ident != ident
    ensures forall x :: x in repo ==> x in h.repo && h.repo[x].ident == repo[x].ident
    ensures forall other :: PendingLike(h.repo, other) <= PendingLike(repo, other)
  {
    forall x | x in h.repo && Pending(h.repo[x])
      ensures h.repo[x].ident != ident && x in repo && repo[x] == h.repo[x]
    {
      assert !IsPending(h.repo, ident, x);
    }
  }

  ghost predicate AllSeen(repo: Repo, idents: seq<Identity>) {
    forall k :: 0 <= k < |idents| ==> SeesAll(repo, idents[k], Begin)
  }

  lemma {:induction false} RecoverAllWorks(next: World, repo: Repo, idents: seq<Identity>, budget: nat)
    requires LegalWorld(next) && AllHealthy(repo) && AllSeen(repo, idents)
    ensures var h := RecoverAll(next, repo, idents, budget);
            && AllHealthy(h.repo) && SameLogs(repo, h.repo)
            && (h.outcome == None || h.outcome == Some(Recovered))
            && (budget >= 2 * |idents| ==> h.outcome == Some(Recovered))
            && (h.outcome == Some(Recovered) ==>
                  AllPending(h.repo) == set x | x in AllPending(repo) && repo[x].ident !in idents)
    decreases |idents|
  {
    if idents != [] {
      var first := Exec(next, repo, Recover(idents[0]), Begin, budget);
      ExecRecovers(next, repo, idents[0], budget);
      RecoverKeepsLogs(repo, idents[0], first, budget);
      if first.outcome == Some(Recovered) {
        RecoverClears(repo, idents[0], first, budget);
        forall k | 0 <= k < |idents[1..]|
          ensures SeesAll(first.repo, idents[1..][k], Begin)
        {
          assert SeesAll(repo, idents[k + 1], Begin);
          SubsetSize(PendingLike(first.repo, idents[k + 1]), PendingLike(repo, idents[k + 1]));
        }
        RecoverAllWorks(next, first.repo, idents[1..], first.budget);
      }
    }
  }

  // which identities are collected

  ghost predicate Distinguished(n: Naming, repo: Repo, points: seq<Id>)
    requires forall x :: x in points ==> x in repo
  {
    && (forall x :: x in points ==> !n.blank(repo[x].ident))
    && (forall i, j :: 0 <= i < j < |points| ==>
          n.key(n.strip(repo[points[i]].ident)) != n.key(n.strip(repo[points[j]].ident)))
  }

  lemma {:induction false} CollectSpec(n: Naming, repo: Repo, points: seq<Id>, seen: set<string>)
    requires forall x :: x in points ==> x in repo
    ensures Collect(n, repo, points, seen).Found? <==>
            && Distinguished(n, repo, points)
            && (forall x :: x in points ==> n.key(n.strip(repo[x].ident)) !in seen)
    ensures Collect(n, repo, points, seen).Found? ==>
            var idents := Collect(n, repo, points, seen).idents;
            && |idents| == |points|
            && (forall k :: 0 <= k < |points| ==> idents[k] == n.strip(repo[points[k]].ident))
    decreases |points|
  {
    if points != [] {
      var key := n.key(n.strip(repo[points[0]].ident));
      CollectSpec(n, repo, points[1..], seen + {key});
      assert forall k :: 0 <= k < |points[1..]| ==> points[1..][k] == points[k + 1];
      assert forall x :: x in points <==> x == points[0] || x in points[1..];
      if Distinguished(n, repo, points) {
        assert Distinguished(n, repo, points[1..]);
        forall x | x in points[1..] ensures n.key(n.strip(repo[x].ident)) != key {
          var k :| 0 <= k < |points[1..]| && points[1..][k] == x;
          assert points[k + 1] == x;
        }
      }
    }
  }

  ghost predicate AnyBlank(n: Naming, repo: Repo, points: seq<Id>) {
    exists x :: x in points && x in repo && n.blank(repo[x].ident)
  }

  ghost predicate KeyAt(n: Naming, repo: Repo, points: seq<Id>, i: int, key: string) {
    0 <= i < |points| && points[i] in repo && n.key(n.strip(repo[points[i]].ident)) == key
  }

  /** A key met before, or met twice. */
  ghost predicate AnyShared(n: Naming, repo: Repo, points: seq<Id>, seen: set<string>) {
    exists i, key :: KeyAt(n, repo, points, i, key) && (key in seen || exists j :: j < i && KeyAt(n, repo, points, j, key))
  }

  /** Why a collection is refused. */
  lemma {:induction false} CollectRefusals(n: Naming, repo: Repo, points: seq<Id>, seen: set<string>)
    ensures Collect(n, repo, points, seen).BlankField? ==> AnyBlank(n, repo, points)
    ensures Collect(n, repo, points, seen).Duplicate? ==> AnyShared(n, repo, points, seen)
    decreases |points|
  {
    if points != [] {
      var rest := points[1..];
      if points[0] in repo {
        var key := n.key(n.strip(repo[points[0]].ident));
        assert KeyAt(n, repo, points, 0, key);
        CollectRefusals(n, repo, rest, seen + {key});
        if AnyShared(n, repo, rest, seen + {key}) { SharedLater(n, repo, points, seen, key); }
      } else {
        CollectRefusals(n, repo, rest, seen);
        if AnyShared(n, repo, rest, seen) { SharedLater(n, repo, points, seen, ""); }
      }
    }
  }

  lemma SharedLater(n: Naming, repo: Repo, points: seq<Id>, seen: set<string>, first: string)
    requires points != [] && (AnyShared(n, repo, points[1..], seen)
                              || (KeyAt(n, repo, points, 0, first) && AnyShared(n, repo, points[1..], seen + {first})))
    ensures AnyShared(n, repo, points, seen)
  {
    var rest := points[1..];
    var more := if AnyShared(n, repo, rest, seen) then seen else seen + {first};
    var i, key :| KeyAt(n, repo, rest, i, key) && (key in more || exists j :: j < i && KeyAt(n, repo, rest, j, key));
    assert KeyAt(n, repo, points, i + 1, key);
    if j :| j < i && KeyAt(n, repo, rest, j, key) { assert KeyAt(n, repo, points, j + 1, key); }
  }

  /** The condition under which startup reconciliation accepts what it finds. */
  ghost predicate Acceptable(n: Naming, repo: Repo, maxPending: nat) {
    && |AllPending(repo)| <= maxPending
    && (forall x :: x in AllPending(repo) ==> !n.blank(repo[x].ident))
    && (forall x, y :: x in AllPending(repo) && y in AllPending(repo) && x != y ==>
          n.key(n.strip(repo[x].ident)) != n.key(n.strip(repo[y].ident)))
  }

  lemma AcceptableIsDistinguished(n: Naming, repo: Repo, points: seq<Id>, maxPending: nat)
    requires Answers(points, AllPending(repo), maxPending + 1) && |points| <= maxPending
    ensures forall x :: x in points <==> x in AllPending(repo)
    ensures Acceptable(n, repo, maxPending) <==> Distinguished(n, repo, points)
  {
    CompleteAnswer(points, AllPending(repo), maxPending + 1);
    if Distinguished(n, repo, points) {
      forall x, y | x in AllPending(repo) && y in AllPending(repo) && x != y
        ensures n.key(n.strip(repo[x].ident)) != n.key(n.strip(repo[y].ident))
      {
        var i :| 0 <= i < |points| && points[i] == x;
        var j :| 0 <= j < |points| && points[j] == y;
        assert i < j || j < i;
      }
    }
  }

  /** Every recovery is aimed at a group the pending scroll can see whole. */
  ghost predicate PendingSeen(n: Naming, repo: Repo) {
    forall x :: x in AllPending(repo) ==> SeesAll(repo, n.strip(repo[x].ident), Begin)
  }

  /**
   Startup reconciliation, in full. It raises exactly when there are too many pending records,
   one has a blank field, or two share a lock key. Otherwise, given the writes, it reports the number
   found and what remains pending are exactly the records whose fields carry outer whitespace.
   Interrupted or not it keeps every log and every chain, so it can be run again.
   */
  lemma ReconcileExact(n: Naming, next: World, repo: Repo, points: seq<Id>, maxPending: nat, budget: nat, r: Reconcile)
    requires LegalWorld(next) && AllHealthy(repo) && StripsOnce(n) && PendingSeen(n, repo)
    requires Answers(points, AllPending(repo), maxPending + 1)
    requires r == ReconcileAll(n, next, repo, points, maxPending, budget)
    ensures AllHealthy(r.repo) && SameLogs(repo, r.repo)
    ensures r.outcome.LimitExceeded? || r.outcome.BlankIdentity? || r.outcome.SharedIdentity?
            <==> !Acceptable(n, repo, maxPending)
    ensures !r.outcome.RecoveryFailed?
    ensures r.outcome.LimitExceeded? <==> |AllPending(repo)| > maxPending
    ensures r.outcome.BlankIdentity? ==> exists x :: x in AllPending(repo) && n.blank(repo[x].ident)
    ensures r.outcome.SharedIdentity? ==>
              exists x, y :: x in AllPending(repo) && y in AllPending(repo) && x != y
                             && n.key(n.strip(repo[x].ident)) == n.key(n.strip(repo[y].ident))
    ensures r.outcome.LimitExceeded? || r.outcome.BlankIdentity? || r.outcome.SharedIdentity? ==> r.repo == repo && r.budget == budget
    ensures budget >= 2 * maxPending && Acceptable(n, repo, maxPending) ==>
              r.outcome == Reconciled(|AllPending(repo)|)
    ensures r.outcome.Reconciled? ==>
              AllPending(r.repo) == set x | x in AllPending(repo) && n.strip(repo[x].ident) != repo[x].ident
  {
    NoDupSize(points);
    if |points| <= maxPending {
      AcceptableIsDistinguished(n, repo, points, maxPending);
      CollectSpec(n, repo, points, {});
      CollectRefusals(n, repo, points, {});
      if AnyShared(n, repo, points, {}) { SharedIsShared(n, repo, points); }
      var collected := Collect(n, repo, points, {});
      if collected.Found? {
        var idents := collected.idents;
        assert AllSeen(repo, idents);
        RecoverAllWorks(next, repo, idents, budget);
        RemainsPending(n, repo, points, idents);
        assert Elements(points) == AllPending(repo);
      }
    }
  }

  lemma SharedIsShared(n: Naming, repo: Repo, points: seq<Id>)
    requires AnyShared(n, repo, points, {}) && NoDup(points)
    ensures exists x, y :: x in points && y in points && x in repo && y in repo && x != y
                           && n.key(n.strip(repo[x].ident)) == n.key(n.strip(repo[y].ident))
  {
    var i, key :| KeyAt(n, repo, points, i, key) && exists j :: j < i && KeyAt(n, repo, points, j, key);
    var j :| j < i && KeyAt(n, repo, points, j, key);
    assert points[i] in points && points[j] in points && points[i] != points[j];
  }

  /** An identity is recovered under its own name exactly when that name is already stripped. */
  lemma RemainsPending(n: Naming, repo: Repo, points: seq<Id>, idents: seq<Identity>)
    requires forall x :: x in points <==> x in AllPending(repo)
    requires Distinguished(n, repo, points) && StripsOnce(n) && |idents| == |points|
    requires forall k :: 0 <= k < |points| ==> idents[k] == n.strip(repo[points[k]].ident)
    ensures forall x :: x in AllPending(repo) ==>
              (repo[x].ident in idents <==> n.strip(repo[x].ident) == repo[x].ident)
  {
    forall x | x in AllPending(repo)
      ensures repo[x].ident in idents <==> n.strip(repo[x].ident) == repo[x].ident
    {
      var k :| 0 <= k < |points| && points[k] == x;
      if repo[x].ident in idents {
        var j :| 0 <= j < |idents| && idents[j] == repo[x].ident;
        assert points[j] in points;
        var other := repo[points[j]].ident;
        assert n.strip(n.strip(other)) == n.strip(other);
        assert n.strip(other) == n.strip(repo[x].ident);
        assert j == k;
      } else {
        assert idents[k] in idents;
      }
    }
  }

  // the naming the service uses

  lemma ServiceStripsOnce()
    ensures StripsOnce(NAMING)
  {
    forall i: Identity
      ensures Stripped(Stripped(i)) == Stripped(i)
    {
      TrimTwice(i.domain);
      TrimTwice(i.topic);
      TrimTwice(i.entityType);
      TrimTwice(i.entityName);
    }
  }

  /** Run again over canonical identities, reconciliation finds nothing. */
  lemma ReconcileAgain(n: Naming, next: World, repo: Repo, points: seq<Id>, again: seq<Id>,
                       maxPending: nat, budget: nat, r: Reconcile)
    requires LegalWorld(next) && AllHealthy(repo) && StripsOnce(n) && PendingSeen(n, repo)
    requires Answers(points, AllPending(repo), maxPending + 1)
    requires r == ReconcileAll(n, next, repo, points, maxPending, budget) && r.outcome.Reconciled?
    requires Answers(again, AllPending(r.repo), maxPending + 1)
    requires forall x :: x in AllPending(repo) ==> n.strip(repo[x].ident) == repo[x].ident
    ensures ReconcileAll(n, next, r.repo, again, maxPending, r.budget) == Reconcile(r.repo, Reconciled(0), r.budget)
  {
    ReconcileExact(n, next, repo, points, maxPending, budget, r);
    assert AllPending(r.repo) == {};
    assert again == [];
  }
}
