/**
 What every repository write keeps: per identity the records form one chain of
 versions, and the chain is in one of four phases.
 */
module EvolutionInvariant {
  import opened Common
  import opened EvolutionModel

  type Chain = seq<Id>

  datatype Phase = Empty | Settled | StagedActive | StagedSuperseded

  ghost predicate Members(repo: Repo, ident: Identity, c: Chain) {
    && NoDup(c)
    && (forall x :: x in c ==> x in repo && repo[x].ident == ident)
    && (forall x :: x in repo && repo[x].ident == ident ==> x in c)
  }

  ghost predicate Numbered(repo: Repo, c: Chain)
    requires forall x :: x in c ==> x in repo
  {
    && (forall j :: 0 <= j < |c| ==> repo[c[j]].version == j + 1 && (j == 0 ==> repo[c[j]].supersedes == None))
    && (forall i, j :: 0 <= i < j < |c| && j == i + 1 ==> repo[c[j]].supersedes == Some(c[i]))
  }

  ghost predicate Linked(repo: Repo, c: Chain, n: int)
    requires forall x :: x in c ==> x in repo
    requires n < |c| || n <= 0
  {
    && (forall j :: 0 <= j < n ==> repo[c[j]].status == Superseded)
    && (forall i, j :: 0 <= i < j <= n && j == i + 1 ==> repo[c[i]].supersededBy == Some(c[j]))
  }

  ghost predicate InPhase(repo: Repo, c: Chain, phase: Phase)
    requires forall x :: x in c ==> x in repo
  {
    var n := |c|;
    match phase
    case Empty => n == 0
    case Settled =>
      && n > 0 && Linked(repo, c, n - 1)
      && repo[c[n - 1]].status == Active && repo[c[n - 1]].supersededBy == None
    case StagedActive =>
      && StagedTail(repo, c) && Linked(repo, c, n - 2)
      && repo[c[n - 2]].status == Active && repo[c[n - 2]].supersededBy == None
    case StagedSuperseded =>
      StagedTail(repo, c) && Linked(repo, c, n - 1)
  }

  ghost predicate StagedTail(repo: Repo, c: Chain)
    requires forall x :: x in c ==> x in repo
  {
    && |c| >= 2
    && Pending(repo[c[|c| - 1]])
    && repo[c[|c| - 1]].ext.previous == Some(c[|c| - 2])
    && repo[c[|c| - 1]].supersededBy == None
  }

  ghost predicate Chained(repo: Repo, ident: Identity, c: Chain, phase: Phase) {
    Members(repo, ident, c) && Numbered(repo, c) && InPhase(repo, c, phase)
  }

  /** Content history of one identity, oldest first. */
  ghost function Log(repo: Repo, c: Chain): (log: seq<string>)
    requires forall x :: x in c ==> x in repo
    ensures |log| == |c|
  {
    seq(|c|, j requires 0 <= j < |c| => repo[c[j]].content)
  }

  // -------------------------------------------------- the four kinds of write

  lemma WriteInsert(repo: Repo, req: Request, c: Chain, newId: Id)
    requires req.Store? && Chained(repo, req.ident, c, Empty) && newId !in repo
    ensures Chained(repo[newId := NewRecord(repo, req, None)], req.ident, [newId], Settled)
    ensures Log(repo[newId := NewRecord(repo, req, None)], [newId]) == Log(repo, c) + [req.content]
  {
  }

  lemma WriteStage(repo: Repo, req: Request, c: Chain, newId: Id)
    requires req.Store? && Chained(repo, req.ident, c, Settled) && newId !in repo
    ensures var after := repo[newId := NewRecord(repo, req, Some(c[|c| - 1]))];
            Chained(after, req.ident, c + [newId], StagedActive)
            && Log(after, c + [newId]) == Log(repo, c) + [req.content]
  {
    var after := repo[newId := NewRecord(repo, req, Some(c[|c| - 1]))];
    var c' := c + [newId];
    assert c[|c| - 1] in c;
    OneMoreMember(repo, req.ident, c, newId, after);
    OneMoreNumber(repo, c, newId, after);
    assert forall j :: 0 <= j < |c| ==> c'[j] == c[j] && c[j] in c && after[c[j]] == repo[c[j]];
  }

  lemma OneMoreNumber(repo: Repo, c: Chain, newId: Id, after: Repo)
    requires (forall x :: x in c ==> x in repo) && Numbered(repo, c) && c != [] && newId !in c
    requires newId in after && after == repo[newId := after[newId]]
    requires after[newId].version == |c| + 1 && after[newId].supersedes == Some(c[|c| - 1])
    ensures (forall x :: x in c + [newId] ==> x in after) && Numbered(after, c + [newId])
  {
    var c' := c + [newId];
    assert forall j :: 0 <= j < |c| ==> c'[j] == c[j] && c[j] in c && after[c[j]] == repo[c[j]];
  }

  lemma OneMoreMember(repo: Repo, ident: Identity, c: Chain, newId: Id, after: Repo)
    requires Members(repo, ident, c) && newId !in repo && newId in after && after[newId].ident == ident
    requires after == repo[newId := after[newId]]
    ensures Members(after, ident, c + [newId])
  {
    assert forall x :: x in c + [newId] <==> x in c || x == newId;
  }

  lemma WriteSupersede(repo: Repo, ident: Identity, c: Chain)
    requires Chained(repo, ident, c, StagedActive)
    ensures var after := Supersede(repo, c[|c| - 2], c[|c| - 1]);
            Chained(after, ident, c, StagedSuperseded) && Log(after, c) == Log(repo, c)
            && after[c[|c| - 1]] == repo[c[|c| - 1]]
  {
    var after := Supersede(repo, c[|c| - 2], c[|c| - 1]);
    assert c[|c| - 2] in c && c[|c| - 1] in c;
    assert c[|c| - 2] != c[|c| - 1];
    assert forall j :: 0 <= j < |c| && j != |c| - 2 ==> after[c[j]] == repo[c[j]];
  }

  lemma WriteActivate(repo: Repo, ident: Identity, c: Chain, ext: Extensions)
    requires Chained(repo, ident, c, StagedSuperseded)
    ensures var after := Activate(repo, c[|c| - 1], ext);
            Chained(after, ident, c, Settled) && Log(after, c) == Log(repo, c)
            && after[c[|c| - 1]].digest == repo[c[|c| - 1]].digest
            && after[c[|c| - 1]].ext.relations == ext.relations
  {
    var after := Activate(repo, c[|c| - 1], ext);
    assert c[|c| - 1] in c;
    assert forall j :: 0 <= j < |c| - 1 ==> after[c[j]] == repo[c[j]];
  }

  /** Every difference between the two repositories is a record of this identity. */
  ghost predicate TouchesOnly(repo: Repo, after: Repo, ident: Identity) {
    && (forall x :: x in repo ==> x in after)
    && (forall x :: x in after && (x !in repo || repo[x] != after[x]) ==>
          after[x].ident == ident && (x in repo ==> repo[x].ident == ident))
  }

  /** A write to another identity's record leaves this identity's chain alone. */
  lemma ElsewhereKept(repo: Repo, after: Repo, ident: Identity, other: Identity, c: Chain, phase: Phase)
    requires Chained(repo, other, c, phase) && TouchesOnly(repo, after, ident) && other != ident
    ensures Chained(after, other, c, phase) && Log(after, c) == Log(repo, c)
    ensures forall x :: x in c ==> after[x] == repo[x]
  {
    assert forall j :: 0 <= j < |c| ==> c[j] in c && after[c[j]] == repo[c[j]];
  }

  // --------------------------------------------------------- what queries find

  lemma {:induction false} KeepMember(repo: Repo, hits: seq<Id>, ident: Identity, pending: bool, x: Id)
    ensures x in KeepExact(repo, hits, ident, pending) <==>
            && x in hits && x in repo && repo[x].ident.context == ident.context
            && repo[x].ident.partition == ident.partition
            && (pending ==> repo[x].ext.state == PendingActivation)
    ensures NoDup(hits) ==> NoDup(KeepExact(repo, hits, ident, pending))
  {
    if hits != [] {
      var rest := KeepExact(repo, hits[1..], ident, pending);
      KeepMember(repo, hits[1..], ident, pending, x);
      KeepMember(repo, hits[1..], ident, pending, hits[0]);
      if NoDup(hits) {
        assert forall k :: 0 <= k < |hits[1..]| ==> hits[1..][k] != hits[0];
      }
    }
  }

  lemma SameGroupAndContext(a: Identity, b: Identity)
    ensures SameGroup(a, b) && a.context == b.context <==> a == b
  {
    if SameGroup(a, b) && a.context == b.context {
      assert a.(context := "").(context := a.context) == a;
      assert b.(context := "").(context := b.context) == b;
    }
  }

  /** With answers that are complete, the kept points are exactly the matching records of the identity. */
  lemma KeptAreMatches(repo: Repo, hits: seq<Id>, ident: Identity, pending: bool)
    requires Answers(hits, if pending then PendingLike(repo, ident) else ActiveLike(repo, ident),
                     if pending then SCROLL_LIMIT else SEARCH_LIMIT)
    requires SeesAll(repo, ident, if pending then Begin else Lookup)
    ensures NoDup(KeepExact(repo, hits, ident, pending))
    ensures forall x :: x in KeepExact(repo, hits, ident, pending) <==>
              x in repo && repo[x].ident == ident
              && if pending then Pending(repo[x]) else repo[x].status == Active
  {
    var matches := if pending then PendingLike(repo, ident) else ActiveLike(repo, ident);
    CompleteAnswer(hits, matches, if pending then SCROLL_LIMIT else SEARCH_LIMIT);
    KeepMember(repo, hits, ident, pending, 0);
    forall x
      ensures x in KeepExact(repo, hits, ident, pending) <==>
              x in repo && repo[x].ident == ident
              && if pending then Pending(repo[x]) else repo[x].status == Active
    {
      KeepMember(repo, hits, ident, pending, x);
      if x in repo { SameGroupAndContext(repo[x].ident, ident); }
    }
  }

  lemma SingletonList(s: seq<Id>, x: Id)
    requires NoDup(s) && forall y :: y in s <==> y == x
    ensures s == [x]
  {
    NoDupSize(s);
    assert Elements(s) == {x};
  }

  lemma EmptyList(s: seq<Id>)
    requires NoDup(s) && forall y :: y !in s
    ensures s == []
  {
    NoDupSize(s);
    assert Elements(s) == {};
  }

  lemma FindsPending(repo: Repo, hits: seq<Id>, ident: Identity, c: Chain, phase: Phase)
    requires Chained(repo, ident, c, phase) && SeesAll(repo, ident, Begin)
    requires Answers(hits, PendingLike(repo, ident), SCROLL_LIMIT)
    ensures KeepExact(repo, hits, ident, true) ==
            if phase.StagedActive? || phase.StagedSuperseded? then [c[|c| - 1]] else []
  {
    var kept := KeepExact(repo, hits, ident, true);
    KeptAreMatches(repo, hits, ident, true);
    if phase.StagedActive? || phase.StagedSuperseded? {
      var last := c[|c| - 1];
      assert last in c;
      forall y ensures y in kept <==> y == last {
        if y in kept {
          var j :| 0 <= j < |c| && c[j] == y;
        }
      }
      SingletonList(kept, last);
    } else {
      assert forall j :: 0 <= j < |c| ==> c[j] !in kept;
      assert forall y :: y !in kept;
      EmptyList(kept);
    }
  }

  lemma FindsActive(repo: Repo, hits: seq<Id>, ident: Identity, c: Chain, phase: Phase)
    requires Chained(repo, ident, c, phase) && SeesAll(repo, ident, Lookup)
    requires phase.Empty? || phase.Settled?
    requires Answers(hits, ActiveLike(repo, ident), SEARCH_LIMIT)
    ensures KeepExact(repo, hits, ident, false) == if phase.Settled? then [c[|c| - 1]] else []
  {
    var kept := KeepExact(repo, hits, ident, false);
    KeptAreMatches(repo, hits, ident, false);
    if phase.Settled? {
      var last := c[|c| - 1];
      assert last in c;
      forall y ensures y in kept <==> y == last {
        if y in kept {
          var j :| 0 <= j < |c| && c[j] == y;
        }
      }
      SingletonList(kept, last);
    } else {
      assert forall y :: y !in kept;
      EmptyList(kept);
    }
  }

  // ------------------------------------------------------ one step of one call

  /** What a call knows about its identity between two of its writes. */
  ghost predicate Agrees(repo: Repo, c: Chain, phase: Phase, req: Request, pc: Pc)
    requires forall x :: x in c ==> x in repo
  {
    match pc
    case Begin => true
    case RecoverActivate(staged, ext) =>
      phase.StagedSuperseded? && |c| > 0 && staged == c[|c| - 1] && ext == repo[c[|c| - 1]].ext
    case Lookup => req.Store? && (phase.Empty? || phase.Settled?)
    case CommitSupersede(staged, ext, previous, next) =>
      && req.Store? && phase.StagedActive? && |c| >= 2 && staged == c[|c| - 1]
      && ext == repo[c[|c| - 1]].ext && previous == c[|c| - 2] && next == None
    case CommitActivate(staged, ext, previous) =>
      && req.Store? && phase.StagedSuperseded? && |c| >= 2 && staged == c[|c| - 1]
      && ext == repo[c[|c| - 1]].ext && previous == c[|c| - 2]
    case Done(outcome) => !outcome.Failed? ==> phase.Empty? || phase.Settled?
  }

  ghost function NextChain(c: Chain, repo: Repo, after: Repo, newId: Id): Chain {
    if newId in repo || newId !in after then c else c + [newId]
  }

  /** A store takes effect in the step that creates its record, and in no other. */
  ghost predicate Commits(repo: Repo, after: Repo, newId: Id) {
    newId !in repo && newId in after
  }

  ghost function NextPhase(phase: Phase, pc: Pc, r: StepResult): Phase {
    match pc
    case Begin => if r.wrote then StagedSuperseded else phase
    case RecoverActivate(_, _) => Settled
    case Lookup => if !r.wrote then phase else if phase.Empty? then Settled else StagedActive
    case CommitSupersede(_, _, _, _) => if r.wrote then StagedSuperseded else phase
    case CommitActivate(_, _, _) => Settled
    case Done(_) => phase
  }

  /** The only way a call on a chained identity can fail is by its own arguments. */
  ghost predicate OwnFault(req: Request, fault: Fault) {
    req.Store? && ((fault.SourceChanged? && req.expected != None) || (fault.ReviewAuthority? && !req.reviewer))
  }

  ghost predicate StepKeeps(repo: Repo, req: Request, pc: Pc, r: StepResult, newId: Id, c: Chain, phase: Phase)
    requires forall x :: x in c ==> x in repo
  {
    var c' := NextChain(c, repo, r.repo, newId);
    var phase' := NextPhase(phase, pc, r);
    && Chained(r.repo, req.ident, c', phase')
    && Agrees(r.repo, c', phase', req, r.pc)
    && TouchesOnly(repo, r.repo, req.ident)
    && (Commits(repo, r.repo, newId) ==> pc.Lookup? && req.Store?)
    && Log(r.repo, c') == Log(repo, c) + (if Commits(repo, r.repo, newId) then [req.content] else [])
    && (r.pc.Done? && r.pc.outcome.Failed? && !pc.Done? ==> OwnFault(req, r.pc.outcome.fault) && !r.wrote)
  }

  /** Recovery always rolls a staged version forward, from either side of the predecessor write. */
  lemma BeginResult(repo: Repo, req: Request, hits: seq<Id>, c: Chain, phase: Phase)
    requires Chained(repo, req.ident, c, phase)
    requires SeesAll(repo, req.ident, Begin) && LegalAnswer(repo, req, Begin, hits)
    ensures StepBegin(repo, req, hits) ==
            match phase
            case Empty => StepResult(repo, AfterRecovery(req), false)
            case Settled => StepResult(repo, AfterRecovery(req), false)
            case StagedActive =>
              StepResult(Supersede(repo, c[|c| - 2], c[|c| - 1]),
                         RecoverActivate(c[|c| - 1], repo[c[|c| - 1]].ext), true)
            case StagedSuperseded => StepResult(repo, RecoverActivate(c[|c| - 1], repo[c[|c| - 1]].ext), false)
  {
    FindsPending(repo, hits, req.ident, c, phase);
    if phase.StagedActive? || phase.StagedSuperseded? {
      assert c[|c| - 1] in c && c[|c| - 2] in c;
    }
  }

  lemma SupersedeKeeps(repo: Repo, req: Request, pc: Pc, r: StepResult, newId: Id, c: Chain)
    requires Chained(repo, req.ident, c, StagedActive) && newId !in repo
    requires pc.Begin? || pc.CommitSupersede?
    requires r.wrote && r.repo == Supersede(repo, c[|c| - 2], c[|c| - 1]) && !r.pc.Done?
    requires Agrees(repo, c, StagedSuperseded, req, r.pc)
    ensures StepKeeps(repo, req, pc, r, newId, c, StagedActive)
  {
    assert c[|c| - 1] in c && c[|c| - 2] in c;
    WriteSupersede(repo, req.ident, c);
  }

  lemma ActivateKeeps(repo: Repo, req: Request, pc: Pc, r: StepResult, newId: Id, c: Chain, ext: Extensions)
    requires Chained(repo, req.ident, c, StagedSuperseded) && newId !in repo
    requires pc.RecoverActivate? || pc.CommitActivate?
    requires r.repo == Activate(repo, c[|c| - 1], ext)
    requires (r.pc.Lookup? && req.Store?) || (r.pc.Done? && !r.pc.outcome.Failed?)
    ensures StepKeeps(repo, req, pc, r, newId, c, StagedSuperseded)
  {
    assert c[|c| - 1] in c;
    WriteActivate(repo, req.ident, c, ext);
  }

  lemma BeginKeeps(repo: Repo, req: Request, hits: seq<Id>, newId: Id, c: Chain, phase: Phase)
    requires Chained(repo, req.ident, c, phase)
    requires SeesAll(repo, req.ident, Begin) && LegalAnswer(repo, req, Begin, hits) && newId !in repo
    ensures StepKeeps(repo, req, Begin, StepBegin(repo, req, hits), newId, c, phase)
  {
    BeginResult(repo, req, hits, c, phase);
    if phase.StagedActive? { SupersedeKeeps(repo, req, Begin, StepBegin(repo, req, hits), newId, c); }
  }

  ghost function NewestOf(repo: Repo, c: Chain): Newest
    requires forall x :: x in c ==> x in repo
  {
    if c == [] then Nothing
    else Last(c[|c| - 1], repo[c[|c| - 1]].digest, repo[c[|c| - 1]].ext.relations)
  }

  /** A lookup that sees the newest version follows the verdict on it. */
  lemma LookupResult(repo: Repo, req: Request, hits: seq<Id>, newId: Id, c: Chain)
    requires req.Store? && (forall x :: x in c ==> x in repo)
    requires KeepExact(repo, hits, req.ident, false) == if c == [] then [] else [c[|c| - 1]]
    ensures var r := StepLookup(repo, req, hits, newId);
            var previous := if c == [] then None else Some(c[|c| - 1]);
            match Decide(req, NewestOf(repo, c))
            case Refuse(fault) => r == Fail(repo, fault) && OwnFault(req, fault)
            case Keep(id) => r == StepResult(repo, Done(NoChange(id)), false)
            case Commit =>
              && r.wrote && r.repo == repo[newId := NewRecord(repo, req, previous)]
              && r.pc == if c == [] then Done(InsertNew(newId))
                         else CommitSupersede(newId, NewRecord(repo, req, previous).ext, c[|c| - 1],
                                              repo[c[|c| - 1]].supersededBy)
  {
  }

  lemma LookupInserts(repo: Repo, req: Request, hits: seq<Id>, newId: Id, c: Chain)
    requires Chained(repo, req.ident, c, Empty) && req.Store? && newId !in repo
    requires KeepExact(repo, hits, req.ident, false) == []
    ensures StepKeeps(repo, req, Lookup, StepLookup(repo, req, hits, newId), newId, c, Empty)
  {
    LookupResult(repo, req, hits, newId, c);
    if Decide(req, NewestOf(repo, c)).Commit? { InsertKeeps(repo, req, StepLookup(repo, req, hits, newId), newId, c); }
  }

  lemma InsertKeeps(repo: Repo, req: Request, r: StepResult, newId: Id, c: Chain)
    requires Chained(repo, req.ident, c, Empty) && req.Store? && newId !in repo
    requires r.wrote && r.repo == repo[newId := NewRecord(repo, req, None)] && r.pc == Done(InsertNew(newId))
    ensures StepKeeps(repo, req, Lookup, r, newId, c, Empty)
  {
    WriteInsert(repo, req, c, newId);
    assert c == [] && NextChain(c, repo, r.repo, newId) == [newId];
  }

  lemma LookupStages(repo: Repo, req: Request, hits: seq<Id>, newId: Id, c: Chain)
    requires Chained(repo, req.ident, c, Settled) && req.Store? && newId !in repo
    requires KeepExact(repo, hits, req.ident, false) == [c[|c| - 1]]
    ensures StepKeeps(repo, req, Lookup, StepLookup(repo, req, hits, newId), newId, c, Settled)
  {
    assert c[|c| - 1] in c;
    LookupResult(repo, req, hits, newId, c);
    if Decide(req, NewestOf(repo, c)).Commit? { StageKeeps(repo, req, StepLookup(repo, req, hits, newId), newId, c); }
  }

  lemma StageKeeps(repo: Repo, req: Request, r: StepResult, newId: Id, c: Chain)
    requires Chained(repo, req.ident, c, Settled) && req.Store? && newId !in repo && c[|c| - 1] in repo
    requires r.wrote && r.repo == repo[newId := NewRecord(repo, req, Some(c[|c| - 1]))]
    requires r.pc == CommitSupersede(newId, NewRecord(repo, req, Some(c[|c| - 1])).ext, c[|c| - 1], None)
    ensures StepKeeps(repo, req, Lookup, r, newId, c, Settled)
  {
    WriteStage(repo, req, c, newId);
    assert (c + [newId])[|c| - 1] == c[|c| - 1];
  }

  lemma LookupKeeps(repo: Repo, req: Request, hits: seq<Id>, newId: Id, c: Chain, phase: Phase)
    requires Chained(repo, req.ident, c, phase) && Agrees(repo, c, phase, req, Lookup)
    requires SeesAll(repo, req.ident, Lookup) && LegalAnswer(repo, req, Lookup, hits) && newId !in repo
    ensures StepKeeps(repo, req, Lookup, StepLookup(repo, req, hits, newId), newId, c, phase)
  {
    FindsActive(repo, hits, req.ident, c, phase);
    if phase.Empty? {
      LookupInserts(repo, req, hits, newId, c);
    } else {
      LookupStages(repo, req, hits, newId, c);
    }
  }

  lemma CommitKeeps(repo: Repo, req: Request, pc: Pc, newId: Id, c: Chain, phase: Phase)
    requires Chained(repo, req.ident, c, phase) && Agrees(repo, c, phase, req, pc)
    requires !pc.Begin? && !pc.Lookup? && newId !in repo
    ensures StepKeeps(repo, req, pc, Step(repo, req, pc, [], newId), newId, c, phase)
  {
    var r := Step(repo, req, pc, [], newId);
    match pc {
      case RecoverActivate(_, ext) => ActivateKeeps(repo, req, pc, r, newId, c, ext);
      case CommitSupersede(_, _, _, _) => SupersedeKeeps(repo, req, pc, r, newId, c);
      case CommitActivate(_, ext, _) => ActivateKeeps(repo, req, pc, r, newId, c, ext);
      case Done(_) =>
    }
  }

  /**
   Any single step of any call keeps the identity's chain, commits at most the
   call's own content, and never reports a conflict the caller did not ask for.
   */
  lemma StepKeepsChain(repo: Repo, req: Request, pc: Pc, hits: seq<Id>, newId: Id, c: Chain, phase: Phase)
    requires Chained(repo, req.ident, c, phase) && Agrees(repo, c, phase, req, pc)
    requires SeesAll(repo, req.ident, pc) && LegalAnswer(repo, req, pc, hits) && newId !in repo
    ensures StepKeeps(repo, req, pc, Step(repo, req, pc, hits, newId), newId, c, phase)
  {
    if pc.Begin? {
      BeginKeeps(repo, req, hits, newId, c, phase);
    } else if pc.Lookup? {
      LookupKeeps(repo, req, hits, newId, c, phase);
    } else {
      CommitKeeps(repo, req, pc, newId, c, phase);
    }
  }
}
