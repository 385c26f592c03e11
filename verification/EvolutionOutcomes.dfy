/** The records that stores write, the conflicts that calls raise, and the names they go by. */
module EvolutionOutcomes {
  import opened Common
  import opened Text
  import opened EvolutionModel
  import opened EvolutionInvariant
  import opened EvolutionRuns
  import opened EvolutionCalls
  import opened EvolutionGuarantees
  import opened EvolutionVerdicts

  /** The newest version is the record whose version is the length of the log. */
  lemma NewestIsRecord(repo: Repo, ident: Identity)
    requires Healthy(repo, ident)
    ensures NewestFor(repo, ident).Nothing? <==> LogOf(repo, ident) == []
    ensures NewestFor(repo, ident).Last? ==>
              var n := NewestFor(repo, ident);
              && AtVersion(repo, ident, n.id, |LogOf(repo, ident)|)
              && n.digest == repo[n.id].digest && n.relations == repo[n.id].ext.relations
  {
    var c: Chain, phase :| Chained(repo, ident, c, phase);
    NewestIs(repo, ident, c, phase);
    LogIs(repo, ident, c, phase);
    if c != [] { assert c[|c| - 1] in c; }
  }

  /** The record a store writes: the request's own content, digest and relations, one version further. */
  lemma WrittenRecord(repo: Repo, req: Request, previous: Option<Id>)
    requires req.Store? && (previous.Some? ==> previous.value in repo)
    ensures var r := NewRecord(repo, req, previous);
            && r.ident == req.ident && r.content == req.content && r.digest == req.digest && r.supersedes == previous
            && r.supersededBy == None && r.ext.relations == (if req.relations.Some? then req.relations.value else NO_RELATIONS)
            && match previous
               case None => r.version == 1 && r.status == Active && r.ext.state == req.state && r.ext.previous == req.previous
               case Some(p) => r.version == repo[p].version + 1 && Pending(r) && r.ext.previous == previous
  {
  }

  /** The two later writes change status, link and commit state, and nothing else of any record. */
  lemma LaterWritesKeepTheRest(repo: Repo, previous: Id, staged: Id, x: Id)
    requires previous in repo && staged in repo && previous != staged && x in repo
    ensures var after := Activate(Supersede(repo, previous, staged), staged, repo[staged].ext);
            && after.Keys == repo.Keys
            && after[x].ident == repo[x].ident && after[x].content == repo[x].content && after[x].digest == repo[x].digest
            && after[x].version == repo[x].version && after[x].supersedes == repo[x].supersedes
            && after[x].ext.relations == repo[x].ext.relations
            && (x != previous && x != staged ==> after[x] == repo[x])
            && (x == previous ==> after[x].status == Superseded && after[x].supersededBy == Some(staged) && after[x].ext == repo[x].ext)
            && (x == staged ==> after[x].status == Active && after[x].supersededBy == repo[x].supersededBy
                                && after[x].ext.state == Committed && after[x].ext.previous == None)
  {
  }

  /** More than one kept record is a conflict, of any records. */
  lemma ManyRefused(repo: Repo, req: Request, hits: seq<Id>, newId: Id)
    requires req.Store?
    ensures StepBegin(repo, req, hits).pc == Done(Failed(ManyPending)) <==> |KeepExact(repo, hits, req.ident, true)| >= 2
    ensures StepLookup(repo, req, hits, newId).pc == Done(Failed(ManyActive)) <==> |KeepExact(repo, hits, req.ident, false)| >= 2
  {
  }

  /** A predecessor that has another successor is never superseded. */
  lemma SuccessorGuarded(repo: Repo, req: Request, staged: Id, ext: Extensions, previous: Id, next: Option<Id>)
    ensures var r := Step(repo, req, CommitSupersede(staged, ext, previous, next), [], 0);
            && (r.pc == Done(Failed(OtherSuccessor)) <==> next.Some? && next.value != staged)
            && (r.pc == Done(Failed(OtherSuccessor)) ==> r.repo == repo)
            && (r.pc != Done(Failed(OtherSuccessor)) ==>
                  r.pc == CommitActivate(staged, ext, previous) && r.wrote && r.repo == Supersede(repo, previous, staged))
  {
  }

  /** A step that refuses has written nothing. */
  lemma RefusalWritesNothing(repo: Repo, req: Request, pc: Pc, hits: seq<Id>, newId: Id, r: StepResult)
    requires Sound(req, pc) && !pc.Done? && r == Step(repo, req, pc, hits, newId) && r.pc.Done? && r.pc.outcome.Failed?
    ensures r.repo == repo && !r.wrote
  {
  }

  // --------------------------------------------------------------- names and lock keys

  /** Same fields up to case and outer whitespace. */
  ghost predicate SameNames(a: Identity, b: Identity) {
    && Lower(Trim(a.domain)) == Lower(Trim(b.domain)) && Lower(Trim(a.topic)) == Lower(Trim(b.topic))
    && Lower(Trim(a.entityType)) == Lower(Trim(b.entityType)) && Lower(Trim(a.entityName)) == Lower(Trim(b.entityName))
  }

  ghost predicate NoBars(i: Identity) {
    '|' !in i.domain && '|' !in i.topic && '|' !in i.entityType && '|' !in i.entityName
  }

  function UpToBar(s: string): string {
    if s == "" || s[0] == '|' then "" else [s[0]] + UpToBar(s[1..])
  }

  lemma {:induction false} UpToBarOf(a: string, b: string)
    requires '|' !in a
    ensures UpToBar(a + "|" + b) == a
  {
    if a == "" {
      assert (a + "|" + b)[0] == '|';
    } else {
      UpToBarOf(a[1..], b);
      assert (a + "|" + b)[0] == a[0] && (a + "|" + b)[1..] == a[1..] + "|" + b;
    }
  }

  lemma SplitAtBar(a: string, b: string, c: string, d: string)
    requires '|' !in a && '|' !in c && a + "|" + b == c + "|" + d
    ensures a == c && b == d
  {
    UpToBarOf(a, b);
    UpToBarOf(c, d);
    assert b == (a + "|" + b)[|a| + 1..] && d == (c + "|" + d)[|c| + 1..];
  }

  lemma PartHasNone(s: string, lo: nat, hi: nat, c: char)
    requires c !in s && lo <= hi <= |s|
    ensures c !in s[lo..hi]
  {
  }

  lemma LowerHasNone(s: string)
    requires '|' !in s
    ensures '|' !in Lower(s)
  {
    assert forall k :: 0 <= k < |s| ==> Lower(s)[k] == LowerChar(s[k]) && s[k] != '|';
  }

  lemma NoBarLeft(s: string)
    requires '|' !in s
    ensures '|' !in Lower(Trim(s))
  {
    var t := TrimLeft(s);
    PartHasNone(s, |s| - |t|, |s|, '|');
    PartHasNone(t, 0, |TrimRight(t)|, '|');
    LowerHasNone(TrimRight(t));
  }

  /** The lock key does not tell identities apart that differ in case or outer whitespace only. */
  lemma KeyJoins(a: Identity, b: Identity)
    requires SameNames(a, b) && a.context == b.context && a.partition == b.partition
    ensures LockKey(a) == LockKey(b)
  {
  }

  /** It tells all others apart, but for a bar in a name, or one between context and partition. */
  lemma KeyTells(a: Identity, b: Identity)
    requires NoBars(a) && NoBars(b) && LockKey(a) == LockKey(b)
    ensures SameNames(a, b) && a.context + "|" + a.partition == b.context + "|" + b.partition
  {
    NoBarLeft(a.domain); NoBarLeft(b.domain);
    NoBarLeft(a.topic); NoBarLeft(b.topic);
    NoBarLeft(a.entityType); NoBarLeft(b.entityType);
    NoBarLeft(a.entityName); NoBarLeft(b.entityName);
    var x, y := Parts(a), Parts(b);
    KeyParts(x.0, x.1, x.2, x.3, x.4, y.0, y.1, y.2, y.3, y.4);
  }

  ghost function Parts(i: Identity): (string, string, string, string, string) {
    (Lower(Trim(i.domain)), Lower(Trim(i.topic)), Lower(Trim(i.entityType)), Lower(Trim(i.entityName)), i.context + "|" + i.partition)
  }

  lemma KeyParts(a: string, b: string, c: string, d: string, e: string, a': string, b': string, c': string, d': string, e': string)
    requires '|' !in a && '|' !in b && '|' !in c && '|' !in d && '|' !in a' && '|' !in b' && '|' !in c' && '|' !in d'
    requires a + "|" + (b + "|" + (c + "|" + (d + "|" + e))) == a' + "|" + (b' + "|" + (c' + "|" + (d' + "|" + e')))
    ensures a == a' && b == b' && c == c' && d == d' && e == e'
  {
    SplitAtBar(a, b + "|" + (c + "|" + (d + "|" + e)), a', b' + "|" + (c' + "|" + (d' + "|" + e')));
    SplitAtBar(b, c + "|" + (d + "|" + e), b', c' + "|" + (d' + "|" + e'));
    SplitAtBar(c, d + "|" + e, c', d' + "|" + e');
    SplitAtBar(d, e, d', e');
  }

  /** Reconciliation reads an identity with its four fields stripped, and refuses one of them empty. */
  lemma NamesRead(i: Identity)
    ensures var r := NAMING.strip(i);
            && r.domain == Trim(i.domain) && r.topic == Trim(i.topic) && r.entityType == Trim(i.entityType)
            && r.entityName == Trim(i.entityName) && r.context == i.context && r.partition == i.partition
            && (NAMING.blank(i) <==> r.domain == "" || r.topic == "" || r.entityType == "" || r.entityName == "")
            && NAMING.key(i) == LockKey(i)
  {
  }

  /** Why a recovery refuses, whatever put the records there. */
  lemma RecoveryRefusals(repo: Repo, req: Request, hits: seq<Id>, staged: Id)
    requires KeepExact(repo, hits, req.ident, true) == [staged] && staged in repo
    ensures var r, previous := StepBegin(repo, req, hits).pc, repo[staged].ext.previous;
            var found := previous.Some? && previous.value in repo;
            && (r == Done(Failed(NoPredecessorId)) <==> previous.None?)
            && (r == Done(Failed(PredecessorMissing)) <==> previous.Some? && !found)
            && (r == Done(Failed(PredecessorScope)) <==> found && repo[previous.value].ident.partition != req.ident.partition)
            && (r == Done(Failed(OtherSuccessor)) <==>
                  && found && repo[previous.value].ident.partition == req.ident.partition && repo[previous.value].status == Active
                  && repo[previous.value].supersededBy !in {None, Some(staged)})
            && (r == Done(Failed(PredecessorState)) <==>
                  && found && repo[previous.value].ident.partition == req.ident.partition && repo[previous.value].status != Active
                  && !(repo[previous.value].status == Superseded && repo[previous.value].supersededBy == Some(staged)))
  {
  }
}
