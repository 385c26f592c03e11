/**
 Knowledge evolution: the records, one `store` or recovery call as a sequence of
 single repository writes, and the values those writes produce.
 */
module EvolutionModel {
  import opened Common
  import opened Text

  type Id = nat

  // ---------------------------------------------------------------- identities

  /** Four entity fields, the context and the partition of a record. */
  datatype Identity = Identity(
    domain: string, topic: string, entityType: string, entityName: string,
    context: string, partition: string)

  /** The canonical form `reconcile_pending` recovers under. */
  function Stripped(i: Identity): Identity {
    i.(domain := Trim(i.domain), topic := Trim(i.topic),
       entityType := Trim(i.entityType), entityName := Trim(i.entityName))
  }

  function LockKey(i: Identity): string {
    Lower(Trim(i.domain)) + "|" + (Lower(Trim(i.topic)) + "|" + (Lower(Trim(i.entityType)) + "|" +
      (Lower(Trim(i.entityName)) + "|" + (i.context + "|" + i.partition))))
  }

  predicate Blank(i: Identity) {
    Trim(i.domain) == "" || Trim(i.topic) == "" || Trim(i.entityType) == "" || Trim(i.entityName) == ""
  }

  /** What the storage filter can tell apart: everything but the context. */
  predicate SameGroup(a: Identity, b: Identity) {
    a.(context := "") == b.(context := "")
  }

  // ------------------------------------------------------------------- records

  datatype Status = Active | Superseded | Deprecated | Rejected

  /** Value under `_evolution_state`; a caller may put anything there. */
  datatype EvolutionState = Absent | PendingActivation | Committed | Foreign(text: string)

  /** Relation metadata is opaque apart from equality, emptiness and review status. */
  datatype Bundle = Bundle(edges: seq<string>, reviewed: bool)

  const NO_RELATIONS := Bundle([], false)

  datatype Extensions = Extensions(state: EvolutionState, previous: Option<Id>, relations: Bundle)

  datatype Record = Record(
    ident: Identity, content: string, digest: string, version: int, status: Status,
    supersedes: Option<Id>, supersededBy: Option<Id>, ext: Extensions)

  type Repo = map<Id, Record>

  predicate Pending(r: Record) {
    r.status == Deprecated && r.ext.state == PendingActivation
  }

  // --------------------------------------------------------------------- calls

  datatype Request =
    | Store(ident: Identity, content: string, digest: string, relations: Option<Bundle>,
            state: EvolutionState, previous: Option<Id>,
            force: bool, expected: Option<Id>, reviewer: bool)
    | Recover(ident: Identity)

  datatype Fault =
    | ManyPending | NoPredecessorId | PredecessorMissing | PredecessorScope
    | OtherSuccessor | PredecessorState | ManyActive | SourceChanged | ReviewAuthority

  datatype Outcome =
    | Recovered
    | InsertNew(id: Id)
    | NoChange(id: Id)
    | Evolve(id: Id, previous: Id)
    | Failed(fault: Fault)

  /** Where a call stands between two repository writes. */
  datatype Pc =
    | Begin
    | RecoverActivate(staged: Id, ext: Extensions)
    | Lookup
    | CommitSupersede(staged: Id, ext: Extensions, previous: Id, next: Option<Id>)
    | CommitActivate(staged: Id, ext: Extensions, previous: Id)
    | Done(outcome: Outcome)

  function Rank(pc: Pc): nat {
    match pc
    case Begin => 5
    case RecoverActivate(_, _) => 4
    case Lookup => 3
    case CommitSupersede(_, _, _, _) => 2
    case CommitActivate(_, _, _) => 1
    case Done(_) => 0
  }

  // -------------------------------------------------------------------- writes

  function Supersede(repo: Repo, previous: Id, staged: Id): Repo {
    if previous in repo then
      repo[previous := repo[previous].(status := Superseded, supersededBy := Some(staged))]
    else repo
  }

  function Activate(repo: Repo, staged: Id, ext: Extensions): Repo {
    if staged in repo then
      repo[staged := repo[staged].(status := Active, ext := ext.(state := Committed, previous := None))]
    else repo
  }

  function NewRecord(repo: Repo, req: Request, previous: Option<Id>): Record
    requires req.Store? && (previous.Some? ==> previous.value in repo)
  {
    var relations := if req.relations.Some? then req.relations.value else NO_RELATIONS;
    match previous
    case None =>
      Record(req.ident, req.content, req.digest, 1, Active, None, None,
             Extensions(req.state, req.previous, relations))
    case Some(p) =>
      Record(req.ident, req.content, req.digest, repo[p].version + 1, Deprecated, previous, None,
             Extensions(PendingActivation, previous, relations))
  }

  // --------------------------------------------------------------------- steps

  /** Points of a server answer that the service keeps after its own filters. */
  function KeepExact(repo: Repo, hits: seq<Id>, ident: Identity, pending: bool): seq<Id> {
    if hits == [] then []
    else
      var rest := KeepExact(repo, hits[1..], ident, pending);
      var x := hits[0];
      if x in repo && repo[x].ident.context == ident.context && repo[x].ident.partition == ident.partition
         && (pending ==> repo[x].ext.state == PendingActivation)
      then [x] + rest else rest
  }

  function AfterRecovery(req: Request): Pc {
    if req.Store? then Lookup else Done(Recovered)
  }

  datatype StepResult = StepResult(repo: Repo, pc: Pc, wrote: bool)

  function Fail(repo: Repo, fault: Fault): StepResult {
    StepResult(repo, Done(Failed(fault)), false)
  }

  function StepBegin(repo: Repo, req: Request, hits: seq<Id>): StepResult {
    var exact := KeepExact(repo, hits, req.ident, true);
    if exact == [] then StepResult(repo, AfterRecovery(req), false)
    else if |exact| > 1 then Fail(repo, ManyPending)
    else if exact[0] !in repo then Fail(repo, PredecessorMissing)
    else
      var staged := exact[0];
      var ext := repo[staged].ext;
      if ext.previous == None then Fail(repo, NoPredecessorId)
      else if ext.previous.value !in repo then Fail(repo, PredecessorMissing)
      else
        var previous := ext.previous.value;
        var before := repo[previous];
        if before.ident.partition != req.ident.partition then Fail(repo, PredecessorScope)
        else if before.status == Active then
          if before.supersededBy != None && before.supersededBy != Some(staged) then Fail(repo, OtherSuccessor)
          else StepResult(Supersede(repo, previous, staged), RecoverActivate(staged, ext), true)
        else if before.status == Superseded && before.supersededBy == Some(staged) then
          StepResult(repo, RecoverActivate(staged, ext), false)
        else Fail(repo, PredecessorState)
  }

  predicate RelationsChanged(req: Request, relations: Bundle, sameContent: bool)
    requires req.Store?
  {
    || (req.relations.Some? && req.relations.value != relations)
    || (req.relations.None? && (!sameContent || req.force) && relations.edges != [])
  }

  /** The newest version a store call compares itself with. */
  datatype Newest = Nothing | Last(id: Id, digest: string, relations: Bundle)

  datatype Verdict = Commit | Keep(id: Id) | Refuse(fault: Fault)

  function Decide(req: Request, newest: Newest): Verdict
    requires req.Store?
  {
    var previous := if newest.Last? then Some(newest.id) else None;
    var same := newest.Last? && newest.digest == req.digest;
    var relations := if newest.Last? then newest.relations else NO_RELATIONS;
    var changed := RelationsChanged(req, relations, same);
    if req.expected != None && previous != req.expected then Refuse(SourceChanged)
    else if changed && relations.edges != [] && relations.reviewed && !req.reviewer then Refuse(ReviewAuthority)
    else if newest.Last? && same && !changed && !req.force then Keep(newest.id)
    else Commit
  }

  function NewestIn(repo: Repo, exact: seq<Id>): Newest {
    if exact == [] || exact[0] !in repo then Nothing
    else Last(exact[0], repo[exact[0]].digest, repo[exact[0]].ext.relations)
  }

  function StepLookup(repo: Repo, req: Request, hits: seq<Id>, newId: Id): StepResult
    requires req.Store?
  {
    var exact := KeepExact(repo, hits, req.ident, false);
    if |exact| > 1 then Fail(repo, ManyActive)
    else
      var newest := NewestIn(repo, exact);
      match Decide(req, newest)
      case Refuse(fault) => Fail(repo, fault)
      case Keep(id) => StepResult(repo, Done(NoChange(id)), false)
      case Commit =>
        var previous := if newest.Last? then Some(newest.id) else None;
        var record := NewRecord(repo, req, previous);
        StepResult(repo[newId := record],
                   if newest.Nothing? then Done(InsertNew(newId))
                   else CommitSupersede(newId, record.ext, newest.id, repo[newest.id].supersededBy),
                   true)
  }

  /** One step of a call: some reads, then at most one repository write. */
  function Step(repo: Repo, req: Request, pc: Pc, hits: seq<Id>, newId: Id): StepResult
    requires pc.Lookup? ==> req.Store?
  {
    match pc
    case Begin => StepBegin(repo, req, hits)
    case RecoverActivate(staged, ext) => StepResult(Activate(repo, staged, ext), AfterRecovery(req), true)
    case Lookup => StepLookup(repo, req, hits, newId)
    case CommitSupersede(staged, ext, previous, next) =>
      if next != None && next != Some(staged) then Fail(repo, OtherSuccessor)
      else StepResult(Supersede(repo, previous, staged), CommitActivate(staged, ext, previous), true)
    case CommitActivate(staged, ext, previous) =>
      StepResult(Activate(repo, staged, ext), Done(Evolve(staged, previous)), true)
    case Done(_) => StepResult(repo, pc, false)
  }

  // ------------------------------------------------------------ server answers

  function ActiveLike(repo: Repo, ident: Identity): set<Id> {
    set x | x in repo && SameGroup(repo[x].ident, ident) && repo[x].status == Active
  }

  function PendingLike(repo: Repo, ident: Identity): set<Id> {
    set x | x in repo && SameGroup(repo[x].ident, ident) && Pending(repo[x])
  }

  /** A limited query returns distinct matches: all of them, or exactly `limit`. */
  ghost predicate Answers(hits: seq<Id>, matches: set<Id>, limit: nat) {
    && NoDup(hits)
    && Elements(hits) <= matches
    && |hits| == if |matches| <= limit then |matches| else limit
  }

  const SEARCH_LIMIT: nat := 10
  const SCROLL_LIMIT: nat := 20

  ghost predicate LegalAnswer(repo: Repo, req: Request, pc: Pc, hits: seq<Id>) {
    && (pc.Begin? ==> Answers(hits, PendingLike(repo, req.ident), SCROLL_LIMIT))
    && (pc.Lookup? ==> Answers(hits, ActiveLike(repo, req.ident), SEARCH_LIMIT))
  }

  /** Few enough records share the four fields and the partition for the query at `pc` to see them all. */
  predicate SeesAll(repo: Repo, ident: Identity, pc: Pc) {
    && (pc.Begin? ==> |PendingLike(repo, ident)| <= SCROLL_LIMIT)
    && (pc.Lookup? ==> |ActiveLike(repo, ident)| <= SEARCH_LIMIT)
  }

  lemma CompleteAnswer(hits: seq<Id>, matches: set<Id>, limit: nat)
    requires Answers(hits, matches, limit) && |matches| <= limit
    ensures forall x :: x in hits <==> x in matches
  {
    NoDupSize(hits);
    SubsetSize(Elements(hits), matches);
  }
}
