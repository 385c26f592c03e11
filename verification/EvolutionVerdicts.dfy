/**
 What a finished store reports and leaves, read off the request and the newest version of its
 identity: when it does nothing, when it refuses, and that it stores its content otherwise.
 */
module EvolutionVerdicts {
  import opened Common
  import opened EvolutionModel
  import opened EvolutionCalls
  import opened EvolutionGuarantees

  /** The request repeats the newest version: same content, relations omitted or the same, nothing forced. */
  ghost predicate Repeats(req: Request, newest: Newest)
    requires req.Store?
  {
    && newest.Last? && newest.digest == req.digest && !req.force
    && (req.expected == None || req.expected == Some(newest.id))
    && (req.relations == None || req.relations == Some(newest.relations))
  }

  /** It names a version that is not the newest one. */
  ghost predicate Stale(req: Request, newest: Newest)
    requires req.Store?
  {
    req.expected.Some? && !(newest.Last? && newest.id == req.expected.value)
  }

  /** It would drop or replace reviewed relations without the authority to. */
  ghost predicate Unauthorised(req: Request, newest: Newest)
    requires req.Store?
  {
    && !Stale(req, newest) && newest.Last? && newest.relations.edges != [] && newest.relations.reviewed && !req.reviewer
    && match req.relations
       case Some(given) => given != newest.relations
       case None => newest.digest != req.digest || req.force
  }

  /** What a finished store reports, and the log and newest version it leaves. */
  ghost predicate Reports(req: Request, before: View, after: View, outcome: Outcome)
    requires req.Store?
  {
    var newest := before.newest;
    && (forall id :: outcome == NoChange(id) <==> Repeats(req, newest) && newest.id == id)
    && (outcome == Failed(SourceChanged) <==> Stale(req, newest))
    && (outcome == Failed(ReviewAuthority) <==> Unauthorised(req, newest))
    && (if Repeats(req, newest) || Stale(req, newest) || Unauthorised(req, newest) then after == before
        else
          && after.log == before.log + [req.content] && after.newest.Last? && after.newest.digest == req.digest
          && after.newest.relations == (match req.relations case Some(given) => given case None => NO_RELATIONS)
          && match newest
             case Nothing => outcome == InsertNew(after.newest.id)
             case Last(was, _, _) => outcome == Evolve(after.newest.id, was) && after.newest.id != was)
  }

  /** How far a store has come: done with its report, or stopped before or after its content was committed. */
  ghost predicate Reached(req: Request, before: View, now: View, outcome: Option<Outcome>)
    requires req.Store?
  {
    match outcome
    case Some(o) => Reports(req, before, now, o)
    case None =>
      now == before
      || (&& !Repeats(req, before.newest) && !Stale(req, before.newest) && !Unauthorised(req, before.newest)
          && now.log == before.log + [req.content] && now.newest.Last? && now.newest.digest == req.digest)
  }

  lemma EffectReports(before: View, req: Request, now: View, outcome: Option<Outcome>)
    requires req.Store? && Effect(before, req, now, outcome)
    ensures Reached(req, before, now, outcome)
  {
    VerdictIsExact(req, before.newest);
  }

  lemma VerdictIsExact(req: Request, newest: Newest)
    requires req.Store?
    ensures Decide(req, newest) == Refuse(SourceChanged) <==> Stale(req, newest)
    ensures Decide(req, newest) == Refuse(ReviewAuthority) <==> Unauthorised(req, newest)
    ensures Decide(req, newest).Keep? <==> Repeats(req, newest)
    ensures Decide(req, newest).Keep? ==> Decide(req, newest) == Keep(newest.id)
    ensures Decide(req, newest).Refuse? ==> Stale(req, newest) || Unauthorised(req, newest)
  {
  }
}
