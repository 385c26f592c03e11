/**
 The evidence gate over the candidates of a run: repeated claims merge into an earlier one, and
 every candidate receives one judgement.
 */
module EvidenceGate {
  import opened Common
  import opened GateModel
  import opened GateVerdicts

  /** What became of a candidate: it leads, or it was merged into an earlier leader. */
  datatype Place = Leads | SameAs(leader: nat) | NearTo(leader: nat)

  predicate Joins(p: Place, i: nat) {
    !p.Leads? && p.leader == i
  }

  predicate LeadsAt(places: seq<Place>, j: int) {
    0 <= j < |places| && places[j].Leads?
  }

  /** Index i is placed by the earlier leaders: the equal fingerprint if any, else the first that resembles it. */
  ghost predicate PlacedWell(profiles: seq<Profile>, places: seq<Place>, i: nat, policy: Policy)
    requires i < |places| <= |profiles|
  {
    var p := places[i];
    && (p.SameAs? ==> p.leader < i && LeadsAt(places, p.leader) && profiles[p.leader].fingerprint == profiles[i].fingerprint)
    && (!p.SameAs? ==> forall j :: 0 <= j < i && LeadsAt(places, j) ==> profiles[j].fingerprint != profiles[i].fingerprint)
    && (p.NearTo? ==> && p.leader < i && LeadsAt(places, p.leader) && Resembles(profiles[p.leader], profiles[i], policy)
                      && forall j :: 0 <= j < p.leader && LeadsAt(places, j) ==> !Resembles(profiles[j], profiles[i], policy))
    && (p.Leads? ==> forall j :: 0 <= j < i && LeadsAt(places, j) ==> !Resembles(profiles[j], profiles[i], policy))
  }

  ghost predicate Placement(profiles: seq<Profile>, places: seq<Place>, policy: Policy) {
    |places| <= |profiles| && forall i :: 0 <= i < |places| ==> PlacedWell(profiles, places, i, policy)
  }

  /** The candidates alone determine the grouping. */
  lemma {:induction false} PlacementIsUnique(profiles: seq<Profile>, a: seq<Place>, b: seq<Place>, policy: Policy, n: nat)
    requires Placement(profiles, a, policy) && Placement(profiles, b, policy) && n <= |a| && n <= |b|
    ensures a[..n] == b[..n]
  {
    if n > 0 {
      var i := n - 1;
      PlacementIsUnique(profiles, a, b, policy, i);
      assert forall j :: 0 <= j < i ==> a[j] == a[..i][j] == b[..i][j] == b[j];
      assert forall j :: 0 <= j < i ==> LeadsAt(a, j) == LeadsAt(b, j);
      assert PlacedWell(profiles, a, i, policy) && PlacedWell(profiles, b, i, policy);
      if a[i].SameAs? && b[i].SameAs? {
        LeadersDiffer(profiles, a, policy, a[i].leader, b[i].leader);
        LeadersDiffer(profiles, a, policy, b[i].leader, a[i].leader);
      }
      assert a[i] == b[i];
      assert a[..n] == a[..i] + [a[i]] && b[..n] == b[..i] + [b[i]];
    }
  }

  lemma LeadersDiffer(profiles: seq<Profile>, places: seq<Place>, policy: Policy, i: nat, j: nat)
    requires Placement(profiles, places, policy) && LeadsAt(places, i) && LeadsAt(places, j)
    ensures i < j ==> profiles[i].fingerprint != profiles[j].fingerprint
  {
    assert PlacedWell(profiles, places, j, policy);
  }

  // ----------------------------------------------------------------------- the outcome

  /** Candidate i after as many candidates as there are places. */
  function Gathered(cands: seq<Candidate>, places: seq<Place>, i: nat): Candidate
    requires i < |places| <= |cands|
  {
    var k := |places| - 1;
    if i == k then cands[i]
    else
      var before := Gathered(cands, places[..k], i);
      if Joins(places[k], i) then Merge(before, cands[k]) else before
  }

  /** The last candidate merged into i, if any. */
  function LastJoin(places: seq<Place>, i: nat): Option<Place> {
    if places == [] then None
    else if Joins(places[|places| - 1], i) then Some(places[|places| - 1])
    else LastJoin(places[..|places| - 1], i)
  }

  function MergeReason(join: Option<Place>): seq<Reason> {
    match join
    case None => []
    case Some(p) => [if p.SameAs? then MergedFromDuplicate else MergedFromNearDuplicate]
  }

  function Marked(j: Judgement, join: Option<Place>): Judgement {
    j.(reasons := j.reasons + MergeReason(join))
  }

  type Judging = (nat, Candidate) -> Judgement

  /** How one candidate is judged, given the evidence and the policy. */
  function JudgeWith(byId: Evidence, lang: Language, policy: Policy): Judging {
    (i: nat, c: Candidate) => Judge(i, c, byId, lang.fold, policy)
  }

  function Folded(i: nat, c: Candidate, leader: nat): Judgement {
    Judgement(i, Reject, c.confidence, 0.0, 0.0, c.evidence, [DuplicateInRun, MergedInto(leader)])
  }

  /** The judgement of candidate i in the end. */
  function JudgementOf(cands: seq<Candidate>, places: seq<Place>, i: nat, judge: Judging): Judgement
    requires i < |places| <= |cands|
  {
    if places[i].Leads? then Marked(judge(i, Gathered(cands, places, i)), LastJoin(places, i))
    else Folded(i, cands[i], places[i].leader)
  }

  function CandidateOf(cands: seq<Candidate>, places: seq<Place>, i: nat): Candidate
    requires i < |cands| && |places| <= |cands|
  {
    if LeadsAt(places, i) then Gathered(cands, places, i) else cands[i]
  }

  function Profiles(cands: seq<Candidate>, byId: Evidence, lang: Language): (r: seq<Profile>)
    ensures |r| == |cands|
    ensures forall i :: 0 <= i < |cands| ==> r[i] == ProfileOf(cands[i], byId, lang)
  {
    seq(|cands|, i requires 0 <= i < |cands| => ProfileOf(cands[i], byId, lang))
  }

  /** Candidates and judgements are as the grouping of the original candidates demands. */
  ghost predicate Evaluated(cands: seq<Candidate>, places: seq<Place>, after: seq<Candidate>, judgements: seq<Judgement>,
                            byId: Evidence, lang: Language, policy: Policy) {
    && Placement(Profiles(cands, byId, lang), places, policy)
    && |after| == |cands| && |judgements| == |places| <= |cands|
    && (forall i :: 0 <= i < |cands| ==> after[i] == CandidateOf(cands, places, i))
    && (forall i :: 0 <= i < |places| ==> judgements[i] == JudgementOf(cands, places, i, JudgeWith(byId, lang, policy)))
  }

  // ------------------------------------------------------------------ what it amounts to

  ghost predicate Member(places: seq<Place>, m: int, i: nat) {
    0 <= m < |places| && (m == i || Joins(places[m], i))
  }

  /** All evidence cited by a group, in order of its members. */
  function Cited(cands: seq<Candidate>, places: seq<Place>, i: nat): seq<string>
    requires |places| <= |cands|
  {
    if places == [] then []
    else
      var k := |places| - 1;
      Cited(cands, places[..k], i) + (if k == i || Joins(places[k], i) then cands[k].evidence else [])
  }

  lemma {:induction false} CitedByNone(cands: seq<Candidate>, places: seq<Place>, i: nat)
    requires |places| <= |cands| && |places| <= i
    requires forall m :: 0 <= m < |places| ==> !Joins(places[m], i)
    ensures Cited(cands, places, i) == [] && LastJoin(places, i) == None
  {
    if places != [] { CitedByNone(cands, places[..|places| - 1], i); }
  }

  ghost predicate JoinsBackwards(places: seq<Place>) {
    forall m :: 0 <= m < |places| && !places[m].Leads? ==> places[m].leader < m
  }

  /** A leader ends with the evidence of its whole group, repetitions removed once anything was merged. */
  lemma {:induction false} GatheredEvidence(cands: seq<Candidate>, places: seq<Place>, i: nat)
    requires i < |places| <= |cands| && JoinsBackwards(places)
    ensures var g := Gathered(cands, places, i);
            && g == cands[i].(evidence := g.evidence, confidence := g.confidence)
            && g.evidence == (if LastJoin(places, i).None? then cands[i].evidence else FirstOccurrences(Cited(cands, places, i)))
            && (LastJoin(places, i).None? ==> Cited(cands, places, i) == cands[i].evidence)
    decreases |places|
  {
    var k := |places| - 1;
    if i == k {
      CitedByNone(cands, places[..k], i);
    } else {
      GatheredEvidence(cands, places[..k], i);
      assert !Joins(places[k], i) ==> Cited(cands, places, i) == Cited(cands, places[..k], i);
      if Joins(places[k], i) && LastJoin(places[..k], i).Some? {
        FirstOccurrencesAbsorb(Cited(cands, places[..k], i), cands[k].evidence);
      }
    }
  }

  lemma {:induction false} CitedMembers(cands: seq<Candidate>, places: seq<Place>, i: nat, id: string)
    requires |places| <= |cands|
    ensures id in Cited(cands, places, i) <==> exists m :: Member(places, m, i) && id in cands[m].evidence
  {
    if places != [] {
      var k := |places| - 1;
      var before := places[..k];
      CitedMembers(cands, before, i, id);
      assert forall m :: Member(places, m, i) <==> Member(before, m, i) || (m == k && (k == i || Joins(places[k], i)));
    }
  }

  /** A leader's confidence is the greatest of its group. */
  lemma {:induction false} GatheredConfidence(cands: seq<Candidate>, places: seq<Place>, i: nat)
    requires i < |places| <= |cands| && JoinsBackwards(places)
    ensures forall m :: Member(places, m, i) ==> cands[m].confidence <= Gathered(cands, places, i).confidence
    ensures exists m :: Member(places, m, i) && cands[m].confidence == Gathered(cands, places, i).confidence
    decreases |places|
  {
    var k := |places| - 1;
    var before := places[..k];
    if i == k {
      assert Member(places, i, i);
    } else {
      GatheredConfidence(cands, before, i);
      var m :| Member(before, m, i) && cands[m].confidence == Gathered(cands, before, i).confidence;
      assert Member(places, m, i) && forall m :: Member(places, m, i) && m != k ==> Member(before, m, i);
      assert Joins(places[k], i) ==> Member(places, k, i);
    }
  }

  /** Merging never changes what a leader is recognised by. */
  lemma GatheredFingerprint(cands: seq<Candidate>, places: seq<Place>, i: nat,
                            byId: Evidence, lang: Language, policy: Policy)
    requires i < |places| <= |cands| && Placement(Profiles(cands, byId, lang), places, policy)
    ensures FingerprintOf(Gathered(cands, places, i), byId, lang) == FingerprintOf(cands[i], byId, lang)
  {
    var fingerprint := PrintWith(byId, lang);
    forall k, grown | 0 <= k < |places| && Joins(places[k], i) && fingerprint(grown) == fingerprint(cands[i])
      ensures fingerprint(Merge(grown, cands[k])) == fingerprint(cands[i])
    {
      JoinKeepsFingerprint(cands, places, k, grown, byId, lang, policy);
    }
    GatheredKeeps(cands, places, i, fingerprint);
  }

  function PrintWith(byId: Evidence, lang: Language): Candidate -> Fingerprint {
    (c: Candidate) => FingerprintOf(c, byId, lang)
  }

  /** What every single merge keeps, the whole gathering keeps. */
  lemma {:induction false} GatheredKeeps(cands: seq<Candidate>, places: seq<Place>, i: nat, mark: Candidate -> Fingerprint)
    requires i < |places| <= |cands|
    requires forall k, grown :: 0 <= k < |places| && Joins(places[k], i) && mark(grown) == mark(cands[i]) ==>
               mark(Merge(grown, cands[k])) == mark(cands[i])
    ensures mark(Gathered(cands, places, i)) == mark(cands[i])
    decreases |places|
  {
    if i != |places| - 1 { GatheredKeeps(cands, places[..|places| - 1], i, mark); }
  }

  lemma JoinKeepsFingerprint(cands: seq<Candidate>, places: seq<Place>, k: nat, grown: Candidate,
                             byId: Evidence, lang: Language, policy: Policy)
    requires k < |places| <= |cands| && Placement(Profiles(cands, byId, lang), places, policy) && !places[k].Leads?
    requires places[k].leader < |cands|
             && FingerprintOf(grown, byId, lang) == FingerprintOf(cands[places[k].leader], byId, lang)
    ensures FingerprintOf(Merge(grown, cands[k]), byId, lang) == FingerprintOf(cands[places[k].leader], byId, lang)
  {
    JoinsItsLike(Profiles(cands, byId, lang), places, policy, k);
    ProfilesTell(cands, byId, lang, places[k].leader, k);
    MergeStep(cands[places[k].leader], grown, cands[k], byId, lang);
  }

  lemma JoinsItsLike(profiles: seq<Profile>, places: seq<Place>, policy: Policy, k: nat)
    requires Placement(profiles, places, policy) && k < |places| && !places[k].Leads?
    ensures places[k].leader < k
    ensures profiles[places[k].leader].fingerprint == profiles[k].fingerprint
            || profiles[places[k].leader].signature == profiles[k].signature
  {
    assert PlacedWell(profiles, places, k, policy);
  }

  lemma ProfilesTell(cands: seq<Candidate>, byId: Evidence, lang: Language, i: nat, k: nat)
    requires i < |cands| && k < |cands|
    requires var profiles := Profiles(cands, byId, lang);
             profiles[i].fingerprint == profiles[k].fingerprint || profiles[i].signature == profiles[k].signature
    ensures FingerprintOf(cands[i], byId, lang) == FingerprintOf(cands[k], byId, lang)
            || SignatureOf(cands[i], byId, lang) == SignatureOf(cands[k], byId, lang)
  {
    var profiles := Profiles(cands, byId, lang);
    assert profiles[i] == ProfileOf(cands[i], byId, lang) && profiles[k] == ProfileOf(cands[k], byId, lang);
  }

  lemma MergeStep(first: Candidate, grown: Candidate, other: Candidate, byId: Evidence, lang: Language)
    requires FingerprintOf(first, byId, lang) == FingerprintOf(other, byId, lang)
             || SignatureOf(first, byId, lang) == SignatureOf(other, byId, lang)
    requires FingerprintOf(grown, byId, lang) == FingerprintOf(first, byId, lang)
    ensures FingerprintOf(Merge(grown, other), byId, lang) == FingerprintOf(first, byId, lang)
  {
    SameClaimAgrees(first, other, byId, lang);
    MergeKeepsFingerprint(grown, other, byId, lang);
  }

  lemma GatheredMembers(cands: seq<Candidate>, places: seq<Place>, i: nat)
    requires i < |places| <= |cands| && JoinsBackwards(places)
    ensures forall id :: id in Gathered(cands, places, i).evidence <==> exists m :: Member(places, m, i) && id in cands[m].evidence
  {
    GatheredEvidence(cands, places, i);
    forall id: string
      ensures id in Gathered(cands, places, i).evidence <==> exists m :: Member(places, m, i) && id in cands[m].evidence
    {
      CitedMembers(cands, places, i, id);
    }
  }

  lemma PlacementPointsBack(profiles: seq<Profile>, places: seq<Place>, policy: Policy)
    requires Placement(profiles, places, policy)
    ensures JoinsBackwards(places)
    ensures forall i :: 0 <= i < |places| && !places[i].Leads? ==> places[i].leader < i && LeadsAt(places, places[i].leader)
  {
    forall i | 0 <= i < |places| && !places[i].Leads?
      ensures places[i].leader < i && LeadsAt(places, places[i].leader)
    {
      assert PlacedWell(profiles, places, i, policy);
    }
  }

  /** Candidate m is the last one merged into i. */
  ghost predicate JoinsLast(places: seq<Place>, m: nat, i: nat) {
    m < |places| && Joins(places[m], i) && forall n :: m < n < |places| ==> !Joins(places[n], i)
  }

  lemma {:induction false} LastJoinIs(places: seq<Place>, i: nat)
    ensures LastJoin(places, i).None? ==> forall m :: 0 <= m < |places| ==> !Joins(places[m], i)
    ensures forall m: nat :: JoinsLast(places, m, i) ==> LastJoin(places, i) == Some(places[m])
  {
    if places != [] {
      var k := |places| - 1;
      LastJoinIs(places[..k], i);
      forall m: nat | JoinsLast(places, m, i) ensures LastJoin(places, i) == Some(places[m]) {
        if m < k { assert JoinsLast(places[..k], m, i) && !Joins(places[k], i); }
      }
    }
  }

  /**
   Nothing is lost and nothing is counted twice. One judgement for every candidate, at its own
   index; a leader carries exactly the evidence of its group, with the greatest confidence, and is
   judged on that; a second reason tells what kind of merge came last, if any.
   */
  lemma LeaderConserves(cands: seq<Candidate>, places: seq<Place>, after: seq<Candidate>, judgements: seq<Judgement>,
                        byId: Evidence, lang: Language, policy: Policy, i: nat)
    requires Evaluated(cands, places, after, judgements, byId, lang, policy) && |cands| == |places| && LeadsAt(places, i)
    ensures |judgements| == |cands| && judgements[i].index == i
    ensures after[i] == cands[i].(evidence := after[i].evidence, confidence := after[i].confidence)
    ensures forall id :: id in after[i].evidence <==> exists m :: Member(places, m, i) && id in cands[m].evidence
    ensures forall m :: Member(places, m, i) ==> cands[m].confidence <= after[i].confidence
    ensures exists m :: Member(places, m, i) && cands[m].confidence == after[i].confidence
    ensures judgements[i].reasons != [] && RightlyJudged(judgements[i], judgements[i].reasons[0], after[i], byId, lang.fold, policy)
    ensures (forall m :: 0 <= m < |places| ==> !Joins(places[m], i)) ==> |judgements[i].reasons| == 1 && after[i] == cands[i]
    ensures forall m: nat :: JoinsLast(places, m, i) ==>
              judgements[i].reasons[1..] == [if places[m].SameAs? then MergedFromDuplicate else MergedFromNearDuplicate]
  {
    PlacementPointsBack(Profiles(cands, byId, lang), places, policy);
    LeaderJudged(cands, places, after, judgements, byId, lang, policy, i);
    GatheredEvidence(cands, places, i);
    GatheredMembers(cands, places, i);
    GatheredConfidence(cands, places, i);
    JudgedRightly(i, after[i], byId, lang.fold, policy);
    LastJoinIs(places, i);
    if forall m :: 0 <= m < |places| ==> !Joins(places[m], i) { NobodyJoined(cands, places, i); }
  }

  lemma LeaderJudged(cands: seq<Candidate>, places: seq<Place>, after: seq<Candidate>, judgements: seq<Judgement>,
                     byId: Evidence, lang: Language, policy: Policy, i: nat)
    requires Evaluated(cands, places, after, judgements, byId, lang, policy) && |cands| == |places| && LeadsAt(places, i)
    ensures after[i] == Gathered(cands, places, i)
    ensures judgements[i] == Marked(Judge(i, after[i], byId, lang.fold, policy), LastJoin(places, i))
  {
    assert judgements[i] == JudgementOf(cands, places, i, JudgeWith(byId, lang, policy)) && after[i] == CandidateOf(cands, places, i);
  }

  lemma {:induction false} NobodyJoined(cands: seq<Candidate>, places: seq<Place>, i: nat)
    requires i < |places| <= |cands| && forall m :: 0 <= m < |places| ==> !Joins(places[m], i)
    ensures Gathered(cands, places, i) == cands[i] && LastJoin(places, i) == None
    decreases |places|
  {
    var k := |places| - 1;
    if i < k {
      NobodyJoined(cands, places[..k], i);
    } else {
      CitedByNone(cands, places[..k], i);
    }
  }

  /** Any other candidate is rejected, in favour of an earlier leader that has all its evidence. */
  lemma FollowerConserves(cands: seq<Candidate>, places: seq<Place>, after: seq<Candidate>, judgements: seq<Judgement>,
                          byId: Evidence, lang: Language, policy: Policy, i: nat)
    requires Evaluated(cands, places, after, judgements, byId, lang, policy) && i < |cands| == |places| && !places[i].Leads?
    ensures after[i] == cands[i]
    ensures var leader := places[i].leader;
            && leader < i && LeadsAt(places, leader)
            && judgements[i] == Judgement(i, Reject, cands[i].confidence, 0.0, 0.0, cands[i].evidence, [DuplicateInRun, MergedInto(leader)])
            && (forall id :: id in cands[i].evidence ==> id in after[leader].evidence)
            && cands[i].confidence <= after[leader].confidence
  {
    PlacementPointsBack(Profiles(cands, byId, lang), places, policy);
    var leader := places[i].leader;
    assert judgements[i] == JudgementOf(cands, places, i, JudgeWith(byId, lang, policy)) && after[i] == CandidateOf(cands, places, i);
    assert Member(places, i, leader) && after[leader] == CandidateOf(cands, places, leader);
    GatheredMembers(cands, places, leader);
    GatheredConfidence(cands, places, leader);
  }

  /** The surviving candidates still have fingerprints of their own, those they came with. */
  lemma FingerprintsSurvive(cands: seq<Candidate>, places: seq<Place>, after: seq<Candidate>, judgements: seq<Judgement>,
                            byId: Evidence, lang: Language, policy: Policy, i: nat, j: nat)
    requires Evaluated(cands, places, after, judgements, byId, lang, policy) && |cands| == |places|
    requires i < j && LeadsAt(places, i) && LeadsAt(places, j)
    ensures FingerprintOf(after[i], byId, lang) == FingerprintOf(cands[i], byId, lang)
    ensures FingerprintOf(after[i], byId, lang) != FingerprintOf(after[j], byId, lang)
  {
    var profiles := Profiles(cands, byId, lang);
    GatheredFingerprint(cands, places, i, byId, lang, policy);
    GatheredFingerprint(cands, places, j, byId, lang, policy);
    LeadersDiffer(profiles, places, policy, i, j);
    assert profiles[i] == ProfileOf(cands[i], byId, lang) && profiles[j] == ProfileOf(cands[j], byId, lang);
    assert after[i] == CandidateOf(cands, places, i) && after[j] == CandidateOf(cands, places, j);
  }

  /** Under the default policy a promotion always names a leader with two known items, one of them verified. */
  lemma PromotedAreLeaders(cands: seq<Candidate>, places: seq<Place>, after: seq<Candidate>, judgements: seq<Judgement>,
                           byId: Evidence, lang: Language, i: nat)
    requires Evaluated(cands, places, after, judgements, byId, lang, DEFAULT) && i < |cands| == |places|
    requires judgements[i].decision == Promote
    ensures LeadsAt(places, i) && |Elements(after[i].evidence)| >= 2
    ensures forall m :: Member(places, m, i) ==> forall id :: id in cands[m].evidence ==> id in byId
    ensures exists m, id :: Member(places, m, i) && id in cands[m].evidence && id in byId && lang.fold(byId[id].verification) != ""
    ensures exists m :: Member(places, m, i) && cands[m].confidence >= 13.0 / 35.0
  {
    if !LeadsAt(places, i) { FollowerConserves(cands, places, after, judgements, byId, lang, DEFAULT, i); }
    LeaderConserves(cands, places, after, judgements, byId, lang, DEFAULT, i);
    LeaderJudged(cands, places, after, judgements, byId, lang, DEFAULT, i);
    PromotionNeedsEvidence(i, after[i], byId, lang.fold);
  }

  // ------------------------------------------------------------------------ the service

  class DreamReasoningResult {
    const requestId: string
    var candidates: seq<Candidate>

    constructor (requestId: string, candidates: seq<Candidate>)
      ensures this.requestId == requestId && this.candidates == candidates
    {
      this.requestId, this.candidates := requestId, candidates;
    }
  }

  /** Leaders so far by fingerprint, and in order with what they are compared by. */
  datatype Index = Index(seen: map<Fingerprint, nat>, kept: seq<nat>, signatures: map<nat, Signature>, tokens: map<nat, set<string>>)

  ghost predicate SeenIndexed(seen: map<Fingerprint, nat>, profiles: seq<Profile>, places: seq<Place>)
    requires |places| <= |profiles|
  {
    && (forall f :: f in seen ==> LeadsAt(places, seen[f]) && profiles[seen[f]].fingerprint == f)
    && (forall j :: LeadsAt(places, j) ==> profiles[j].fingerprint in seen)
  }

  ghost predicate KeptIndexed(kept: seq<nat>, places: seq<Place>) {
    && (forall j :: LeadsAt(places, j) ==> j in kept)
    && (forall n :: 0 <= n < |kept| ==> LeadsAt(places, kept[n]))
    && (forall m, n :: 0 <= m < n < |kept| ==> kept[m] < kept[n])
  }

  ghost predicate DataIndexed(ix: Index, profiles: seq<Profile>, places: seq<Place>)
    requires |places| <= |profiles|
  {
    forall j :: LeadsAt(places, j) ==> && j in ix.signatures && ix.signatures[j] == profiles[j].signature
                                       && j in ix.tokens && ix.tokens[j] == profiles[j].tokens
  }

  ghost predicate Indexed(ix: Index, profiles: seq<Profile>, places: seq<Place>)
    requires |places| <= |profiles|
  {
    SeenIndexed(ix.seen, profiles, places) && KeptIndexed(ix.kept, places) && DataIndexed(ix, profiles, places)
  }

  class DreamEvidenceGate {
    const policy: Policy
    const lang: Language

    constructor (policy: Policy, lang: Language)
      ensures this.policy == policy && this.lang == lang
    {
      this.policy, this.lang := policy, lang;
    }

    method CandidateFingerprint(c: Candidate, byId: Evidence) returns (f: Fingerprint)
      ensures f == FingerprintOf(c, byId, lang)
    {
      var partitions: set<Partition>, unknown: set<string> := {}, {};
      var n := 0;
      while n < |c.evidence|
        invariant 0 <= n <= |c.evidence|
        invariant partitions == Partitions(c.evidence[..n], byId) && unknown == Unknown(c.evidence[..n], byId)
      {
        var id := c.evidence[n];
        assert c.evidence[..n + 1] == c.evidence[..n] + [id];
        if id in byId { partitions := partitions + {PartitionOf(byId[id])}; } else { unknown := unknown + {id}; }
        n := n + 1;
      }
      assert c.evidence[..n] == c.evidence;
      f := Fingerprint(lang.normal(TextOf(c)), lang.fold(c.entityType), lang.fold(c.classification), c.negative,
                       SemanticContext(c), partitions, unknown);
    }

    method NearDuplicateSignature(c: Candidate, byId: Evidence) returns (signature: Signature, tokens: set<string>)
      ensures signature == SignatureOf(c, byId, lang) && tokens == lang.tokens(TextOf(c))
    {
      var partitions: multiset<Partition>, unknown: set<string> := multiset{}, {};
      var n := 0;
      while n < |c.evidence|
        invariant 0 <= n <= |c.evidence|
        invariant partitions == PartitionBag(c.evidence[..n], byId) && unknown == Unknown(c.evidence[..n], byId)
      {
        var id := c.evidence[n];
        OneMoreId(c.evidence, n, byId);
        if id in byId { partitions := partitions + multiset{PartitionOf(byId[id])}; } else { unknown := unknown + {id}; }
        n := n + 1;
      }
      assert c.evidence[..n] == c.evidence;
      signature := Signature(lang.fold(c.entityType), lang.fold(c.classification), SemanticContext(c), c.negative, partitions, unknown);
      tokens := lang.tokens(TextOf(c));
    }

    /** The first kept leader that resembles the candidate. */
    method NearDuplicateIndex(c: Candidate, byId: Evidence, ix: Index, ghost profiles: seq<Profile>, ghost places: seq<Place>)
      returns (r: Option<nat>)
      requires |places| <= |profiles| && Indexed(ix, profiles, places)
      ensures var p := ProfileOf(c, byId, lang);
              && (r.None? ==> forall j :: LeadsAt(places, j) ==> !Resembles(profiles[j], p, policy))
              && (r.Some? ==> && LeadsAt(places, r.value) && Resembles(profiles[r.value], p, policy)
                              && forall j :: LeadsAt(places, j) && j < r.value ==> !Resembles(profiles[j], p, policy))
    {
      var signature, tokens := NearDuplicateSignature(c, byId);
      if |tokens| < policy.minimumTokens { return None; }
      ghost var p := ProfileOf(c, byId, lang);
      r := FirstMatch(signature, kept => Similar(kept, tokens, policy), ix, profiles, places,
                      j => 0 <= j < |profiles| && Resembles(profiles[j], p, policy));
    }

    /** The first kept leader with the signature and tokens that match. */
    method FirstMatch(signature: Signature, similar: set<string> -> bool, ix: Index,
                      ghost profiles: seq<Profile>, ghost places: seq<Place>, ghost resembles: int -> bool) returns (r: Option<nat>)
      requires |places| <= |profiles| && Indexed(ix, profiles, places)
      requires forall j :: LeadsAt(places, j) ==> (resembles(j) <==> profiles[j].signature == signature && similar(profiles[j].tokens))
      ensures r.None? ==> forall j :: LeadsAt(places, j) ==> !resembles(j)
      ensures r.Some? ==> && LeadsAt(places, r.value) && resembles(r.value)
                          && forall j :: LeadsAt(places, j) && j < r.value ==> !resembles(j)
    {
      var n := 0;
      while n < |ix.kept|
        invariant 0 <= n <= |ix.kept|
        invariant forall m :: 0 <= m < n ==> !resembles(ix.kept[m])
      {
        var j := ix.kept[n];
        assert LeadsAt(places, j);
        if ix.signatures[j] == signature && similar(ix.tokens[j]) { return Some(j); }
        n := n + 1;
      }
      return None;
    }

    method EvidenceStrength(items: seq<Item>) returns (r: real)
      ensures r == Strength(items, lang.fold, policy)
    {
      var strong, verified := 0, 0;
      var n := 0;
      while n < |items|
        invariant 0 <= n <= |items|
        invariant strong == Strong(items[..n], lang.fold, policy.strong) && verified == Verified(items[..n], lang.fold)
      {
        var verification := lang.fold(items[n].verification);
        OneMoreItem(items, n, lang.fold, policy.strong);
        if verification != "" { verified := verified + 1; }
        if verification in policy.strong { strong := strong + 1; }
        n := n + 1;
      }
      assert items[..n] == items;
      r := StrengthOf(|Ids(items)|, |Types(items)|, strong, verified, |items|);
    }

    method EvaluateCandidate(index: nat, c: Candidate, byId: Evidence) returns (r: Judgement)
      ensures r == Judge(index, c, byId, lang.fold, policy)
    {
      var items: seq<Item>, unknown: seq<string> := [], [];
      var n := 0;
      while n < |c.evidence|
        invariant 0 <= n <= |c.evidence|
        invariant items == Known(c.evidence[..n], byId)
        invariant forall id :: id in unknown <==> id in Unknown(c.evidence[..n], byId)
      {
        var id := c.evidence[n];
        assert c.evidence[..n + 1] == c.evidence[..n] + [id];
        assert c.evidence[..n + 1][..n] == c.evidence[..n];
        if id in byId { items := items + [byId[id]]; } else { unknown := unknown + [id]; }
        n := n + 1;
      }
      assert c.evidence[..n] == c.evidence;
      assert unknown != [] <==> Unknown(c.evidence, byId) != {} by {
        if unknown != [] { assert unknown[0] in Unknown(c.evidence, byId); }
      }
      var strength := EvidenceStrength(items);
      r := Verdict(index, c, unknown != [], |items|, strength, PromotionConfidence(c.confidence, strength), policy);
    }

    /** Merges candidate k into a leader, judges the leader again, and rejects candidate k. */
    method MergeInto(result: DreamReasoningResult, judgements: seq<Judgement>, k: nat, place: Place, byId: Evidence,
                     ghost cands: seq<Candidate>, ghost places: seq<Place>)
      returns (r: seq<Judgement>)
      requires k == |places| < |cands| && !place.Leads? && LeadsAt(places, place.leader)
      requires |result.candidates| == |cands| && |judgements| == |places|
      requires forall i :: 0 <= i < |cands| ==> result.candidates[i] == CandidateOf(cands, places, i)
      requires forall i :: 0 <= i < |places| ==> judgements[i] == JudgementOf(cands, places, i, JudgeWith(byId, lang, policy))
      modifies result`candidates
      ensures |result.candidates| == |cands| && |r| == |places| + 1
      ensures forall i :: 0 <= i < |cands| ==> result.candidates[i] == CandidateOf(cands, places + [place], i)
      ensures forall i :: 0 <= i < |r| ==> r[i] == JudgementOf(cands, places + [place], i, JudgeWith(byId, lang, policy))
    {
      var leader := place.leader;
      ghost var before := result.candidates;
      var c := result.candidates[k];
      assert c == cands[k] && result.candidates[leader] == CandidateOf(cands, places, leader);
      var merged := Merge(result.candidates[leader], c);
      result.candidates := result.candidates[leader := merged];
      var again := EvaluateCandidate(leader, merged, byId);
      r := judgements[leader := Marked(again, Some(place))] + [Folded(k, c, leader)];
      MergedAll(cands, places, place, JudgeWith(byId, lang, policy), before, result.candidates, judgements, r);
    }

    method Evaluate(requestId: string, items: seq<Item>, result: DreamReasoningResult)
      returns (r: Option<seq<Judgement>>, ghost places: seq<Place>)
      modifies result`candidates
      ensures r.None? <==> requestId != result.requestId
      ensures r.None? ==> result.candidates == old(result.candidates)
      ensures r.Some? ==> && Evaluated(old(result.candidates), places, result.candidates, r.value, ById(items), lang, policy)
                          && |places| == |old(result.candidates)|
    {
      places := [];
      if requestId != result.requestId { return None, places; }
      var byId := ById(items);
      ghost var cands := result.candidates;
      ghost var profiles := Profiles(cands, byId, lang);
      var ix := Index(map[], [], map[], map[]);
      var judgements: seq<Judgement> := [];
      var k := 0;
      while k < |result.candidates|
        invariant 0 <= k == |places| <= |cands| && Indexed(ix, profiles, places)
        invariant Evaluated(cands, places, result.candidates, judgements, byId, lang, policy)
      {
        var c := result.candidates[k];
        assert c == cands[k] && profiles[k] == ProfileOf(c, byId, lang);
        var f := CandidateFingerprint(c, byId);
        ghost var was := places;
        if f in ix.seen {
          var place := SameAs(ix.seen[f]);
          judgements := MergeInto(result, judgements, k, place, byId, cands, places);
          places := places + [place];
          MergeNext(cands, was, place, result.candidates, judgements, byId, lang, policy, ix);
        } else {
          var near := NearDuplicateIndex(c, byId, ix, profiles, places);
          if near.Some? {
            var place := NearTo(near.value);
            judgements := MergeInto(result, judgements, k, place, byId, cands, places);
            places := places + [place];
            MergeNext(cands, was, place, result.candidates, judgements, byId, lang, policy, ix);
          } else {
            var signature, tokens := NearDuplicateSignature(c, byId);
            var judgement := EvaluateCandidate(k, c, byId);
            places := places + [Leads];
            LeadNext(cands, was, result.candidates, judgements, judgement, byId, lang, policy, ix);
            LeadIndexed(profiles, was, ix);
            ix := Index(ix.seen[f := k], ix.kept + [k], ix.signatures[k := signature], ix.tokens[k := tokens]);
            judgements := judgements + [judgement];
          }
        }
        k := k + 1;
      }
      r := Some(judgements);
    }
  }

  lemma OneMoreId(ids: seq<string>, n: nat, byId: Evidence)
    requires n < |ids|
    ensures PartitionBag(ids[..n + 1], byId)
            == PartitionBag(ids[..n], byId) + (if ids[n] in byId then multiset{PartitionOf(byId[ids[n]])} else multiset{})
    ensures Unknown(ids[..n + 1], byId) == Unknown(ids[..n], byId) + (if ids[n] in byId then {} else {ids[n]})
  {
    assert ids[..n + 1] == ids[..n] + [ids[n]];
    assert ids[..n + 1][..n] == ids[..n];
  }

  ghost predicate Fits(profiles: seq<Profile>, places: seq<Place>, place: Place, policy: Policy)
    requires |places| < |profiles|
  {
    PlacedWell(profiles, places + [place], |places|, policy)
  }

  lemma PlacementGrows(profiles: seq<Profile>, places: seq<Place>, place: Place, policy: Policy)
    requires |places| < |profiles| && Placement(profiles, places, policy)
    requires Fits(profiles, places, place, policy)
    ensures Placement(profiles, places + [place], policy)
  {
    var more := places + [place];
    forall i | 0 <= i < |more| ensures PlacedWell(profiles, more, i, policy) {
      if i < |places| {
        assert PlacedWell(profiles, places, i, policy);
        assert forall j :: 0 <= j < |places| ==> LeadsAt(more, j) == LeadsAt(places, j);
      }
    }
  }

  lemma PlaceNext(profiles: seq<Profile>, places: seq<Place>, place: Place, policy: Policy, ix: Index)
    requires |places| < |profiles| && Placement(profiles, places, policy) && Indexed(ix, profiles, places)
    requires !place.Leads? && LeadsAt(places, place.leader)
    requires place.SameAs? ==> profiles[place.leader].fingerprint == profiles[|places|].fingerprint
    requires place.NearTo? ==> && profiles[|places|].fingerprint !in ix.seen && Resembles(profiles[place.leader], profiles[|places|], policy)
                               && forall j :: LeadsAt(places, j) && j < place.leader ==> !Resembles(profiles[j], profiles[|places|], policy)
    ensures Placement(profiles, places + [place], policy) && Indexed(ix, profiles, places + [place])
  {
    var more := places + [place];
    assert forall j :: LeadsAt(more, j) <==> LeadsAt(places, j);
    PlacementGrows(profiles, places, place, policy);
  }

  lemma LeadFits(profiles: seq<Profile>, places: seq<Place>, policy: Policy, ix: Index)
    requires |places| < |profiles| && Placement(profiles, places, policy) && Indexed(ix, profiles, places)
    requires profiles[|places|].fingerprint !in ix.seen
    requires forall j :: LeadsAt(places, j) ==> !Resembles(profiles[j], profiles[|places|], policy)
    ensures Placement(profiles, places + [Leads], policy)
  {
    assert forall j :: LeadsAt(places + [Leads], j) && j < |places| ==> LeadsAt(places, j);
    PlacementGrows(profiles, places, Leads, policy);
  }

  function Grown(ix: Index, k: nat, p: Profile): Index {
    Index(ix.seen[p.fingerprint := k], ix.kept + [k], ix.signatures[k := p.signature], ix.tokens[k := p.tokens])
  }

  lemma LeadIndexed(profiles: seq<Profile>, places: seq<Place>, ix: Index)
    requires |places| < |profiles| && Indexed(ix, profiles, places) && profiles[|places|].fingerprint !in ix.seen
    ensures Indexed(Grown(ix, |places|, profiles[|places|]), profiles, places + [Leads])
  {
    LeadSeen(profiles, places, ix.seen);
    LeadKept(places, ix.kept);
    LeadData(profiles, places, ix);
  }

  lemma LeadData(profiles: seq<Profile>, places: seq<Place>, ix: Index)
    requires |places| < |profiles| && DataIndexed(ix, profiles, places)
    ensures DataIndexed(Grown(ix, |places|, profiles[|places|]), profiles, places + [Leads])
  {
    assert forall j :: LeadsAt(places + [Leads], j) <==> LeadsAt(places, j) || j == |places|;
  }

  lemma LeadSeen(profiles: seq<Profile>, places: seq<Place>, seen: map<Fingerprint, nat>)
    requires |places| < |profiles| && SeenIndexed(seen, profiles, places) && profiles[|places|].fingerprint !in seen
    ensures SeenIndexed(seen[profiles[|places|].fingerprint := |places|], profiles, places + [Leads])
  {
    assert forall j :: LeadsAt(places + [Leads], j) <==> LeadsAt(places, j) || j == |places|;
  }

  lemma LeadKept(places: seq<Place>, kept: seq<nat>)
    requires KeptIndexed(kept, places)
    ensures KeptIndexed(kept + [|places|], places + [Leads])
  {
    var k, more, longer := |places|, places + [Leads], kept + [|places|];
    assert forall j :: LeadsAt(more, j) <==> LeadsAt(places, j) || j == k;
    assert longer[|kept|] == k && forall n :: 0 <= n < |kept| ==> longer[n] == kept[n] && LeadsAt(places, kept[n]);
    forall j | LeadsAt(more, j) ensures j in longer {
      if j < k { assert j in kept; }
    }
  }

  lemma {:induction false} NoneJoinedYet(places: seq<Place>, i: nat)
    requires JoinsBackwards(places) && |places| <= i
    ensures LastJoin(places, i) == None
  {
    if places != [] { NoneJoinedYet(places[..|places| - 1], i); }
  }

  /** A merge leaves the outcome the longer grouping demands. */
  lemma MergeNext(cands: seq<Candidate>, places: seq<Place>, place: Place, after: seq<Candidate>, judgements: seq<Judgement>,
                  byId: Evidence, lang: Language, policy: Policy, ix: Index)
    requires |places| < |cands| && Placement(Profiles(cands, byId, lang), places, policy)
    requires Indexed(ix, Profiles(cands, byId, lang), places) && !place.Leads? && LeadsAt(places, place.leader)
    requires var k, profiles := |places|, Profiles(cands, byId, lang);
             && (place.SameAs? ==> profiles[place.leader].fingerprint == profiles[k].fingerprint)
             && (place.NearTo? ==> && profiles[k].fingerprint !in ix.seen && Resembles(profiles[place.leader], profiles[k], policy)
                                   && forall j :: LeadsAt(places, j) && j < place.leader ==> !Resembles(profiles[j], profiles[k], policy))
    requires |after| == |cands| && |judgements| == |places| + 1
    requires forall i :: 0 <= i < |cands| ==> after[i] == CandidateOf(cands, places + [place], i)
    requires forall i :: 0 <= i < |judgements| ==> judgements[i] == JudgementOf(cands, places + [place], i, JudgeWith(byId, lang, policy))
    ensures Evaluated(cands, places + [place], after, judgements, byId, lang, policy)
    ensures Indexed(ix, Profiles(cands, byId, lang), places + [place])
  {
    PlaceNext(Profiles(cands, byId, lang), places, place, policy, ix);
  }

  /** A candidate that resembles no leader becomes one. */
  lemma LeadNext(cands: seq<Candidate>, places: seq<Place>, after: seq<Candidate>, judgements: seq<Judgement>, judgement: Judgement,
                 byId: Evidence, lang: Language, policy: Policy, ix: Index)
    requires Evaluated(cands, places, after, judgements, byId, lang, policy) && |places| < |cands|
    requires var k, profiles := |places|, Profiles(cands, byId, lang);
             && Indexed(ix, profiles, places) && profiles[k].fingerprint !in ix.seen
             && (forall j :: LeadsAt(places, j) ==> !Resembles(profiles[j], profiles[k], policy))
             && judgement == Judge(k, cands[k], byId, lang.fold, policy)
    ensures Evaluated(cands, places + [Leads], after, judgements + [judgement], byId, lang, policy)
  {
    var profiles := Profiles(cands, byId, lang);
    LeadFits(profiles, places, policy, ix);
    PlacementPointsBack(profiles, places, policy);
    NoneJoinedYet(places, |places|);
    SameOutcome(cands, places, JudgeWith(byId, lang, policy));
  }

  /** A new leader changes neither the earlier candidates nor their judgements. */
  lemma SameOutcome(cands: seq<Candidate>, places: seq<Place>, judge: Judging)
    requires |places| < |cands|
    ensures forall i :: 0 <= i < |cands| ==> CandidateOf(cands, places + [Leads], i) == CandidateOf(cands, places, i)
    ensures forall i :: 0 <= i < |places| ==> JudgementOf(cands, places + [Leads], i, judge) == JudgementOf(cands, places, i, judge)
    ensures JudgementOf(cands, places + [Leads], |places|, judge)
            == Marked(judge(|places|, cands[|places|]), LastJoin(places, |places|))
  {
    assert (places + [Leads])[..|places|] == places;
  }

  /** Merging candidate k into a leader changes that leader and its judgement only. */
  lemma MergedOutcome(cands: seq<Candidate>, places: seq<Place>, place: Place, judge: Judging, i: nat)
    requires |places| < |cands| && !place.Leads? && LeadsAt(places, place.leader) && i < |cands|
    ensures var k := |places|; var leader := place.leader; var more := places + [place];
            && CandidateOf(cands, more, i)
               == (if i == leader then Merge(CandidateOf(cands, places, i), cands[k]) else CandidateOf(cands, places, i))
            && (i < k && i != leader ==> JudgementOf(cands, more, i, judge) == JudgementOf(cands, places, i, judge))
            && (i == leader ==> JudgementOf(cands, more, i, judge) == Marked(judge(i, CandidateOf(cands, more, i)), Some(place)))
            && JudgementOf(cands, more, k, judge) == Folded(k, cands[k], leader)
  {
    assert (places + [place])[..|places|] == places;
  }

  lemma MergedAll(cands: seq<Candidate>, places: seq<Place>, place: Place, judge: Judging,
                  before: seq<Candidate>, after: seq<Candidate>, judgements: seq<Judgement>, r: seq<Judgement>)
    requires |places| < |cands| == |before| && !place.Leads? && LeadsAt(places, place.leader) && |judgements| == |places|
    requires forall i :: 0 <= i < |cands| ==> before[i] == CandidateOf(cands, places, i)
    requires forall i :: 0 <= i < |places| ==> judgements[i] == JudgementOf(cands, places, i, judge)
    requires var k, leader := |places|, place.leader;
             && after == before[leader := Merge(before[leader], cands[k])]
             && r == judgements[leader := Marked(judge(leader, after[leader]), Some(place))] + [Folded(k, cands[k], leader)]
    ensures forall i :: 0 <= i < |cands| ==> after[i] == CandidateOf(cands, places + [place], i)
    ensures forall i :: 0 <= i < |r| ==> r[i] == JudgementOf(cands, places + [place], i, judge)
  {
    forall i | 0 <= i < |cands|
      ensures after[i] == CandidateOf(cands, places + [place], i)
      ensures i <= |places| ==> r[i] == JudgementOf(cands, places + [place], i, judge)
    {
      MergedOutcome(cands, places, place, judge, i);
    }
  }
}
