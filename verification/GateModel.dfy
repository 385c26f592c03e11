/** Candidates of a dream run, the evidence they cite, and how a candidate is judged. */
module GateModel {
  import opened Common

  datatype Partition = Partition(tenant: Option<string>, user: Option<string>, agent: Option<string>,
                                 project: Option<string>, domain: Option<string>)

  datatype Item = Item(
    id: string, recordType: string, tenant: Option<string>, user: Option<string>, agent: Option<string>,
    project: Option<string>, domain: Option<string>, legacyDomain: Option<string>, contextDomain: Option<string>,
    verification: string)

  datatype Candidate = Candidate(
    entityName: string, entityType: string, summary: string, content: string, evidence: seq<string>,
    confidence: real, classification: string, negative: bool, context: map<string, string>)

  datatype Decision = Promote | Review | Reject

  datatype Reason =
    | UnknownEvidence | InsufficientCount | ClassifiedInsufficient | Contradiction | ContextDependent
    | ThresholdMet | NeedsReview | TooLow
    | MergedFromDuplicate | MergedFromNearDuplicate | DuplicateInRun | MergedInto(index: nat)

  datatype Judgement = Judgement(
    index: nat, decision: Decision, reasonerConfidence: real, strength: real, promotion: real,
    evidence: seq<string>, reasons: seq<Reason>)

  datatype Policy = Policy(
    promote: real, review: real, minimumEvidence: nat, jaccard: real, minimumTokens: nat, strong: set<string>)

  const DEFAULT: Policy := Policy(0.78, 0.45, 2, 0.72, 5, {"user_confirmed", "tested", "observed"})

  /** Text handling the gate relies on: normalised text, folded labels, and word tokens. */
  datatype Language = Language(normal: string -> string, fold: string -> string, tokens: string -> set<string>)

  // ------------------------------------------------------------------------- evidence

  /** Requested items by id, the last one winning. */
  function ById(items: seq<Item>): (r: map<string, Item>)
    ensures forall id :: id in r ==> r[id].id == id && r[id] in items
    ensures forall item :: item in items ==> item.id in r
  {
    if items == [] then map[]
    else
      var last := items[|items| - 1];
      assert items == items[..|items| - 1] + [last];
      ById(items[..|items| - 1])[last.id := last]
  }

  type Evidence = m: map<string, Item> | forall id :: id in m ==> m[id].id == id

  function Known(ids: seq<string>, byId: Evidence): (r: seq<Item>)
    ensures |r| <= |ids|
  {
    if ids == [] then []
    else
      var last := ids[|ids| - 1];
      Known(ids[..|ids| - 1], byId) + (if last in byId then [byId[last]] else [])
  }

  lemma {:induction false} KnownItems(ids: seq<string>, byId: Evidence)
    requires forall id :: id in ids ==> id in byId
    ensures |Known(ids, byId)| == |ids| && forall n :: 0 <= n < |ids| ==> Known(ids, byId)[n] == byId[ids[n]]
  {
    if ids != [] {
      var init, last := ids[..|ids| - 1], ids[|ids| - 1];
      assert ids == init + [last];
      KnownItems(init, byId);
    }
  }

  function Unknown(ids: seq<string>, byId: Evidence): set<string> {
    set id | id in ids && id !in byId
  }

  function DomainOf(item: Item): Option<string> {
    if item.domain.Some? then item.domain
    else if item.legacyDomain.Some? && item.legacyDomain.value != "" then item.legacyDomain
    else item.contextDomain
  }

  function PartitionOf(item: Item): Partition {
    Partition(item.tenant, item.user, item.agent, item.project, DomainOf(item))
  }

  function PartitionBag(ids: seq<string>, byId: Evidence): multiset<Partition> {
    if ids == [] then multiset{}
    else
      var last := ids[|ids| - 1];
      PartitionBag(ids[..|ids| - 1], byId) + (if last in byId then multiset{PartitionOf(byId[last])} else multiset{})
  }

  function Partitions(ids: seq<string>, byId: Evidence): set<Partition> {
    set id | id in ids && id in byId :: PartitionOf(byId[id])
  }

  // -------------------------------------------------------------------------- profiles

  datatype Fingerprint = Fingerprint(
    text: string, entityType: string, classification: string, negative: bool, context: map<string, string>,
    partitions: set<Partition>, unknown: set<string>)

  datatype Signature = Signature(
    entityType: string, classification: string, context: map<string, string>, negative: bool,
    partitions: multiset<Partition>, unknown: set<string>)

  /** All that decides which candidates are the same claim. */
  datatype Profile = Profile(fingerprint: Fingerprint, signature: Signature, tokens: set<string>)

  function TextOf(c: Candidate): string {
    if c.content != "" then c.content else c.summary
  }

  /** Execution labels do not count as context. */
  function SemanticContext(c: Candidate): map<string, string> {
    c.context - {"task_id", "reasoning_section"}
  }

  function FingerprintOf(c: Candidate, byId: Evidence, lang: Language): Fingerprint {
    Fingerprint(lang.normal(TextOf(c)), lang.fold(c.entityType), lang.fold(c.classification), c.negative, SemanticContext(c),
                Partitions(c.evidence, byId), Unknown(c.evidence, byId))
  }

  function SignatureOf(c: Candidate, byId: Evidence, lang: Language): Signature {
    Signature(lang.fold(c.entityType), lang.fold(c.classification), SemanticContext(c), c.negative,
              PartitionBag(c.evidence, byId), Unknown(c.evidence, byId))
  }

  function ProfileOf(c: Candidate, byId: Evidence, lang: Language): Profile {
    Profile(FingerprintOf(c, byId, lang), SignatureOf(c, byId, lang), lang.tokens(TextOf(c)))
  }

  /** Share of common tokens, zero when there are none at all. */
  function Jaccard(a: set<string>, b: set<string>): real {
    if |a + b| == 0 then 0.0 else |a * b| as real / |a + b| as real
  }

  /** Enough tokens on both sides, and enough of them in common. */
  predicate Similar(kept: set<string>, tokens: set<string>, policy: Policy) {
    && |tokens| >= policy.minimumTokens && |kept| >= policy.minimumTokens
    && kept + tokens != {} && Jaccard(tokens, kept) >= policy.jaccard
  }

  predicate Resembles(kept: Profile, other: Profile, policy: Policy) {
    kept.signature == other.signature && Similar(kept.tokens, other.tokens, policy)
  }

  // -------------------------------------------------------------------------- merging

  /** First occurrences, in order. */
  function FirstOccurrences(ids: seq<string>): (r: seq<string>)
    ensures NoDup(r) && forall id :: id in r <==> id in ids
  {
    if ids == [] then []
    else
      var init, last := FirstOccurrences(ids[..|ids| - 1]), ids[|ids| - 1];
      assert ids == ids[..|ids| - 1] + [last];
      if last in init then init else init + [last]
  }

  lemma {:induction false} DistinctStays(ids: seq<string>)
    requires NoDup(ids)
    ensures FirstOccurrences(ids) == ids
  {
    if ids != [] {
      DistinctStays(ids[..|ids| - 1]);
      assert ids == ids[..|ids| - 1] + [ids[|ids| - 1]];
    }
  }

  /** Removing repetitions early changes nothing. */
  lemma {:induction false} FirstOccurrencesAbsorb(a: seq<string>, b: seq<string>)
    ensures FirstOccurrences(FirstOccurrences(a) + b) == FirstOccurrences(a + b)
  {
    if b == [] {
      DistinctStays(FirstOccurrences(a));
      assert a + b == a && FirstOccurrences(a) + b == FirstOccurrences(a);
    } else {
      var init, last := b[..|b| - 1], b[|b| - 1];
      FirstOccurrencesAbsorb(a, init);
      assert a + b == (a + init) + [last];
      assert FirstOccurrences(a) + b == (FirstOccurrences(a) + init) + [last];
      OneMoreOccurrence(a + init, last);
      OneMoreOccurrence(FirstOccurrences(a) + init, last);
    }
  }

  lemma OneMoreOccurrence(ids: seq<string>, last: string)
    ensures FirstOccurrences(ids + [last]) == FirstOccurrences(ids) + (if last in FirstOccurrences(ids) then [] else [last])
  {
    assert (ids + [last])[..|ids|] == ids;
  }

  function Greater(a: real, b: real): real {
    if a < b then b else a
  }

  function Merge(first: Candidate, other: Candidate): Candidate {
    first.(evidence := FirstOccurrences(first.evidence + other.evidence), confidence := Greater(first.confidence, other.confidence))
  }

  /** Two candidates that agree on partitions and unknown ids merge into one with the same fingerprint. */
  lemma MergeKeepsFingerprint(first: Candidate, other: Candidate, byId: Evidence, lang: Language)
    requires Partitions(first.evidence, byId) == Partitions(other.evidence, byId)
    requires Unknown(first.evidence, byId) == Unknown(other.evidence, byId)
    ensures FingerprintOf(Merge(first, other), byId, lang) == FingerprintOf(first, byId, lang)
  {
    var all := first.evidence + other.evidence;
    assert forall id :: id in FirstOccurrences(all) <==> id in first.evidence || id in other.evidence;
    assert Unknown(FirstOccurrences(all), byId) == Unknown(first.evidence, byId) + Unknown(other.evidence, byId);
    assert Partitions(FirstOccurrences(all), byId) == Partitions(first.evidence, byId) + Partitions(other.evidence, byId);
  }

  lemma SameBagSameSet(a: seq<string>, b: seq<string>, byId: Evidence)
    requires PartitionBag(a, byId) == PartitionBag(b, byId)
    ensures Partitions(a, byId) == Partitions(b, byId)
  {
    BagHoldsSet(a, byId);
    BagHoldsSet(b, byId);
  }

  lemma {:induction false} BagHoldsSet(ids: seq<string>, byId: Evidence)
    ensures forall p :: p in Partitions(ids, byId) <==> p in PartitionBag(ids, byId)
  {
    if ids != [] {
      var init, last := ids[..|ids| - 1], ids[|ids| - 1];
      assert ids == init + [last];
      BagHoldsSet(init, byId);
      assert Partitions(ids, byId) == Partitions(init, byId) + (if last in byId then {PartitionOf(byId[last])} else {});
    }
  }

  /** Equal fingerprints, or equal signatures, are enough for that. */
  lemma SameClaimAgrees(a: Candidate, b: Candidate, byId: Evidence, lang: Language)
    requires FingerprintOf(a, byId, lang) == FingerprintOf(b, byId, lang) || SignatureOf(a, byId, lang) == SignatureOf(b, byId, lang)
    ensures Partitions(a.evidence, byId) == Partitions(b.evidence, byId)
    ensures Unknown(a.evidence, byId) == Unknown(b.evidence, byId)
  {
    if SignatureOf(a, byId, lang) == SignatureOf(b, byId, lang) {
      SameBagSameSet(a.evidence, b.evidence, byId);
    }
  }

  // -------------------------------------------------------------------------- scoring

  function Clamp(x: real): real {
    if x < 0.0 then 0.0 else if x > 1.0 then 1.0 else x
  }

  function AtMostOne(x: real): real {
    if x > 1.0 then 1.0 else x
  }

  function Ids(items: seq<Item>): set<string> {
    set item | item in items :: item.id
  }

  function Types(items: seq<Item>): set<string> {
    set item | item in items :: item.recordType
  }

  function Verified(items: seq<Item>, fold: string -> string): (r: nat)
    ensures r <= |items|
    ensures r > 0 <==> exists item :: item in items && fold(item.verification) != ""
  {
    if items == [] then 0
    else
      assert items == items[..|items| - 1] + [items[|items| - 1]];
      Verified(items[..|items| - 1], fold) + (if fold(items[|items| - 1].verification) != "" then 1 else 0)
  }

  function Strong(items: seq<Item>, fold: string -> string, strong: set<string>): (r: nat)
    ensures "" !in strong ==> r <= Verified(items, fold)
    ensures r <= |items|
  {
    if items == [] then 0
    else Strong(items[..|items| - 1], fold, strong) + (if fold(items[|items| - 1].verification) in strong then 1 else 0)
  }

  function VerificationScore(strong: nat, verified: nat, count: nat): real {
    if count == 0 then 0.0 else (0.7 * strong as real + 0.3 * verified as real) / count as real
  }

  /** Weighted share of distinct ids, verifications and record types. */
  function StrengthOf(ids: nat, types: nat, strong: nat, verified: nat, count: nat): real {
    Clamp(0.45 * AtMostOne(ids as real / 3.0) + 0.4 * VerificationScore(strong, verified, count)
          + 0.15 * AtMostOne(types as real / 2.0))
  }

  function Strength(items: seq<Item>, fold: string -> string, policy: Policy): real {
    StrengthOf(|Ids(items)|, |Types(items)|, Strong(items, fold, policy.strong), Verified(items, fold), |items|)
  }

  function PromotionConfidence(confidence: real, strength: real): real {
    Clamp(0.35 * Clamp(confidence) + 0.65 * strength)
  }

  function Judged(index: nat, c: Candidate, decision: Decision, strength: real, promotion: real, reason: Reason): Judgement {
    Judgement(index, decision, c.confidence, strength, promotion, c.evidence, [reason])
  }

  /** The decision on a candidate citing so many known items, given their strength. */
  function Verdict(index: nat, c: Candidate, unknown: bool, count: nat, strength: real, promotion: real, policy: Policy): Judgement {
    if unknown then Judged(index, c, Reject, 0.0, 0.0, UnknownEvidence)
    else if count < policy.minimumEvidence then Judged(index, c, Reject, 0.0, 0.0, InsufficientCount)
    else if c.classification == "insufficient_evidence" then Judged(index, c, Reject, strength, 0.0, ClassifiedInsufficient)
    else if c.classification == "contradiction" || c.classification == "true_contradiction" then
      Judged(index, c, Review, strength, promotion, Contradiction)
    else if c.classification == "context_dependent" then Judged(index, c, Review, strength, promotion, ContextDependent)
    else if promotion >= policy.promote then Judged(index, c, Promote, strength, promotion, ThresholdMet)
    else if promotion >= policy.review then Judged(index, c, Review, strength, promotion, NeedsReview)
    else Judged(index, c, Reject, strength, promotion, TooLow)
  }

  function Judge(index: nat, c: Candidate, byId: Evidence, fold: string -> string, policy: Policy): Judgement {
    var items := Known(c.evidence, byId);
    var strength := Strength(items, fold, policy);
    Verdict(index, c, Unknown(c.evidence, byId) != {}, |items|, strength, PromotionConfidence(c.confidence, strength), policy)
  }

  lemma VerdictPromotes(index: nat, c: Candidate, unknown: bool, count: nat, strength: real, promotion: real, policy: Policy)
    ensures Verdict(index, c, unknown, count, strength, promotion, policy).decision == Promote <==>
              && !unknown && count >= policy.minimumEvidence && promotion >= policy.promote
              && c.classification !in {"insufficient_evidence", "contradiction", "true_contradiction", "context_dependent"}
  {
  }

  // --------------------------------------------------------------- promotion arithmetic

  lemma OneMoreItem(items: seq<Item>, n: nat, fold: string -> string, strong: set<string>)
    requires n < |items|
    ensures var v := fold(items[n].verification);
            && Verified(items[..n + 1], fold) == Verified(items[..n], fold) + (if v != "" then 1 else 0)
            && Strong(items[..n + 1], fold, strong) == Strong(items[..n], fold, strong) + (if v in strong then 1 else 0)
  {
    assert items[..n + 1][..n] == items[..n];
  }

  lemma ScoreBounds(strong: nat, verified: nat, count: nat)
    requires strong <= verified <= count
    ensures 0.0 <= VerificationScore(strong, verified, count) <= 1.0
    ensures verified == 0 ==> VerificationScore(strong, verified, count) == 0.0
  {
    if count > 0 {
      var top := 0.7 * strong as real + 0.3 * verified as real;
      assert 0.0 <= top <= count as real;
      Ratio(top, count as real);
    }
  }

  lemma Ratio(top: real, count: real)
    requires 0.0 <= top <= count && count > 0.0
    ensures 0.0 <= top / count <= 1.0
  {
  }

  lemma {:induction false} NoTypesNoIds(items: seq<Item>)
    requires |Ids(items)| <= 1 && forall a, b :: a in items && b in items && a.id == b.id ==> a == b
    ensures |Types(items)| <= 1
  {
    if items != [] {
      assert items[0].id in Ids(items);
      SubsetSize({items[0].id}, Ids(items));
      assert forall item :: item in items ==> item.id in Ids(items);
      assert Types(items) <= {items[0].recordType};
      SubsetSize(Types(items), {items[0].recordType});
    }
  }

  /** The score of a promotion, as a function of four numbers. */
  function Promotion(confidence: real, ids: nat, score: real, types: nat): real {
    PromotionConfidence(confidence,
                        Clamp(0.45 * AtMostOne(ids as real / 3.0) + 0.4 * score + 0.15 * AtMostOne(types as real / 2.0)))
  }

  lemma PromotionArithmetic(confidence: real, ids: nat, score: real, types: nat)
    requires Promotion(confidence, ids, score, types) >= 0.78 && 0.0 <= score <= 1.0
    requires ids <= 1 ==> types <= 1
    ensures ids >= 2 && score > 0.0 && confidence >= 13.0 / 35.0
  {
  }

  lemma ItemsOf(ids: seq<string>, items: seq<Item>, byId: Evidence)
    requires |items| == |ids| && forall n :: 0 <= n < |ids| ==> ids[n] in byId && items[n] == byId[ids[n]]
    ensures forall item :: item in items <==> exists id :: id in ids && id in byId && item == byId[id]
    ensures Ids(items) == Elements(ids)
  {
    assert forall n :: 0 <= n < |ids| ==> items[n].id == ids[n];
    assert forall id :: id in ids ==> byId[id] in items;
  }

  lemma CitedItems(ids: seq<string>, byId: Evidence)
    requires Unknown(ids, byId) == {}
    ensures forall id :: id in ids ==> id in byId
    ensures Ids(Known(ids, byId)) == Elements(ids)
    ensures |Types(Known(ids, byId))| <= 1 || |Elements(ids)| >= 2
  {
    var items := Known(ids, byId);
    assert forall id :: id in ids && id !in byId ==> id in Unknown(ids, byId);
    KnownItems(ids, byId);
    ItemsOf(ids, items, byId);
    if |Ids(items)| <= 1 { NoTypesNoIds(items); }
  }

  /**
   What promotion under the default policy guarantees: only requested evidence is cited, at least
   two different items (although repeats satisfy the count), at least one of them verified, by a
   reasoner at least 13/35 sure.
   */
  lemma PromotionNeedsEvidence(index: nat, c: Candidate, byId: Evidence, fold: string -> string)
    requires Judge(index, c, byId, fold, DEFAULT).decision == Promote
    ensures forall id :: id in c.evidence ==> id in byId
    ensures |Elements(c.evidence)| >= 2
    ensures exists id :: id in c.evidence && id in byId && fold(byId[id].verification) != ""
    ensures c.confidence >= 13.0 / 35.0
    ensures c.classification !in {"insufficient_evidence", "contradiction", "true_contradiction", "context_dependent"}
  {
    var items := Known(c.evidence, byId);
    var strength := Strength(items, fold, DEFAULT);
    VerdictPromotes(index, c, Unknown(c.evidence, byId) != {}, |items|, strength, PromotionConfidence(c.confidence, strength), DEFAULT);
    CitedItems(c.evidence, byId);
    PromotedItems(c.confidence, items, fold);
    KnownItems(c.evidence, byId);
    ItemsOf(c.evidence, items, byId);
  }

  lemma PromotedItems(confidence: real, items: seq<Item>, fold: string -> string)
    requires PromotionConfidence(confidence, Strength(items, fold, DEFAULT)) >= 0.78
    requires |Types(items)| <= 1 || |Ids(items)| >= 2
    ensures |Ids(items)| >= 2 && confidence >= 13.0 / 35.0
    ensures exists item :: item in items && fold(item.verification) != ""
  {
    var strong, verified := Strong(items, fold, DEFAULT.strong), Verified(items, fold);
    assert |"user_confirmed"| != 0 && |"tested"| != 0 && |"observed"| != 0 && "" !in DEFAULT.strong;
    ScoreBounds(strong, verified, |items|);
    PromotionArithmetic(confidence, |Ids(items)|, VerificationScore(strong, verified, |items|), |Types(items)|);
  }

  /** All-strong evidence from three items of two types has full strength. */
  lemma FullStrength(a: Item, b: Item, c: Item, fold: string -> string)
    requires a.id != b.id && b.id != c.id && a.id != c.id && a.recordType != b.recordType
    requires fold(a.verification) == fold(b.verification) == fold(c.verification) == "tested"
    ensures Strength([a, b, c], fold, DEFAULT) == 1.0
  {
    var items := [a, b, c];
    assert items[..2][..1] == [a] && items[..2] == [a, b] && [a][..0] == [];
    assert Verified([a], fold) == 1 && Verified([a, b], fold) == 2 && Verified(items, fold) == 3;
    assert Strong([a], fold, DEFAULT.strong) == 1 && Strong([a, b], fold, DEFAULT.strong) == 2;
    assert Strong(items, fold, DEFAULT.strong) == 3;
    assert a in items && b in items && c in items;
    SubsetSize({a.id, b.id, c.id}, Ids(items));
    SubsetSize({a.recordType, b.recordType}, Types(items));
  }

  predicate Promoted(c: Candidate, byId: Evidence, fold: string -> string) {
    Judge(0, c, byId, fold, DEFAULT).decision == Promote
  }

  /** The confidence bound is exact: some candidate with that confidence is promoted. */
  lemma PromotionBoundIsTight()
    ensures exists c: Candidate, byId: Evidence, fold: string -> string ::
              c.confidence == 13.0 / 35.0 && Promoted(c, byId, fold)
  {
    var a, b, c := ThreeItems();
    var byId: Evidence := map[a.id := a, b.id := b, c.id := c];
    var fold: string -> string := s => s;
    var cand := JustSureEnough([a.id, b.id, c.id]);
    JustPromoted(a, b, c, byId, cand, fold);
  }

  lemma ThreeItems() returns (a: Item, b: Item, c: Item)
    ensures a.id != b.id && b.id != c.id && a.id != c.id && a.recordType != b.recordType
    ensures a.verification == b.verification == c.verification == "tested"
  {
    a := Item("", "", None, None, None, None, None, None, None, "tested");
    b := a.(id := "1", recordType := "1");
    c := a.(id := "22");
    assert |a.id| == 0 && |b.id| == 1 && |c.id| == 2;
  }

  lemma JustSureEnough(ids: seq<string>) returns (c: Candidate)
    ensures c.evidence == ids && c.confidence == 13.0 / 35.0
    ensures c.classification !in {"insufficient_evidence", "contradiction", "true_contradiction", "context_dependent"}
  {
    c := Candidate("", "", "", "", ids, 13.0 / 35.0, "", false, map[]);
  }

  lemma JustPromoted(a: Item, b: Item, c: Item, byId: Evidence, cand: Candidate, fold: string -> string)
    requires byId == map[a.id := a, b.id := b, c.id := c] && cand.evidence == [a.id, b.id, c.id]
    requires a.id != b.id && b.id != c.id && a.id != c.id && a.recordType != b.recordType
    requires fold(a.verification) == fold(b.verification) == fold(c.verification) == "tested"
    requires cand.confidence == 13.0 / 35.0
    requires cand.classification !in {"insufficient_evidence", "contradiction", "true_contradiction", "context_dependent"}
    ensures Promoted(cand, byId, fold)
  {
    FullStrength(a, b, c, fold);
    CiteThree(a, b, c, byId);
    VerdictPromotes(0, cand, false, 3, 1.0, PromotionConfidence(cand.confidence, 1.0), DEFAULT);
  }

  lemma CiteThree(a: Item, b: Item, c: Item, byId: Evidence)
    requires byId == map[a.id := a, b.id := b, c.id := c]
    requires a.id != b.id && b.id != c.id && a.id != c.id
    ensures Known([a.id, b.id, c.id], byId) == [a, b, c] && Unknown([a.id, b.id, c.id], byId) == {}
  {
    var ids := [a.id, b.id, c.id];
    assert ids[..2] == [a.id, b.id] && [a.id, b.id][..1] == [a.id] && [a.id][..0] == [];
    assert Known([a.id], byId) == [a] && Known([a.id, b.id], byId) == [a, b];
  }
}
