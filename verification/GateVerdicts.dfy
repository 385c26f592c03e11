/** What a judgement says, in terms of the cited evidence alone, and what makes one candidate fare better than another. */
module GateVerdicts {
  import opened Common
  import opened GateModel

  // ------------------------------------------------------------ the weight of evidence

  /** Positions of the list that cite verified evidence. */
  ghost function VerifiedAt(ids: seq<string>, byId: Evidence, fold: string -> string): set<nat> {
    set n: nat | n < |ids| && ids[n] in byId && fold(byId[ids[n]].verification) != ""
  }

  /** Positions of the list that cite strongly verified evidence. */
  ghost function StrongAt(ids: seq<string>, byId: Evidence, fold: string -> string, strong: set<string>): set<nat> {
    set n: nat | n < |ids| && ids[n] in byId && fold(byId[ids[n]].verification) in strong
  }

  ghost function TypesAt(ids: seq<string>, byId: Evidence): set<string> {
    set id | id in ids && id in byId :: byId[id].recordType
  }

  ghost function UpTo(n: nat, bound: nat): nat {
    if n < bound then n else bound
  }

  /** The strength follows from the distinct ids, the types, and the positions that cite (strongly) verified evidence. */
  ghost predicate Weighs(strength: real, ids: seq<string>, byId: Evidence, fold: string -> string, strong: set<string>) {
    strength == StrengthOf(|Elements(ids)|, |TypesAt(ids, byId)|, |StrongAt(ids, byId, fold, strong)|, |VerifiedAt(ids, byId, fold)|, |ids|)
  }

  lemma OnePositionMore(init: seq<string>, last: string, byId: Evidence, fold: string -> string, strong: set<string>)
    requires last in byId
    ensures VerifiedAt(init + [last], byId, fold)
         == VerifiedAt(init, byId, fold) + (if fold(byId[last].verification) != "" then {|init|} else {})
    ensures StrongAt(init + [last], byId, fold, strong)
         == StrongAt(init, byId, fold, strong) + (if fold(byId[last].verification) in strong then {|init|} else {})
  {
    var ids := init + [last];
    assert forall n: nat :: n < |init| ==> ids[n] == init[n];
  }

  lemma OneItemMore(init: seq<string>, last: string, byId: Evidence, fold: string -> string, strong: set<string>)
    requires last in byId
    ensures var items := Known(init, byId);
            && Known(init + [last], byId) == items + [byId[last]]
            && Verified(items + [byId[last]], fold) == Verified(items, fold) + (if fold(byId[last].verification) != "" then 1 else 0)
            && Strong(items + [byId[last]], fold, strong)
               == Strong(items, fold, strong) + (if fold(byId[last].verification) in strong then 1 else 0)
  {
    var items := Known(init, byId);
    assert (init + [last])[..|init|] == init && (items + [byId[last]])[..|items|] == items;
    OneMoreItem(items + [byId[last]], |items|, fold, strong);
    assert (items + [byId[last]])[..|items| + 1] == items + [byId[last]];
  }

  lemma CountsGrow(init: seq<string>, last: string, byId: Evidence, fold: string -> string, strong: set<string>)
    requires last in byId
    requires Verified(Known(init, byId), fold) == |VerifiedAt(init, byId, fold)|
    requires Strong(Known(init, byId), fold, strong) == |StrongAt(init, byId, fold, strong)|
    ensures Verified(Known(init + [last], byId), fold) == |VerifiedAt(init + [last], byId, fold)|
    ensures Strong(Known(init + [last], byId), fold, strong) == |StrongAt(init + [last], byId, fold, strong)|
  {
    OnePositionMore(init, last, byId, fold, strong);
    OneItemMore(init, last, byId, fold, strong);
  }

  lemma {:induction false} CountsArePositions(ids: seq<string>, byId: Evidence, fold: string -> string, strong: set<string>)
    requires forall id :: id in ids ==> id in byId
    ensures Verified(Known(ids, byId), fold) == |VerifiedAt(ids, byId, fold)|
    ensures Strong(Known(ids, byId), fold, strong) == |StrongAt(ids, byId, fold, strong)|
  {
    if ids == [] {
      assert VerifiedAt(ids, byId, fold) == {} && StrongAt(ids, byId, fold, strong) == {};
    } else {
      var init, last := ids[..|ids| - 1], ids[|ids| - 1];
      assert ids == init + [last];
      CountsArePositions(init, byId, fold, strong);
      CountsGrow(init, last, byId, fold, strong);
    }
  }

  lemma TypesAreTypes(ids: seq<string>, byId: Evidence)
    requires forall id :: id in ids ==> id in byId
    ensures Types(Known(ids, byId)) == TypesAt(ids, byId)
  {
    KnownItems(ids, byId);
    assert forall id :: id in ids ==> byId[id] in Known(ids, byId);
  }

  lemma Thirds(ids: nat, types: nat)
    ensures AtMostOne(ids as real / 3.0) == UpTo(ids, 3) as real / 3.0
    ensures AtMostOne(types as real / 2.0) == UpTo(types, 2) as real / 2.0
  {
  }

  lemma NumbersWeigh(strength: real, score: real, ids: nat, types: nat)
    requires 0.0 <= score <= 1.0
    requires strength == Clamp(0.45 * AtMostOne(ids as real / 3.0) + 0.4 * score + 0.15 * AtMostOne(types as real / 2.0))
    ensures 200.0 * strength == (30 * UpTo(ids, 3) + 15 * UpTo(types, 2)) as real + 80.0 * score
  {
    Thirds(ids, types);
  }

  lemma ScoreIsMean(strong: nat, verified: nat, count: nat)
    requires strong <= count && verified <= count
    ensures var score := VerificationScore(strong, verified, count);
            0.0 <= score <= 1.0 && 80.0 * score == Mean(56 * strong + 24 * verified, count)
  {
    if count > 0 {
      var top, all := 0.7 * strong as real + 0.3 * verified as real, count as real;
      assert 0.0 <= top <= all;
      Ratio(top, all);
      Tenfold(top, all, top / all, (56 * strong + 24 * verified) as real);
    }
  }

  lemma Tenfold(top: real, all: real, q: real, more: real)
    requires all > 0.0 && q == top / all && more == 80.0 * top
    ensures more / all == 80.0 * q
  {
  }

  lemma UnknownIsUnknown(ids: seq<string>, byId: Evidence)
    ensures Unknown(ids, byId) == {} <==> forall id :: id in ids ==> id in byId
  {
    if id :| id in ids && id !in byId { assert id in Unknown(ids, byId); }
  }

  /** In two-hundredths: 30 an id up to three, 15 a type up to two, and on average 56 a strong and 24 a verified position. */
  lemma StrengthFormula(ids: nat, types: nat, strong: nat, verified: nat, count: nat)
    requires strong <= count && verified <= count
    ensures 200.0 * StrengthOf(ids, types, strong, verified, count) ==
            (30 * UpTo(ids, 3) + 15 * UpTo(types, 2)) as real + Mean(56 * strong + 24 * verified, count)
  {
    ScoreIsMean(strong, verified, count);
    NumbersWeigh(StrengthOf(ids, types, strong, verified, count), VerificationScore(strong, verified, count), ids, types);
  }

  ghost function Mean(total: nat, count: nat): real {
    if count == 0 then 0.0 else total as real / count as real
  }

  lemma StrengthWeighs(ids: seq<string>, byId: Evidence, fold: string -> string, policy: Policy)
    requires forall id :: id in ids ==> id in byId
    ensures Weighs(Strength(Known(ids, byId), fold, policy), ids, byId, fold, policy.strong)
  {
    CountsArePositions(ids, byId, fold, policy.strong);
    TypesAreTypes(ids, byId);
    UnknownIsUnknown(ids, byId);
    KnownItems(ids, byId);
    CitedItems(ids, byId);
  }

  // ---------------------------------------------------------------------- the decision

  ghost predicate AllKnown(c: Candidate, byId: Evidence) {
    forall id :: id in c.evidence ==> id in byId
  }

  predicate Ordinary(c: Candidate) {
    c.classification !in {"insufficient_evidence", "contradiction", "true_contradiction", "context_dependent"}
  }

  /** 35 parts the reasoner's confidence, taken within 0 and 1, and 65 parts the strength. */
  ghost predicate Combines(promotion: real, confidence: real, strength: real) {
    && (0.0 <= confidence <= 1.0 ==> 20.0 * promotion == 7.0 * confidence + 13.0 * strength)
    && (confidence < 0.0 ==> 20.0 * promotion == 13.0 * strength)
    && (confidence > 1.0 ==> 20.0 * promotion == 7.0 + 13.0 * strength)
  }

  /** Enough known evidence for a candidate to be weighed at all. */
  ghost predicate Enough(c: Candidate, byId: Evidence, policy: Policy) {
    AllKnown(c, byId) && |c.evidence| >= policy.minimumEvidence
  }

  /** The judgement has this reason, and everything about it follows from the candidate and its evidence. */
  ghost predicate RightlyJudged(j: Judgement, reason: Reason, c: Candidate, byId: Evidence, fold: string -> string, policy: Policy) {
    var enough, p := Enough(c, byId, policy), j.promotion;
    && j.reasonerConfidence == c.confidence && j.evidence == c.evidence
    && (reason == UnknownEvidence <==> !AllKnown(c, byId))
    && (reason == InsufficientCount <==> AllKnown(c, byId) && |c.evidence| < policy.minimumEvidence)
    && (reason == ClassifiedInsufficient <==> enough && c.classification == "insufficient_evidence")
    && (reason == Contradiction <==> enough && c.classification in {"contradiction", "true_contradiction"})
    && (reason == ContextDependent <==> enough && c.classification == "context_dependent")
    && (reason == ThresholdMet <==> enough && Ordinary(c) && p >= policy.promote)
    && (reason == NeedsReview <==> enough && Ordinary(c) && policy.review <= p < policy.promote)
    && (reason == TooLow <==> enough && Ordinary(c) && p < policy.review && p < policy.promote)
    && (j.decision == Promote <==> reason == ThresholdMet)
    && (j.decision == Review <==> reason in {Contradiction, ContextDependent, NeedsReview})
    && (enough ==> Weighs(j.strength, c.evidence, byId, fold, policy.strong))
    && (!enough ==> j.strength == 0.0 && p == 0.0)
    && (enough && c.classification == "insufficient_evidence" ==> p == 0.0)
    && (enough && c.classification != "insufficient_evidence" ==> Combines(p, c.confidence, j.strength))
  }

  lemma StrengthInRange(items: seq<Item>, fold: string -> string, policy: Policy)
    ensures 0.0 <= Strength(items, fold, policy) <= 1.0
  {
  }

  lemma VerdictIsRight(index: nat, c: Candidate, byId: Evidence, fold: string -> string, policy: Policy,
                       unknown: bool, count: nat, strength: real, promotion: real)
    requires unknown <==> !AllKnown(c, byId)
    requires !unknown ==> count == |c.evidence| && Weighs(strength, c.evidence, byId, fold, policy.strong)
    requires 0.0 <= strength <= 1.0 && promotion == PromotionConfidence(c.confidence, strength)
    ensures var j := Verdict(index, c, unknown, count, strength, promotion, policy);
            j.index == index && |j.reasons| == 1 && RightlyJudged(j, j.reasons[0], c, byId, fold, policy)
  {
  }

  /** Every judgement, in full. */
  lemma JudgedRightly(index: nat, c: Candidate, byId: Evidence, fold: string -> string, policy: Policy)
    ensures var j := Judge(index, c, byId, fold, policy);
            j.index == index && |j.reasons| == 1 && RightlyJudged(j, j.reasons[0], c, byId, fold, policy)
  {
    var items := Known(c.evidence, byId);
    var strength := Strength(items, fold, policy);
    var unknown := Unknown(c.evidence, byId) != {};
    UnknownIsUnknown(c.evidence, byId);
    StrengthInRange(items, fold, policy);
    if AllKnown(c, byId) {
      StrengthWeighs(c.evidence, byId, fold, policy);
      KnownItems(c.evidence, byId);
    }
    VerdictIsRight(index, c, byId, fold, policy, unknown, |items|, strength, PromotionConfidence(c.confidence, strength));
  }

  /** A candidate is sent to review exactly between the thresholds, or for a classification that needs eyes. */
  lemma ReviewedExactly(index: nat, c: Candidate, byId: Evidence, fold: string -> string, policy: Policy)
    ensures var j := Judge(index, c, byId, fold, policy);
            j.decision == Review <==>
              && Enough(c, byId, policy)
              && (c.classification in {"contradiction", "true_contradiction", "context_dependent"}
                  || (Ordinary(c) && policy.review <= j.promotion < policy.promote))
  {
    JudgedRightly(index, c, byId, fold, policy);
  }

  /** It is rejected exactly for an unknown id, too little evidence, its own admission, or below both thresholds. */
  lemma RejectedExactly(index: nat, c: Candidate, byId: Evidence, fold: string -> string, policy: Policy)
    ensures var j := Judge(index, c, byId, fold, policy);
            j.decision == Reject <==>
              || (exists id :: id in c.evidence && id !in byId)
              || |c.evidence| < policy.minimumEvidence
              || c.classification == "insufficient_evidence"
              || (Ordinary(c) && j.promotion < policy.review && j.promotion < policy.promote)
  {
    JudgedRightly(index, c, byId, fold, policy);
  }

  /** The default policy weighs candidates that cite twice, promotes from 0.78 and reviews from 0.45 on. */
  lemma DefaultDecides(index: nat, c: Candidate, byId: Evidence, fold: string -> string)
    requires AllKnown(c, byId) && |c.evidence| >= 2 && Ordinary(c)
    ensures var j := Judge(index, c, byId, fold, DEFAULT);
            && (j.decision == Promote <==> j.promotion >= 0.78)
            && (j.decision == Review <==> 0.45 <= j.promotion < 0.78)
            && Weighs(j.strength, c.evidence, byId, fold, {"user_confirmed", "tested", "observed"})
  {
    JudgedRightly(index, c, byId, fold, DEFAULT);
  }

  function Rank(d: Decision): nat {
    match d
    case Reject => 0
    case Review => 1
    case Promote => 2
  }

  /** A surer reasoner never gets a lower decision on the same evidence. */
  lemma SurerIsNeverLower(index: nat, c: Candidate, confidence: real, byId: Evidence, fold: string -> string, policy: Policy)
    requires c.confidence <= confidence
    ensures Rank(Judge(index, c, byId, fold, policy).decision)
         <= Rank(Judge(index, c.(confidence := confidence), byId, fold, policy).decision)
  {
    JudgedRightly(index, c, byId, fold, policy);
    JudgedRightly(index, c.(confidence := confidence), byId, fold, policy);
  }

  // ------------------------------------------------------------------- resemblance

  /** The default resemblance in whole numbers: five tokens each, and 18 of 25 in common. */
  lemma DefaultResembles(kept: Profile, other: Profile)
    ensures Resembles(kept, other, DEFAULT) <==>
              && kept.signature == other.signature && |kept.tokens| >= 5 && |other.tokens| >= 5
              && 25 * |kept.tokens * other.tokens| >= 18 * |kept.tokens + other.tokens|
  {
    var a, b := kept.tokens, other.tokens;
    assert a + b == b + a && a * b == b * a;
    SubsetSize(a, a + b);
    if |a| >= 5 { ShareOfTokens(|a * b|, |a + b|); }
  }

  lemma ShareOfTokens(common: nat, all: nat)
    requires all > 0
    ensures common as real / all as real >= 0.72 <==> 25 * common >= 18 * all
  {
    var q := common as real / all as real;
    Quotient(common as real, all as real, q);
    InOrder(q, 0.72, all as real);
  }

  lemma Quotient(top: real, count: real, q: real)
    requires count > 0.0 && q == top / count
    ensures q * count == top
  {
  }

  lemma InOrder(q: real, bound: real, all: real)
    requires all > 0.0
    ensures q >= bound <==> q * all >= bound * all
  {
  }

  /** Of several requested items with the same id the last is the evidence. */
  lemma {:induction false} LastItemCounts(items: seq<Item>, k: nat)
    requires k < |items| && forall j :: k < j < |items| ==> items[j].id != items[k].id
    ensures items[k].id in ById(items) && ById(items)[items[k].id] == items[k]
  {
    var init := items[..|items| - 1];
    assert items == init + [items[|items| - 1]];
    if k < |init| { LastItemCounts(init, k); }
  }
}
