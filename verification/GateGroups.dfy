/** Which candidates the gate takes for the same claim, in terms of what they say and cite. */
module GateGroups {
  import opened Common
  import opened GateModel
  import opened EvidenceGate

  // --------------------------------------------------------------- partitions of evidence

  /** The item's own domain, else its legacy one unless empty, else its context's. */
  ghost predicate InDomain(item: Item, domain: Option<string>) {
    && (item.domain.Some? ==> domain == item.domain)
    && (item.domain.None? && item.legacyDomain.Some? && item.legacyDomain.value != "" ==> domain == item.legacyDomain)
    && (item.domain.None? && item.legacyDomain in {None, Some("")} ==> domain == item.contextDomain)
  }

  ghost predicate InPartition(item: Item, p: Partition) {
    item.tenant == p.tenant && item.user == p.user && item.agent == p.agent && item.project == p.project && InDomain(item, p.domain)
  }

  lemma PartitionIs(item: Item, p: Partition)
    ensures InPartition(item, p) <==> PartitionOf(item) == p
  {
  }

  ghost function CitedIn(ids: seq<string>, byId: Evidence, p: Partition): set<nat> {
    set n: nat | n < |ids| && ids[n] in byId && InPartition(byId[ids[n]], p)
  }

  /** The bag of partitions counts the citing positions. */
  lemma {:induction false} BagCounts(ids: seq<string>, byId: Evidence, p: Partition)
    ensures PartitionBag(ids, byId)[p] == |CitedIn(ids, byId, p)|
  {
    if ids == [] {
      assert CitedIn(ids, byId, p) == {};
    } else {
      var init, last := ids[..|ids| - 1], ids[|ids| - 1];
      assert ids == init + [last];
      BagCounts(init, byId, p);
      OneMoreCited(init, last, byId, p);
    }
  }

  lemma OneMoreCited(init: seq<string>, last: string, byId: Evidence, p: Partition)
    ensures |CitedIn(init + [last], byId, p)| == |CitedIn(init, byId, p)| + (if last in byId && PartitionOf(byId[last]) == p then 1 else 0)
  {
    if last in byId { PartitionIs(byId[last], p); }
    var more := if last in byId && PartitionOf(byId[last]) == p then {|init|} else {};
    assert forall n: nat :: n < |init| ==> (init + [last])[n] == init[n];
    assert CitedIn(init + [last], byId, p) == CitedIn(init, byId, p) + more;
  }

  // ------------------------------------------------------------------------ same claims

  /** Same kind of claim: type, classification, polarity, and context but for execution labels. */
  ghost predicate SameKind(a: Candidate, b: Candidate, lang: Language) {
    && lang.fold(a.entityType) == lang.fold(b.entityType) && lang.fold(a.classification) == lang.fold(b.classification)
    && a.negative == b.negative
    && forall key :: key != "task_id" && key != "reasoning_section" ==>
         (key in a.context <==> key in b.context) && (key in a.context ==> a.context[key] == b.context[key])
  }

  ghost predicate SameUnknown(a: Candidate, b: Candidate, byId: Evidence) {
    forall id :: id !in byId ==> (id in a.evidence <==> id in b.evidence)
  }

  ghost predicate Cites(c: Candidate, byId: Evidence, p: Partition) {
    exists id :: id in c.evidence && id in byId && InPartition(byId[id], p)
  }

  ghost function WordsOf(c: Candidate): string {
    if c.content == "" then c.summary else c.content
  }

  /** Same text, kind, unknown ids and partitions of evidence. */
  ghost predicate SameClaim(a: Candidate, b: Candidate, byId: Evidence, lang: Language) {
    && lang.normal(WordsOf(a)) == lang.normal(WordsOf(b)) && SameKind(a, b, lang) && SameUnknown(a, b, byId)
    && forall p :: Cites(a, byId, p) <==> Cites(b, byId, p)
  }

  /** Same kind and unknown ids, each partition cited as often, and tokens in common. */
  ghost predicate NearClaim(a: Candidate, b: Candidate, byId: Evidence, lang: Language, policy: Policy) {
    && SameKind(a, b, lang) && SameUnknown(a, b, byId)
    && (forall p :: |CitedIn(a.evidence, byId, p)| == |CitedIn(b.evidence, byId, p)|)
    && Similar(lang.tokens(WordsOf(a)), lang.tokens(WordsOf(b)), policy)
  }

  lemma ContextsAgree(a: Candidate, b: Candidate)
    ensures SemanticContext(a) == SemanticContext(b) <==>
              forall key :: key != "task_id" && key != "reasoning_section" ==>
                (key in a.context <==> key in b.context) && (key in a.context ==> a.context[key] == b.context[key])
  {
    var x, y := SemanticContext(a), SemanticContext(b);
    assert forall key :: key in x <==> key in a.context && key != "task_id" && key != "reasoning_section";
    assert forall key :: key in y <==> key in b.context && key != "task_id" && key != "reasoning_section";
    if x == y {
      forall key | key != "task_id" && key != "reasoning_section"
        ensures (key in a.context <==> key in b.context) && (key in a.context ==> a.context[key] == b.context[key])
      {
        assert key in x <==> key in y;
      }
    }
  }

  lemma UnknownsAgree(a: Candidate, b: Candidate, byId: Evidence)
    ensures Unknown(a.evidence, byId) == Unknown(b.evidence, byId) <==> SameUnknown(a, b, byId)
  {
    var x, y := Unknown(a.evidence, byId), Unknown(b.evidence, byId);
    if x == y {
      forall id | id !in byId ensures id in a.evidence <==> id in b.evidence {
        assert id in x <==> id in y;
      }
    }
  }

  lemma CitesIsMember(c: Candidate, byId: Evidence, p: Partition)
    ensures Cites(c, byId, p) <==> p in Partitions(c.evidence, byId)
  {
    forall id | id in c.evidence && id in byId
      ensures InPartition(byId[id], p) <==> PartitionOf(byId[id]) == p
    {
      PartitionIs(byId[id], p);
    }
  }

  lemma PartitionsAgree(a: Candidate, b: Candidate, byId: Evidence)
    ensures Partitions(a.evidence, byId) == Partitions(b.evidence, byId) <==> forall p :: Cites(a, byId, p) <==> Cites(b, byId, p)
  {
    forall p
      ensures Cites(a, byId, p) <==> p in Partitions(a.evidence, byId)
      ensures Cites(b, byId, p) <==> p in Partitions(b.evidence, byId)
    {
      CitesIsMember(a, byId, p);
      CitesIsMember(b, byId, p);
    }
  }

  lemma BagsAgree(a: Candidate, b: Candidate, byId: Evidence)
    ensures PartitionBag(a.evidence, byId) == PartitionBag(b.evidence, byId) <==>
              forall p :: |CitedIn(a.evidence, byId, p)| == |CitedIn(b.evidence, byId, p)|
  {
    forall p
      ensures PartitionBag(a.evidence, byId)[p] == |CitedIn(a.evidence, byId, p)|
      ensures PartitionBag(b.evidence, byId)[p] == |CitedIn(b.evidence, byId, p)|
    {
      BagCounts(a.evidence, byId, p);
      BagCounts(b.evidence, byId, p);
    }
  }

  /** Equal fingerprints mean the same claim. */
  lemma FingerprintSays(a: Candidate, b: Candidate, byId: Evidence, lang: Language)
    ensures FingerprintOf(a, byId, lang) == FingerprintOf(b, byId, lang) <==> SameClaim(a, b, byId, lang)
  {
    ContextsAgree(a, b);
    UnknownsAgree(a, b, byId);
    PartitionsAgree(a, b, byId);
  }

  /** Resemblance means a near claim. */
  lemma ResemblanceSays(a: Candidate, b: Candidate, byId: Evidence, lang: Language, policy: Policy)
    ensures Resembles(ProfileOf(a, byId, lang), ProfileOf(b, byId, lang), policy) <==> NearClaim(a, b, byId, lang, policy)
  {
    ContextsAgree(a, b);
    UnknownsAgree(a, b, byId);
    BagsAgree(a, b, byId);
  }

  // -------------------------------------------------------------------------- the groups

  ghost predicate SameAt(cands: seq<Candidate>, i: int, j: int, byId: Evidence, lang: Language) {
    0 <= i < |cands| && 0 <= j < |cands| && SameClaim(cands[i], cands[j], byId, lang)
  }

  ghost predicate NearAt(cands: seq<Candidate>, i: int, j: int, byId: Evidence, lang: Language, policy: Policy) {
    0 <= i < |cands| && 0 <= j < |cands| && NearClaim(cands[i], cands[j], byId, lang, policy)
  }

  lemma ProfilesSay(cands: seq<Candidate>, i: nat, j: nat, byId: Evidence, lang: Language, policy: Policy)
    requires i < |cands| && j < |cands|
    ensures var profiles := Profiles(cands, byId, lang);
            && (profiles[i].fingerprint == profiles[j].fingerprint <==> SameAt(cands, i, j, byId, lang))
            && (Resembles(profiles[i], profiles[j], policy) <==> NearAt(cands, i, j, byId, lang, policy))
  {
    var profiles := Profiles(cands, byId, lang);
    assert profiles[i] == ProfileOf(cands[i], byId, lang) && profiles[j] == ProfileOf(cands[j], byId, lang);
    FingerprintSays(cands[i], cands[j], byId, lang);
    ResemblanceSays(cands[i], cands[j], byId, lang, policy);
  }

  /**
   The fate of candidate j: it merges into the earlier leader that is the same claim; without one, into the
   first leader that is a near claim; without either it leads.
   */
  lemma GroupsAreExact(cands: seq<Candidate>, places: seq<Place>, j: nat, byId: Evidence, lang: Language, policy: Policy)
    requires j < |places| <= |cands| && Placement(Profiles(cands, byId, lang), places, policy)
    ensures forall i: nat :: i < j && LeadsAt(places, i) ==> (places[j] == SameAs(i) <==> SameAt(cands, i, j, byId, lang))
    ensures forall i: nat :: i < j && LeadsAt(places, i) ==>
              (places[j] == NearTo(i) <==>
                 && NearAt(cands, i, j, byId, lang, policy)
                 && (forall l: nat :: l < j && LeadsAt(places, l) ==> !SameAt(cands, l, j, byId, lang))
                 && (forall l: nat :: l < i && LeadsAt(places, l) ==> !NearAt(cands, l, j, byId, lang, policy)))
    ensures places[j].Leads? <==>
              forall i: nat :: i < j && LeadsAt(places, i) ==>
                !SameAt(cands, i, j, byId, lang) && !NearAt(cands, i, j, byId, lang, policy)
  {
    var profiles := Profiles(cands, byId, lang);
    forall i: nat | i < j
      ensures profiles[i].fingerprint == profiles[j].fingerprint <==> SameAt(cands, i, j, byId, lang)
      ensures Resembles(profiles[i], profiles[j], policy) <==> NearAt(cands, i, j, byId, lang, policy)
    {
      ProfilesSay(cands, i, j, byId, lang, policy);
    }
    assert PlacedWell(profiles, places, j, policy);
    forall i: nat, l: nat | i < j && l < j && LeadsAt(places, i) && LeadsAt(places, l) && i != l
      ensures profiles[i].fingerprint != profiles[l].fingerprint
    {
      LeadersDiffer(profiles, places, policy, i, l);
      LeadersDiffer(profiles, places, policy, l, i);
    }
  }
}
