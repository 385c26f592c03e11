/** The verdict of the counterfactual sandbox, in terms of the edges and the budgets. */
module Counterfactuals {
  import opened Common
  import opened Lists
  import opened RelationModel
  import opened Contradictions
  import opened InferencePaths
  import opened InferenceRuns
  import opened InferenceGuarantees

  /** Some budget runs out: in either comparison of edge lists, or in the derivation. */
  function Incomplete(l: Limits, hypothetical: seq<Edge>, base: seq<Edge>): bool {
    || Comparisons(hypothetical, |base|) > Later(0, l.maxComparisons)
    || Comparisons(hypothetical, |hypothetical|) > Later(0, l.maxComparisons)
    || Derivation(l, base + hypothetical, map[], 2).exceeded
  }

  /** What the two comparisons detect, merged. */
  ghost predicate Reported(l: Limits, hypothetical: seq<Edge>, base: seq<Edge>, all: seq<Conflict>) {
    exists outer, inner ::
      Detected(l, hypothetical, base, outer) && Detected(l, hypothetical, hypothetical, inner) && Merged(outer, inner, all)
  }

  ghost predicate OnlyClashes(hypothetical: seq<Edge>, base: seq<Edge>, all: seq<Conflict>) {
    forall k :: k in all ==> k.edge in hypothetical && k.other in base + hypothetical && Clash(k.what, k.edge, k.other)
  }

  ghost predicate AllClashes(hypothetical: seq<Edge>, base: seq<Edge>, all: seq<Conflict>) {
    forall what, a, b :: a in hypothetical && b in base + hypothetical && Clash(what, a, b) ==> Represented(Conflict(what, a, b), all)
  }

  /** The merged conflicts are clashes, and all of them when both comparisons were complete. */
  lemma SandboxConflicts(l: Limits, hypothetical: seq<Edge>, base: seq<Edge>, outer: seq<Conflict>, inner: seq<Conflict>,
                         all: seq<Conflict>, stopped: bool)
    requires Detected(l, hypothetical, base, outer) && outer <= Conflicts(hypothetical, base)
    requires Detected(l, hypothetical, hypothetical, inner) && inner <= Conflicts(hypothetical, hypothetical)
    requires Merged(outer, inner, all)
    requires stopped <==> Comparisons(hypothetical, |base|) > Later(0, l.maxComparisons)
                          || Comparisons(hypothetical, |hypothetical|) > Later(0, l.maxComparisons)
    ensures Reported(l, hypothetical, base, all) && OnlyClashes(hypothetical, base, all)
    ensures !stopped ==> && AllClashes(hypothetical, base, all) && Conflicts(hypothetical, base) <= all
                         && (all == [] <==> Coherent(hypothetical, base))
  {
    AllAreClashes(hypothetical, base, all);
    if !stopped { AllAreRepresented(hypothetical, base, outer, inner, all); }
  }

  ghost predicate Consistent(l: Limits, hypothetical: seq<Edge>, base: seq<Edge>) {
    !Incomplete(l, hypothetical, base) && Coherent(hypothetical, base)
  }

  lemma {:induction false} ComparisonsByCount(edges: seq<Edge>, width: nat)
    ensures Comparisons(edges, width) == |Eligible(edges)| * width
    decreases |edges|
  {
    if edges != [] {
      var init, last := edges[..|edges| - 1], edges[|edges| - 1];
      assert edges == init + [last];
      ComparisonsByCount(init, width);
      EligibleNext(init, last);
      OneMore(|Eligible(init)|, width);
    }
  }

  lemma OneMore(rows: nat, width: nat)
    ensures (rows + 1) * width == rows * width + width
  {
  }

  lemma {:induction false} EligibleNext(edges: seq<Edge>, last: Edge)
    ensures Eligible(edges + [last]) == Eligible(edges) + if last.status != Rejected then [last] else []
  {
    if edges != [] {
      EligibleNext(edges[1..], last);
      assert (edges + [last])[1..] == edges[1..] + [last];
    }
  }

  lemma ComparisonsReordered(edges: seq<Edge>, others: seq<Edge>, width: nat)
    requires multiset(edges) == multiset(others)
    ensures Comparisons(edges, width) == Comparisons(others, width)
  {
    FiltersReordered(edges, others);
    SameLength(Eligible(edges), Eligible(others));
    ComparisonsByCount(edges, width);
    ComparisonsByCount(others, width);
  }

  /** When the sandbox calls itself incomplete, from the edges and the budgets alone. */
  lemma IncompleteIsExact(l: Limits, hypothetical: seq<Edge>, base: seq<Edge>)
    requires Irreflexive(base + hypothetical)
    ensures var all, most := base + hypothetical, Later(0, l.maxComparisons);
            var certain := Comparisons(hypothetical, |base|) > most || Comparisons(hypothetical, |hypothetical|) > most
                           || FullWork(all, 2) > most || AnyOversized(all, 2);
            && (certain || (FullWork(all, 2) > 0 && |AllClaims(all, map[], 2)| > l.maxInferences) ==> Incomplete(l, hypothetical, base))
            && (Incomplete(l, hypothetical, base) ==> certain || (FullWork(all, 2) > 0 && |AllClaims(all, map[], 2)| >= l.maxInferences))
  {
    FlagIsExact(l, base + hypothetical, map[], 2);
  }

  /** Unless the claims exactly use up the inference budget, reordering either list changes nothing. */
  lemma VerdictIsStable(l: Limits, hypothetical: seq<Edge>, base: seq<Edge>, others: seq<Edge>, ground: seq<Edge>)
    requires Irreflexive(base + hypothetical)
    requires multiset(hypothetical) == multiset(others) && multiset(base) == multiset(ground)
    requires |AllClaims(base + hypothetical, map[], 2)| != l.maxInferences
    ensures Incomplete(l, hypothetical, base) == Incomplete(l, others, ground)
    ensures Consistent(l, hypothetical, base) <==> Consistent(l, others, ground)
  {
    assert multiset(base + hypothetical) == multiset(ground + others);
    FlagIsStable(l, base + hypothetical, ground + others, map[], 2);
    SameLength(hypothetical, others);
    SameLength(base, ground);
    ComparisonsReordered(hypothetical, others, |base|);
    ComparisonsReordered(hypothetical, others, |hypothetical|);
    SameSet(hypothetical, others);
    SameSet(base, ground);
    OrderIsIrrelevant(hypothetical, base, others, ground);
  }

  lemma SameSet(a: seq<Edge>, b: seq<Edge>)
    requires multiset(a) == multiset(b)
    ensures Elements(a) == Elements(b)
  {
    forall e ensures e in a <==> e in b {
      assert e in a <==> e in multiset(a);
      assert e in b <==> e in multiset(b);
    }
  }

  // ------------------------------------------------------ where the order does decide

  lemma TwoEligible(a: Edge, b: Edge)
    requires a.status != Rejected && b.status != Rejected && a.kind != DependsOn && b.kind != DependsOn
    ensures Eligible([a, b]) == [a, b] && Dependencies([a, b]) == []
  {
    assert [a, b][1..] == [b] && [b][1..] == [];
    assert Eligible([b]) == [b] && Dependencies([b]) == [];
  }

  lemma TwoTrials(a: Edge, b: Edge)
    requires a.status != Rejected && b.status != Rejected && a.kind != DependsOn && b.kind != DependsOn
    ensures Trials([a, b], map[], 2) == ReverseWith(Anchors([a, b], map[]))(a) + ReverseWith(Anchors([a, b], map[]))(b)
  {
    var anchors := Anchors([a, b], map[]);
    TwoEligible(a, b);
    ConcatMapNext(ReverseWith(anchors), [], a);
    ConcatMapNext(ReverseWith(anchors), [a], b);
    assert [] + [a] == [a] && [a] + [b] == [a, b];
    assert PathsTrials([], 2) == [];
  }

  lemma RunOfTwo(l: Limits, t: Trial, u: Trial)
    ensures Run(l, NOTHING, [t, u]) == if Try(l, NOTHING, t).exceeded then Try(l, NOTHING, t) else Try(l, Try(l, NOTHING, t), u)
  {
    RunNext(l, NOTHING, [], t);
    RunNext(l, NOTHING, [t], u);
    assert [] + [t] == [t] && [t] + [u] == [t, u];
  }

  lemma TwoComparisons(a: Edge, b: Edge)
    ensures Comparisons([a, b], 0) == 0 && Comparisons([a, b], 2) <= 4
  {
    assert [a, b][..1] == [a] && [a][..0] == [];
    assert Comparisons([a], 0) == 0 && Comparisons([a], 2) <= 2;
  }

  lemma AnchorsOfTwo(a: Edge, b: Edge)
    ensures forall key :: key in Anchors([a, b], map[]) <==> key == a.target || key == b.target
  {
    forall key ensures key in Anchors([a, b], map[]) <==> key == a.target || key == b.target {
      AnchorKeys([a, b], map[], key);
      assert a in [a, b] && b in [a, b];
    }
  }

  /** A denial anchored by a support that does not clash with it: which comes first decides. */
  lemma DenialFirst(l: Limits, denial: Edge, support: Edge)
    requires denial.kind == Contradicts && support.kind == Supports && denial.status != Rejected && support.status != Rejected
    requires support.target == denial.source && l.maxInferences == 1 && l.maxComparisons >= 4
    ensures Derivation(l, [denial, support], map[], 2).exceeded
  {
    AnchorsOfTwo(denial, support);
    TwoTrials(denial, support);
    var t := Yield(ReverseAssertion(denial, Anchors([denial, support], map[])[denial.source]));
    assert Trials([denial, support], map[], 2) == [t, Miss];
    RunOfTwo(l, t, Miss);
  }

  lemma SupportFirst(l: Limits, denial: Edge, support: Edge)
    requires denial.kind == Contradicts && support.kind == Supports && denial.status != Rejected && support.status != Rejected
    requires support.target == denial.source && l.maxInferences == 1 && l.maxComparisons >= 4
    ensures !Derivation(l, [support, denial], map[], 2).exceeded
  {
    AnchorsOfTwo(support, denial);
    TwoTrials(support, denial);
    var t := Yield(ReverseAssertion(denial, Anchors([support, denial], map[])[denial.source]));
    assert Trials([support, denial], map[], 2) == [Miss, t];
    RunOfTwo(l, Miss, t);
  }

  lemma DenialAndSupport(l: Limits, denial: Edge, support: Edge)
    requires denial.kind == Contradicts && support.kind == Supports && denial.status != Rejected && support.status != Rejected
    requires support.target == denial.source && l.maxInferences == 1 && l.maxComparisons >= 4
    ensures Incomplete(l, [denial, support], []) && !Incomplete(l, [support, denial], [])
  {
    var none: seq<Edge> := [];
    assert none + [denial, support] == [denial, support] && none + [support, denial] == [support, denial];
    DenialFirst(l, denial, support);
    SupportFirst(l, denial, support);
    TwoComparisons(denial, support);
    TwoComparisons(support, denial);
  }

  const A: Entity := Entity("a", "")
  const B: Entity := Entity("bb", "")
  const C: Entity := Entity("ccc", "")
  const DENIAL: Edge := Edge(Contradicts, A, B, 1, {Knowledge(1)}, Proposed, 0, None)
  const SUPPORT: Edge := Edge(Supports, C, A, 2, {Knowledge(2)}, Proposed, 0, None)

  /**
   The order decides when the claims exactly use up the inference budget: with room for one
   inference, two coherent admitted edges are consistent one way round and incomplete the other.
   */
  lemma OrderCanDecide()
    ensures var l := Limits(1, 10000);
            && Admitted(DENIAL) && Admitted(SUPPORT) && Coherent([SUPPORT, DENIAL], []) && Coherent([DENIAL, SUPPORT], [])
            && Consistent(l, [SUPPORT, DENIAL], []) && Incomplete(l, [DENIAL, SUPPORT], [])
  {
    assert |A.key| == 1 && |B.key| == 2 && |C.key| == 3;
    DenialAndSupport(Limits(1, 10000), DENIAL, SUPPORT);
    assert |DENIAL.evidence| == 1 && |SUPPORT.evidence| == 1;
    TwoAreCoherent([SUPPORT, DENIAL]);
    TwoAreCoherent([DENIAL, SUPPORT]);
  }

  lemma TwoAreCoherent(edges: seq<Edge>)
    requires forall e :: e in edges ==> e == DENIAL || e == SUPPORT
    ensures Coherent(edges, [])
  {
    assert |A.key| == 1 && |B.key| == 2 && |C.key| == 3;
    forall what, a, b | a in edges && b in edges ensures !Clash(what, a, b) {
      if a != b { assert C in {SUPPORT.source, SUPPORT.target} && C !in {DENIAL.source, DENIAL.target}; }
    }
  }
}
