/** When two relation edges conflict, and the conflicts between two edge lists. */
module Contradictions {
  import opened Common
  import opened RelationModel

  datatype ConflictType = PolarityMismatch | DirectContradiction | CausalCycle

  datatype Conflict = Conflict(what: ConflictType, edge: Edge, other: Edge)

  // ------------------------------------------------------------------- the reference

  ghost predicate Overlap(a: Edge, b: Edge) {
    exists t :: Within(a.validFrom, a.validUntil, t) && Within(b.validFrom, b.validUntil, t)
  }

  /** Two live edges, valid at one instant, that deny each other in the given way. */
  ghost predicate Clash(what: ConflictType, a: Edge, b: Edge) {
    && a.status != Rejected && b.status != Rejected && Overlap(a, b) && IdOf(a) != IdOf(b)
    && match what
       case PolarityMismatch => {a.source, a.target} == {b.source, b.target} && {a.kind, b.kind} == {Supports, Contradicts}
       case DirectContradiction => {a.source, a.target} == {b.source, b.target} && {a.kind, b.kind} == {PartOf, Contradicts}
       case CausalCycle => a.kind == Causes && b.kind == Causes && a.source == b.target && a.target == b.source
  }

  lemma ClashIsSymmetric(what: ConflictType, a: Edge, b: Edge)
    ensures Clash(what, a, b) <==> Clash(what, b, a)
  {
    assert Overlap(a, b) <==> Overlap(b, a);
    assert {a.source, a.target} == {b.source, b.target} <==> {b.source, b.target} == {a.source, a.target};
    assert {a.kind, b.kind} == {b.kind, a.kind};
  }

  /** No hypothetical edge clashes with a base edge or with another hypothetical one. */
  ghost predicate Coherent(hypothetical: seq<Edge>, base: seq<Edge>) {
    forall what, a, b :: a in hypothetical && (b in base || b in hypothetical) ==> !Clash(what, a, b)
  }

  /** The verdict does not depend on the order, or the repetition, of either list. */
  lemma OrderIsIrrelevant(hypothetical: seq<Edge>, base: seq<Edge>, others: seq<Edge>, ground: seq<Edge>)
    requires Elements(hypothetical) == Elements(others) && Elements(base) == Elements(ground)
    ensures Coherent(hypothetical, base) <==> Coherent(others, ground)
  {
    assert forall e :: e in hypothetical <==> e in Elements(others);
    assert forall e :: e in base <==> e in Elements(ground);
  }

  // ----------------------------------------------------------------- how it is computed

  predicate Disjoint(a: Edge, b: Edge) {
    var until := Earlier(a.validUntil, b.validUntil);
    until.Some? && until.value <= Later(a.validFrom, b.validFrom)
  }

  lemma DisjointIsNoOverlap(a: Edge, b: Edge)
    ensures Disjoint(a, b) <==> !Overlap(a, b)
  {
    var t := Later(a.validFrom, b.validFrom);
    if !Disjoint(a, b) {
      assert Within(a.validFrom, a.validUntil, t) && Within(b.validFrom, b.validUntil, t);
    }
  }

  predicate Opposite(a: Kind, b: Kind, kind: Kind) {
    (a == kind && b == Contradicts) || (a == Contradicts && b == kind)
  }

  /** The three checks in order, between a live candidate and any edge. */
  function Check(cand: Edge, exist: Edge): seq<Conflict> {
    if exist.status == Rejected || Disjoint(cand, exist) || IdOf(cand) == IdOf(exist) then []
    else
      var pair := cand.source == exist.source && cand.target == exist.target;
      var reversed := cand.source == exist.target && cand.target == exist.source;
      (if (pair || reversed) && Opposite(cand.kind, exist.kind, Supports) then [Conflict(PolarityMismatch, cand, exist)] else [])
      + (if (pair || reversed) && Opposite(cand.kind, exist.kind, PartOf) then [Conflict(DirectContradiction, cand, exist)] else [])
      + (if cand.kind == Causes && exist.kind == Causes && reversed then [Conflict(CausalCycle, cand, exist)] else [])
  }

  /** The checks report exactly the clashes. */
  lemma CheckFindsClashes(cand: Edge, exist: Edge, k: Conflict)
    requires cand.status != Rejected
    ensures k in Check(cand, exist) <==> k == Conflict(k.what, cand, exist) && Clash(k.what, cand, exist)
    ensures |Check(cand, exist)| <= 1
  {
    DisjointIsNoOverlap(cand, exist);
    SamePair(cand.source, cand.target, exist.source, exist.target);
    SamePair(cand.kind, exist.kind, Supports, Contradicts);
    SamePair(cand.kind, exist.kind, PartOf, Contradicts);
  }

  lemma SamePair<T>(a: T, b: T, c: T, d: T)
    ensures {a, b} == {c, d} <==> (a == c && b == d) || (a == d && b == c)
  {
    if {a, b} == {c, d} {
      assert a in {c, d} && b in {c, d} && c in {a, b} && d in {a, b};
    }
  }

  function Row(cand: Edge, existing: seq<Edge>): seq<Conflict> {
    if existing == [] then [] else Row(cand, existing[..|existing| - 1]) + Check(cand, existing[|existing| - 1])
  }

  /** Equal identities: same kind and ends, those of a contradiction in either order. */
  lemma IdsAgree(a: Edge, b: Edge)
    ensures IdOf(a) == IdOf(b) <==>
              && a.kind == b.kind
              && ((a.source == b.source && a.target == b.target)
                  || (a.kind == Contradicts && a.source == b.target && a.target == b.source))
  {
    SamePair(a.source, a.target, b.source, b.target);
  }

  /** Every conflict of a live candidate with an existing edge, candidate by candidate. */
  function Conflicts(candidates: seq<Edge>, existing: seq<Edge>): seq<Conflict> {
    if candidates == [] then []
    else
      var last := candidates[|candidates| - 1];
      Conflicts(candidates[..|candidates| - 1], existing) + (if last.status == Rejected then [] else Row(last, existing))
  }

  lemma {:induction false} RowMembers(cand: Edge, existing: seq<Edge>, k: Conflict)
    requires cand.status != Rejected
    ensures k in Row(cand, existing) <==> k == Conflict(k.what, cand, k.other) && k.other in existing && Clash(k.what, cand, k.other)
  {
    if existing != [] {
      var init, last := existing[..|existing| - 1], existing[|existing| - 1];
      assert existing == init + [last];
      RowMembers(cand, init, k);
      CheckFindsClashes(cand, last, k);
    }
  }

  lemma {:induction false} ConflictMembers(candidates: seq<Edge>, existing: seq<Edge>, k: Conflict)
    ensures k in Conflicts(candidates, existing) <==>
              k.edge in candidates && k.other in existing && Clash(k.what, k.edge, k.other)
  {
    if candidates != [] {
      var init, last := candidates[..|candidates| - 1], candidates[|candidates| - 1];
      assert candidates == init + [last];
      ConflictMembers(init, existing, k);
      if last.status != Rejected { RowMembers(last, existing, k); }
    }
  }

  lemma {:induction false} RowPrefix(cand: Edge, existing: seq<Edge>, n: nat)
    requires n <= |existing|
    ensures Row(cand, existing[..n]) <= Row(cand, existing)
  {
    if n < |existing| {
      var init := existing[..|existing| - 1];
      RowPrefix(cand, init, n);
      assert init[..n] == existing[..n];
    } else {
      assert existing[..n] == existing;
    }
  }

  /** Whole rows and a part of the next one are a prefix of all conflicts. */
  lemma {:induction false} ConflictsPrefix(candidates: seq<Edge>, existing: seq<Edge>, n: nat, part: seq<Conflict>)
    requires n < |candidates| && candidates[n].status != Rejected && part <= Row(candidates[n], existing)
    ensures Conflicts(candidates[..n], existing) + part <= Conflicts(candidates, existing)
    decreases |candidates|
  {
    var init := candidates[..|candidates| - 1];
    if n < |init| {
      ConflictsPrefix(init, existing, n, part);
      assert init[..n] == candidates[..n];
    } else {
      assert candidates[..n] == init;
    }
  }

  /** Comparisons a full run makes: every live candidate meets each of `width` edges. */
  function Comparisons(candidates: seq<Edge>, width: nat): nat {
    if candidates == [] then 0
    else
      Comparisons(candidates[..|candidates| - 1], width)
      + (if candidates[|candidates| - 1].status == Rejected then 0 else width)
  }

  /** The conflicts found when `i` candidates have met every edge, and the next one, a live one, the first `j`. */
  ghost predicate FirstConflicts(candidates: seq<Edge>, existing: seq<Edge>, i: int, j: int, conflicts: seq<Conflict>) {
    && 0 <= i < |candidates| && candidates[i].status != Rejected && 0 <= j < |existing|
    && conflicts == Conflicts(candidates[..i], existing) + Row(candidates[i], existing[..j])
  }

  lemma {:induction false} ComparisonsPrefix(edges: seq<Edge>, n: nat, width: nat)
    requires n <= |edges|
    ensures Comparisons(edges[..n], width) <= Comparisons(edges, width)
    ensures n < |edges| && edges[n].status != Rejected ==> Comparisons(edges[..n], width) + width <= Comparisons(edges, width)
  {
    if n < |edges| {
      var init := edges[..|edges| - 1];
      ComparisonsPrefix(init, n, width);
      assert init[..n] == edges[..n];
    } else {
      assert edges[..n] == edges;
    }
  }

  /** Same unordered pair of identities, same type. */
  predicate SameConflict(a: Conflict, b: Conflict) {
    && a.what == b.what
    && ((IdOf(a.edge) == IdOf(b.edge) && IdOf(a.other) == IdOf(b.other))
        || (IdOf(a.edge) == IdOf(b.other) && IdOf(a.other) == IdOf(b.edge)))
  }

  function Identity(k: Conflict): (ConflictType, RelationId, RelationId) {
    (k.what, IdOf(k.edge), IdOf(k.other))
  }

  function Identities(all: seq<Conflict>): set<(ConflictType, RelationId, RelationId)> {
    set k | k in all :: Identity(k)
  }

  ghost predicate Represented(k: Conflict, all: seq<Conflict>) {
    exists i :: 0 <= i < |all| && SameConflict(k, all[i])
  }

  lemma RepresentedLater(k: Conflict, all: seq<Conflict>, more: seq<Conflict>)
    requires Represented(k, all) && all <= more
    ensures Represented(k, more)
  {
    var i :| 0 <= i < |all| && SameConflict(k, all[i]);
    assert SameConflict(k, more[i]);
  }

  /** The list goes on with those of the others that it does not have yet, in either order of their edges. */
  ghost predicate Merged(outer: seq<Conflict>, inner: seq<Conflict>, all: seq<Conflict>) {
    && outer <= all && (forall k :: k in all ==> k in outer || k in inner)
    && (forall k :: k in inner ==> Represented(k, all))
    && (forall i, j :: 0 <= i < j < |all| && |outer| <= j ==> !SameConflict(all[i], all[j]))
  }

  lemma AllAreClashes(hypothetical: seq<Edge>, base: seq<Edge>, all: seq<Conflict>)
    requires forall k :: k in all ==> k in Conflicts(hypothetical, base) || k in Conflicts(hypothetical, hypothetical)
    ensures forall k :: k in all ==>
              k.edge in hypothetical && k.other in base + hypothetical && Clash(k.what, k.edge, k.other)
  {
    forall k | k in all
      ensures k.edge in hypothetical && k.other in base + hypothetical && Clash(k.what, k.edge, k.other)
    {
      ConflictMembers(hypothetical, base, k);
      ConflictMembers(hypothetical, hypothetical, k);
    }
  }

  /** Removing repetitions never hides a clash, so the list is empty exactly when there is none. */
  lemma AllAreRepresented(hypothetical: seq<Edge>, base: seq<Edge>, outer: seq<Conflict>, inner: seq<Conflict>, all: seq<Conflict>)
    requires outer == Conflicts(hypothetical, base) && inner == Conflicts(hypothetical, hypothetical)
    requires outer <= all && (forall k :: k in inner ==> Represented(k, all))
    requires forall k :: k in all ==> k in outer || k in inner
    ensures forall what, a, b :: a in hypothetical && b in base + hypothetical && Clash(what, a, b) ==>
              Represented(Conflict(what, a, b), all)
    ensures all == [] <==> Coherent(hypothetical, base)
  {
    forall what, a, b | a in hypothetical && b in base + hypothetical && Clash(what, a, b)
      ensures Represented(Conflict(what, a, b), all)
    {
      var k := Conflict(what, a, b);
      ConflictMembers(hypothetical, base, k);
      ConflictMembers(hypothetical, hypothetical, k);
      if b in base {
        var i :| 0 <= i < |outer| && outer[i] == k;
        assert SameConflict(k, all[i]);
      }
    }
    if all != [] {
      AllAreClashes(hypothetical, base, all);
      assert all[0] in all;
    } else {
      forall what, a, b | a in hypothetical && (b in base || b in hypothetical)
        ensures !Clash(what, a, b)
      {
        assert !Represented(Conflict(what, a, b), all);
      }
    }
  }
}
