/**
 The bounded reasoning engine: reversed contradictions, dependency paths found breadth first,
 conflicts between edge lists, and the counterfactual sandbox, each under a budget.
 */
module InferenceEngine {
  import opened Common
  import opened Lists
  import opened RelationModel
  import opened Contradictions
  import opened InferencePaths
  import opened InferenceRuns
  import opened InferenceGuarantees
  import opened Counterfactuals

  class BoundedReasoningEngine {
    const limits: Limits

    constructor (maxInferences: int, maxComparisons: int)
      ensures limits == Limits(maxInferences, maxComparisons)
    {
      limits := Limits(maxInferences, maxComparisons);
    }

    /** The first rule, edge by edge. */
    method ReverseContradictions(pool: seq<Edge>, known: map<Entity, RecordId>) returns (w: Work)
      ensures w == Run(limits, NOTHING, Reversals(pool, known))
    {
      w := NOTHING;
      var k := 0;
      while k < |pool|
        invariant 0 <= k <= |pool| && !w.exceeded
        invariant w == Run(limits, NOTHING, Reversals(pool[..k], known))
      {
        var edge := pool[k];
        ReversalsNext(limits, pool, known, k, w);
        w := w.(comparisons := w.comparisons + 1);
        if |w.derived| >= limits.maxInferences || w.comparisons > limits.maxComparisons {
          w := w.(exceeded := true);
          return;
        }
        if edge.kind == Contradicts && edge.source in known {
          var d := ReverseAssertion(edge, known[edge.source]);
          if ClaimOf(d) !in w.seen { w := w.(derived := w.derived + [d], seen := w.seen + {ClaimOf(d)}); }
        }
        k := k + 1;
      }
      assert pool[..k] == pool;
    }

    /** Candidate continuations by source entity, in edge order. */
    method IndexBySource(depends: seq<Edge>) returns (bySource: map<Entity, seq<Edge>>)
      ensures IsIndex(bySource, depends)
    {
      bySource := map[];
      var k := 0;
      while k < |depends|
        invariant 0 <= k <= |depends| && IsIndex(bySource, depends[..k])
      {
        var key := depends[k].source;
        IndexNext(bySource, depends, k);
        bySource := bySource[key := Lookup(bySource, key) + [depends[k]]];
        k := k + 1;
      }
      assert depends[..k] == depends;
    }

    /** Tries one edge after a path. */
    method TryEdge(so: Work, found: seq<Path>, path: Path, c: Edge) returns (w: Work, next: seq<Path>)
      requires !so.exceeded && path != []
      ensures w == Try(limits, so, TrialOf(path, c))
      ensures !w.exceeded ==> next == found + ExtendWith(path)(c)
    {
      w, next := so.(comparisons := so.comparisons + 1), found;
      if |w.derived| >= limits.maxInferences || w.comparisons > limits.maxComparisons {
        w := w.(exceeded := true);
        return;
      }
      if c.target in Visited(path) { return; }
      var premises := path + [c];
      if !NonEmpty(From(premises), Until(premises)) { return; }
      if |Evidence(premises)| > MAX_EVIDENCE {
        w := w.(exceeded := true);
        return;
      }
      next := next + [premises];
      var d := PathAssertion(premises);
      if ClaimOf(d) !in w.seen { w := w.(derived := w.derived + [d], seen := w.seen + {ClaimOf(d)}); }
    }

    /** Tries every candidate edge after one path. */
    method ExtendPath(so: Work, found: seq<Path>, path: Path, candidates: seq<Edge>) returns (w: Work, next: seq<Path>)
      requires !so.exceeded && path != []
      ensures w == Run(limits, so, ConcatMap(TryWith(path), candidates))
      ensures !w.exceeded ==> next == found + ConcatMap(ExtendWith(path), candidates)
    {
      w, next := so, found;
      var k := 0;
      while k < |candidates|
        invariant 0 <= k <= |candidates| && !w.exceeded
        invariant w == Run(limits, so, ConcatMap(TryWith(path), candidates[..k]))
        invariant next == found + ConcatMap(ExtendWith(path), candidates[..k])
      {
        CandidatesNext(limits, so, path, candidates, k, w);
        w, next := TryEdge(w, next, path, candidates[k]);
        if w.exceeded { return; }
        k := k + 1;
      }
      assert candidates[..k] == candidates;
    }

    /** Tries every path of the frontier. */
    method ExtendFrontier(so: Work, frontier: seq<Path>, bySource: map<Entity, seq<Edge>>, ghost depends: seq<Edge>)
      returns (w: Work, next: seq<Path>)
      requires !so.exceeded && IsIndex(bySource, depends) && forall p: Path :: p in frontier ==> p != []
      ensures w == Run(limits, so, LevelTrials(depends)(frontier))
      ensures !w.exceeded ==> next == NextFrontier(depends, frontier)
    {
      w, next := so, [];
      var i := 0;
      while i < |frontier|
        invariant 0 <= i <= |frontier| && !w.exceeded
        invariant w == Run(limits, so, LevelTrials(depends)(frontier[..i]))
        invariant next == NextFrontier(depends, frontier[..i])
      {
        var path := frontier[i];
        assert path in frontier;
        var candidates := Lookup(bySource, path[|path| - 1].target);
        PathsNext(limits, so, depends, frontier, i, w, path, candidates);
        w, next := ExtendPath(w, next, path, candidates);
        if w.exceeded { return; }
        i := i + 1;
      }
      assert frontier[..i] == frontier;
    }

    /** The second rule. */
    method DependencyPaths(so: Work, depends: seq<Edge>, maxDepth: int) returns (w: Work)
      requires !so.exceeded
      ensures w == Run(limits, so, PathsTrials(depends, maxDepth))
    {
      var bySource := IndexBySource(depends);
      SinglesAreNotEmpty(depends);
      w := GrowPaths(so, Singles(depends), bySource, maxDepth, depends, Run(limits, so, PathsTrials(depends, maxDepth)));
    }

    /** All lengths from two up to the depth, or until no path is left. */
    method GrowPaths(so: Work, singles: seq<Path>, bySource: map<Entity, seq<Edge>>, maxDepth: int,
                     ghost depends: seq<Edge>, ghost goal: Work) returns (w: Work)
      requires !so.exceeded && IsIndex(bySource, depends) && forall p: Path :: p in singles ==> p != []
      requires goal == Run(limits, so, Spread(depends, singles, Growth(maxDepth)))
      ensures w == goal
    {
      var frontier := singles;
      w := so;
      ghost var left := Growth(maxDepth);
      var depth := 2;
      while depth <= maxDepth
        invariant depth >= 2 && !w.exceeded && left == if depth <= maxDepth then maxDepth - depth + 1 else 0
        invariant forall p: Path :: p in frontier ==> p != []
        invariant Run(limits, w, Spread(depends, frontier, left)) == goal
      {
        var next: seq<Path>;
        ghost var before := w;
        w, next := ExtendFrontier(w, frontier, bySource, depends);
        AfterLevel(limits, before, depends, frontier, left, w, goal);
        if w.exceeded || next == [] { return; }
        NextIsNotEmpty(depends, frontier);
        frontier := next;
        depth := depth + 1;
        left := left - 1;
      }
      NoLevels(limits, w, depends, frontier);
    }

    /**
     The bounded derivation; `None` for a depth outside 0..5. Sound and within budget always;
     when no budget ran out, complete after exactly the full work. The flag is raised when the full
     work or an oversized proof demands it, and otherwise only when the claims use up the budget.
     */
    method DeriveInferencesBounded(edges: seq<Edge>, maxDepth: int, known: map<Entity, RecordId>)
      returns (r: Option<(seq<Derived>, bool)>, ghost comparisons: nat)
      requires Irreflexive(edges)
      ensures r.None? <==> !(0 <= maxDepth <= 5)
      ensures r.Some? ==>
                var w := Derivation(limits, edges, known, maxDepth);
                r.value == (w.derived, w.exceeded) && comparisons == w.comparisons
      ensures r.Some? ==> Sound(r.value.0, edges, known, maxDepth)
      ensures r.Some? ==> Stopped(limits, Trials(edges, known, maxDepth), r.value.0, comparisons, r.value.1)
      ensures r.Some? ==> |r.value.0| <= Later(0, limits.maxInferences) && comparisons <= Later(0, limits.maxComparisons) + 1
      ensures r.Some? && !r.value.1 ==> comparisons == FullWork(edges, maxDepth) && Complete(r.value.0, edges, known, maxDepth)
      ensures r.Some? ==>
                var work, claims := FullWork(edges, maxDepth), |AllClaims(edges, known, maxDepth)|;
                && (work > Later(0, limits.maxComparisons) || AnyOversized(edges, maxDepth) ==> r.value.1)
                && (work > 0 && claims > limits.maxInferences ==> r.value.1)
                && (r.value.1 ==> work > Later(0, limits.maxComparisons) || AnyOversized(edges, maxDepth)
                                  || (work > 0 && claims >= limits.maxInferences))
    {
      comparisons := 0;
      if maxDepth < 0 || maxDepth > 5 { return None, comparisons; }
      var w := NOTHING;
      if maxDepth > 0 {
        var pool := Eligible(edges);
        var depends := Dependencies(pool);
        var anchors := Anchors(pool, known);
        w := ReverseContradictions(pool, anchors);
        RunJoin(limits, NOTHING, Reversals(pool, anchors), PathsTrials(depends, maxDepth));
        if !w.exceeded {
          w := DependencyPaths(w, depends, maxDepth);
        } else {
          RunStops(limits, w, PathsTrials(depends, maxDepth));
        }
      }
      DerivationIsSound(limits, edges, known, maxDepth, w);
      if !w.exceeded { DerivationIsComplete(limits, edges, known, maxDepth, w); }
      FlagIsExact(limits, edges, known, maxDepth);
      DerivationStops(limits, edges, known, maxDepth, w);
      return Some((w.derived, w.exceeded)), w.comparisons;
    }

    /**
     The conflicts of the candidates with the existing edges. The flag is raised exactly when the
     full comparison does not fit the budget; then what was found so far is returned.
     */
    method DetectContradictionsBounded(candidates: seq<Edge>, existing: seq<Edge>) returns (conflicts: seq<Conflict>, exceeded: bool)
      ensures exceeded <==> Comparisons(candidates, |existing|) > Later(0, limits.maxComparisons)
      ensures Detected(limits, candidates, existing, conflicts)
      ensures conflicts <= Conflicts(candidates, existing)
    {
      conflicts, exceeded := [], false;
      var comparisons := 0;
      var i := 0;
      while i < |candidates|
        invariant 0 <= i <= |candidates|
        invariant comparisons == Comparisons(candidates[..i], |existing|) <= Later(0, limits.maxComparisons)
        invariant conflicts == Conflicts(candidates[..i], existing)
      {
        var cand := candidates[i];
        assert candidates[..i + 1][..i] == candidates[..i];
        if cand.status != Rejected {
          var found: seq<Conflict>;
          found, comparisons, exceeded := CompareWithAll(cand, existing, comparisons);
          if exceeded {
            conflicts := conflicts + found;
            StoppedDetection(limits, candidates, existing, i, Comparisons(candidates[..i], |existing|), found, conflicts);
            return;
          }
          conflicts := conflicts + found;
        }
        i := i + 1;
      }
      assert candidates[..i] == candidates;
    }

    /** Compares one live candidate, after `made` comparisons, until the budget is used up. */
    method CompareWithAll(cand: Edge, existing: seq<Edge>, made: nat)
      returns (found: seq<Conflict>, comparisons: nat, exceeded: bool)
      requires made <= Later(0, limits.maxComparisons)
      ensures exceeded <==> made + |existing| > Later(0, limits.maxComparisons)
      ensures exceeded ==> found == Row(cand, existing[..Later(0, limits.maxComparisons) - made])
      ensures found <= Row(cand, existing)
      ensures !exceeded ==> found == Row(cand, existing) && comparisons == made + |existing|
    {
      found, comparisons, exceeded := [], made, false;
      var j := 0;
      while j < |existing|
        invariant 0 <= j <= |existing| && comparisons == made + j <= Later(0, limits.maxComparisons)
        invariant found == Row(cand, existing[..j])
      {
        comparisons := comparisons + 1;
        if comparisons > limits.maxComparisons {
          RowPrefix(cand, existing, j);
          assert j == Later(0, limits.maxComparisons) - made;
          return found, comparisons, true;
        }
        assert existing[..j + 1][..j] == existing[..j];
        found := found + Check(cand, existing[j]);
        j := j + 1;
      }
      assert existing[..j] == existing;
    }

    /**
     Evaluates hypothetical edges against base edges. The verdict is consistent exactly when no
     budget ran out and no hypothetical edge clashes with a base edge or another hypothetical one.
     */
    method EvaluateCounterfactual(hypothetical: seq<Edge>, base: seq<Edge>) returns (r: Counterfactual)
      requires Irreflexive(base + hypothetical)
      ensures r.incomplete <==> Incomplete(limits, hypothetical, base)
      ensures r.consistent <==> Consistent(limits, hypothetical, base)
      ensures r.hypotheticalCount == |hypothetical| && r.baseCount == |base|
      ensures r.consistent ==> r.contradictions == []
      ensures OnlyClashes(hypothetical, base, r.contradictions) && (!r.incomplete ==> AllClashes(hypothetical, base, r.contradictions))
      ensures !r.incomplete ==> Conflicts(hypothetical, base) <= r.contradictions
      ensures Reported(limits, hypothetical, base, r.contradictions)
      ensures r.inferences == Derivation(limits, base + hypothetical, map[], 2).derived
      ensures Sound(r.inferences, base + hypothetical, map[], 2)
      ensures !r.incomplete ==> Complete(r.inferences, base + hypothetical, map[], 2)
    {
      var contradictions, baseHit := DetectContradictionsBounded(hypothetical, base);
      var inner, innerHit := DetectContradictionsBounded(hypothetical, hypothetical);
      var all := MergeInternal(contradictions, inner);
      var derivation, _ := DeriveInferencesBounded(base + hypothetical, 2, map[]);
      var incomplete := baseHit || innerHit || derivation.value.1;
      r := Counterfactual(|hypothetical|, |base|, all, derivation.value.0, !incomplete && |all| == 0, incomplete);
      SandboxConflicts(limits, hypothetical, base, contradictions, inner, all, baseHit || innerHit);
    }

    /** Adds each internal conflict whose type and identities, in either order, are new. */
    method MergeInternal(contradictions: seq<Conflict>, inner: seq<Conflict>) returns (all: seq<Conflict>)
      ensures Merged(contradictions, inner, all)
    {
      all := contradictions;
      var seen := Identities(contradictions);
      var n := 0;
      while n < |inner|
        invariant 0 <= n <= |inner| && contradictions <= all
        invariant forall k :: k in all ==> k in contradictions || k in inner
        invariant seen == Identities(all)
        invariant forall m :: 0 <= m < n ==> Represented(inner[m], all)
        invariant forall i, j :: 0 <= i < j < |all| && |contradictions| <= j ==> !SameConflict(all[i], all[j])
      {
        var c := inner[n];
        var there := Identity(c);
        var back := (c.what, IdOf(c.other), IdOf(c.edge));
        ghost var before := all;
        if there !in seen && back !in seen {
          forall i | 0 <= i < |all| ensures !SameConflict(all[i], c) {
            assert all[i] in all && Identity(all[i]) in seen;
          }
          seen := seen + {there};
          all := all + [c];
          assert SameConflict(c, all[|before|]);
        } else if there in seen {
          var i :| 0 <= i < |all| && there == Identity(all[i]);
          assert SameConflict(c, all[i]);
        } else {
          var i :| 0 <= i < |all| && back == Identity(all[i]);
          assert SameConflict(c, all[i]);
        }
        forall m | 0 <= m < n ensures Represented(inner[m], all) {
          RepresentedLater(inner[m], before, all);
        }
        n := n + 1;
      }
    }
    }

  datatype Counterfactual = Counterfactual(
    hypotheticalCount: nat, baseCount: nat, contradictions: seq<Conflict>, inferences: seq<Derived>,
    consistent: bool, incomplete: bool)

  // ------------------------------------------------------------------------ loop steps

  /** What is returned when the budget is used up at a comparison of candidate i. */
  lemma StoppedDetection(l: Limits, candidates: seq<Edge>, existing: seq<Edge>, i: nat, made: nat, found: seq<Conflict>, all: seq<Conflict>)
    requires i < |candidates| && candidates[i].status != Rejected && made == Comparisons(candidates[..i], |existing|)
    requires made <= Later(0, l.maxComparisons) < made + |existing|
    requires found == Row(candidates[i], existing[..Later(0, l.maxComparisons) - made])
    requires all == Conflicts(candidates[..i], existing) + found
    ensures Detected(l, candidates, existing, all) && all <= Conflicts(candidates, existing)
    ensures Comparisons(candidates, |existing|) > Later(0, l.maxComparisons)
  {
    var j := Later(0, l.maxComparisons) - made;
    RowPrefix(candidates[i], existing, j);
    ConflictsPrefix(candidates, existing, i, found);
    ComparisonsPrefix(candidates, i, |existing|);
    assert FirstConflicts(candidates, existing, i, j, all);
  }

  /** A run that has stopped ignores the rest of its trials. */
  lemma StopsFor(l: Limits, so: Work, done: seq<Trial>, rest: seq<Trial>, whole: seq<Trial>)
    requires whole == done + rest && Run(l, so, done).exceeded
    ensures Run(l, so, whole) == Run(l, so, done)
  {
    RunJoin(l, so, done, rest);
    RunStops(l, Run(l, so, done), rest);
  }

  lemma ReversalsNext(l: Limits, pool: seq<Edge>, known: map<Entity, RecordId>, k: nat, w: Work)
    requires k < |pool| && w == Run(l, NOTHING, Reversals(pool[..k], known)) && !w.exceeded
    ensures var after := Try(l, w, ReverseWith(known)(pool[k])[0]);
            && Run(l, NOTHING, Reversals(pool[..k + 1], known)) == after
            && (after.exceeded ==> Run(l, NOTHING, Reversals(pool, known)) == after)
  {
    ListNext(l, NOTHING, ReverseWith(known), pool, k, w);
    RunOfOne(l, w, ReverseWith(known)(pool[k])[0]);
  }

  lemma CandidatesNext(l: Limits, so: Work, path: Path, candidates: seq<Edge>, k: nat, w: Work)
    requires k < |candidates| && w == Run(l, so, ConcatMap(TryWith(path), candidates[..k])) && !w.exceeded
    ensures Run(l, so, ConcatMap(TryWith(path), candidates[..k + 1])) == Try(l, w, TrialOf(path, candidates[k]))
    ensures Try(l, w, TrialOf(path, candidates[k])).exceeded ==>
              Run(l, so, ConcatMap(TryWith(path), candidates)) == Try(l, w, TrialOf(path, candidates[k]))
    ensures ConcatMap(ExtendWith(path), candidates[..k + 1]) ==
            ConcatMap(ExtendWith(path), candidates[..k]) + ExtendWith(path)(candidates[k])
  {
    ListNext(l, so, TryWith(path), candidates, k, w);
    RunOfOne(l, w, TrialOf(path, candidates[k]));
    assert candidates[..k + 1] == candidates[..k] + [candidates[k]];
    ConcatMapNext(ExtendWith(path), candidates[..k], candidates[k]);
  }

  lemma RunOfOne(l: Limits, w: Work, t: Trial)
    requires !w.exceeded
    ensures Run(l, w, [t]) == Try(l, w, t)
  {
    RunNext(l, w, [], t);
    assert [] + [t] == [t];
  }

  /** One more element of a list of trial lists, and, should the run stop there, the whole list. */
  lemma ListNext<A>(l: Limits, so: Work, f: A -> seq<Trial>, s: seq<A>, i: nat, w: Work)
    requires i < |s| && w == Run(l, so, ConcatMap(f, s[..i])) && !w.exceeded
    ensures Run(l, so, ConcatMap(f, s[..i + 1])) == Run(l, w, f(s[i]))
    ensures Run(l, w, f(s[i])).exceeded ==> Run(l, so, ConcatMap(f, s)) == Run(l, w, f(s[i]))
  {
    var done, rest := s[..i + 1], s[i + 1..];
    assert done == s[..i] + [s[i]] && s == done + rest;
    ConcatMapNext(f, s[..i], s[i]);
    RunJoin(l, so, ConcatMap(f, s[..i]), f(s[i]));
    ConcatMapJoin(f, done, rest);
    if Run(l, so, ConcatMap(f, done)).exceeded {
      StopsFor(l, so, ConcatMap(f, done), ConcatMap(f, rest), ConcatMap(f, s));
    }
  }

  lemma PathsNext(l: Limits, so: Work, depends: seq<Edge>, frontier: seq<Path>, i: nat, w: Work, path: Path, candidates: seq<Edge>)
    requires i < |frontier| && path == frontier[i] && path != [] && candidates == FromEntity(depends, path[|path| - 1].target)
    requires w == Run(l, so, LevelTrials(depends)(frontier[..i])) && !w.exceeded
    ensures var after := Run(l, w, ConcatMap(TryWith(path), candidates));
            && Run(l, so, LevelTrials(depends)(frontier[..i + 1])) == after
            && (after.exceeded ==> Run(l, so, LevelTrials(depends)(frontier)) == after)
    ensures NextFrontier(depends, frontier[..i + 1]) == NextFrontier(depends, frontier[..i]) + ConcatMap(ExtendWith(path), candidates)
  {
    PathRun(l, so, depends, frontier, i, w);
    assert frontier[..i + 1] == frontier[..i] + [path];
    NextFrontierNext(depends, frontier[..i], path);
  }

  lemma PathRun(l: Limits, so: Work, depends: seq<Edge>, frontier: seq<Path>, i: nat, w: Work)
    requires i < |frontier| && w == Run(l, so, LevelTrials(depends)(frontier[..i])) && !w.exceeded
    ensures var after := Run(l, w, PathTrials(depends, frontier[i]));
            && Run(l, so, LevelTrials(depends)(frontier[..i + 1])) == after
            && (after.exceeded ==> Run(l, so, LevelTrials(depends)(frontier)) == after)
  {
    ListNext(l, so, TryAll(depends), frontier, i, w);
  }

  lemma NextFrontierNext(depends: seq<Edge>, frontier: seq<Path>, path: Path)
    ensures NextFrontier(depends, frontier + [path]) == NextFrontier(depends, frontier) + Extensions(depends, path)
  {
    ConcatMapNext(ExtendAll(depends), frontier, path);
  }

  lemma NoLevels(l: Limits, w: Work, depends: seq<Edge>, frontier: seq<Path>)
    ensures Run(l, w, Spread(depends, frontier, 0)) == w
  {
  }

  function Lookup(bySource: map<Entity, seq<Edge>>, key: Entity): seq<Edge> {
    if key in bySource then bySource[key] else []
  }

  ghost predicate IsIndex(bySource: map<Entity, seq<Edge>>, depends: seq<Edge>) {
    forall key :: Lookup(bySource, key) == FromEntity(depends, key)
  }

  lemma IndexNext(bySource: map<Entity, seq<Edge>>, depends: seq<Edge>, k: nat)
    requires k < |depends| && IsIndex(bySource, depends[..k])
    ensures var key := depends[k].source;
            IsIndex(bySource[key := Lookup(bySource, key) + [depends[k]]], depends[..k + 1])
  {
    var key := depends[k].source;
    var more := bySource[key := Lookup(bySource, key) + [depends[k]]];
    assert depends[..k + 1] == depends[..k] + [depends[k]];
    forall other ensures Lookup(more, other) == FromEntity(depends[..k + 1], other) {
      ConcatMapNext(SourceIs(other), depends[..k], depends[k]);
      assert Lookup(bySource, other) == FromEntity(depends[..k], other);
    }
  }

  /** After a level the trials still to come are those of the next frontier, if there are any. */
  lemma AfterLevel(l: Limits, before: Work, depends: seq<Edge>, frontier: seq<Path>, k: nat, w: Work, goal: Work)
    requires k > 0 && w == Run(l, before, LevelTrials(depends)(frontier)) && goal == Run(l, before, Spread(depends, frontier, k))
    ensures w.exceeded || NextFrontier(depends, frontier) == [] ==> w == goal
    ensures Run(l, w, Spread(depends, NextFrontier(depends, frontier), k - 1)) == goal
  {
    var rest := Spread(depends, NextFrontier(depends, frontier), k - 1);
    if frontier == [] {
      assert NextFrontier(depends, frontier) == [] && LevelTrials(depends)(frontier) == [];
    } else {
      assert Spread(depends, frontier, k) == LevelTrials(depends)(frontier) + rest;
      RunJoin(l, before, LevelTrials(depends)(frontier), rest);
      if w.exceeded { RunStops(l, w, rest); }
    }
  }

  lemma SinglesAreNotEmpty(depends: seq<Edge>)
    ensures forall p: Path :: p in Singles(depends) ==> p != []
  {
    forall p: Path | p in Singles(depends) ensures p != [] { ConcatMapMember(Alone(), depends, p); }
  }

  lemma NextIsNotEmpty(depends: seq<Edge>, frontier: seq<Path>)
    ensures forall p: Path :: p in NextFrontier(depends, frontier) ==> p != []
  {
    forall p: Path | p in NextFrontier(depends, frontier) ensures p != [] {
      ConcatMapMember(ExtendAll(depends), frontier, p);
      var q: Path :| q in frontier && p in ExtendAll(depends)(q);
      ExtensionMembers(depends, q, p);
    }
  }
}
