/**
 What a bounded derivation promises: sound, complete when its flag is down, and a flag that is
 decided by the edges and the budgets, not by the order in which the edges come.
 */
module InferenceGuarantees {
  import opened Common
  import opened Lists
  import opened RelationModel
  import opened Contradictions
  import opened InferencePaths
  import opened InferenceRuns

  // ------------------------------------------------------------- a run of any trials

  function ClaimsIn(ts: seq<Trial>): set<Claim> {
    set t | t in ts && t.Yield? :: ClaimOf(t.derived)
  }

  /** What every run keeps. */
  ghost predicate Steady(l: Limits, w: Work, ts: seq<Trial>) {
    && Matching(w.derived, w.seen) && FromTrials(w.derived, ts)
    && |w.derived| <= Later(0, l.maxInferences)
    && w.comparisons <= |ts| && w.comparisons <= Later(0, l.maxComparisons) + 1
    && (!w.exceeded ==>
          && w.comparisons == |ts| && w.comparisons <= Later(0, l.maxComparisons)
          && w.seen == ClaimsIn(ts) && Excess !in ts)
  }

  ghost predicate FromTrials(derived: seq<Derived>, ts: seq<Trial>) {
    forall d :: d in derived ==> Yield(d) in ts
  }

  lemma FromMoreTrials(derived: seq<Derived>, ts: seq<Trial>, t: Trial)
    requires FromTrials(derived, ts)
    ensures FromTrials(derived, ts + [t])
    ensures t.Yield? ==> FromTrials(derived + [t.derived], ts + [t])
  {
    assert forall x :: x in ts + [t] <==> x in ts || x == t;
  }

  lemma ClaimsNext(ts: seq<Trial>, t: Trial)
    ensures ClaimsIn(ts + [t]) == ClaimsIn(ts) + if t.Yield? then {ClaimOf(t.derived)} else {}
  {
    assert forall x :: x in ts + [t] <==> x in ts || x == t;
  }

  /** Assertions and their claims, one to one. */
  ghost predicate Matching(derived: seq<Derived>, seen: set<Claim>) {
    && Distinct(derived) && |seen| == |derived|
    && forall c :: c in seen <==> exists d :: d in derived && ClaimOf(d) == c
  }

  lemma MatchingNext(derived: seq<Derived>, seen: set<Claim>, d: Derived)
    requires Matching(derived, seen) && ClaimOf(d) !in seen
    ensures Matching(derived + [d], seen + {ClaimOf(d)})
  {
    var more := derived + [d];
    assert forall x :: x in more <==> x in derived || x == d;
    assert forall i :: 0 <= i < |derived| ==> derived[i] in derived && ClaimOf(derived[i]) != ClaimOf(d);
    forall c ensures c in seen + {ClaimOf(d)} <==> exists x :: x in more && ClaimOf(x) == c {
      if c == ClaimOf(d) { assert d in more; }
    }
  }

  lemma StopIsSteady(l: Limits, w: Work, ts: seq<Trial>, t: Trial)
    requires Steady(l, w, ts) && !w.exceeded
    ensures Steady(l, w.(comparisons := w.comparisons + 1, exceeded := true), ts + [t])
  {
    FromMoreTrials(w.derived, ts, t);
  }

  lemma GoOnIsSteady(l: Limits, w: Work, ts: seq<Trial>, t: Trial)
    requires Steady(l, w, ts) && !w.exceeded && w.comparisons + 1 <= l.maxComparisons
    requires t.Miss? || (t.Yield? && ClaimOf(t.derived) in w.seen)
    ensures Steady(l, w.(comparisons := w.comparisons + 1), ts + [t])
  {
    ClaimsNext(ts, t);
    assert ClaimsIn(ts + [t]) == w.seen;
    FromMoreTrials(w.derived, ts, t);
  }

  lemma NewIsSteady(l: Limits, w: Work, ts: seq<Trial>, d: Derived)
    requires Steady(l, w, ts) && !w.exceeded && w.comparisons + 1 <= l.maxComparisons && |w.derived| < l.maxInferences
    requires ClaimOf(d) !in w.seen
    ensures Steady(l, Work(w.derived + [d], w.seen + {ClaimOf(d)}, w.comparisons + 1, false), ts + [Yield(d)])
  {
    ClaimsNext(ts, Yield(d));
    MatchingNext(w.derived, w.seen, d);
    FromMoreTrials(w.derived, ts, Yield(d));
  }

  lemma TryIsSteady(l: Limits, w: Work, ts: seq<Trial>, t: Trial)
    requires Steady(l, w, ts) && !w.exceeded
    ensures Steady(l, Try(l, w, t), ts + [t])
  {
    if |w.derived| >= l.maxInferences || w.comparisons + 1 > l.maxComparisons || t.Excess? {
      StopIsSteady(l, w, ts, t);
    } else if t.Miss? || ClaimOf(t.derived) in w.seen {
      GoOnIsSteady(l, w, ts, t);
    } else {
      NewIsSteady(l, w, ts, t.derived);
    }
  }

  lemma {:induction false} RunIsSteady(l: Limits, ts: seq<Trial>)
    ensures Steady(l, Run(l, NOTHING, ts), ts)
  {
    if ts == [] {
      assert ClaimsIn(ts) == {};
    } else {
      var init, last := ts[..|ts| - 1], ts[|ts| - 1];
      assert ts == init + [last];
      RunIsSteady(l, init);
      var v := Run(l, NOTHING, init);
      if !v.exceeded { TryIsSteady(l, v, init, last); }
    }
  }

  /** The trial at which a run is stopped. */
  ghost predicate StopsAt(l: Limits, ts: seq<Trial>, k: int) {
    0 <= k < |ts| && (|ClaimsIn(ts[..k])| >= l.maxInferences || k + 1 > l.maxComparisons || ts[k].Excess?)
  }

  lemma LastTrial(l: Limits, ts: seq<Trial>, v: Work)
    requires ts != [] && Steady(l, v, ts[..|ts| - 1]) && !v.exceeded
    ensures StopsAt(l, ts, |ts| - 1) <==> Try(l, v, ts[|ts| - 1]).exceeded
  {
  }

  lemma StopsEarlier(l: Limits, ts: seq<Trial>, k: int)
    requires ts != [] && k < |ts| - 1
    ensures StopsAt(l, ts, k) <==> StopsAt(l, ts[..|ts| - 1], k)
  {
    if 0 <= k { assert ts[..|ts| - 1][..k] == ts[..k]; }
  }

  lemma {:induction false} FlagHasCause(l: Limits, ts: seq<Trial>) returns (k: int)
    requires Run(l, NOTHING, ts).exceeded
    ensures StopsAt(l, ts, k)
  {
    var init := ts[..|ts| - 1];
    var v := Run(l, NOTHING, init);
    if v.exceeded {
      k := FlagHasCause(l, init);
      StopsEarlier(l, ts, k);
    } else {
      k := |ts| - 1;
      RunIsSteady(l, init);
      LastTrial(l, ts, v);
    }
  }

  lemma {:induction false} CauseRaisesFlag(l: Limits, ts: seq<Trial>, k: int)
    requires StopsAt(l, ts, k)
    ensures Run(l, NOTHING, ts).exceeded
  {
    var init := ts[..|ts| - 1];
    var v := Run(l, NOTHING, init);
    if k < |ts| - 1 {
      StopsEarlier(l, ts, k);
      CauseRaisesFlag(l, init, k);
    } else if !v.exceeded {
      RunIsSteady(l, init);
      LastTrial(l, ts, v);
    }
  }

  ghost function ClaimsMade(derived: seq<Derived>): set<Claim> {
    set d | d in derived :: ClaimOf(d)
  }

  /** Of the trials that make its claim the first one is the assertion. */
  ghost predicate FirstOfItsClaim(d: Derived, ts: seq<Trial>) {
    exists k :: 0 <= k < |ts| && ts[k] == Yield(d) && ClaimOf(d) !in ClaimsIn(ts[..k])
  }

  /** A stopped run has made every claim of the trials before the one that stopped it. */
  lemma {:induction false} StoppedRun(l: Limits, ts: seq<Trial>, w: Work)
    requires w == Run(l, NOTHING, ts) && w.exceeded
    ensures 1 <= w.comparisons <= |ts| && w.seen == ClaimsIn(ts[..w.comparisons - 1]) && StopsAt(l, ts, w.comparisons - 1)
    decreases |ts|
  {
    var init := ts[..|ts| - 1];
    var v := Run(l, NOTHING, init);
    RunIsSteady(l, init);
    if v.exceeded {
      StoppedRun(l, init, v);
      assert init[..v.comparisons - 1] == ts[..v.comparisons - 1];
      StopsEarlier(l, ts, v.comparisons - 1);
    } else {
      LastTrial(l, ts, v);
    }
  }

  /** That trial is the first that could. */
  lemma {:induction false} StoppedFirst(l: Limits, ts: seq<Trial>, w: Work, k: int)
    requires w == Run(l, NOTHING, ts) && w.comparisons <= |ts| && StopsAt(l, ts, k)
    ensures w.exceeded && w.comparisons - 1 <= k
    decreases |ts|
  {
    CauseRaisesFlag(l, ts, k);
    if k < |ts| - 1 {
      var init := ts[..|ts| - 1];
      StopsEarlier(l, ts, k);
      RunIsSteady(l, init);
      StoppedFirst(l, init, Run(l, NOTHING, init), k);
    }
  }

  /** No run keeps anything but the first assertion of each claim. */
  lemma {:induction false} FirstIsKept(l: Limits, ts: seq<Trial>, d: Derived)
    requires d in Run(l, NOTHING, ts).derived
    ensures FirstOfItsClaim(d, ts)
    decreases |ts|
  {
    var init := ts[..|ts| - 1];
    var v := Run(l, NOTHING, init);
    RunIsSteady(l, init);
    if d in v.derived {
      FirstIsKept(l, init, d);
      var k :| 0 <= k < |init| && init[k] == Yield(d) && ClaimOf(d) !in ClaimsIn(init[..k]);
      assert ts[k] == Yield(d) && ts[..k] == init[..k];
    } else {
      assert ts[|init|] == Yield(d) && ts[..|init|] == init;
    }
  }

  lemma ClaimsOfPrefix(ts: seq<Trial>, k: nat)
    requires k <= |ts|
    ensures |ClaimsIn(ts[..k])| <= |ClaimsIn(ts)|
  {
    assert ClaimsIn(ts[..k]) <= ClaimsIn(ts);
    SubsetSize(ClaimsIn(ts[..k]), ClaimsIn(ts));
  }

  /** Unless the claims exactly use up the inference budget, totals decide. */
  lemma FlagByTotals(l: Limits, ts: seq<Trial>)
    ensures Run(l, NOTHING, ts).exceeded ==> |ts| > Later(0, l.maxComparisons) || |ClaimsIn(ts)| >= l.maxInferences || Excess in ts
    ensures |ts| > Later(0, l.maxComparisons) || Excess in ts ==> Run(l, NOTHING, ts).exceeded
    ensures ts != [] && |ClaimsIn(ts)| > l.maxInferences ==> Run(l, NOTHING, ts).exceeded
  {
    var w := Run(l, NOTHING, ts);
    RunIsSteady(l, ts);
    if w.exceeded {
      var k := FlagHasCause(l, ts);
      ClaimsOfPrefix(ts, k);
      assert ts[k] in ts;
    }
    if ts != [] && l.maxInferences < 0 { CauseRaisesFlag(l, ts, 0); }
  }

  // --------------------------------------------------------- the trials of given edges

  lemma ExcessIsOversized(depends: seq<Edge>, maxDepth: int)
    requires forall e :: e in depends ==> e.source != e.target
    ensures Excess in PathsTrials(depends, maxDepth) <==> exists p :: Oversized(depends, p, maxDepth)
  {
    SpreadMembers(depends, Singles(depends), Growth(maxDepth), Excess);
    AllPathsAreGood(depends, maxDepth);
    var paths := AllPaths(depends, maxDepth);
    if p: Path :| p in paths && p != [] && Excess == Outcome(p) { assert Oversized(depends, p, maxDepth); }
    if p :| Oversized(depends, p, maxDepth) { assert p in paths && Excess == Outcome(p); }
  }

  lemma YieldIsFromPath(depends: seq<Edge>, maxDepth: int, d: Derived)
    requires (forall e :: e in depends ==> e.source != e.target) && Yield(d) in PathsTrials(depends, maxDepth)
    ensures exists p :: FromPath(d, depends, p, maxDepth) && p in AllPaths(depends, maxDepth)
  {
    SpreadMembers(depends, Singles(depends), Growth(maxDepth), Yield(d));
    AllPathsAreGood(depends, maxDepth);
    var p: Path :| p in AllPaths(depends, maxDepth) && p != [] && Yield(d) == Outcome(p);
    assert FromPath(d, depends, p, maxDepth);
  }

  lemma PathIsTried(depends: seq<Edge>, maxDepth: int, p: Path)
    requires (forall e :: e in depends ==> e.source != e.target) && 2 <= |p| <= maxDepth && Good(depends, p, |p|)
    ensures Outcome(p) in PathsTrials(depends, maxDepth)
  {
    AllPathsAreGood(depends, maxDepth);
    SpreadMembers(depends, Singles(depends), Growth(maxDepth), Outcome(p));
  }

  ghost predicate Irreflexive(edges: seq<Edge>) {
    forall e :: e in edges ==> e.source != e.target
  }

  lemma TrialMembers(edges: seq<Edge>, known: map<Entity, RecordId>, maxDepth: int, t: Trial)
    ensures t in Trials(edges, known, maxDepth) <==>
              maxDepth >= 1 && (t in Reversals(Eligible(edges), Anchors(Eligible(edges), known))
                                || t in PathsTrials(Dependencies(Eligible(edges)), maxDepth))
  {
  }

  lemma TrialsAreJustified(edges: seq<Edge>, known: map<Entity, RecordId>, maxDepth: int, d: Derived)
    requires Irreflexive(edges) && Yield(d) in Trials(edges, known, maxDepth)
    ensures var pool := Eligible(edges); Justified(d, pool, Dependencies(pool), Anchors(pool, known), maxDepth)
    ensures ClaimOf(d) in AllClaims(edges, known, maxDepth)
  {
    var pool := Eligible(edges);
    var depends, anchors := Dependencies(pool), Anchors(pool, known);
    TrialMembers(edges, known, maxDepth, Yield(d));
    if Yield(d) in Reversals(pool, anchors) {
      ReversalMembers(pool, anchors, Yield(d));
      var e :| e in pool && e.kind == Contradicts && e.source in anchors && Yield(d) == Yield(ReverseAssertion(e, anchors[e.source]));
      assert FromReversal(d, pool, anchors, e);
    } else {
      YieldIsFromPath(depends, maxDepth, d);
      var p :| FromPath(d, depends, p, maxDepth) && p in AllPaths(depends, maxDepth);
      assert ClaimOf(d) == PathClaim(p);
    }
  }

  lemma OversizedStops(edges: seq<Edge>, known: map<Entity, RecordId>, maxDepth: int)
    requires Irreflexive(edges)
    ensures Excess in Trials(edges, known, maxDepth) <==> AnyOversized(edges, maxDepth)
  {
    var pool := Eligible(edges);
    TrialMembers(edges, known, maxDepth, Excess);
    ReversalMembers(pool, Anchors(pool, known), Excess);
    ExcessIsOversized(Dependencies(pool), maxDepth);
  }

  lemma PathClaimIsTried(edges: seq<Edge>, known: map<Entity, RecordId>, maxDepth: int, p: Path)
    requires Irreflexive(edges) && Excess !in Trials(edges, known, maxDepth)
    requires 2 <= |p| <= maxDepth && Good(Dependencies(Eligible(edges)), p, |p|)
    ensures Yield(PathAssertion(p)) in Trials(edges, known, maxDepth)
  {
    PathIsTried(Dependencies(Eligible(edges)), maxDepth, p);
    TrialMembers(edges, known, maxDepth, Outcome(p));
  }

  lemma ReversalIsTried(edges: seq<Edge>, known: map<Entity, RecordId>, maxDepth: int, e: Edge)
    requires var anchors := Anchors(Eligible(edges), known);
             maxDepth >= 1 && e in Eligible(edges) && e.kind == Contradicts && e.source in anchors
    ensures Yield(ReverseAssertion(e, Anchors(Eligible(edges), known)[e.source])) in Trials(edges, known, maxDepth)
  {
    var pool := Eligible(edges);
    var anchors := Anchors(pool, known);
    var t := Yield(ReverseAssertion(e, anchors[e.source]));
    ReversalMembers(pool, anchors, t);
    TrialMembers(edges, known, maxDepth, t);
  }

  /** The claims of the trials are all the edges support, but for those no edge could carry. */
  lemma ClaimsOfTrials(edges: seq<Edge>, known: map<Entity, RecordId>, maxDepth: int)
    requires Irreflexive(edges)
    ensures ClaimsIn(Trials(edges, known, maxDepth)) <= AllClaims(edges, known, maxDepth)
    ensures Excess !in Trials(edges, known, maxDepth) ==>
              ClaimsIn(Trials(edges, known, maxDepth)) == AllClaims(edges, known, maxDepth)
  {
    var ts := Trials(edges, known, maxDepth);
    forall c | c in ClaimsIn(ts) ensures c in AllClaims(edges, known, maxDepth) {
      var t :| t in ts && t.Yield? && ClaimOf(t.derived) == c;
      TrialsAreJustified(edges, known, maxDepth, t.derived);
    }
    if Excess !in ts {
      forall c | c in AllClaims(edges, known, maxDepth) ensures c in ClaimsIn(ts) {
        ClaimIsTried(edges, known, maxDepth, c);
      }
    }
  }

  lemma ClaimIsTried(edges: seq<Edge>, known: map<Entity, RecordId>, maxDepth: int, c: Claim)
    requires Irreflexive(edges) && Excess !in Trials(edges, known, maxDepth) && c in AllClaims(edges, known, maxDepth)
    ensures c in ClaimsIn(Trials(edges, known, maxDepth))
  {
    var pool := Eligible(edges);
    var depends, anchors := Dependencies(pool), Anchors(pool, known);
    if e :| e in pool && e.kind == Contradicts && e.source in anchors && c == Reversal(e.target, e.source) {
      ReversalIsTried(edges, known, maxDepth, e);
      assert ClaimOf(ReverseAssertion(e, anchors[e.source])) == c;
    } else {
      var p: Path :| p in AllPaths(depends, maxDepth) && p != [] && c == PathClaim(p);
      AllPathsAreGood(depends, maxDepth);
      PathClaimIsTried(edges, known, maxDepth, p);
      assert ClaimOf(PathAssertion(p)) == c;
    }
  }

  // ------------------------------------------------------------------- the main results

  /** Justified claims only, none of them twice. */
  ghost predicate Sound(derived: seq<Derived>, edges: seq<Edge>, known: map<Entity, RecordId>, maxDepth: int) {
    && Distinct(derived)
    && forall d :: d in derived ==>
         Justified(d, Eligible(edges), Dependencies(Eligible(edges)), Anchors(Eligible(edges), known), maxDepth)
  }

  /** Some assertion makes the path's claim, and is itself proved by a path. */
  ghost predicate CoversPath(derived: seq<Derived>, depends: seq<Edge>, maxDepth: int, p: Path)
    requires p != []
  {
    exists d, q :: d in derived && SameClaim(d, p) && FromPath(d, depends, q, maxDepth)
  }

  /** Some assertion reverses the edge, and has it or one between the same entities as its premise. */
  ghost predicate Reversed(derived: seq<Derived>, pool: seq<Edge>, anchors: map<Entity, RecordId>, e: Edge) {
    exists d, f :: d in derived && FromReversal(d, pool, anchors, f) && d.edge.source == e.target && d.edge.target == e.source
  }

  /** Every path up to the depth is claimed, and every anchored contradiction is reversed. */
  ghost predicate Complete(derived: seq<Derived>, edges: seq<Edge>, known: map<Entity, RecordId>, maxDepth: int) {
    && (forall p: Path :: 2 <= |p| <= maxDepth && Good(Dependencies(Eligible(edges)), p, |p|) ==>
          CoversPath(derived, Dependencies(Eligible(edges)), maxDepth, p))
    && (maxDepth >= 1 ==>
          forall e :: e in Eligible(edges) && e.kind == Contradicts && e.source in Anchors(Eligible(edges), known) ==>
            Reversed(derived, Eligible(edges), Anchors(Eligible(edges), known), e))
  }

  lemma DerivationIsSound(l: Limits, edges: seq<Edge>, known: map<Entity, RecordId>, maxDepth: int, w: Work)
    requires Irreflexive(edges) && w == Derivation(l, edges, known, maxDepth)
    ensures Sound(w.derived, edges, known, maxDepth)
    ensures |w.derived| <= Later(0, l.maxInferences) && w.comparisons <= Later(0, l.maxComparisons) + 1
    ensures w.comparisons <= FullWork(edges, maxDepth) && (!w.exceeded ==> w.comparisons == FullWork(edges, maxDepth))
  {
    var ts := Trials(edges, known, maxDepth);
    RunIsSteady(l, ts);
    TrialsCount(edges, known, maxDepth);
    forall d | d in w.derived
      ensures Justified(d, Eligible(edges), Dependencies(Eligible(edges)), Anchors(Eligible(edges), known), maxDepth)
    {
      TrialsAreJustified(edges, known, maxDepth, d);
    }
  }

  /** What a stopped derivation returns, and when it stops; what any derivation keeps. */
  lemma DerivationStops(l: Limits, edges: seq<Edge>, known: map<Entity, RecordId>, maxDepth: int, w: Work)
    requires w == Derivation(l, edges, known, maxDepth)
    ensures Stopped(l, Trials(edges, known, maxDepth), w.derived, w.comparisons, w.exceeded)
  {
    var ts := Trials(edges, known, maxDepth);
    RunIsSteady(l, ts);
    assert ClaimsMade(w.derived) == w.seen;
    forall d | d in w.derived ensures FirstOfItsClaim(d, ts) { FirstIsKept(l, ts, d); }
    if w.exceeded {
      StoppedRun(l, ts, w);
      forall k | StopsAt(l, ts, k) ensures w.comparisons - 1 <= k { StoppedFirst(l, ts, w, k); }
    } else {
      forall k ensures !StopsAt(l, ts, k) {
        if StopsAt(l, ts, k) { CauseRaisesFlag(l, ts, k); }
      }
    }
  }

  ghost predicate Stopped(l: Limits, ts: seq<Trial>, derived: seq<Derived>, comparisons: nat, exceeded: bool) {
    && (forall d :: d in derived ==> FirstOfItsClaim(d, ts))
    && (exceeded ==> && 1 <= comparisons <= |ts| && ClaimsMade(derived) == ClaimsIn(ts[..comparisons - 1])
                     && StopsAt(l, ts, comparisons - 1) && forall k :: StopsAt(l, ts, k) ==> comparisons - 1 <= k)
    && (!exceeded ==> comparisons == |ts| && ClaimsMade(derived) == ClaimsIn(ts) && forall k :: !StopsAt(l, ts, k))
  }

  lemma SeenIsDerived(l: Limits, w: Work, ts: seq<Trial>, d: Derived) returns (x: Derived)
    requires Steady(l, w, ts) && !w.exceeded && Yield(d) in ts
    ensures x in w.derived && ClaimOf(x) == ClaimOf(d) && Yield(x) in ts
  {
    assert ClaimOf(d) in ClaimsIn(ts);
    x :| x in w.derived && ClaimOf(x) == ClaimOf(d);
  }

  lemma PathIsCovered(l: Limits, w: Work, edges: seq<Edge>, known: map<Entity, RecordId>, maxDepth: int, p: Path)
    requires Irreflexive(edges) && Steady(l, w, Trials(edges, known, maxDepth)) && !w.exceeded
    requires 2 <= |p| <= maxDepth && Good(Dependencies(Eligible(edges)), p, |p|)
    ensures CoversPath(w.derived, Dependencies(Eligible(edges)), maxDepth, p)
  {
    PathClaimIsTried(edges, known, maxDepth, p);
    var x := SeenIsDerived(l, w, Trials(edges, known, maxDepth), PathAssertion(p));
    TrialsAreJustified(edges, known, maxDepth, x);
    JustifiedByPath(x, Eligible(edges), Dependencies(Eligible(edges)), Anchors(Eligible(edges), known), maxDepth, p, w.derived);
  }

  lemma JustifiedByPath(d: Derived, pool: seq<Edge>, depends: seq<Edge>, anchors: map<Entity, RecordId>, maxDepth: int, p: Path,
                        derived: seq<Derived>)
    requires Justified(d, pool, depends, anchors, maxDepth) && p != [] && ClaimOf(d) == PathClaim(p) && d in derived
    ensures CoversPath(derived, depends, maxDepth, p)
  {
    assert forall e :: !FromReversal(d, pool, anchors, e);
    var q :| FromPath(d, depends, q, maxDepth);
    assert SameClaim(d, p);
  }

  lemma EdgeIsReversed(l: Limits, w: Work, edges: seq<Edge>, known: map<Entity, RecordId>, maxDepth: int, e: Edge)
    requires Irreflexive(edges) && Steady(l, w, Trials(edges, known, maxDepth)) && !w.exceeded
    requires maxDepth >= 1 && e in Eligible(edges) && e.kind == Contradicts && e.source in Anchors(Eligible(edges), known)
    ensures Reversed(w.derived, Eligible(edges), Anchors(Eligible(edges), known), e)
  {
    var anchors := Anchors(Eligible(edges), known);
    ReversalIsTried(edges, known, maxDepth, e);
    var x := SeenIsDerived(l, w, Trials(edges, known, maxDepth), ReverseAssertion(e, anchors[e.source]));
    TrialsAreJustified(edges, known, maxDepth, x);
    JustifiedByReversal(x, Eligible(edges), Dependencies(Eligible(edges)), anchors, maxDepth, e, w.derived);
  }

  lemma JustifiedByReversal(d: Derived, pool: seq<Edge>, depends: seq<Edge>, anchors: map<Entity, RecordId>, maxDepth: int, e: Edge,
                            derived: seq<Derived>)
    requires Justified(d, pool, depends, anchors, maxDepth) && ClaimOf(d) == Reversal(e.target, e.source) && d in derived
    ensures Reversed(derived, pool, anchors, e)
  {
    assert forall p :: !FromPath(d, depends, p, maxDepth);
    var f :| FromReversal(d, pool, anchors, f);
  }

  lemma DerivationIsComplete(l: Limits, edges: seq<Edge>, known: map<Entity, RecordId>, maxDepth: int, w: Work)
    requires Irreflexive(edges) && w == Derivation(l, edges, known, maxDepth) && !w.exceeded
    ensures Complete(w.derived, edges, known, maxDepth)
  {
    RunIsSteady(l, Trials(edges, known, maxDepth));
    forall p: Path | 2 <= |p| <= maxDepth && Good(Dependencies(Eligible(edges)), p, |p|)
      ensures CoversPath(w.derived, Dependencies(Eligible(edges)), maxDepth, p)
    {
      PathIsCovered(l, w, edges, known, maxDepth, p);
    }
    forall e | maxDepth >= 1 && e in Eligible(edges) && e.kind == Contradicts && e.source in Anchors(Eligible(edges), known)
      ensures Reversed(w.derived, Eligible(edges), Anchors(Eligible(edges), known), e)
    {
      EdgeIsReversed(l, w, edges, known, maxDepth, e);
    }
  }

  /** When the flag is raised, in terms of the edges and the budgets alone. */
  lemma FlagIsExact(l: Limits, edges: seq<Edge>, known: map<Entity, RecordId>, maxDepth: int)
    requires Irreflexive(edges)
    ensures var flag, work, claims := Derivation(l, edges, known, maxDepth).exceeded, FullWork(edges, maxDepth), |AllClaims(edges, known, maxDepth)|;
            && (work > Later(0, l.maxComparisons) || AnyOversized(edges, maxDepth) ==> flag)
            && (work > 0 && claims > l.maxInferences ==> flag)
            && (flag ==> work > Later(0, l.maxComparisons) || AnyOversized(edges, maxDepth) || (work > 0 && claims >= l.maxInferences))
  {
    var ts := Trials(edges, known, maxDepth);
    TrialsCount(edges, known, maxDepth);
    OversizedStops(edges, known, maxDepth);
    ClaimsOfTrials(edges, known, maxDepth);
    SubsetSize(ClaimsIn(ts), AllClaims(edges, known, maxDepth));
    FlagByTotals(l, ts);
  }

  // ------------------------------------------------------------------------ reordering

  lemma AnchorsReordered(edges: seq<Edge>, others: seq<Edge>, known: map<Entity, RecordId>, key: Entity)
    requires multiset(edges) == multiset(others)
    ensures key in Anchors(edges, known) <==> key in Anchors(others, known)
  {
    AnchorKeys(edges, known, key);
    AnchorKeys(others, known, key);
    forall e ensures e in edges <==> e in others { SameElements(edges, others, e); }
  }

  lemma NextKeepsOrder(depends: seq<Edge>, others: seq<Edge>)
    requires multiset(depends) == multiset(others)
    ensures KeepsOrder(NextOf(depends), NextOf(others))
  {
    forall a: seq<Path>, b: seq<Path> | multiset(a) == multiset(b)
      ensures multiset(NextOf(depends)(a)) == multiset(NextOf(others)(b))
    {
      NextReordered(depends, others, a, b);
    }
  }

  lemma TriesKeepOrder(depends: seq<Edge>, others: seq<Edge>)
    requires multiset(depends) == multiset(others)
    ensures KeepsOrder(LevelTries(depends), LevelTries(others))
  {
    forall a: seq<Path>, b: seq<Path> | multiset(a) == multiset(b)
      ensures multiset(LevelTries(depends)(a)) == multiset(LevelTries(others)(b))
    {
      TriesReordered(depends, others, a, b);
    }
  }

  lemma PathsReordered(depends: seq<Edge>, others: seq<Edge>, maxDepth: int)
    requires multiset(depends) == multiset(others)
    ensures multiset(AllPaths(depends, maxDepth)) == multiset(AllPaths(others, maxDepth))
  {
    ConcatMapReordered(Alone(), depends, others);
    NextKeepsOrder(depends, others);
    LevelsReordered(NextOf(depends), NextOf(others), NextOf(depends), NextOf(others), Singles(depends), Singles(others), Growth(maxDepth));
  }

  lemma TriesCountReordered(depends: seq<Edge>, others: seq<Edge>, maxDepth: int)
    requires multiset(depends) == multiset(others)
    ensures |Tries(depends, Singles(depends), Growth(maxDepth))| == |Tries(others, Singles(others), Growth(maxDepth))|
  {
    ConcatMapReordered(Alone(), depends, others);
    NextKeepsOrder(depends, others);
    TriesKeepOrder(depends, others);
    LevelsReordered(NextOf(depends), NextOf(others), LevelTries(depends), LevelTries(others), Singles(depends), Singles(others), Growth(maxDepth));
    SameLength(Tries(depends, Singles(depends), Growth(maxDepth)), Tries(others, Singles(others), Growth(maxDepth)));
  }

  lemma SameLength(a: seq<Edge>, b: seq<Edge>)
    requires multiset(a) == multiset(b)
    ensures |a| == |b|
  {
    assert |a| == |multiset(a)| && |b| == |multiset(b)|;
  }

  lemma TriesReordered(depends: seq<Edge>, others: seq<Edge>, a: seq<Path>, b: seq<Path>)
    requires multiset(depends) == multiset(others) && multiset(a) == multiset(b)
    ensures multiset(LevelTries(depends)(a)) == multiset(LevelTries(others)(b))
  {
    ConcatMapReordered(ContinueAll(depends), a, b);
    forall p: Path ensures multiset(ContinueAll(depends)(p)) == multiset(ContinueAll(others)(p)) {
      ContinuationsReordered(depends, others, p);
    }
    ConcatMapRearranged(ContinueAll(depends), ContinueAll(others), b);
  }

  lemma WorkReordered(edges: seq<Edge>, others: seq<Edge>, maxDepth: int)
    requires multiset(edges) == multiset(others)
    ensures FullWork(edges, maxDepth) == FullWork(others, maxDepth)
  {
    FiltersReordered(edges, others);
    FiltersReordered(Eligible(edges), Eligible(others));
    SameLength(Eligible(edges), Eligible(others));
    TriesCountReordered(Dependencies(Eligible(edges)), Dependencies(Eligible(others)), maxDepth);
  }

  lemma AllClaimsReordered(edges: seq<Edge>, others: seq<Edge>, known: map<Entity, RecordId>, maxDepth: int)
    requires multiset(edges) == multiset(others)
    ensures AllClaims(edges, known, maxDepth) == AllClaims(others, known, maxDepth)
  {
    FiltersReordered(edges, others);
    var mine, theirs := Eligible(edges), Eligible(others);
    FiltersReordered(mine, theirs);
    PathsReordered(Dependencies(mine), Dependencies(theirs), maxDepth);
    ClaimsReordered(mine, theirs, AllPaths(Dependencies(mine), maxDepth), AllPaths(Dependencies(theirs), maxDepth), known);
  }

  lemma AnyOversizedReordered(edges: seq<Edge>, others: seq<Edge>, maxDepth: int)
    requires multiset(edges) == multiset(others)
    ensures AnyOversized(edges, maxDepth) <==> AnyOversized(others, maxDepth)
  {
    FiltersReordered(edges, others);
    FiltersReordered(Eligible(edges), Eligible(others));
    OversizedReordered(Dependencies(Eligible(edges)), Dependencies(Eligible(others)), maxDepth);
    OversizedReordered(Dependencies(Eligible(others)), Dependencies(Eligible(edges)), maxDepth);
  }

  /** Neither the full work, nor the claims, nor oversized proofs depend on the order of the edges. */
  lemma TotalsReordered(edges: seq<Edge>, others: seq<Edge>, known: map<Entity, RecordId>, maxDepth: int)
    requires multiset(edges) == multiset(others)
    ensures FullWork(edges, maxDepth) == FullWork(others, maxDepth)
    ensures AllClaims(edges, known, maxDepth) == AllClaims(others, known, maxDepth)
    ensures AnyOversized(edges, maxDepth) <==> AnyOversized(others, maxDepth)
  {
    WorkReordered(edges, others, maxDepth);
    AllClaimsReordered(edges, others, known, maxDepth);
    AnyOversizedReordered(edges, others, maxDepth);
  }

  lemma ClaimsReordered(mine: seq<Edge>, theirs: seq<Edge>, a: seq<Path>, b: seq<Path>, known: map<Entity, RecordId>)
    requires multiset(mine) == multiset(theirs) && multiset(a) == multiset(b)
    ensures (set e | e in mine && e.kind == Contradicts && e.source in Anchors(mine, known) :: Reversal(e.target, e.source))
            == set e | e in theirs && e.kind == Contradicts && e.source in Anchors(theirs, known) :: Reversal(e.target, e.source)
    ensures (set p | p in a && p != [] :: PathClaim(p)) == set p | p in b && p != [] :: PathClaim(p)
  {
    forall e ensures e in mine <==> e in theirs { SameElements(mine, theirs, e); }
    forall p ensures p in a <==> p in b { SameElements(a, b, p); }
    forall key ensures key in Anchors(mine, known) <==> key in Anchors(theirs, known) { AnchorsReordered(mine, theirs, known, key); }
  }

  lemma OversizedReordered(depends: seq<Edge>, others: seq<Edge>, maxDepth: int)
    requires multiset(depends) == multiset(others)
    ensures (exists p :: Oversized(depends, p, maxDepth)) ==> exists p :: Oversized(others, p, maxDepth)
  {
    forall e ensures e in depends <==> e in others { SameElements(depends, others, e); }
    if p :| Oversized(depends, p, maxDepth) { assert Oversized(others, p, maxDepth); }
  }

  /** Unless the claims exactly use up the inference budget, reordering the edges does not move the flag. */
  lemma FlagIsStable(l: Limits, edges: seq<Edge>, others: seq<Edge>, known: map<Entity, RecordId>, maxDepth: int)
    requires Irreflexive(edges) && multiset(edges) == multiset(others)
    requires |AllClaims(edges, known, maxDepth)| != l.maxInferences
    ensures Derivation(l, edges, known, maxDepth).exceeded == Derivation(l, others, known, maxDepth).exceeded
  {
    forall e ensures e in edges <==> e in others { SameElements(edges, others, e); }
    TotalsReordered(edges, others, known, maxDepth);
    FlagIsExact(l, edges, known, maxDepth);
    FlagIsExact(l, others, known, maxDepth);
  }
}
