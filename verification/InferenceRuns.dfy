/**
 The bounded derivation as a list of trials, one per comparison, consumed under two budgets; and
 when the budget flag is raised, in terms of the edges alone.
 */
module InferenceRuns {
  import opened Common
  import opened Lists
  import opened RelationModel
  import opened Contradictions
  import opened InferencePaths

  datatype Limits = Limits(maxInferences: int, maxComparisons: int)

  /** All conflicts if the budget covers every comparison, else those of exactly as many comparisons as it allows. */
  ghost predicate Detected(l: Limits, candidates: seq<Edge>, existing: seq<Edge>, conflicts: seq<Conflict>) {
    var most := Later(0, l.maxComparisons);
    && (Comparisons(candidates, |existing|) <= most ==> conflicts == Conflicts(candidates, existing))
    && (Comparisons(candidates, |existing|) > most ==>
          exists i, j :: FirstConflicts(candidates, existing, i, j, conflicts) && Comparisons(candidates[..i], |existing|) + j == most)
  }

  /** What one comparison can come to, budgets aside. */
  datatype Trial = Miss | Yield(derived: Derived) | Excess

  /** Assertions so far, their claims, the comparisons made and whether a budget ran out. */
  datatype Work = Work(derived: seq<Derived>, seen: set<Claim>, comparisons: nat, exceeded: bool)

  const NOTHING: Work := Work([], {}, 0, false)

  function Try(l: Limits, w: Work, t: Trial): Work {
    var c := w.(comparisons := w.comparisons + 1);
    if |w.derived| >= l.maxInferences || c.comparisons > l.maxComparisons then c.(exceeded := true)
    else
      match t
      case Miss => c
      case Excess => c.(exceeded := true)
      case Yield(d) =>
        if ClaimOf(d) in w.seen then c else c.(derived := w.derived + [d], seen := w.seen + {ClaimOf(d)})
  }

  /** Trial after trial, until the flag is raised. */
  function Run(l: Limits, w: Work, ts: seq<Trial>): Work {
    if ts == [] then w
    else
      var v := Run(l, w, ts[..|ts| - 1]);
      if v.exceeded then v else Try(l, v, ts[|ts| - 1])
  }

  lemma RunNext(l: Limits, w: Work, ts: seq<Trial>, t: Trial)
    ensures Run(l, w, ts + [t]) == if Run(l, w, ts).exceeded then Run(l, w, ts) else Try(l, Run(l, w, ts), t)
  {
    assert (ts + [t])[..|ts|] == ts;
  }

  lemma {:induction false} RunJoin(l: Limits, w: Work, a: seq<Trial>, b: seq<Trial>)
    ensures Run(l, w, a + b) == Run(l, Run(l, w, a), b)
    decreases |b|
  {
    if b == [] {
      assert a + b == a;
    } else {
      var init, last := b[..|b| - 1], b[|b| - 1];
      RunJoin(l, w, a, init);
      assert a + b == (a + init) + [last] && b == init + [last];
      RunNext(l, w, a + init, last);
    }
  }

  lemma {:induction false} RunStops(l: Limits, w: Work, ts: seq<Trial>)
    requires w.exceeded
    ensures Run(l, w, ts) == w
  {
    if ts != [] { RunStops(l, w, ts[..|ts| - 1]); }
  }

  // --------------------------------------------------------------------- which trials

  function Outcome(p: Path): Trial
    requires p != []
  {
    if |Evidence(p)| > MAX_EVIDENCE then Excess else Yield(PathAssertion(p))
  }

  function TrialOf(p: Path, c: Edge): Trial {
    if Extends(p, c) then Outcome(p + [c]) else Miss
  }

  function TryWith(p: Path): Edge -> seq<Trial> {
    (c: Edge) => [TrialOf(p, c)]
  }

  function PathTrials(depends: seq<Edge>, p: Path): seq<Trial> {
    ConcatMap(TryWith(p), Continuations(depends, p))
  }

  function TryAll(depends: seq<Edge>): Path -> seq<Trial> {
    (p: Path) => PathTrials(depends, p)
  }

  function LevelTrials(depends: seq<Edge>): seq<Path> -> seq<Trial> {
    (frontier: seq<Path>) => ConcatMap(TryAll(depends), frontier)
  }

  function NextOf(depends: seq<Edge>): seq<Path> -> seq<Path> {
    (frontier: seq<Path>) => NextFrontier(depends, frontier)
  }

  /** The trials of the next k levels. */
  function Spread(depends: seq<Edge>, frontier: seq<Path>, k: nat): seq<Trial> {
    Levels(NextOf(depends), LevelTrials(depends), frontier, k)
  }

  function ReverseWith(anchors: map<Entity, RecordId>): Edge -> seq<Trial> {
    (e: Edge) => [if e.kind == Contradicts && e.source in anchors then Yield(ReverseAssertion(e, anchors[e.source])) else Miss]
  }

  function Reversals(pool: seq<Edge>, anchors: map<Entity, RecordId>): seq<Trial> {
    ConcatMap(ReverseWith(anchors), pool)
  }

  /** How many times single edges are grown. */
  function Growth(maxDepth: int): nat {
    if maxDepth < 2 then 0 else maxDepth - 1
  }

  /** The trials of the second rule, for paths of two edges up to the depth. */
  function PathsTrials(depends: seq<Edge>, maxDepth: int): seq<Trial> {
    Spread(depends, Singles(depends), Growth(maxDepth))
  }

  /** Every comparison a derivation makes when no budget stops it, in order. */
  function Trials(edges: seq<Edge>, known: map<Entity, RecordId>, maxDepth: int): seq<Trial> {
    if maxDepth < 1 then []
    else
      var pool := Eligible(edges);
      Reversals(pool, Anchors(pool, known)) + PathsTrials(Dependencies(pool), maxDepth)
  }

  /** The bounded derivation. */
  function Derivation(l: Limits, edges: seq<Edge>, known: map<Entity, RecordId>, maxDepth: int): Work {
    Run(l, NOTHING, Trials(edges, known, maxDepth))
  }

  // --------------------------------------------------- its size and claims, from the edges

  function ContinueAll(depends: seq<Edge>): Path -> seq<Edge> {
    (p: Path) => Continuations(depends, p)
  }

  function LevelTries(depends: seq<Edge>): seq<Path> -> seq<Edge> {
    (frontier: seq<Path>) => ConcatMap(ContinueAll(depends), frontier)
  }

  /** Continuations tried in the next k levels. */
  function Tries(depends: seq<Edge>, frontier: seq<Path>, k: nat): seq<Edge> {
    Levels(NextOf(depends), LevelTries(depends), frontier, k)
  }

  /** Comparisons of an unstopped derivation: one per live edge, one per continuation of a path. */
  function FullWork(edges: seq<Edge>, maxDepth: int): nat {
    var pool := Eligible(edges);
    (if maxDepth < 1 then 0 else |pool|) + |Tries(Dependencies(pool), Singles(Dependencies(pool)), Growth(maxDepth))|
  }

  /** The paths built in the next k levels. */
  function Reached(depends: seq<Edge>, frontier: seq<Path>, k: nat): seq<Path> {
    Levels(NextOf(depends), NextOf(depends), frontier, k)
  }

  function AllPaths(depends: seq<Edge>, maxDepth: int): seq<Path> {
    Reached(depends, Singles(depends), Growth(maxDepth))
  }

  /** Every claim the edges support up to the depth. */
  function AllClaims(edges: seq<Edge>, known: map<Entity, RecordId>, maxDepth: int): set<Claim> {
    if maxDepth < 1 then {}
    else
      var pool := Eligible(edges);
      var anchors := Anchors(pool, known);
      (set e | e in pool && e.kind == Contradicts && e.source in anchors :: Reversal(e.target, e.source))
      + set p | p in AllPaths(Dependencies(pool), maxDepth) && p != [] :: PathClaim(p)
  }

  ghost predicate AnyOversized(edges: seq<Edge>, maxDepth: int) {
    exists p :: Oversized(Dependencies(Eligible(edges)), p, maxDepth)
  }

  ghost predicate GoodWithin(depends: seq<Edge>, paths: seq<Path>, lo: int, hi: int) {
    forall p: Path :: p in paths <==> lo <= |p| <= hi && Good(depends, p, |p|)
  }

  lemma {:induction false} LevelsAreGood(depends: seq<Edge>, next: seq<Path> -> seq<Path>, frontier: seq<Path>, n: nat, k: nat)
    requires n >= 1 && IsFrontier(depends, frontier, n)
    requires forall l, m: nat :: m >= 1 && IsFrontier(depends, l, m) ==> IsFrontier(depends, next(l), m + 1)
    ensures GoodWithin(depends, Levels(next, next, frontier, k), n + 1, n + k)
    decreases k
  {
    if k > 0 && frontier == [] {
      NothingWithin(depends, n, n + k);
    } else if k > 0 {
      LevelsAreGood(depends, next, next(frontier), n + 1, k - 1);
      OneLengthMore(depends, next(frontier), Levels(next, next, next(frontier), k - 1), n + 1, n + k);
    }
  }

  lemma ReachedAreGood(depends: seq<Edge>, frontier: seq<Path>, n: nat, k: nat)
    requires n >= 1 && IsFrontier(depends, frontier, n)
    ensures GoodWithin(depends, Reached(depends, frontier, k), n + 1, n + k)
  {
    forall l, m: nat | m >= 1 && IsFrontier(depends, l, m) ensures IsFrontier(depends, NextOf(depends)(l), m + 1) {
      FrontierGrows(depends, l, m);
    }
    LevelsAreGood(depends, NextOf(depends), frontier, n, k);
  }

  lemma NothingWithin(depends: seq<Edge>, n: nat, hi: nat)
    requires n >= 1 && IsFrontier(depends, [], n)
    ensures GoodWithin(depends, [], n + 1, hi)
  {
    forall p: Path ensures !(n + 1 <= |p| <= hi && Good(depends, p, |p|)) {
      if n + 1 <= |p| {
        assert forall q: Path :: q !in [] ==> !Good(depends, q, n);
        NoLongerPaths(depends, n, |p|);
      }
    }
  }

  lemma OneLengthMore(depends: seq<Edge>, frontier: seq<Path>, rest: seq<Path>, n: nat, hi: nat)
    requires IsFrontier(depends, frontier, n) && GoodWithin(depends, rest, n + 1, hi) && n <= hi
    ensures GoodWithin(depends, frontier + rest, n, hi)
  {
  }

  /** The search builds exactly the simple paths with a common interval, of two edges up to the depth. */
  lemma AllPathsAreGood(depends: seq<Edge>, maxDepth: int)
    requires forall e :: e in depends ==> e.source != e.target
    ensures GoodWithin(depends, AllPaths(depends, maxDepth), 2, 1 + Growth(maxDepth))
  {
    SinglesAreFrontier(depends);
    ReachedAreGood(depends, Singles(depends), 1, Growth(maxDepth));
  }

  lemma TrialHasPath(depends: seq<Edge>, q: Path, t: Trial)
    requires !t.Miss? && t in PathTrials(depends, q)
    ensures OutcomeOf(t, Extensions(depends, q))
  {
    ConcatMapMember(TryWith(q), Continuations(depends, q), t);
    var c :| c in Continuations(depends, q) && t in TryWith(q)(c);
    var p := q + [c];
    ConcatMapMember(ExtendWith(q), Continuations(depends, q), p);
    assert p in ExtendWith(q)(c);
  }

  lemma PathHasTrial(depends: seq<Edge>, q: Path, p: Path)
    requires p in Extensions(depends, q) && p != []
    ensures Outcome(p) in PathTrials(depends, q)
  {
    ConcatMapMember(ExtendWith(q), Continuations(depends, q), p);
    var c :| c in Continuations(depends, q) && p in ExtendWith(q)(c);
    ConcatMapMember(TryWith(q), Continuations(depends, q), Outcome(p));
    assert Outcome(p) in TryWith(q)(c);
  }

  lemma PathMembers(depends: seq<Edge>, q: Path, t: Trial)
    requires !t.Miss?
    ensures t in PathTrials(depends, q) <==> OutcomeOf(t, Extensions(depends, q))
  {
    if t in PathTrials(depends, q) { TrialHasPath(depends, q, t); }
    if p: Path :| p in Extensions(depends, q) && p != [] && t == Outcome(p) { PathHasTrial(depends, q, p); }
  }

  lemma LevelMembers(depends: seq<Edge>, frontier: seq<Path>, t: Trial)
    requires !t.Miss?
    ensures t in LevelTrials(depends)(frontier) <==> OutcomeOf(t, NextFrontier(depends, frontier))
  {
    ConcatMapMember(TryAll(depends), frontier, t);
    if q: Path :| q in frontier && t in TryAll(depends)(q) {
      PathMembers(depends, q, t);
      var p: Path :| p in Extensions(depends, q) && p != [] && t == Outcome(p);
      assert p in ExtendAll(depends)(q);
      ConcatMapMember(ExtendAll(depends), frontier, p);
    }
    if p: Path :| p in NextFrontier(depends, frontier) && p != [] && t == Outcome(p) {
      ConcatMapMember(ExtendAll(depends), frontier, p);
      var q: Path :| q in frontier && p in ExtendAll(depends)(q);
      PathMembers(depends, q, t);
      assert t in TryAll(depends)(q);
    }
  }

  ghost predicate OutcomeOf(t: Trial, paths: seq<Path>) {
    exists p: Path :: p in paths && p != [] && t == Outcome(p)
  }

  /** Trials other than misses are the outcomes of the paths built. */
  lemma SpreadMembers(depends: seq<Edge>, frontier: seq<Path>, k: nat, t: Trial)
    requires !t.Miss?
    ensures t in Spread(depends, frontier, k) <==> OutcomeOf(t, Reached(depends, frontier, k))
  {
    var test := (p: Path) => p != [] && t == Outcome(p);
    forall l: seq<Path> ensures t in LevelTrials(depends)(l) <==> AnyIn(NextOf(depends)(l), test) {
      LevelMembers(depends, l, t);
    }
    LevelsMember(NextOf(depends), LevelTrials(depends), NextOf(depends), frontier, k, t, test);
  }

  lemma ReversalMembers(pool: seq<Edge>, anchors: map<Entity, RecordId>, t: Trial)
    requires !t.Miss?
    ensures t in Reversals(pool, anchors) <==>
              exists e :: e in pool && e.kind == Contradicts && e.source in anchors && t == Yield(ReverseAssertion(e, anchors[e.source]))
  {
    ConcatMapMember(ReverseWith(anchors), pool, t);
    if e :| e in pool && e.kind == Contradicts && e.source in anchors && t == Yield(ReverseAssertion(e, anchors[e.source])) {
      assert t in ReverseWith(anchors)(e);
    }
  }

  lemma LevelCount(depends: seq<Edge>, frontier: seq<Path>)
    ensures |LevelTrials(depends)(frontier)| == |LevelTries(depends)(frontier)|
  {
    forall p: Path ensures |TryAll(depends)(p)| == |ContinueAll(depends)(p)| {
      ConcatMapOnes(TryWith(p), Continuations(depends, p));
    }
    ConcatMapLength(TryAll(depends), ContinueAll(depends), frontier);
  }

  lemma SpreadCount(depends: seq<Edge>, frontier: seq<Path>, k: nat)
    ensures |Spread(depends, frontier, k)| == |Tries(depends, frontier, k)|
  {
    forall l: seq<Path> ensures |LevelTrials(depends)(l)| == |LevelTries(depends)(l)| { LevelCount(depends, l); }
    LevelsLength(NextOf(depends), LevelTrials(depends), LevelTries(depends), frontier, k);
  }

  lemma ReversalCount(pool: seq<Edge>, anchors: map<Entity, RecordId>)
    ensures |Reversals(pool, anchors)| == |pool|
  {
    ConcatMapOnes(ReverseWith(anchors), pool);
  }

  lemma PathsCount(depends: seq<Edge>, maxDepth: int)
    ensures |PathsTrials(depends, maxDepth)| == |Tries(depends, Singles(depends), Growth(maxDepth))|
  {
    SpreadCount(depends, Singles(depends), Growth(maxDepth));
  }

  lemma TrialsCount(edges: seq<Edge>, known: map<Entity, RecordId>, maxDepth: int)
    ensures |Trials(edges, known, maxDepth)| == FullWork(edges, maxDepth)
  {
    var pool := Eligible(edges);
    ReversalCount(pool, Anchors(pool, known));
    PathsCount(Dependencies(pool), maxDepth);
  }
}
