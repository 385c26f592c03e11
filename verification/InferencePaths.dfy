/** Dependency paths over relation edges, the assertions they support, and the breadth-first frontiers. */
module InferencePaths {
  import opened Common
  import opened Lists
  import opened RelationModel

  type Path = seq<Edge>

  // --------------------------------------------------------------- reference notions

  /** Edges in `pool` joined end to end, through entities that are all different. */
  ghost predicate SimplePath(pool: seq<Edge>, p: Path) {
    && p != []
    && (forall i :: 0 <= i < |p| ==> p[i] in pool)
    && (forall i, j :: 0 <= i < j < |p| && j == i + 1 ==> p[i].target == p[j].source)
    && (forall i :: 0 <= i < |p| ==> p[i].target != p[0].source)
    && (forall i, j :: 0 <= i < j < |p| ==> p[i].target != p[j].target)
  }

  function From(p: Path): int
    requires p != []
  {
    if |p| == 1 then p[0].validFrom else Later(From(p[..|p| - 1]), p[|p| - 1].validFrom)
  }

  function Until(p: Path): Option<int>
    requires p != []
  {
    if |p| == 1 then p[0].validUntil else Earlier(Until(p[..|p| - 1]), p[|p| - 1].validUntil)
  }

  function Evidence(p: Path): set<EvidenceRef> {
    set i, ev | 0 <= i < |p| && ev in p[i].evidence :: ev
  }

  /** An instant lies in the path's interval exactly when every premise holds then. */
  lemma {:induction false} IntervalIsIntersection(p: Path, t: int)
    requires p != []
    ensures Within(From(p), Until(p), t) <==> forall i :: 0 <= i < |p| ==> Within(p[i].validFrom, p[i].validUntil, t)
    decreases |p|
  {
    if |p| > 1 {
      var q := p[..|p| - 1];
      IntervalIsIntersection(q, t);
      assert forall i :: 0 <= i < |q| ==> q[i] == p[i];
    }
  }

  ghost predicate Good(pool: seq<Edge>, p: Path, n: nat) {
    SimplePath(pool, p) && |p| == n && (n >= 2 ==> NonEmpty(From(p), Until(p)))
  }

  lemma PrefixIsGood(pool: seq<Edge>, p: Path, n: nat)
    requires Good(pool, p, n + 1) && n >= 1
    ensures Good(pool, p[..n], n) && p == p[..n] + [p[n]] && p[n - 1].target == p[n].source
  {
    var q := p[..n];
    assert forall i :: 0 <= i < |q| ==> q[i] == p[i];
  }

  // ---------------------------------------------------------------------- assertions

  datatype Rule = Symmetric | Transitive

  datatype Derived = Derived(edge: Edge, rule: Rule, premises: seq<RelationId>)

  function IdsOf(p: Path): seq<RelationId> {
    seq(|p|, i requires 0 <= i < |p| => IdOf(p[i]))
  }

  /** The assertion a dependency path supports. */
  function PathAssertion(p: Path): Derived
    requires p != []
  {
    var last := p[|p| - 1];
    Derived(Edge(DependsOn, p[0].source, last.target, last.targetRecord, Evidence(p), Proposed, From(p), Until(p)),
            Transitive, IdsOf(p))
  }

  /** The reversal of a contradiction, anchored at a known record of its source. */
  function ReverseAssertion(e: Edge, anchor: RecordId): Derived {
    Derived(Edge(Contradicts, e.target, e.source, anchor, e.evidence, Proposed, e.validFrom, e.validUntil),
            Symmetric, [IdOf(e)])
  }

  /** A proposed dependency between the path's ends, with the path's interval and all its evidence. */
  ghost predicate SameClaim(d: Derived, p: Path)
    requires p != []
  {
    && d.rule == Transitive && d.edge.kind == DependsOn && d.edge.status == Proposed
    && d.edge.source == p[0].source && d.edge.target == p[|p| - 1].target
    && d.edge.validFrom == From(p) && d.edge.validUntil == Until(p) && d.edge.evidence == Evidence(p)
  }

  /** It is proved by that very path: anchored at the record of its last edge, its edges named in order. */
  ghost predicate FromPath(d: Derived, pool: seq<Edge>, p: Path, maxDepth: int) {
    && 2 <= |p| <= maxDepth && Good(pool, p, |p|) && |Evidence(p)| <= 32
    && SameClaim(d, p) && d.edge.targetRecord == p[|p| - 1].targetRecord
    && |d.premises| == |p| && forall i :: 0 <= i < |p| ==> d.premises[i] == IdOf(p[i])
  }

  /** A proposed reversal of a live contradiction, anchored at a record known for its target, all else as in the premise. */
  ghost predicate FromReversal(d: Derived, pool: seq<Edge>, known: map<Entity, RecordId>, e: Edge) {
    && e in pool && e.kind == Contradicts && e.source in known
    && d.rule == Symmetric && d.edge.kind == Contradicts && d.edge.status == Proposed
    && d.edge.source == e.target && d.edge.target == e.source && d.edge.targetRecord == known[e.source]
    && d.edge.validFrom == e.validFrom && d.edge.validUntil == e.validUntil && d.edge.evidence == e.evidence
    && d.premises == [IdOf(e)]
  }

  ghost predicate Justified(d: Derived, eligible: seq<Edge>, depends: seq<Edge>, known: map<Entity, RecordId>, maxDepth: int) {
    || (exists e :: FromReversal(d, eligible, known, e))
    || (exists p :: FromPath(d, depends, p, maxDepth))
  }

  // ------------------------------------------------------------- derived edges are edges

  lemma {:induction false} SameScope(pool: seq<Edge>, p: Path, i: nat)
    requires SimplePath(pool, p) && (forall e :: e in pool ==> Admitted(e)) && i < |p|
    ensures p[i].target.scope == p[0].source.scope
    decreases i
  {
    assert p[i] in pool;
    if i > 0 {
      SameScope(pool, p, i - 1);
      assert p[i - 1].target == p[i].source;
    }
  }

  /** Every derived edge passes the validator of the edges it comes from. */
  lemma JustifiedIsAdmitted(d: Derived, eligible: seq<Edge>, depends: seq<Edge>, known: map<Entity, RecordId>, maxDepth: int)
    requires Justified(d, eligible, depends, known, maxDepth)
    requires forall e :: e in eligible || e in depends ==> Admitted(e)
    ensures Admitted(d.edge)
  {
    if e :| FromReversal(d, eligible, known, e) {
      assert Admitted(e);
    } else {
      var p: Path :| FromPath(d, depends, p, maxDepth);
      SameScope(depends, p, |p| - 1);
      assert p[|p| - 1].target != p[0].source;
      assert p[0] in depends && Admitted(p[0]);
      assert p[0].evidence <= Evidence(p);
      SubsetSize(p[0].evidence, Evidence(p));
    }
  }

  // --------------------------------------------------------------------------- filters

  function Eligible(edges: seq<Edge>): (r: seq<Edge>)
    ensures forall e :: e in r <==> e in edges && e.status != Rejected
  {
    if edges == [] then []
    else
      assert edges == [edges[0]] + edges[1..];
      (if edges[0].status != Rejected then [edges[0]] else []) + Eligible(edges[1..])
  }

  function Dependencies(edges: seq<Edge>): (r: seq<Edge>)
    ensures forall e :: e in r <==> e in edges && e.kind == DependsOn
  {
    if edges == [] then []
    else
      assert edges == [edges[0]] + edges[1..];
      (if edges[0].kind == DependsOn then [edges[0]] else []) + Dependencies(edges[1..])
  }

  /** Target records of the eligible edges, the last mention winning over earlier ones and the given map. */
  function Anchors(edges: seq<Edge>, known: map<Entity, RecordId>): map<Entity, RecordId> {
    if edges == [] then known
    else Anchors(edges[..|edges| - 1], known)[edges[|edges| - 1].target := edges[|edges| - 1].targetRecord]
  }

  // ---------------------------------------------------------------------------- claims

  /** What tells assertions apart. */
  datatype Claim = Reversal(source: Entity, target: Entity)
                 | Chain(source: Entity, target: Entity, from: int, until: Option<int>, evidence: set<EvidenceRef>)

  function ClaimOf(d: Derived): Claim {
    if d.rule == Symmetric then Reversal(d.edge.source, d.edge.target)
    else Chain(d.edge.source, d.edge.target, d.edge.validFrom, d.edge.validUntil, d.edge.evidence)
  }

  function PathClaim(p: Path): Claim
    requires p != []
  {
    Chain(p[0].source, p[|p| - 1].target, From(p), Until(p), Evidence(p))
  }

  /** No two assertions make the same claim. */
  ghost predicate Distinct(derived: seq<Derived>) {
    forall i, j :: 0 <= i < j < |derived| ==> ClaimOf(derived[i]) != ClaimOf(derived[j])
  }

  /** A proof with more evidence than an edge may carry. */
  ghost predicate Oversized(depends: seq<Edge>, p: Path, maxDepth: int) {
    2 <= |p| <= maxDepth && Good(depends, p, |p|) && |Evidence(p)| > 32
  }

  function Visited(p: Path): set<Entity>
    requires p != []
  {
    {p[0].source} + set i | 0 <= i < |p| :: p[i].target
  }

  /** The engine's two tests on one more edge. */
  predicate Extends(p: Path, c: Edge) {
    p != [] && c.target !in Visited(p) && NonEmpty(From(p + [c]), Until(p + [c]))
  }

  /** One more edge keeps a path good exactly when it passes them. */
  lemma ExtensionIsGood(pool: seq<Edge>, p: Path, c: Edge, n: nat)
    requires Good(pool, p, n) && n >= 1 && c in pool && c.source == p[n - 1].target
    ensures Good(pool, p + [c], n + 1) <==> Extends(p, c)
  {
    var q := p + [c];
    assert forall i :: 0 <= i < n ==> q[i] == p[i];
    assert q[n] == c && q[0] == p[0];
    if Good(pool, q, n + 1) {
      assert forall i :: 0 <= i < n ==> q[i].target != q[n].target;
      assert q[n].target != q[0].source;
    }
  }

  // ------------------------------------------------------------------------- frontiers

  function SourceIs(key: Entity): Edge -> seq<Edge> {
    (e: Edge) => if e.source == key then [e] else []
  }

  function FromEntity(depends: seq<Edge>, key: Entity): seq<Edge> {
    ConcatMap(SourceIs(key), depends)
  }

  /** The edges tried after a path, in edge order. */
  function Continuations(depends: seq<Edge>, p: Path): seq<Edge> {
    if p == [] then [] else FromEntity(depends, p[|p| - 1].target)
  }

  function ExtendWith(p: Path): Edge -> seq<Path> {
    (c: Edge) => if Extends(p, c) then [p + [c]] else []
  }

  function Extensions(depends: seq<Edge>, p: Path): seq<Path> {
    ConcatMap(ExtendWith(p), Continuations(depends, p))
  }

  function ExtendAll(depends: seq<Edge>): Path -> seq<Path> {
    (p: Path) => Extensions(depends, p)
  }

  function NextFrontier(depends: seq<Edge>, frontier: seq<Path>): seq<Path> {
    ConcatMap(ExtendAll(depends), frontier)
  }

  function Alone(): Edge -> seq<Path> {
    (e: Edge) => [[e]]
  }

  /** The frontier of single edges. */
  function Singles(depends: seq<Edge>): seq<Path> {
    ConcatMap(Alone(), depends)
  }

  /** The frontier is exactly the good paths of n edges. */
  ghost predicate IsFrontier(depends: seq<Edge>, frontier: seq<Path>, n: nat) {
    forall p: Path :: p in frontier <==> Good(depends, p, n)
  }

  lemma ContinuationMembers(depends: seq<Edge>, p: Path, c: Edge)
    ensures c in Continuations(depends, p) <==> p != [] && c in depends && c.source == p[|p| - 1].target
  {
    if p != [] { ConcatMapMember(SourceIs(p[|p| - 1].target), depends, c); }
  }

  lemma ExtensionMembers(depends: seq<Edge>, p: Path, q: Path)
    ensures q in Extensions(depends, p) <==>
              p != [] && exists c :: c in depends && c.source == p[|p| - 1].target && Extends(p, c) && q == p + [c]
  {
    ConcatMapMember(ExtendWith(p), Continuations(depends, p), q);
    forall c ensures c in Continuations(depends, p) <==> p != [] && c in depends && c.source == p[|p| - 1].target {
      ContinuationMembers(depends, p, c);
    }
  }

  /** Prefix closure: a good path is a good shorter one and an edge that passes the tests. */
  lemma GoodFromShorter(depends: seq<Edge>, frontier: seq<Path>, n: nat, p: Path)
    requires n >= 2 && Good(depends, p, n) && p[..n - 1] in frontier
    ensures p in NextFrontier(depends, frontier)
  {
    PrefixIsGood(depends, p, n - 1);
    var q := p[..n - 1];
    assert q[n - 2] == p[n - 2] && p[n - 1] in depends;
    ExtensionIsGood(depends, q, p[n - 1], n - 1);
    ExtensionMembers(depends, q, p);
    assert p in ExtendAll(depends)(q);
    ConcatMapMember(ExtendAll(depends), frontier, p);
  }

  lemma NextIsGood(depends: seq<Edge>, frontier: seq<Path>, n: nat, p: Path)
    requires n >= 2 && p in NextFrontier(depends, frontier) && forall q: Path :: q in frontier ==> Good(depends, q, n - 1)
    ensures Good(depends, p, n)
  {
    ConcatMapMember(ExtendAll(depends), frontier, p);
    var q: Path :| q in frontier && p in ExtendAll(depends)(q);
    ExtensionMembers(depends, q, p);
    var c :| c in depends && c.source == q[|q| - 1].target && Extends(q, c) && p == q + [c];
    ExtensionIsGood(depends, q, c, n - 1);
  }

  lemma SinglesAreFrontier(depends: seq<Edge>)
    requires forall e :: e in depends ==> e.source != e.target
    ensures IsFrontier(depends, Singles(depends), 1)
  {
    forall p: Path ensures p in Singles(depends) <==> Good(depends, p, 1) {
      ConcatMapMember(Alone(), depends, p);
      if Good(depends, p, 1) { assert p[0] in depends && p == [p[0]] && p in Alone()(p[0]); }
    }
  }

  lemma FrontierGrows(depends: seq<Edge>, frontier: seq<Path>, n: nat)
    requires n >= 1 && IsFrontier(depends, frontier, n)
    ensures IsFrontier(depends, NextFrontier(depends, frontier), n + 1)
  {
    forall p: Path ensures p in NextFrontier(depends, frontier) <==> Good(depends, p, n + 1) {
      if Good(depends, p, n + 1) {
        PrefixIsGood(depends, p, n);
        GoodFromShorter(depends, frontier, n + 1, p);
      }
      if p in NextFrontier(depends, frontier) { NextIsGood(depends, frontier, n + 1, p); }
    }
  }

  /** Once no path is left there is none of any greater length. */
  lemma {:induction false} NoLongerPaths(depends: seq<Edge>, n: nat, m: nat)
    requires 1 <= n <= m && forall p: Path :: !Good(depends, p, n)
    ensures forall p: Path :: !Good(depends, p, m)
    decreases m - n
  {
    if n < m {
      NoLongerPaths(depends, n, m - 1);
      forall p: Path ensures !Good(depends, p, m) {
        if Good(depends, p, m) { PrefixIsGood(depends, p, m - 1); }
      }
    }
  }

  // ------------------------------------------------------------------------ reordering

  lemma {:induction false} EligibleCount(edges: seq<Edge>, e: Edge)
    ensures multiset(Eligible(edges))[e] == if e.status == Rejected then 0 else multiset(edges)[e]
  {
    if edges != [] {
      EligibleCount(edges[1..], e);
      assert edges == [edges[0]] + edges[1..];
    }
  }

  lemma {:induction false} DependenciesCount(edges: seq<Edge>, e: Edge)
    ensures multiset(Dependencies(edges))[e] == if e.kind != DependsOn then 0 else multiset(edges)[e]
  {
    if edges != [] {
      DependenciesCount(edges[1..], e);
      assert edges == [edges[0]] + edges[1..];
    }
  }

  lemma FiltersReordered(edges: seq<Edge>, others: seq<Edge>)
    requires multiset(edges) == multiset(others)
    ensures multiset(Eligible(edges)) == multiset(Eligible(others))
    ensures multiset(Dependencies(edges)) == multiset(Dependencies(others))
  {
    forall e
      ensures multiset(Eligible(edges))[e] == multiset(Eligible(others))[e]
      ensures multiset(Dependencies(edges))[e] == multiset(Dependencies(others))[e]
    {
      EligibleCount(edges, e);
      EligibleCount(others, e);
      DependenciesCount(edges, e);
      DependenciesCount(others, e);
    }
  }

  /** Which records are known does not depend on the order of the edges. */
  lemma {:induction false} AnchorKeys(edges: seq<Edge>, known: map<Entity, RecordId>, key: Entity)
    ensures key in Anchors(edges, known) <==> key in known || exists e :: e in edges && e.target == key
  {
    if edges != [] {
      var init, last := edges[..|edges| - 1], edges[|edges| - 1];
      AnchorKeys(init, known, key);
      assert edges == init + [last];
    }
  }

  /** Each target is anchored at the record of the last edge that mentions it, else at the one given. */
  lemma {:induction false} AnchorIsLast(edges: seq<Edge>, known: map<Entity, RecordId>, k: nat)
    requires k < |edges| && forall j :: k < j < |edges| ==> edges[j].target != edges[k].target
    ensures edges[k].target in Anchors(edges, known) && Anchors(edges, known)[edges[k].target] == edges[k].targetRecord
    decreases |edges|
  {
    var init := edges[..|edges| - 1];
    if k < |init| { AnchorIsLast(init, known, k); }
  }

  lemma {:induction false} AnchorIsGiven(edges: seq<Edge>, known: map<Entity, RecordId>, key: Entity)
    requires key in known && forall e :: e in edges ==> e.target != key
    ensures key in Anchors(edges, known) && Anchors(edges, known)[key] == known[key]
  {
    if edges != [] {
      var init := edges[..|edges| - 1];
      assert edges == init + [edges[|edges| - 1]];
      AnchorIsGiven(init, known, key);
    }
  }

  lemma ContinuationsReordered(depends: seq<Edge>, others: seq<Edge>, p: Path)
    requires multiset(depends) == multiset(others)
    ensures multiset(Continuations(depends, p)) == multiset(Continuations(others, p))
    ensures multiset(Extensions(depends, p)) == multiset(Extensions(others, p))
  {
    if p != [] { ConcatMapReordered(SourceIs(p[|p| - 1].target), depends, others); }
    ConcatMapReordered(ExtendWith(p), Continuations(depends, p), Continuations(others, p));
  }

  lemma NextReordered(depends: seq<Edge>, others: seq<Edge>, mine: seq<Path>, theirs: seq<Path>)
    requires multiset(depends) == multiset(others) && multiset(mine) == multiset(theirs)
    ensures multiset(NextFrontier(depends, mine)) == multiset(NextFrontier(others, theirs))
  {
    ConcatMapReordered(ExtendAll(depends), mine, theirs);
    forall p: Path ensures multiset(ExtendAll(depends)(p)) == multiset(ExtendAll(others)(p)) {
      ContinuationsReordered(depends, others, p);
    }
    ConcatMapRearranged(ExtendAll(depends), ExtendAll(others), theirs);
  }
}
