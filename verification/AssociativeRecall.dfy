/** Evidence recall expanded through what the items found name, under depth and size limits. */
module AssociativeRecall {
  import opened Common

  /** Evidence with the names it is associated by; a recalled item carries its depth and query. */
  datatype Item = Item(id: string, entityName: string, topic: string, association: Option<(nat, string)>)

  /** The retriever for one bucket and query limit, and the text functions on names. */
  datatype Retrieval = Retrieval(recall: string -> seq<Item>, strip: string -> string, fold: string -> string)

  datatype Issue = Issue(depth: nat, query: string)

  predicate Names(r: Retrieval, x: Item, q: string) {
    q != "" && (q == r.strip(x.entityName) || q == r.strip(x.topic))
  }

  ghost predicate NamedBy(r: Retrieval, items: seq<Item>, q: string) {
    exists k :: 0 <= k < |items| && Names(r, items[k], q)
  }

  function Tag(x: Item, depth: nat, query: string): Item {
    x.(association := Some((depth, query)))
  }

  /** Seed items are at depth zero, recalled ones at the depth they carry. */
  ghost predicate At(seed: seq<Item>, result: seq<Item>, x: Item, d: nat) {
    || (d == 0 && x in seed)
    || (d > 0 && x in result && x.association.Some? && x.association.value.0 == d)
  }

  ghost predicate HasId(items: seq<Item>, id: string) {
    exists k :: 0 <= k < |items| && items[k].id == id
  }

  /** The id is a seed's, or was recalled at no more than the depth. */
  ghost predicate FoundBy(seed: seq<Item>, result: seq<Item>, id: string, d: nat) {
    || HasId(seed, id)
    || exists k :: 0 <= k < |result| && result[k].id == id && result[k].association.Some? && result[k].association.value.0 <= d
  }

  ghost predicate Issued(issued: seq<Issue>, depth: nat, query: string) {
    exists i :: 0 <= i < |issued| && issued[i] == Issue(depth, query)
  }

  /** Recalled by an issued query that an item one level up names. */
  ghost predicate Provenance(r: Retrieval, seed: seq<Item>, result: seq<Item>, issued: seq<Issue>, x: Item) {
    && x.association.Some?
    && var (d, q) := x.association.value;
       && d >= 1 && Issued(issued, d, q)
       && (exists raw :: raw in r.recall(q) && x == Tag(raw, d, q))
       && (exists parent :: At(seed, result, parent, d - 1) && Names(r, parent, q))
  }

  /** What every state of the search keeps. */
  ghost predicate Sound(r: Retrieval, seed: seq<Item>, result: seq<Item>, issued: seq<Issue>) {
    && (forall i, j :: 0 <= i < j < |result| ==> result[i].id != result[j].id)
    && (forall i :: 0 <= i < |result| ==> !HasId(seed, result[i].id))
    && (forall i {:trigger Provenance(r, seed, result, issued, result[i])} ::
          0 <= i < |result| ==> Provenance(r, seed, result, issued, result[i]))
    && (forall i, j :: 0 <= i < j < |issued| ==> r.fold(issued[i].query) != r.fold(issued[j].query))
  }

  /** A query equal up to case was issued at no more than the depth. */
  ghost predicate Asked(r: Retrieval, issued: seq<Issue>, q: string, d: nat) {
    exists i :: 0 <= i < |issued| && r.fold(issued[i].query) == r.fold(q) && issued[i].depth <= d
  }

  ghost predicate AskedUpTo(r: Retrieval, seed: seq<Item>, result: seq<Item>, issued: seq<Issue>, depth: int) {
    forall x, e: nat, q :: At(seed, result, x, e) && e < depth && Names(r, x, q) ==> Asked(r, issued, q, e + 1)
  }

  ghost predicate Answered(r: Retrieval, seed: seq<Item>, result: seq<Item>, i: Issue) {
    forall y :: y in r.recall(i.query) ==> FoundBy(seed, result, y.id, i.depth)
  }

  /** Every name below the depth limit was asked for, and every answer was kept. */
  ghost predicate Exhausted(r: Retrieval, seed: seq<Item>, result: seq<Item>, issued: seq<Issue>, maxDepth: int) {
    && AskedUpTo(r, seed, result, issued, maxDepth)
    && AllAnswered(r, seed, result, issued)
  }

  ghost predicate DepthsBelow(result: seq<Item>, d: nat) {
    forall k :: 0 <= k < |result| ==> result[k].association.Some? && result[k].association.value.0 <= d
  }

  /** Nearer items come first. */
  ghost predicate NearestFirst(result: seq<Item>) {
    forall i, j :: 0 <= i < j < |result| ==>
      && result[i].association.Some? && result[j].association.Some?
      && result[i].association.value.0 <= result[j].association.value.0
  }

  lemma LevelsFollow(base: seq<Item>, result: seq<Item>, depth: nat)
    requires NearestFirst(base) && base <= result && depth >= 1 && DepthsBelow(base, depth - 1)
    requires forall k :: |base| <= k < |result| ==> result[k].association.Some? && result[k].association.value.0 == depth
    ensures NearestFirst(result)
  {
  }

  // ---------------------------------------------------------------- exact characterisation

  /** Names a query, and the answer contains the other item. */
  ghost predicate Leads(r: Retrieval, x: Item, y: Item) {
    exists q :: Names(r, x, q) && y in r.recall(q)
  }

  ghost predicate Chain(r: Retrieval, seed: seq<Item>, chain: seq<Item>) {
    chain != [] && chain[0] in seed && forall i, j :: 0 <= i < j < |chain| && j == i + 1 ==> Leads(r, chain[i], chain[j])
  }

  /** Retrieval ignores case, and an id stands for one item. */
  ghost predicate Consistent(r: Retrieval, seed: seq<Item>) {
    && (forall p, q :: r.fold(p) == r.fold(q) ==> r.recall(p) == r.recall(q))
    && (forall p, q, x, y :: x in r.recall(p) && y in r.recall(q) && x.id == y.id ==> SameNames(x, y))
    && (forall x, y :: x in seed && y in seed && x.id == y.id ==> SameNames(x, y))
    && (forall q, x, y :: x in seed && y in r.recall(q) && x.id == y.id ==> SameNames(x, y))
  }

  predicate SameNames(x: Item, y: Item) {
    x.entityName == y.entityName && x.topic == y.topic
  }

  /** A chain of associations no longer than the depth limit ends at an item that was found. */
  lemma {:induction false} ChainsAreFound(r: Retrieval, seed: seq<Item>, result: seq<Item>, issued: seq<Issue>, maxDepth: int,
                                          chain: seq<Item>)
    requires Sound(r, seed, result, issued) && Exhausted(r, seed, result, issued, maxDepth) && Consistent(r, seed)
    requires Chain(r, seed, chain) && |chain| - 1 <= maxDepth
    ensures FoundBy(seed, result, chain[|chain| - 1].id, |chain| - 1)
    decreases |chain|
  {
    var n := |chain| - 1;
    if n == 0 {
      var k :| 0 <= k < |seed| && seed[k] == chain[0];
      assert HasId(seed, chain[0].id);
    } else {
      var init := chain[..n];
      ChainsAreFound(r, seed, result, issued, maxDepth, init);
      var x, y := chain[n - 1], chain[n];
      assert init[|init| - 1] == x && Leads(r, x, y);
      var q :| Names(r, x, q) && y in r.recall(q);
      var source := if n - 1 == 0 then "" else FromQuery(r, seed, chain, n - 1);
      var z, e := StandIn(r, seed, result, issued, x, source, n - 1);
      assert Names(r, z, q) && Asked(r, issued, q, e + 1);
      var i :| 0 <= i < |issued| && r.fold(issued[i].query) == r.fold(q) && issued[i].depth <= e + 1;
      assert Answered(r, seed, result, issued[i]) && y in r.recall(issued[i].query);
    }
  }

  /** The item kept under the id of a chain's element, which names the same. */
  lemma StandIn(r: Retrieval, seed: seq<Item>, result: seq<Item>, issued: seq<Issue>, x: Item, source: string, n: nat)
    returns (z: Item, e: nat)
    requires Sound(r, seed, result, issued) && Consistent(r, seed) && FoundBy(seed, result, x.id, n)
    requires x in seed || x in r.recall(source)
    ensures At(seed, result, z, e) && e <= n && SameNames(z, x)
  {
    if HasId(seed, x.id) {
      var k :| 0 <= k < |seed| && seed[k].id == x.id;
      z, e := seed[k], 0;
      SeedNames(r, seed, z, x, source);
    } else {
      var k :| 0 <= k < |result| && result[k].id == x.id && result[k].association.Some? && result[k].association.value.0 <= n;
      z, e := result[k], result[k].association.value.0;
      assert Provenance(r, seed, result, issued, result[k]);
      NotASeed(seed, x);
      ResultNames(r, seed, result, issued, z, x, source);
    }
  }

  lemma SeedNames(r: Retrieval, seed: seq<Item>, z: Item, x: Item, source: string)
    requires Consistent(r, seed) && z in seed && z.id == x.id && (x in seed || x in r.recall(source))
    ensures SameNames(z, x)
  {
  }

  lemma ResultNames(r: Retrieval, seed: seq<Item>, result: seq<Item>, issued: seq<Issue>, z: Item, x: Item, source: string)
    requires Consistent(r, seed) && Provenance(r, seed, result, issued, z) && z.id == x.id && x in r.recall(source)
    ensures SameNames(z, x)
  {
    RawOf(r, seed, result, issued, z);
    var q := z.association.value.1;
    var raw :| raw in r.recall(q) && SameNames(raw, z) && raw.id == z.id;
    RecalledNames(r, seed, raw, x, q, source);
  }

  lemma RecalledNames(r: Retrieval, seed: seq<Item>, x: Item, y: Item, p: string, q: string)
    requires Consistent(r, seed) && x in r.recall(p) && y in r.recall(q) && x.id == y.id
    ensures SameNames(x, y)
  {
  }

  lemma RawOf(r: Retrieval, seed: seq<Item>, result: seq<Item>, issued: seq<Issue>, z: Item)
    requires Provenance(r, seed, result, issued, z)
    ensures exists raw :: raw in r.recall(z.association.value.1) && SameNames(raw, z) && raw.id == z.id
  {
    var (d, q) := z.association.value;
    var raw :| raw in r.recall(q) && z == Tag(raw, d, q);
    assert SameNames(raw, z);
  }

  lemma NotASeed(seed: seq<Item>, x: Item)
    requires !HasId(seed, x.id)
    ensures x !in seed
  {
    assert forall k :: 0 <= k < |seed| ==> seed[k].id != x.id;
  }

  ghost function FromQuery(r: Retrieval, seed: seq<Item>, chain: seq<Item>, n: nat): (q: string)
    requires Chain(r, seed, chain) && 0 < n < |chain|
    ensures chain[n] in r.recall(q)
  {
    assert Leads(r, chain[n - 1], chain[n]);
    var q :| Names(r, chain[n - 1], q) && chain[n] in r.recall(q);
    q
  }

  lemma ExtendChain(r: Retrieval, seed: seq<Item>, chain: seq<Item>, y: Item)
    requires Chain(r, seed, chain) && Leads(r, chain[|chain| - 1], y)
    ensures Chain(r, seed, chain + [y])
  {
    var longer := chain + [y];
    forall i, j | 0 <= i < j < |longer| && j == i + 1 ensures Leads(r, longer[i], longer[j]) {
      if j < |chain| { assert Leads(r, chain[i], chain[j]); }
    }
  }

  /** Whatever was found ends such a chain: the search finds nothing else. */
  lemma {:induction false} FoundAreChains(r: Retrieval, seed: seq<Item>, result: seq<Item>, issued: seq<Issue>, x: Item, d: nat)
    returns (chain: seq<Item>)
    requires Sound(r, seed, result, issued) && At(seed, result, x, d)
    ensures Chain(r, seed, chain) && |chain| == d + 1
    ensures chain[d].id == x.id && SameNames(chain[d], x)
    decreases d
  {
    if d == 0 {
      chain := [x];
    } else {
      var k :| 0 <= k < |result| && result[k] == x;
      assert Provenance(r, seed, result, issued, result[k]);
      var q := x.association.value.1;
      var raw :| raw in r.recall(q) && x == Tag(raw, d, q);
      var parent :| At(seed, result, parent, d - 1) && Names(r, parent, q);
      var before := FoundAreChains(r, seed, result, issued, parent, d - 1);
      assert Names(r, before[d - 1], q) && Leads(r, before[d - 1], raw);
      ExtendChain(r, seed, before, raw);
      chain := before + [raw];
    }
  }

  /**
   With consistent retrieval, a search that did not fill up has found exactly the ids at the end of
   a chain of associations from the seed no longer than the depth limit.
   */
  lemma FindsExactlyTheReachable(r: Retrieval, seed: seq<Item>, result: seq<Item>, issued: seq<Issue>, maxDepth: nat, id: string)
    requires Sound(r, seed, result, issued) && DepthsBelow(result, maxDepth)
    requires Exhausted(r, seed, result, issued, maxDepth) && Consistent(r, seed)
    ensures HasId(seed, id) || HasId(result, id) <==>
              exists chain: seq<Item> :: Chain(r, seed, chain) && |chain| <= maxDepth + 1 && chain[|chain| - 1].id == id
  {
    if HasId(seed, id) || HasId(result, id) {
      var x, d := Standing(r, seed, result, issued, maxDepth, id);
      var chain := FoundAreChains(r, seed, result, issued, x, d);
      assert Chain(r, seed, chain) && chain[|chain| - 1].id == id;
    }
    if chain: seq<Item> :| Chain(r, seed, chain) && |chain| <= maxDepth + 1 && chain[|chain| - 1].id == id {
      ChainsAreFound(r, seed, result, issued, maxDepth, chain);
    }
  }

  lemma Standing(r: Retrieval, seed: seq<Item>, result: seq<Item>, issued: seq<Issue>, maxDepth: nat, id: string)
    returns (x: Item, d: nat)
    requires Sound(r, seed, result, issued) && DepthsBelow(result, maxDepth) && (HasId(seed, id) || HasId(result, id))
    ensures At(seed, result, x, d) && d <= maxDepth && x.id == id
  {
    if HasId(seed, id) {
      var k :| 0 <= k < |seed| && seed[k].id == id;
      x, d := seed[k], 0;
    } else {
      var k :| 0 <= k < |result| && result[k].id == id;
      assert Provenance(r, seed, result, issued, result[k]);
      x, d := result[k], result[k].association.value.0;
    }
  }

  // ------------------------------------------------------------------------- the search

  ghost predicate IdsSeen(seen: set<string>, seed: seq<Item>, result: seq<Item>) {
    forall id :: id in seen <==> HasId(seed, id) || HasId(result, id)
  }

  ghost predicate QueriesSeen(r: Retrieval, seen: set<string>, issued: seq<Issue>) {
    && (forall i :: 0 <= i < |issued| ==> r.fold(issued[i].query) in seen)
    && (forall f :: f in seen ==> exists i :: 0 <= i < |issued| && r.fold(issued[i].query) == f)
  }

  class BoundedAssociativeRecall {
    const r: Retrieval
    const maxDepth: nat
    const totalLimit: nat

    constructor (r: Retrieval, maxDepth: nat, totalLimit: nat)
      ensures this.r == r && this.maxDepth == maxDepth && this.totalLimit == totalLimit
    {
      this.r, this.maxDepth, this.totalLimit := r, maxDepth, totalLimit;
    }

    /** The validated constructor: depth 0 to 2, limits of at least one. */
    static method Create(r: Retrieval, maxDepth: int, perQueryLimit: int, totalLimit: int) returns (e: Option<BoundedAssociativeRecall>)
      ensures e.Some? <==> 0 <= maxDepth <= 2 && perQueryLimit >= 1 && totalLimit >= 1
      ensures e.Some? ==> e.value.r == r && e.value.maxDepth == maxDepth && e.value.totalLimit == totalLimit
    {
      if maxDepth < 0 || maxDepth > 2 || perQueryLimit < 1 || totalLimit < 1 { return None; }
      var made := new BoundedAssociativeRecall(r, maxDepth, totalLimit);
      e := Some(made);
    }

    /** The names of the items not asked for yet, in order, equal ones up to case once. */
    method AssociationQueries(items: seq<Item>, seen: set<string>) returns (queries: seq<string>, after: set<string>)
      ensures seen <= after
      ensures forall f :: f in after <==> f in seen || exists k :: 0 <= k < |queries| && r.fold(queries[k]) == f
      ensures forall i, j :: 0 <= i < j < |queries| ==> r.fold(queries[i]) != r.fold(queries[j])
      ensures forall k :: 0 <= k < |queries| ==> r.fold(queries[k]) !in seen && NamedBy(r, items, queries[k])
      ensures forall x, q :: x in items && Names(r, x, q) ==> r.fold(q) in after
    {
      queries, after := [], seen;
      var n := 0;
      while n < |items|
        invariant 0 <= n <= |items| && seen <= after
        invariant forall f :: f in after <==> f in seen || exists k :: 0 <= k < |queries| && r.fold(queries[k]) == f
        invariant forall i, j :: 0 <= i < j < |queries| ==> r.fold(queries[i]) != r.fold(queries[j])
        invariant forall k :: 0 <= k < |queries| ==> r.fold(queries[k]) !in seen && NamedBy(r, items, queries[k])
        invariant forall m, q :: 0 <= m < n && Names(r, items[m], q) ==> r.fold(q) in after
      {
        queries, after := AddName(items, n, r.strip(items[n].entityName), seen, queries, after);
        queries, after := AddName(items, n, r.strip(items[n].topic), seen, queries, after);
        n := n + 1;
      }
    }

    method AddName(items: seq<Item>, n: nat, value: string, seen: set<string>, queries: seq<string>, before: set<string>)
      returns (more: seq<string>, after: set<string>)
      requires n < |items| && (value != "" ==> Names(r, items[n], value)) && seen <= before
      requires forall f :: f in before <==> f in seen || exists k :: 0 <= k < |queries| && r.fold(queries[k]) == f
      requires forall i, j :: 0 <= i < j < |queries| ==> r.fold(queries[i]) != r.fold(queries[j])
      requires forall k :: 0 <= k < |queries| ==> r.fold(queries[k]) !in seen && NamedBy(r, items, queries[k])
      ensures before <= after && (value != "" ==> r.fold(value) in after)
      ensures forall f :: f in after <==> f in seen || exists k :: 0 <= k < |more| && r.fold(more[k]) == f
      ensures forall i, j :: 0 <= i < j < |more| ==> r.fold(more[i]) != r.fold(more[j])
      ensures forall k :: 0 <= k < |more| ==> r.fold(more[k]) !in seen && NamedBy(r, items, more[k])
    {
      more, after := queries, before;
      if value != "" && r.fold(value) !in before {
        after := before + {r.fold(value)};
        more := queries + [value];
        assert more[|queries|] == value;
        assert forall k :: 0 <= k < |queries| ==> more[k] == queries[k];
      }
    }

    /** Keeps the new items of one answer; stops when the result is full. */
    method Absorb(recalled: seq<Item>, depth: nat, query: string, so: seq<Item>, frontier: seq<Item>, seen: set<string>,
                  ghost base: seq<Item>, ghost seed: seq<Item>, ghost issued: seq<Issue>, ghost parent: Item)
      returns (result: seq<Item>, next: seq<Item>, ids: set<string>)
      requires recalled == r.recall(query) && depth >= 1 && |so| < totalLimit
      requires Gathering(r, seed, base, so, issued, frontier, seen, depth) && Issued(issued, depth, query)
      requires At(seed, so, parent, depth - 1) && Names(r, parent, query)
      ensures so <= result && |result| <= totalLimit && Gathering(r, seed, base, result, issued, next, ids, depth)
      ensures |result| < totalLimit ==> Answered(r, seed, result, Issue(depth, query))
    {
      result, next, ids := so, frontier, seen;
      var n := 0;
      while n < |recalled|
        invariant 0 <= n <= |recalled| && so <= result && |result| < totalLimit
        invariant Gathering(r, seed, base, result, issued, next, ids, depth)
        invariant AllFound(seed, result, recalled[..n], depth)
      {
        var item := recalled[n];
        assert recalled[..n + 1] == recalled[..n] + [item];
        if item.id !in ids {
          AtLater(seed, so, result, parent, depth - 1);
          GatherOne(r, seed, base, result, issued, next, ids, item, depth, query, parent);
          FoundLater(seed, result, recalled[..n], Tag(item, depth, query), depth);
          ids := ids + {item.id};
          result := result + [Tag(item, depth, query)];
          next := next + [Tag(item, depth, query)];
          if |result| >= totalLimit { return; }
        } else {
          SeenIsFound(seed, result, item.id, depth);
        }
        n := n + 1;
      }
      assert recalled[..n] == recalled;
    }

    /**
     The expansion. Sound and within the limit always; when it returns less than the limit it is
     exhaustive: each name below the depth limit was asked for and each answer kept.
     */
    method Expand(seed: seq<Item>) returns (result: seq<Item>, ghost issued: seq<Issue>)
      requires totalLimit >= 1
      ensures |result| <= totalLimit && Sound(r, seed, result, issued) && DepthsBelow(result, maxDepth)
      ensures forall i :: 0 <= i < |issued| ==> 1 <= issued[i].depth <= maxDepth
      ensures NearestFirst(result)
      ensures |result| < totalLimit ==> Exhausted(r, seed, result, issued, maxDepth)
    {
      result, issued := [], [];
      if maxDepth == 0 || seed == [] { return; }
      var ids := set x | x in seed :: x.id;
      assert IdsSeen(ids, seed, result);
      var seenQueries: set<string> := {};
      var frontier := seed;
      var depth := 1;
      while depth <= maxDepth
        invariant 1 <= depth <= maxDepth + 1 && |result| < totalLimit
        invariant Sound(r, seed, result, issued) && IdsSeen(ids, seed, result) && DepthsBelow(result, depth - 1)
        invariant QueriesSeen(r, seenQueries, issued) && NearestFirst(result)
        invariant forall i :: 0 <= i < |issued| ==> 1 <= issued[i].depth < depth
        invariant forall x :: x in frontier <==> At(seed, result, x, depth - 1)
        invariant Exhausted(r, seed, result, issued, depth - 1)
      {
        var queries, after := AssociationQueries(frontier, seenQueries);
        if queries == [] {
          AskedAll(r, seed, result, issued, seenQueries, after, frontier, depth, maxDepth);
          return;
        }
        ghost var before, asked := result, issued;
        var full: bool;
        result, issued, frontier, ids, full := Level(queries, depth, seed, result, issued, ids, seenQueries, frontier);
        LevelsFollow(before, result, depth);
        if full { return; }
        LevelAsks(r, seed, before, asked, result, issued, queries, seenQueries, after, depth);
        seenQueries := after;
        if frontier == [] {
          NothingDeeper(r, seed, result, issued, depth, maxDepth);
          return;
        }
        depth := depth + 1;
      }
    }

    /** All queries of one level. */
    method Level(queries: seq<string>, depth: nat, seed: seq<Item>, so: seq<Item>, ghost asked: seq<Issue>, seenIds: set<string>,
                 ghost seenQueries: set<string>, frontier: seq<Item>)
      returns (result: seq<Item>, ghost issued: seq<Issue>, next: seq<Item>, ids: set<string>, full: bool)
      requires depth >= 1 && |so| < totalLimit && Sound(r, seed, so, asked) && IdsSeen(seenIds, seed, so) && DepthsBelow(so, depth - 1)
      requires QueriesSeen(r, seenQueries, asked) && forall i :: 0 <= i < |asked| ==> 1 <= asked[i].depth < depth
      requires forall x :: x in frontier <==> At(seed, so, x, depth - 1)
      requires forall i, j :: 0 <= i < j < |queries| ==> r.fold(queries[i]) != r.fold(queries[j])
      requires forall k :: 0 <= k < |queries| ==> r.fold(queries[k]) !in seenQueries && NamedBy(r, frontier, queries[k])
      requires AllAnswered(r, seed, so, asked)
      ensures |result| <= totalLimit && Gathering(r, seed, so, result, issued, next, ids, depth)
      ensures full ==> |result| == totalLimit
      ensures forall i :: 0 <= i < |issued| ==> 1 <= issued[i].depth <= depth
      ensures !full ==> |result| < totalLimit && issued == asked + IssuesOf(queries, depth)
      ensures !full ==> AllAnswered(r, seed, result, issued)
    {
      result, issued, next, ids, full := so, asked, [], seenIds, false;
      var k := 0;
      while k < |queries|
        invariant 0 <= k <= |queries| && |result| < totalLimit
        invariant issued == asked + IssuesOf(queries[..k], depth)
        invariant Gathering(r, seed, so, result, issued, next, ids, depth)
        invariant AllAnswered(r, seed, result, issued)
      {
        var query := queries[k];
        assert NamedBy(r, frontier, query);
        ghost var p :| 0 <= p < |frontier| && Names(r, frontier[p], query);
        ghost var parent := frontier[p];
        assert parent in frontier;
        AtLater(seed, so, result, parent, depth - 1);
        ghost var had, were := result, issued;
        IssueOne(r, seed, result, asked, queries, seenQueries, k, depth);
        issued := issued + [Issue(depth, query)];
        assert issued[|were|] == Issue(depth, query);
        result, next, ids := Absorb(r.recall(query), depth, query, result, next, ids, so, seed, issued, parent);
        if |result| >= totalLimit { full := true; return; }
        AnsweredNext(r, seed, had, result, were, Issue(depth, query));
        k := k + 1;
      }
      assert queries[..k] == queries;
    }
  }

  /** The state of a level: what every state keeps, and that all new items are at its depth. */
  ghost predicate Gathering(r: Retrieval, seed: seq<Item>, base: seq<Item>, result: seq<Item>, issued: seq<Issue>,
                            next: seq<Item>, ids: set<string>, depth: nat) {
    && base <= result && Sound(r, seed, result, issued) && IdsSeen(ids, seed, result) && DepthsBelow(result, depth)
    && (forall k :: |base| <= k < |result| ==> result[k].association.Some? && result[k].association.value.0 == depth)
    && (forall x :: x in next <==> At(seed, result, x, depth))
  }

  ghost predicate AllAnswered(r: Retrieval, seed: seq<Item>, result: seq<Item>, issued: seq<Issue>) {
    forall i :: 0 <= i < |issued| ==> Answered(r, seed, result, issued[i])
  }

  ghost predicate AllFound(seed: seq<Item>, result: seq<Item>, items: seq<Item>, depth: nat) {
    forall m :: 0 <= m < |items| ==> FoundBy(seed, result, items[m].id, depth)
  }

  // ------------------------------------------------------------------------- step lemmas

  function IssuesOf(queries: seq<string>, depth: nat): (s: seq<Issue>)
    ensures |s| == |queries|
  {
    seq(|queries|, k requires 0 <= k < |queries| => Issue(depth, queries[k]))
  }

  lemma SeenIsFound(seed: seq<Item>, result: seq<Item>, id: string, depth: nat)
    requires HasId(seed, id) || HasId(result, id)
    requires DepthsBelow(result, depth)
    ensures FoundBy(seed, result, id, depth)
  {
  }

  lemma AtLater(seed: seq<Item>, so: seq<Item>, result: seq<Item>, x: Item, d: nat)
    requires so <= result && At(seed, so, x, d)
    ensures At(seed, result, x, d)
  {
    if x in so {
      var k :| 0 <= k < |so| && so[k] == x;
      assert result[k] == x;
    }
  }

  lemma FoundByLater(seed: seq<Item>, so: seq<Item>, result: seq<Item>, id: string, d: nat)
    requires so <= result && FoundBy(seed, so, id, d)
    ensures FoundBy(seed, result, id, d)
  {
    if !HasId(seed, id) {
      var k :| 0 <= k < |so| && so[k].id == id && so[k].association.Some? && so[k].association.value.0 <= d;
      assert result[k] == so[k];
    }
  }

  lemma FoundLater(seed: seq<Item>, so: seq<Item>, earlier: seq<Item>, tagged: Item, depth: nat)
    requires AllFound(seed, so, earlier, depth)
    requires tagged.association.Some? && tagged.association.value.0 == depth
    ensures AllFound(seed, so + [tagged], earlier, depth)
    ensures FoundBy(seed, so + [tagged], tagged.id, depth)
  {
    forall m | 0 <= m < |earlier| ensures FoundBy(seed, so + [tagged], earlier[m].id, depth) {
      FoundByLater(seed, so, so + [tagged], earlier[m].id, depth);
    }
    assert (so + [tagged])[|so|] == tagged;
  }

  lemma AnsweredLater(r: Retrieval, seed: seq<Item>, so: seq<Item>, result: seq<Item>, i: Issue)
    requires so <= result && Answered(r, seed, so, i)
    ensures Answered(r, seed, result, i)
  {
    forall y | y in r.recall(i.query) ensures FoundBy(seed, result, y.id, i.depth) {
      FoundByLater(seed, so, result, y.id, i.depth);
    }
  }

  lemma AnsweredNext(r: Retrieval, seed: seq<Item>, so: seq<Item>, result: seq<Item>, issued: seq<Issue>, i: Issue)
    requires so <= result && AllAnswered(r, seed, so, issued) && Answered(r, seed, result, i)
    ensures AllAnswered(r, seed, result, issued + [i])
  {
    forall k | 0 <= k < |issued| ensures Answered(r, seed, result, issued[k]) {
      AnsweredLater(r, seed, so, result, issued[k]);
    }
  }

  lemma GatherOne(r: Retrieval, seed: seq<Item>, base: seq<Item>, result: seq<Item>, issued: seq<Issue>, next: seq<Item>,
                  ids: set<string>, item: Item, depth: nat, query: string, parent: Item)
    requires Gathering(r, seed, base, result, issued, next, ids, depth) && Issued(issued, depth, query) && depth >= 1
    requires item in r.recall(query) && item.id !in ids
    requires At(seed, result, parent, depth - 1) && Names(r, parent, query)
    ensures Gathering(r, seed, base, result + [Tag(item, depth, query)], issued, next + [Tag(item, depth, query)], ids + {item.id}, depth)
  {
    var tagged := Tag(item, depth, query);
    OneMore(r, seed, result, issued, item, depth, query, parent);
    var more := result + [tagged];
    assert more[|result|] == tagged;
    assert forall id :: HasId(more, id) <==> HasId(result, id) || id == item.id by {
      forall id | HasId(result, id) ensures HasId(more, id) {
        var k :| 0 <= k < |result| && result[k].id == id;
        assert more[k].id == id;
      }
    }
    assert forall x :: At(seed, more, x, depth) <==> At(seed, result, x, depth) || x == tagged;
  }

  lemma ProvenanceLater(r: Retrieval, seed: seq<Item>, so: seq<Item>, asked: seq<Issue>, result: seq<Item>, issued: seq<Issue>, x: Item)
    requires so <= result && asked <= issued && Provenance(r, seed, so, asked, x)
    ensures Provenance(r, seed, result, issued, x)
  {
    var (d, q) := x.association.value;
    var i :| 0 <= i < |asked| && asked[i] == Issue(d, q);
    assert issued[i] == Issue(d, q);
    var parent :| At(seed, so, parent, d - 1) && Names(r, parent, q);
    AtLater(seed, so, result, parent, d - 1);
  }

  /** A new item with a parent one level up keeps the search sound. */
  lemma OneMore(r: Retrieval, seed: seq<Item>, so: seq<Item>, issued: seq<Issue>, item: Item, depth: nat, query: string, parent: Item)
    requires Sound(r, seed, so, issued) && depth >= 1 && Issued(issued, depth, query) && item in r.recall(query)
    requires !HasId(seed, item.id) && !HasId(so, item.id)
    requires At(seed, so, parent, depth - 1) && Names(r, parent, query)
    ensures Sound(r, seed, so + [Tag(item, depth, query)], issued)
    ensures At(seed, so + [Tag(item, depth, query)], parent, depth - 1)
  {
    var tagged := Tag(item, depth, query);
    var result := so + [tagged];
    AtLater(seed, so, result, parent, depth - 1);
    forall i | 0 <= i < |result| ensures Provenance(r, seed, result, issued, result[i]) {
      if i < |so| { assert Provenance(r, seed, so, issued, so[i]); ProvenanceLater(r, seed, so, issued, result, issued, so[i]); }
      else { assert Provenance(r, seed, result, issued, tagged); }
    }
  }

  /** Asking a new query keeps the search sound. */
  lemma IssueOne(r: Retrieval, seed: seq<Item>, result: seq<Item>, asked: seq<Issue>, queries: seq<string>,
                 seenQueries: set<string>, k: nat, depth: nat)
    requires k < |queries| && Sound(r, seed, result, asked + IssuesOf(queries[..k], depth)) && QueriesSeen(r, seenQueries, asked)
    requires forall i, j :: 0 <= i < j < |queries| ==> r.fold(queries[i]) != r.fold(queries[j])
    requires r.fold(queries[k]) !in seenQueries
    ensures Sound(r, seed, result, asked + IssuesOf(queries[..k], depth) + [Issue(depth, queries[k])])
    ensures asked + IssuesOf(queries[..k], depth) + [Issue(depth, queries[k])] == asked + IssuesOf(queries[..k + 1], depth)
  {
    var were := asked + IssuesOf(queries[..k], depth);
    var issued := were + [Issue(depth, queries[k])];
    assert queries[..k + 1] == queries[..k] + [queries[k]];
    assert issued == asked + IssuesOf(queries[..k + 1], depth);
    forall i | 0 <= i < |result| ensures Provenance(r, seed, result, issued, result[i]) {
      assert Provenance(r, seed, result, were, result[i]);
      ProvenanceLater(r, seed, result, were, result, issued, result[i]);
    }
    assert forall i :: 0 <= i < |were| ==> r.fold(were[i].query) != r.fold(queries[k]);
  }

  /** After a level, the names of its items have been asked for. */
  lemma LevelAsks(r: Retrieval, seed: seq<Item>, so: seq<Item>, asked: seq<Issue>, result: seq<Item>, issued: seq<Issue>,
                  queries: seq<string>, seen: set<string>, after: set<string>, depth: nat)
    requires depth >= 1 && so <= result && issued == asked + IssuesOf(queries, depth)
    requires forall k :: |so| <= k < |result| ==> result[k].association.Some? && result[k].association.value.0 == depth
    requires AskedUpTo(r, seed, so, asked, depth - 1) && QueriesSeen(r, seen, asked)
    requires forall i :: 0 <= i < |asked| ==> 1 <= asked[i].depth < depth
    requires forall f :: f in after <==> f in seen || exists k :: 0 <= k < |queries| && r.fold(queries[k]) == f
    requires forall x, q :: At(seed, so, x, depth - 1) && Names(r, x, q) ==> r.fold(q) in after
    ensures AskedUpTo(r, seed, result, issued, depth) && QueriesSeen(r, after, issued)
  {
    assert forall i :: 0 <= i < |asked| ==> issued[i] == asked[i];
    assert forall k :: 0 <= k < |queries| ==> issued[|asked| + k] == Issue(depth, queries[k]);
    forall f | f in after ensures exists i :: 0 <= i < |issued| && r.fold(issued[i].query) == f {
      if f in seen {
        var i :| 0 <= i < |asked| && r.fold(asked[i].query) == f;
        assert r.fold(issued[i].query) == f;
      } else {
        var k :| 0 <= k < |queries| && r.fold(queries[k]) == f;
        assert r.fold(issued[|asked| + k].query) == f;
      }
    }
    forall x, e: nat, q | At(seed, result, x, e) && e < depth && Names(r, x, q)
      ensures Asked(r, issued, q, e + 1)
    {
      assert At(seed, so, x, e);
      if e < depth - 1 {
        var i :| 0 <= i < |asked| && r.fold(asked[i].query) == r.fold(q) && asked[i].depth <= e + 1;
        assert issued[i] == asked[i];
      } else {
        var i :| 0 <= i < |issued| && r.fold(issued[i].query) == r.fold(q);
        assert issued[i].depth <= depth;
      }
    }
  }

  /** No new name means that every item has been followed. */
  lemma AskedAll(r: Retrieval, seed: seq<Item>, result: seq<Item>, issued: seq<Issue>, seen: set<string>, after: set<string>,
                 frontier: seq<Item>, depth: nat, maxDepth: nat)
    requires 1 <= depth <= maxDepth && DepthsBelow(result, depth - 1) && QueriesSeen(r, seen, issued)
    requires AskedUpTo(r, seed, result, issued, depth - 1)
    requires forall i :: 0 <= i < |issued| ==> issued[i].depth < depth
    requires forall x :: x in frontier <==> At(seed, result, x, depth - 1)
    requires forall f :: f in after <==> f in seen
    requires forall x, q :: x in frontier && Names(r, x, q) ==> r.fold(q) in after
    ensures AskedUpTo(r, seed, result, issued, maxDepth)
  {
    forall x, e: nat, q | At(seed, result, x, e) && e < maxDepth && Names(r, x, q)
      ensures Asked(r, issued, q, e + 1)
    {
      if e >= depth - 1 {
        assert e == depth - 1 && x in frontier;
        var i :| 0 <= i < |issued| && r.fold(issued[i].query) == r.fold(q);
      }
    }
  }

  lemma NothingDeeper(r: Retrieval, seed: seq<Item>, result: seq<Item>, issued: seq<Issue>, depth: nat, maxDepth: nat)
    requires 1 <= depth <= maxDepth && DepthsBelow(result, depth) && (forall x :: !At(seed, result, x, depth))
    requires AskedUpTo(r, seed, result, issued, depth)
    ensures AskedUpTo(r, seed, result, issued, maxDepth)
  {
    forall x, e: nat, q | At(seed, result, x, e) && e < maxDepth && Names(r, x, q)
      ensures Asked(r, issued, q, e + 1)
    {
      assert e < depth;
    }
  }
}
