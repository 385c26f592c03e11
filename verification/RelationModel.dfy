/** Typed relation edges as the relation models admit them. */
module RelationModel {
  import opened Common

  /** An entity with its canonical identity; two refs have one key exactly when they are equal. */
  datatype Entity = Entity(key: string, scope: string)

  datatype Kind = DependsOn | PartOf | Supports | Contradicts | Causes

  datatype Status = Proposed | Accepted | Rejected

  type RecordId = nat

  datatype EvidenceRef = Knowledge(id: RecordId) | Episode(id: RecordId)

  datatype Edge = Edge(
    kind: Kind, source: Entity, target: Entity, targetRecord: RecordId,
    evidence: set<EvidenceRef>, status: Status, validFrom: int, validUntil: Option<int>)

  const MAX_EVIDENCE: nat := 32

  /** What the edge validator demands of a proposed edge. */
  predicate Admitted(e: Edge) {
    && e.source != e.target && e.source.scope == e.target.scope
    && 1 <= |e.evidence| <= MAX_EVIDENCE
    && (e.validUntil.Some? ==> e.validFrom < e.validUntil.value)
  }

  /** Edge identity: kind and endpoints, unordered for contradictions. */
  datatype RelationId = Directed(kind: Kind, source: Entity, target: Entity) | Undirected(ends: set<Entity>)

  function IdOf(e: Edge): RelationId {
    if e.kind == Contradicts then Undirected({e.source, e.target}) else Directed(e.kind, e.source, e.target)
  }

  function Later(a: int, b: int): int {
    if a < b then b else a
  }

  function Earlier(a: Option<int>, b: Option<int>): Option<int> {
    match (a, b)
    case (None, _) => b
    case (_, None) => a
    case (Some(x), Some(y)) => Some(if x <= y then x else y)
  }

  /** A half-open validity interval contains an instant. */
  predicate Within(from: int, until: Option<int>, t: int) {
    from <= t && (until.Some? ==> t < until.value)
  }

  predicate NonEmpty(from: int, until: Option<int>) {
    until.Some? ==> from < until.value
  }
}
