/** State bindings of definition nodes and the decision the ownership model takes for each. */
module Bindings {
  import opened JsonData

  datatype Binding = Binding(namespace: string, segments: Path)

  datatype Decision = Exclusive | Protected | Unknown

  datatype Decided = Decided(binding: Binding, decision: Decision)

  const MAX_BINDING_SEGMENTS := 32

  predicate TypedSegment(s: Segment) {
    match s
    case Key(k) => k != "" && k !in UNSAFE_KEYS
    case Index(i) => IsSafeInteger(i) && i >= 0
  }

  predicate Typable(b: Binding) {
    && b.namespace == "data"
    && 0 < |b.segments| <= MAX_BINDING_SEGMENTS
    && forall i :: 0 <= i < |b.segments| ==> TypedSegment(b.segments[i])
  }

  /** The pairwise test of two bindings. */
  predicate Overlaps(a: Binding, b: Binding) {
    a.namespace == b.namespace && Overlap(a.segments, b.segments)
  }

  /** A data path, or none where the program throws. */
  function TypedPath(b: Binding): Option<Path> {
    if Typable(b) then Some(b.segments) else None
  }
}
