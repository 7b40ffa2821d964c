/**
 * Objects, their ETags and conditional writes, as every account of the archive uses them
 * (sections 13.1.1 and 13.1.2 of RFC 9110).
 */
module ConditionalWrites {
  import opened Evidence

  type ETag = nat

  /** Attempts at one partition before a compactor gives up. */
  const MERGE_RETRIES: nat := 3

  datatype Object = Object(content: seq<Row>, etag: ETag)

  type Objects = map<Partition, Object>

  /** The precondition a put carries, fixed by the earlier stat. */
  datatype Guard = IfAbsent | IfMatch(etag: ETag) | NoTag

  function ContentOf(objects: Objects, k: Partition): seq<Row> {
    if k in objects then objects[k].content else []
  }

  predicate GuardHolds(objects: Objects, k: Partition, guard: Guard) {
    match guard
    case IfAbsent => k !in objects
    case IfMatch(e) => k in objects && objects[k].etag == e
    case NoTag => false
  }

  /** The guard that a stat with an ETag leads to. */
  function GuardFor(objects: Objects, k: Partition): Guard {
    if k in objects then IfMatch(objects[k].etag) else IfAbsent
  }

  function Payload(guard: Guard, read: seq<Row>, rows: seq<Row>): seq<Row> {
    if guard.IfAbsent? then rows else Merge(read, rows)
  }

  predicate Extends(before: Objects, now: Objects) {
    forall k <- before :: k in now && before[k].content <= now[k].content
  }

  lemma ExtendsItself(a: Objects)
    ensures Extends(a, a)
  {
  }

  lemma ExtendsTransitive(a: Objects, b: Objects, c: Objects)
    requires Extends(a, b) && Extends(b, c)
    ensures Extends(a, c)
  {
  }
}
