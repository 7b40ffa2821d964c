/**
 * The object store as one compactor meets it: before each of its calls any number of rival
 * compactors may have merged batches of their own. `rivals` is the script of those visits, so a
 * contract that holds for every script holds under every interference.
 */
module ArchiveStores {
  import opened Prelude
  import opened Evidence
  import opened ConditionalWrites

  datatype PutResult = Stored | PreconditionFailed

  /** The number of rows stands for the byte size. */
  datatype ObjectStat = ObjectStat(size: nat, etag: ETag)

  function Lookup(objects: Objects, k: Partition): Option<Object> {
    if k in objects then Some(objects[k]) else None
  }

  /** The store as seen from outside; `landed` counts the new versions of each object that rivals wrote. */
  datatype Moment = Moment(objects: Objects, nextTag: nat, landed: multiset<Partition>)

  /**
   * How rivals may move the store on: exactly the objects they wrote have changed, and those only
   * grew and carry tags not issued before.
   */
  ghost predicate Moved(a: Moment, b: Moment) {
    && a.nextTag <= b.nextTag
    && a.landed <= b.landed
    && Extends(a.objects, b.objects)
    && forall k :: Grown(a, b, k)
  }

  ghost predicate Grown(a: Moment, b: Moment, k: Partition) {
    if a.landed[k] == b.landed[k] then Lookup(b.objects, k) == Lookup(a.objects, k)
       else k in b.objects && a.nextTag <= b.objects[k].etag
  }

  /** A put that lands replaces one object; a refused one changes nothing. */
  predicate PutOutcome(met: Objects, now: Objects, k: Partition, payload: seq<Row>, result: PutResult) {
    if result.PreconditionFailed? then now == met
    else k in now && now == met[k := now[k]] && now[k].content == payload
  }

  lemma MovedTransitive(a: Moment, b: Moment, c: Moment)
    requires Moved(a, b) && Moved(b, c)
    ensures Moved(a, c)
  {
    forall k
      ensures Grown(a, c, k)
    {
      assert Grown(a, b, k) && Grown(b, c, k);
    }
  }

  class ArchiveStore {
    var objects: Objects
    var nextTag: nat
    var rivals: seq<seq<Group>>
    /** Are tags digests of the content, so that rewriting the same bytes leaves the tag as it is? */
    const contentTags: bool
    /** How many new versions of each object rivals have written. */
    ghost var landed: multiset<Partition>
    /** Ids identify rows. */
    ghost const ever: map<nat, Row>

    ghost predicate ScriptOk(script: seq<seq<Group>>) {
      forall i, j :: 0 <= i < |script| && 0 <= j < |script[i]| ==>
          DistinctIds(script[i][j].rows) && Known(ever, script[i][j].rows)
    }

    ghost predicate Valid()
      reads this
    {
      && (forall k <- objects ::
            DistinctIds(objects[k].content) && Known(ever, objects[k].content) && objects[k].etag < nextTag)
      && ScriptOk(rivals)
    }

    ghost function Now(): Moment
      reads this
    {
      Moment(objects, nextTag, landed)
    }

    /** No rival is left who could interfere, as when the merge lock is held. */
    predicate Quiet()
      reads this
    {
      rivals == []
    }

    constructor (contentTags: bool, ghost ever: map<nat, Row>)
      ensures Valid() && objects == map[] && Quiet() && landed == multiset{}
      ensures this.contentTags == contentTags && this.ever == ever
    {
      objects, nextTag, rivals, landed := map[], 0, [], multiset{};
      this.contentTags := contentTags;
      this.ever := ever;
    }

    /** Would this write leave the bytes, and with them the tag, as they are? */
    predicate SameVersion(k: Partition, payload: seq<Row>)
      reads this
    {
      contentTags && k in objects && objects[k].content == payload
    }

    method Overwrite(k: Partition, payload: seq<Row>)
      requires Valid() && DistinctIds(payload) && Known(ever, payload)
      modifies this`objects, this`nextTag
      ensures Valid() && old(nextTag) <= nextTag
      ensures old(SameVersion(k, payload)) ==> objects == old(objects)
      ensures !old(SameVersion(k, payload)) ==> objects == old(objects)[k := Object(payload, old(nextTag))]
    {
      if !SameVersion(k, payload) {
        objects, nextTag := objects[k := Object(payload, nextTag)], nextTag + 1;
      }
    }

    /** A rival's merge, seen from outside. */
    method RivalMerge(g: Group)
      requires Valid() && DistinctIds(g.rows) && Known(ever, g.rows)
      modifies this`objects, this`nextTag, this`landed
      ensures Valid() && Moved(old(Now()), Now())
      ensures g.partition in objects && objects == old(objects)[g.partition := objects[g.partition]]
      ensures objects[g.partition].content == Merge(ContentOf(old(objects), g.partition), g.rows)
    {
      var content := ContentOf(objects, g.partition);
      var merged := Merge(content, g.rows);
      MergeAppends(content, g.rows);
      ghost var same := SameVersion(g.partition, merged);
      Overwrite(g.partition, merged);
      landed := if same then landed else landed + multiset{g.partition};
    }

    /** Rivals come and go before the next call. */
    method Yield()
      requires Valid()
      modifies this
      ensures Valid() && Moved(old(Now()), Now())
      ensures old(Quiet()) ==> Quiet() && landed == old(landed) && objects == old(objects)
    {
      if rivals == [] {
        return;
      }
      var visit := rivals[0];
      rivals := rivals[1..];
      for i := 0 to |visit|
        invariant Valid() && Moved(old(Now()), Now()) && ScriptOk([visit])
      {
        assert ScriptOk([visit]) && [visit][0] == visit;
        ghost var before := Now();
        RivalMerge(visit[i]);
        MovedTransitive(old(Now()), before, Now());
      }
    }

    method StatObject(k: Partition) returns (found: Option<ObjectStat>)
      requires Valid()
      modifies this
      ensures Valid() && Moved(old(Now()), Now())
      ensures old(Quiet()) ==> Quiet() && landed == old(landed) && objects == old(objects)
      ensures found == if k in objects then Some(ObjectStat(|objects[k].content|, objects[k].etag)) else None
    {
      Yield();
      found := if k in objects then Some(ObjectStat(|objects[k].content|, objects[k].etag)) else None;
    }

    method ReadObject(k: Partition) returns (rows: seq<Row>)
      requires Valid() && k in objects
      modifies this
      ensures Valid() && Moved(old(Now()), Now())
      ensures old(Quiet()) ==> Quiet() && landed == old(landed) && objects == old(objects)
      ensures k in objects && rows == objects[k].content
    {
      Yield();
      rows := objects[k].content;
    }

    /** Conditional replace: it lands only on the object the tag was taken from. `met` is the store it meets. */
    method PutIfMatch(k: Partition, payload: seq<Row>, tag: ETag) returns (result: PutResult, ghost met: Objects)
      requires Valid() && DistinctIds(payload) && Known(ever, payload) && tag < nextTag
      modifies this
      ensures Valid() && Extends(old(objects), met) && old(landed) <= landed
      ensures GuardHolds(met, k, IfMatch(tag)) ==>
                GuardHolds(old(objects), k, IfMatch(tag)) && met[k] == old(objects)[k]
      ensures Extends(met, objects) <==> (GuardHolds(met, k, IfMatch(tag)) ==> met[k].content <= payload)
      ensures result.Stored? <==> GuardHolds(met, k, IfMatch(tag))
      ensures result.PreconditionFailed? <==> !GuardHolds(old(objects), k, IfMatch(tag)) || old(landed)[k] < landed[k]
      ensures PutOutcome(met, objects, k, payload, result)
      ensures old(Quiet()) ==> Quiet() && landed == old(landed) && met == old(objects)
    {
      Yield();
      met := objects;
      assert Grown(old(Now()), Now(), k);
      if k !in objects || objects[k].etag != tag {
        return PreconditionFailed, met;
      }
      Overwrite(k, payload);
      result := Stored;
    }

    /** Conditional create. */
    method PutIfAbsent(k: Partition, payload: seq<Row>) returns (result: PutResult, ghost met: Objects)
      requires Valid() && DistinctIds(payload) && Known(ever, payload)
      modifies this
      ensures Valid() && Extends(old(objects), met) && Extends(met, objects) && old(landed) <= landed
      ensures result.Stored? <==> GuardHolds(met, k, IfAbsent)
      ensures result.PreconditionFailed? <==> !GuardHolds(old(objects), k, IfAbsent) || old(landed)[k] < landed[k]
      ensures PutOutcome(met, objects, k, payload, result)
      ensures old(Quiet()) ==> Quiet() && landed == old(landed) && met == old(objects)
    {
      Yield();
      met := objects;
      assert Grown(old(Now()), Now(), k);
      if k in objects {
        return PreconditionFailed, met;
      }
      Overwrite(k, payload);
      result := Stored;
    }
  }
}
