/** A MongoDB collection held in memory: documents keyed by their `_id`, plus the
    natural order (insertion order) in which scans visit them. */
module Store {
  import opened Wrappers
  import opened PyStrings
  import opened ObjectIds
  import opened JsonValues
  import opened Http

  /** The text of the error MongoDB raises when an insert reuses an `_id`. */
  const DuplicateKeyError := "E11000 duplicate key error"

  /** `x` comes before `y` in `ids`. */
  ghost predicate Before(ids: seq<ObjectId>, x: ObjectId, y: ObjectId) {
    exists p, q :: 0 <= p < q < |ids| && ids[p] == x && ids[q] == y
  }

  class Collection {
    var docs: map<ObjectId, Doc>
    var order: seq<ObjectId>

    /** Every document appears once in the natural order, and each carries its
        own key as its `_id` field. */
    ghost predicate Valid()
      reads this
    {
      && (forall i, j :: 0 <= i < j < |order| ==> order[i] != order[j])
      && (forall id :: id in docs <==> id in order)
      && (forall id :: id in docs ==> "_id" in docs[id] && docs[id]["_id"] == JOid(id))
    }

    constructor ()
      ensures Valid() && docs == map[] && order == []
    {
      docs := map[];
      order := [];
    }

    /** `insert_one(d)` with the ObjectId the driver generated for it. A
        document without `_id` gets `id`; if a document already has that id
        the server refuses the insert and nothing changes. */
    method InsertOne(id: ObjectId, d: Doc) returns (ok: bool)
      requires Valid()
      requires "_id" !in d
      modifies this
      ensures Valid()
      ensures ok <==> id !in old(docs)
      ensures docs == if ok then old(docs)[id := d["_id" := JOid(id)]] else old(docs)
      ensures order == if ok then old(order) + [id] else old(order)
    {
      ok := id !in docs;
      if ok {
        docs := docs[id := d["_id" := JOid(id)]];
        order := order + [id];
      }
    }

    /** A handler's `insert_one(d)` followed by its answer: `answer` when the
        insert succeeds, and `refused`, what the handler makes of the server's
        duplicate-key error, when it does not. */
    method InsertThen(id: ObjectId, d: Doc, refused: Exception, answer: Doc) returns (r: Result<Doc, Exception>)
      requires Valid()
      requires "_id" !in d
      modifies this
      ensures Valid()
      ensures r == if id in old(docs) then Err(refused) else Ok(answer)
      ensures docs == if id in old(docs) then old(docs) else old(docs)[id := d["_id" := JOid(id)]]
      ensures order == if id in old(docs) then old(order) else old(order) + [id]
    {
      var ok := InsertOne(id, d);
      r := if ok then Ok(answer) else Err(refused);
    }

    /** The document stored under `id` matches the filter `{key: v}`. */
    predicate Hit(id: ObjectId, key: string, v: Json)
      reads this
    {
      id in docs && MatchesEq(docs[id], key, v)
    }

    /** The position in `ids` of the first document matching `{key: v}`, or
        `|ids|` when there is none. */
    function FirstHit(ids: seq<ObjectId>, key: string, v: Json): (i: nat)
      reads this
      ensures i <= |ids|
      ensures i < |ids| ==> Hit(ids[i], key, v)
      ensures forall j :: 0 <= j < i ==> !Hit(ids[j], key, v)
    {
      if ids == [] then 0
      else if Hit(ids[0], key, v) then 0
      else 1 + FirstHit(ids[1..], key, v)
    }

    /** `find_one({key: v})`: the first matching document in natural order. */
    function FindOne(key: string, v: Json): (r: Option<ObjectId>)
      reads this
      requires Valid()
      ensures r.Some? ==> Hit(r.value, key, v) && r.value in order
      ensures r.None? <==> forall j :: 0 <= j < |order| ==> !Hit(order[j], key, v)
      ensures r.Some? ==> forall j :: 0 <= j < |order| && order[j] == r.value ==>
                            forall j' :: 0 <= j' < j ==> !Hit(order[j'], key, v)
    {
      var i := FirstHit(order, key, v);
      if i < |order| then Some(order[i]) else None
    }

    /** `find_one({"_id": id})` finds exactly the document stored under `id`. */
    lemma FindById(id: ObjectId)
      requires Valid()
      ensures FindOne("_id", JOid(id)) == if id in docs then Some(id) else None
    {
      assert forall x :: x in docs ==> (Hit(x, "_id", JOid(id)) <==> x == id);
    }

    /** When `find_one({key: v})` finds nothing, no stored document matches. */
    lemma NoneFound(key: string, v: Json)
      requires Valid() && FindOne(key, v).None?
      ensures forall x :: x in docs ==> !MatchesEq(docs[x], key, v)
    {
      forall x | x in docs ensures !MatchesEq(docs[x], key, v) {
        var j :| 0 <= j < |order| && order[j] == x;
        assert !Hit(order[j], key, v);
      }
    }

    /** `find({key: v})` over the documents named by `ids`: those that match, in
        the order of `ids`. */
    function Matching(ids: seq<ObjectId>, key: string, v: Json): (r: seq<ObjectId>)
      reads this
      ensures forall x :: x in r <==> x in ids && Hit(x, key, v)
      ensures |r| <= |ids|
    {
      if ids == [] then []
      else
        var last := ids[|ids| - 1];
        Matching(ids[..|ids| - 1], key, v) + (if Hit(last, key, v) then [last] else [])
    }

    /** `find` visits each match once, and in the order of `ids`: over ids without
        repeats, the result has no repeats, and of any two matches the one listed
        first comes first in `ids`. */
    lemma {:induction false} MatchingInOrder(ids: seq<ObjectId>, key: string, v: Json)
      requires forall i, j :: 0 <= i < j < |ids| ==> ids[i] != ids[j]
      ensures forall i, j :: 0 <= i < j < |Matching(ids, key, v)| ==> Matching(ids, key, v)[i] != Matching(ids, key, v)[j]
      ensures forall i, j :: 0 <= i < j < |Matching(ids, key, v)| ==> Before(ids, Matching(ids, key, v)[i], Matching(ids, key, v)[j])
      decreases |ids|
    {
      if ids != [] {
        var init, last := ids[..|ids| - 1], ids[|ids| - 1];
        MatchingInOrder(init, key, v);
        var m := Matching(init, key, v);
        var r := Matching(ids, key, v);
        assert last !in init;
        forall i, j | 0 <= i < j < |r| ensures r[i] != r[j] && Before(ids, r[i], r[j]) {
          if j < |m| {
            assert r[i] == m[i] && r[j] == m[j];
            assert Before(init, m[i], m[j]);
            var p, q :| 0 <= p < q < |init| && init[p] == m[i] && init[q] == m[j];
            assert ids[p] == r[i] && ids[q] == r[j];
          } else {
            assert r[i] == m[i] && r[j] == last;
            assert m[i] in init;
            var p :| 0 <= p < |init| && init[p] == m[i];
            assert ids[p] == r[i] && ids[|ids| - 1] == r[j];
          }
        }
      }
    }

    /** A scan keeps the order of the natural order: scanning two runs of ids
        one after the other gives the two results one after the other. */
    lemma {:induction false} MatchingAppend(a: seq<ObjectId>, b: seq<ObjectId>, key: string, v: Json)
      ensures Matching(a + b, key, v) == Matching(a, key, v) + Matching(b, key, v)
      decreases |b|
    {
      if b == [] {
        assert a + b == a;
      } else {
        var b', last := b[..|b| - 1], b[|b| - 1];
        assert (a + b)[..|a + b| - 1] == a + b';
        MatchingAppend(a, b', key, v);
        ConcatAssoc(Matching(a, key, v), Matching(b', key, v), if Hit(last, key, v) then [last] else []);
      }
    }
  }
}
