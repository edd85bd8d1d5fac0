/** Documents as MongoDB stores them and the handlers pass them around: JSON-like
    values plus BSON ObjectIds. */
module JsonValues {
  import opened ObjectIds

  datatype Json =
    | JNull
    | JBool(b: bool)
    | JNum(n: real)
    | JStr(s: string)
    | JArr(items: seq<Json>)
    | JObj(fields: map<string, Json>)
    | JOid(oid: ObjectId)

  /** A stored document or a Python dict of field values. */
  type Doc = map<string, Json>

  /** The keys the handlers pop from a fetched document before reusing it. */
  const InternalKeyList: seq<string> := ["_id", "original_filename", "raw_text"]

  const InternalKeys: set<string> := set k | k in InternalKeyList

  /** `d` without the fields named in `ks`. */
  function Without(d: Doc, ks: set<string>): (r: Doc)
    ensures r.Keys == d.Keys - ks
    ensures forall k :: k in r ==> r[k] == d[k]
  {
    map k | k in d && k !in ks :: d[k]
  }

  /** `doc.pop(key, None)` for every key in `keys`, in turn, on two documents at once. */
  method PopKeys(a: Doc, b: Doc, keys: seq<string>) returns (a': Doc, b': Doc)
    ensures a' == Without(a, set k | k in keys) && b' == Without(b, set k | k in keys)
  {
    a', b' := a, b;
    var i := 0;
    while i < |keys|
      invariant 0 <= i <= |keys|
      invariant a'.Keys == a.Keys - (set k | k in keys[..i])
      invariant b'.Keys == b.Keys - (set k | k in keys[..i])
      invariant forall k :: k in a' ==> a'[k] == a[k]
      invariant forall k :: k in b' ==> b'[k] == b[k]
    {
      assert keys[..i + 1] == keys[..i] + [keys[i]];
      a' := a' - {keys[i]};
      b' := b' - {keys[i]};
      i := i + 1;
    }
    assert keys[..i] == keys;
    assert a' == Without(a, set k | k in keys);
    assert b' == Without(b, set k | k in keys);
  }

  /** `d.get(key)`: the field, or `None` when it is absent. */
  function Get(d: Doc, key: string): (v: Json)
    ensures key in d ==> v == d[key]
    ensures key !in d ==> v == JNull
  {
    if key in d then d[key] else JNull
  }

  /** A MongoDB equality filter `{key: v}` on a document: the field equals `v`,
      or the field is an array that contains `v`. */
  predicate MatchesEq(d: Doc, key: string, v: Json) {
    key in d && (d[key] == v || (d[key].JArr? && v in d[key].items))
  }

  /** Some ObjectId occurs somewhere inside `j`. */
  predicate HasObjectId(j: Json) {
    match j
    case JOid(_) => true
    case JArr(items) => exists i :: 0 <= i < |items| && HasObjectId(items[i])
    case JObj(fields) => exists k :: k in fields && HasObjectId(fields[k])
    case _ => false
  }

  /** The recursive ObjectId-to-string conversion `get_jd` applies to a fetched
      document: every ObjectId is replaced by its 24-digit string. */
  function ConvertObjectIds(j: Json): (r: Json)
    ensures !HasObjectId(r)
    ensures !HasObjectId(j) ==> r == j
  {
    match j
    case JOid(id) => JStr(IdString(id))
    case JArr(items) =>
      var r := JArr(seq(|items|, i requires 0 <= i < |items| => ConvertObjectIds(items[i])));
      assert forall i :: 0 <= i < |items| ==> r.items[i] == ConvertObjectIds(items[i]);
      r
    case JObj(fields) =>
      var r := JObj(map k | k in fields :: ConvertObjectIds(fields[k]));
      assert forall k :: k in fields ==> r.fields[k] == ConvertObjectIds(fields[k]);
      r
    case _ => j
  }
}
