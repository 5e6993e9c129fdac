/** BSON documents as the aggregation stages of database/database.go see them.

    A document is a finite map from field names to values.  Only the value
    kinds the history records and skylink records hold are distinguished;
    comparisons follow MongoDB's BSON comparison order as far as the
    pipelines depend on it.
 */
module Documents {

  import opened Outcomes

  datatype Value =
    | VNull
    | VBool(b: bool)
    | VInt(n: int)
    | VStr(s: string)
    | VId(oid: nat)                      // an ObjectId
    | VDate(t: int)                      // a UTC datetime, as Unix milliseconds
    | VArr(elems: seq<Value>)
    | VDoc(fields: map<string, Value>)

  type Doc = map<string, Value>

  /** The value a field path refers to, or None when the field is missing. */
  function Get(d: Doc, f: string): (r: Option<Value>)
    ensures r.Some? <==> f in d
    ensures r.Some? ==> r.value == d[f]
  {
    if f in d then Some(d[f]) else None
  }

  /** `{ $gt: [ "$f", bound ] }` for an integer bound.  In BSON comparison
      order null (and a missing field) sorts below every number, and every
      other non-numeric kind sorts above every number. */
  predicate GreaterThan(v: Option<Value>, bound: int)
  {
    match v
    case None => false
    case Some(VNull) => false
    case Some(VInt(n)) => n > bound
    case Some(_) => true
  }

  /** The sort key of a `$sort` field.  A missing or null field sorts lowest
      and dates sort highest; the other kinds are collapsed into one class
      between them (see README, Left out). */
  datatype Key = Low | Mid | At(t: int)

  function KeyOf(d: Doc, f: string): Key
  {
    if f !in d then Low
    else match d[f]
      case VNull => Low
      case VDate(t) => At(t)
      case _ => Mid
  }

  /** The ascending order on keys: a total preorder. */
  predicate KeyLe(a: Key, b: Key)
  {
    match (a, b)
    case (Low, _) => true
    case (Mid, Low) => false
    case (Mid, _) => true
    case (At(x), At(y)) => x <= y
    case (At(_), _) => false
  }

  lemma KeyLeTotalPreorder(a: Key, b: Key, c: Key)
    ensures KeyLe(a, a)
    ensures KeyLe(a, b) || KeyLe(b, a)
    ensures KeyLe(a, b) && KeyLe(b, c) ==> KeyLe(a, c)
  {
  }

  /** Does field `f` of `d` satisfy the equality condition `{ f: v }` of a
      `$match`?  A null condition also matches a missing field, and a
      condition matches an array field that holds it as an element. */
  predicate FieldMatches(d: Doc, f: string, v: Value)
  {
    if f !in d then v.VNull?
    else d[f] == v || (d[f].VArr? && v in d[f].elems)
  }

  /** `{ $match: filter }` for a filter of field equalities. */
  predicate Matches(d: Doc, filter: map<string, Value>)
  {
    forall f | f in filter :: FieldMatches(d, f, filter[f])
  }
}
