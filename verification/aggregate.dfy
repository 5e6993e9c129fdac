/** A reference interpreter for the MongoDB aggregation stages that
    database/database.go builds: `$match`, `$sort`, `$skip`, `$limit`,
    `$lookup`, the `$replaceRoot`/`$mergeObjects` flattening of a join,
    `$project` and `$count`.

    Each stage maps a sequence of documents to a sequence of documents, or
    fails as the server would reject it; a pipeline runs its stages left to
    right and stops at the first failure.
 */
module Aggregate {

  import opened Outcomes
  import opened Documents

  /** Aggregation expressions used inside a `$project`. */
  datatype Expr =
    | Path(field: string)                                         // "$field"
    | CondGt(field: string, bound: int, thenE: Expr, elseE: Expr) // { $cond: [ { $gt: [ "$field", bound ] }, thenE, elseE ] }

  /** The value of one `$project` entry: `0`, `1` or a computed expression. */
  datatype Projection = Exclude | Include | Computed(e: Expr)

  datatype Stage =
    | Match(filter: map<string, Value>)
    | Sort(field: string, direction: int)
    | Skip(n: int)
    | Limit(n: int)
    | Lookup(from: string, localField: string, foreignField: string, asField: string)
      /** `{ $replaceRoot: { newRoot: { $mergeObjects: [ { $arrayElemAt: [ "$arrayField", 0 ] }, "$$ROOT" ] } } }` */
    | MergeFirstIntoRoot(arrayField: string)
    | Project(spec: seq<(string, Projection)>)
    | Count(field: string)

  /** The collections a `$lookup` can read, by name. */
  type Database = map<string, seq<Doc>>

  function Min(a: int, b: int): int { if a <= b then a else b }

  function Max(a: int, b: int): int { if a <= b then b else a }

  /** Evaluates an expression; None is a missing value. */
  function Eval(e: Expr, d: Doc): Option<Value>
  {
    match e
    case Path(f) => Get(d, f)
    case CondGt(f, bound, t, el) =>
      if GreaterThan(Get(d, f), bound) then Eval(t, d) else Eval(el, d)
  }

  // ---------------------------------------------------------------- $match

  /** `a` is `b` with some elements left out, the others in their order. */
  predicate Subsequence<T(==)>(a: seq<T>, b: seq<T>)
    decreases |b|
  {
    if a == [] then true
    else if b == [] then false
    else (a[0] == b[0] && Subsequence(a[1..], b[1..])) || Subsequence(a, b[1..])
  }

  function Filter(docs: seq<Doc>, filter: map<string, Value>): (r: seq<Doc>)
    ensures |r| <= |docs|
    ensures forall d :: d in r <==> d in docs && Matches(d, filter)
  {
    if docs == [] then []
    else
      var rest := Filter(docs[1..], filter);
      assert docs == [docs[0]] + docs[1..];
      if Matches(docs[0], filter) then [docs[0]] + rest else rest
  }

  /** `$match` keeps every matching document as often as it occurs, and
      no other. */
  lemma {:induction false} FilterKeepsMatches(docs: seq<Doc>, filter: map<string, Value>)
    ensures forall d :: multiset(Filter(docs, filter))[d] == if Matches(d, filter) then multiset(docs)[d] else 0
    decreases |docs|
  {
    if docs != [] {
      FilterKeepsMatches(docs[1..], filter);
      var rest := Filter(docs[1..], filter);
      assert multiset(docs) == multiset{docs[0]} + multiset(docs[1..]) by {
        assert docs == [docs[0]] + docs[1..];
      }
      if Matches(docs[0], filter) {
        assert multiset(Filter(docs, filter)) == multiset{docs[0]} + multiset(rest);
      }
    }
  }

  /** `$match` keeps the order of the input. */
  lemma {:induction false} FilterKeepsOrder(docs: seq<Doc>, filter: map<string, Value>)
    ensures Subsequence(Filter(docs, filter), docs)
    decreases |docs|
  {
    if docs != [] {
      FilterKeepsOrder(docs[1..], filter);
      var rest := Filter(docs[1..], filter);
      if Matches(docs[0], filter) {
        var r := [docs[0]] + rest;
        assert r[0] == docs[0] && r[1..] == rest;
      }
    }
  }

  // ----------------------------------------------------------------- $sort

  /** `a` may come before `b` in a sort in the given direction. */
  predicate Precedes(a: Key, b: Key, descending: bool)
  {
    if descending then KeyLe(b, a) else KeyLe(a, b)
  }

  predicate SortedBy(s: seq<Doc>, f: string, descending: bool)
  {
    forall i, j :: 0 <= i < j < |s| ==> Precedes(KeyOf(s[i], f), KeyOf(s[j], f), descending)
  }

  /** Every element of `s` may follow key `k`. */
  predicate AllFollow(k: Key, s: seq<Doc>, f: string, descending: bool)
  {
    forall y :: y in s ==> Precedes(k, KeyOf(y, f), descending)
  }

  lemma ConsSorted(x: Doc, s: seq<Doc>, f: string, descending: bool)
    requires SortedBy(s, f, descending) && AllFollow(KeyOf(x, f), s, f, descending)
    ensures SortedBy([x] + s, f, descending)
  {
    var r := [x] + s;
    forall i, j | 0 <= i < j < |r| ensures Precedes(KeyOf(r[i], f), KeyOf(r[j], f), descending) {
      if i > 0 {
        assert r[i] == s[i - 1] && r[j] == s[j - 1];
      } else {
        assert r[j] == s[j - 1];
        assert r[j] in s;
      }
    }
  }

  lemma HeadPrecedesTail(s: seq<Doc>, f: string, descending: bool)
    requires SortedBy(s, f, descending) && |s| > 0
    ensures AllFollow(KeyOf(s[0], f), s[1..], f, descending)
  {
    forall y | y in s[1..] ensures Precedes(KeyOf(s[0], f), KeyOf(y, f), descending) {
      var k :| 0 <= k < |s[1..]| && s[1..][k] == y;
      assert s[k + 1] == y;
    }
  }

  /** Inserts `d` before the first element it may precede, so that earlier
      input documents stay ahead of later ones with an equal key. */
  function Insert(d: Doc, s: seq<Doc>, f: string, descending: bool): (r: seq<Doc>)
    requires SortedBy(s, f, descending)
    ensures SortedBy(r, f, descending)
    ensures multiset(r) == multiset(s) + multiset{d}
    ensures forall x :: x in r <==> x == d || x in s
  {
    if s == [] then [d]
    else if Precedes(KeyOf(d, f), KeyOf(s[0], f), descending) then
      HeadPrecedesTail(s, f, descending);
      assert AllFollow(KeyOf(d, f), s, f, descending) by {
        forall y | y in s ensures Precedes(KeyOf(d, f), KeyOf(y, f), descending) {
          if y != s[0] {
            assert y in s[1..] by { assert s == [s[0]] + s[1..]; }
            KeyLeTotalPreorder(KeyOf(d, f), KeyOf(s[0], f), KeyOf(y, f));
            KeyLeTotalPreorder(KeyOf(y, f), KeyOf(s[0], f), KeyOf(d, f));
          }
        }
      }
      ConsSorted(d, s, f, descending);
      [d] + s
    else
      assert s == [s[0]] + s[1..];
      var rest := Insert(d, s[1..], f, descending);
      HeadPrecedesTail(s, f, descending);
      KeyLeTotalPreorder(KeyOf(d, f), KeyOf(s[0], f), KeyOf(d, f));
      ConsSorted(s[0], rest, f, descending);
      [s[0]] + rest
  }

  /** A stable insertion sort on the key of field `f`. */
  function SortBy(s: seq<Doc>, f: string, descending: bool): (r: seq<Doc>)
    ensures SortedBy(r, f, descending)
    ensures multiset(r) == multiset(s)
    ensures |r| == |s|
  {
    if s == [] then []
    else
      assert s == [s[0]] + s[1..];
      Insert(s[0], SortBy(s[1..], f, descending), f, descending)
  }

  // --------------------------------------------------------------- $lookup

  /** The value `$lookup` compares: a missing field counts as null. */
  function LookupKey(d: Doc, f: string): Value
  {
    if f in d then d[f] else VNull
  }

  /** The documents of `foreign` whose `foreignField` equals the
      `localField` of `d`, in collection order, as array elements. */
  function Joined(d: Doc, foreign: seq<Doc>, localField: string, foreignField: string): (r: seq<Value>)
    ensures |r| <= |foreign|
    ensures forall v :: v in r ==> v.VDoc?
    ensures forall v :: v in r <==> exists k :: 0 <= k < |foreign| && v == VDoc(foreign[k])
                                                && LookupKey(foreign[k], foreignField) == LookupKey(d, localField)
  {
    if foreign == [] then []
    else
      var rest := Joined(d, foreign[1..], localField, foreignField);
      assert forall v :: v in rest <==> exists k :: 1 <= k < |foreign| && v == VDoc(foreign[k])
                                                 && LookupKey(foreign[k], foreignField) == LookupKey(d, localField) by {
        forall v ensures v in rest <==> exists k :: 1 <= k < |foreign| && v == VDoc(foreign[k])
                                                 && LookupKey(foreign[k], foreignField) == LookupKey(d, localField) {
          if v in rest {
            var k :| 0 <= k < |foreign[1..]| && v == VDoc(foreign[1..][k])
                     && LookupKey(foreign[1..][k], foreignField) == LookupKey(d, localField);
            assert foreign[k + 1] == foreign[1..][k];
          }
          if exists k :: 1 <= k < |foreign| && v == VDoc(foreign[k])
                         && LookupKey(foreign[k], foreignField) == LookupKey(d, localField) {
            var k :| 1 <= k < |foreign| && v == VDoc(foreign[k])
                     && LookupKey(foreign[k], foreignField) == LookupKey(d, localField);
            assert foreign[1..][k - 1] == foreign[k];
          }
        }
      }
      if LookupKey(foreign[0], foreignField) == LookupKey(d, localField) then [VDoc(foreign[0])] + rest
      else rest
  }

  /** A collection that does not exist reads as empty. */
  function Collection(db: Database, name: string): seq<Doc>
  {
    if name in db then db[name] else []
  }

  function LookupAll(docs: seq<Doc>, foreign: seq<Doc>, localField: string, foreignField: string, asField: string): (r: seq<Doc>)
    ensures |r| == |docs|
    ensures forall i :: 0 <= i < |docs| ==>
              r[i] == docs[i][asField := VArr(Joined(docs[i], foreign, localField, foreignField))]
  {
    seq(|docs|, i requires 0 <= i < |docs| => docs[i][asField := VArr(Joined(docs[i], foreign, localField, foreignField))])
  }

  // ------------------------------------------- $replaceRoot / $mergeObjects

  /** `{ $arrayElemAt: [ "$f", 0 ] }`: None when the field is missing, null
      or an empty array; an error when it is not an array. */
  function FirstElement(d: Doc, f: string): Result<Option<Value>>
  {
    if f !in d || d[f].VNull? then Ok(None)
    else if !d[f].VArr? then Err(Failure("$arrayElemAt's first argument must be an array"))
    else if d[f].elems == [] then Ok(None)
    else Ok(Some(d[f].elems[0]))
  }

  /** The new root `$mergeObjects: [ first, $$ROOT ]`: fields of the root
      override those of the first element; a missing or null first element
      contributes nothing. */
  function MergeFirst(d: Doc, f: string): (r: Result<Doc>)
    ensures r.Ok? ==> d.Keys <= r.value.Keys && forall k :: k in d ==> r.value[k] == d[k]
  {
    match FirstElement(d, f)
    case Err(e) => Err(e)
    case Ok(None) => Ok(d)
    case Ok(Some(VNull)) => Ok(d)
    case Ok(Some(VDoc(m))) => Ok(m + d)
    case Ok(Some(_)) => Err(Failure("$mergeObjects requires object inputs"))
  }

  function MergeAll(docs: seq<Doc>, f: string): (r: Result<seq<Doc>>)
    ensures r.Ok? ==> |r.value| == |docs|
    ensures r.Ok? <==> forall i :: 0 <= i < |docs| ==> MergeFirst(docs[i], f).Ok?
    ensures r.Ok? ==> forall i :: 0 <= i < |docs| ==> r.value[i] == MergeFirst(docs[i], f).value
  {
    if docs == [] then Ok([])
    else
      match MergeFirst(docs[0], f)
      case Err(e) => Err(e)
      case Ok(m) =>
        match MergeAll(docs[1..], f)
        case Err(e) =>
          assert exists i :: 1 <= i < |docs| && MergeFirst(docs[i], f).Err? by {
            var i :| 0 <= i < |docs[1..]| && MergeFirst(docs[1..][i], f).Err?;
            assert docs[i + 1] == docs[1..][i];
          }
          Err(e)
        case Ok(rest) =>
          assert forall i :: 1 <= i < |docs| ==> docs[i] == docs[1..][i - 1];
          Ok([m] + rest)
  }

  // -------------------------------------------------------------- $project

  /** A `$project` whose entries are all `0` removes those fields. */
  predicate ExclusionMode(spec: seq<(string, Projection)>)
  {
    |spec| > 0 && forall i :: 0 <= i < |spec| ==> spec[i].1 == Exclude
  }

  /** Any other `$project` keeps only what it names, and may exclude `_id`
      alone; `_id` is kept unless excluded. */
  predicate InclusionMode(spec: seq<(string, Projection)>)
  {
    !ExclusionMode(spec) && |spec| > 0
    && forall i :: 0 <= i < |spec| && spec[i].1 == Exclude ==> spec[i].0 == "_id"
  }

  function ExcludedFields(spec: seq<(string, Projection)>): (r: set<string>)
    ensures forall f :: f in r <==> exists i :: 0 <= i < |spec| && spec[i] == (f, Exclude)
  {
    set i | 0 <= i < |spec| && spec[i].1 == Exclude :: spec[i].0
  }

  /** The value the entry `f: p` of an inclusion projection gives `f`:
      a copy of `d`'s field, a computed value, or nothing. */
  function EntryValue(d: Doc, p: Projection, f: string): Option<Value>
  {
    match p
    case Exclude => None
    case Include => Get(d, f)
    case Computed(e) => Eval(e, d)
  }

  /** The fields an inclusion projection names, with their values in `d`;
      a field whose value is missing is left out. */
  function Included(d: Doc, spec: seq<(string, Projection)>): (r: Doc)
    ensures forall f :: f in r ==> exists i :: 0 <= i < |spec| && spec[i].0 == f && spec[i].1 != Exclude
  {
    if spec == [] then map[]
    else
      var rest := Included(d, spec[1..]);
      assert forall f :: f in rest ==> exists i :: 0 <= i < |spec| && spec[i].0 == f && spec[i].1 != Exclude by {
        forall f | f in rest ensures exists i :: 0 <= i < |spec| && spec[i].0 == f && spec[i].1 != Exclude {
          var i :| 0 <= i < |spec[1..]| && spec[1..][i].0 == f && spec[1..][i].1 != Exclude;
          assert spec[i + 1] == spec[1..][i];
        }
      }
      match EntryValue(d, spec[0].1, spec[0].0)
      case None => rest
      case Some(v) => rest[spec[0].0 := v]
  }

  function ProjectOne(d: Doc, spec: seq<(string, Projection)>): Doc
  {
    if ExclusionMode(spec) then d - ExcludedFields(spec)
    else
      var keepId := "_id" in d && "_id" !in ExcludedFields(spec);
      (if keepId then map["_id" := d["_id"]] else map[]) + Included(d, spec)
  }

  function ProjectAll(docs: seq<Doc>, spec: seq<(string, Projection)>): (r: Result<seq<Doc>>)
    ensures r.Ok? <==> ExclusionMode(spec) || InclusionMode(spec)
    ensures r.Ok? ==> |r.value| == |docs| && forall i :: 0 <= i < |docs| ==> r.value[i] == ProjectOne(docs[i], spec)
  {
    if ExclusionMode(spec) || InclusionMode(spec) then
      Ok(seq(|docs|, i requires 0 <= i < |docs| => ProjectOne(docs[i], spec)))
    else if spec == [] then Err(Failure("$project requires at least one output field"))
    else Err(Failure("Invalid $project :: cannot use exclusion in inclusion projection"))
  }

  // ---------------------------------------------------------------- $count

  /** A `$count` field name must be non-empty, not start with `$` and hold no `.`. */
  predicate ValidCountField(f: string)
  {
    f != "" && f[0] != '$' && '.' !in f
  }

  // ------------------------------------------------------------- pipelines

  function Step(st: Stage, docs: seq<Doc>, db: Database): Result<seq<Doc>>
  {
    match st
    case Match(filter) => Ok(Filter(docs, filter))
    case Sort(f, direction) =>
      if direction == -1 then Ok(SortBy(docs, f, true))
      else if direction == 1 then Ok(SortBy(docs, f, false))
      else Err(Failure("$sort key ordering must be 1 (for ascending) or -1 (for descending)"))
    case Skip(n) =>
      if n < 0 then Err(Failure("invalid argument to $skip stage: Expected a non-negative number"))
      else Ok(docs[Min(n, |docs|)..])
    case Limit(n) =>
      if n <= 0 then Err(Failure("the limit must be positive"))
      else Ok(docs[..Min(n, |docs|)])
    case Lookup(from, localField, foreignField, asField) =>
      Ok(LookupAll(docs, Collection(db, from), localField, foreignField, asField))
    case MergeFirstIntoRoot(f) => MergeAll(docs, f)
    case Project(spec) => ProjectAll(docs, spec)
    case Count(f) =>
      if !ValidCountField(f) then Err(Failure("the count field must be a non-empty string without '$' or '.'"))
      else if docs == [] then Ok([])
      else Ok([map[f := VInt(|docs|)]])
  }

  /** `$match` and `$lookup` always succeed, `$match` never adds a
      document, `$lookup` keeps one per input, and `$sort` keeps the
      documents and needs a direction of 1 or -1. */
  lemma StepKeeps(st: Stage, docs: seq<Doc>, db: Database)
    requires st.Match? || st.Sort? || st.Lookup?
    ensures var r := Step(st, docs, db);
            && (st.Match? ==> r.Ok? && |r.value| <= |docs|)
            && (st.Lookup? ==> r.Ok? && |r.value| == |docs|)
            && (st.Sort? ==> (r.Ok? <==> st.direction == 1 || st.direction == -1))
            && (st.Sort? && r.Ok? ==> multiset(r.value) == multiset(docs))
  {
  }

  /** `$skip` needs a non-negative count and leaves the suffix past it;
      `$limit` needs a positive count and leaves the prefix up to it. */
  lemma StepSlices(st: Stage, docs: seq<Doc>, db: Database)
    requires st.Skip? || st.Limit?
    ensures var r := Step(st, docs, db);
            && (st.Skip? ==> (r.Ok? <==> st.n >= 0))
            && (st.Skip? && r.Ok? ==> |r.value| == Max(0, |docs| - st.n) && r.value == docs[|docs| - |r.value|..])
            && (st.Limit? ==> (r.Ok? <==> st.n > 0))
            && (st.Limit? && r.Ok? ==> |r.value| == Min(st.n, |docs|) && r.value == docs[..|r.value|])
  {
  }

  /** `$count` yields at most one row, and none when nothing reaches it. */
  lemma StepCounts(f: string, docs: seq<Doc>, db: Database)
    ensures var r := Step(Count(f), docs, db);
            && (r.Ok? <==> ValidCountField(f))
            && (r.Ok? ==> |r.value| <= 1 && (r.value == [] <==> docs == []))
            && (r.Ok? && docs != [] ==> r.value[0] == map[f := VInt(|docs|)])
  {
  }

  /** Runs the stages left to right on the documents of the aggregated
      collection; the first failing stage fails the aggregation. */
  function Run(pipeline: seq<Stage>, docs: seq<Doc>, db: Database): (r: Result<seq<Doc>>)
    ensures pipeline == [] ==> r == Ok(docs)
    ensures |pipeline| == 1 ==> r == Step(pipeline[0], docs, db)
    decreases |pipeline|
  {
    if pipeline == [] then Ok(docs)
    else
      match Step(pipeline[0], docs, db)
      case Err(e) => Err(e)
      case Ok(next) => Run(pipeline[1..], next, db)
  }

  /** Running a prefix and then the rest is running the whole pipeline. */
  lemma {:induction false} RunAppend(p: seq<Stage>, q: seq<Stage>, docs: seq<Doc>, db: Database)
    ensures Run(p + q, docs, db) == match Run(p, docs, db) case Err(e) => Err(e) case Ok(mid) => Run(q, mid, db)
    decreases |p|
  {
    if p == [] {
      assert p + q == q;
    } else {
      assert (p + q)[0] == p[0];
      assert (p + q)[1..] == p[1..] + q;
      match Step(p[0], docs, db)
      case Err(e) =>
      case Ok(next) => RunAppend(p[1..], q, next, db);
    }
  }
}
