/** Counting the records a filter matches (`count` in database/database.go):
    a two-stage aggregation, `$match` then `$count: "count"`, whose empty
    answer means zero.
 */
module Counting {

  import opened Outcomes
  import opened Documents
  import opened Aggregate
  import opened Pipelines

  const CountField: string := "count"

  /** The pipeline `count` sends to the server. */
  function CountPipeline(matchStage: Stage): (p: seq<Stage>)
    ensures |p| == 2 && p[0] == matchStage && p[1] == Count(CountField)
  {
    [matchStage, Count(CountField)]
  }

  /** The number `count` returns and the error it returns with it. */
  datatype Counted = Counted(n: int, err: Option<Error>)

  /** Decoding the result row into a struct with an integer `count` field:
      a missing field leaves the zero value, a non-integer value fails. */
  function DecodeCount(row: Doc): (r: Result<int>)
    ensures r.Err? <==> CountField in row && !row[CountField].VInt?
    ensures r.Ok? && CountField in row ==> row[CountField] == VInt(r.value)
    ensures CountField !in row ==> r == Ok(0)
  {
    if CountField !in row then Ok(0)
    else match row[CountField]
      case VInt(n) => Ok(n)
      case _ => Err(Failure("cannot decode the count field into an integer"))
  }

  /** `count` over collection `coll`.  `queryFault` is a failure of the
      aggregate call itself (connection, timeout); an error the server
      reports for the pipeline is taken from the interpreter. */
  function CountDocs(coll: seq<Doc>, matchStage: Stage, db: Database, queryFault: Option<Error>): (r: Counted)
    ensures r.err.Some? ==> r.n == 0
    ensures queryFault.Some? ==> r.err == Some(Context("DB query failed", queryFault.value))
    ensures queryFault.None? && Run(CountPipeline(matchStage), coll, db).Err? ==>
              r.err == Some(Context("DB query failed", Run(CountPipeline(matchStage), coll, db).error))
    ensures queryFault.None? && Run(CountPipeline(matchStage), coll, db) == Ok([]) ==> r == Counted(0, None)
  {
    if queryFault.Some? then Counted(0, Some(Context("DB query failed", queryFault.value)))
    else
      match Run(CountPipeline(matchStage), coll, db)
      case Err(e) => Counted(0, Some(Context("DB query failed", e)))
      case Ok(rows) =>
        if rows == [] then Counted(0, None)
        else
          match DecodeCount(rows[0])
          case Err(e) => Counted(0, Some(Context("failed to decode DB data", e)))
          case Ok(n) => Counted(n, None)
  }

  /** What the interpreter makes of the count pipeline with a `$match`. */
  lemma CountPipelineRuns(filter: map<string, Value>, coll: seq<Doc>, db: Database)
    ensures var matched := Filter(coll, filter);
            Run(CountPipeline(Match(filter)), coll, db)
            == if matched == [] then Ok([]) else Ok([map[CountField := VInt(|matched|)]])
  {
    var p := CountPipeline(Match(filter));
    var matched := Filter(coll, filter);
    assert ValidCountField(CountField);
    assert p[1..][0] == Count(CountField) && p[1..][1..] == [];
    assert Run(p, coll, db) == Run(p[1..], matched, db);
    var out := if matched == [] then [] else [map[CountField := VInt(|matched|)]];
    assert Step(Count(CountField), matched, db) == Ok(out);
    assert Run(p[1..], matched, db) == Run([], out, db);
  }

  /** With a `$match` filter and no failure of the query, `count` returns
      exactly the number of matched records and no error, zero included. */
  lemma CountIsMatched(filter: map<string, Value>, coll: seq<Doc>, db: Database)
    ensures CountDocs(coll, Match(filter), db, None) == Counted(|Filter(coll, filter)|, None)
  {
    CountPipelineRuns(filter, coll, db);
    var row := map[CountField := VInt(|Filter(coll, filter)|)];
    assert DecodeCount(row) == Ok(|Filter(coll, filter)|);
  }

  /** The count bounds the size of every history page on the same filter:
      a page holds max(0, min(pageSize, count - offset)) rows. */
  lemma PageSizeFromCount(filter: map<string, Value>, offset: nat, pageSize: nat, coll: seq<Doc>, db: Database)
    requires pageSize >= 1
    ensures var c := CountDocs(coll, Match(filter), db, None);
            var up := Run(UploadsPipeline(Match(filter), offset, pageSize), coll, db);
            && c.err.None? && up.Ok?
            && |up.value| == Max(0, Min(pageSize, c.n - offset))
  {
    CountIsMatched(filter, coll, db);
    UploadsPipelineRuns(filter, offset, pageSize, coll, db);
  }
}
