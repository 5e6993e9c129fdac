/** The paginated, enriched history queries of database/database.go:
    `generateUploadsPipeline` and `generateDownloadsPipeline`, and what
    running them on a collection of upload or download records yields.

    Both builders return the same seven stages up to the last one: the
    caller's `$match`, a sort on `timestamp` (most recent first), `$skip`
    and `$limit` for the page, a `$lookup` joining each record to the
    `skylinks` documents whose `_id` is the record's `skylink_id`, and a
    `$replaceRoot` that overlays the record on the first joined skylink.
    The uploads variant then drops the join array; the downloads variant
    keeps a fixed set of fields and computes the reported `size`.
 */
module Pipelines {

  import opened Outcomes
  import opened Documents
  import opened Aggregate

  const SkylinksCollection: string := "skylinks"
  const TimestampField: string := "timestamp"
  const LocalField: string := "skylink_id"
  const ForeignField: string := "_id"
  /** The array `$lookup` stores the joined skylinks in. */
  const JoinField: string := "fromSkylinks"

  const SortStage: Stage := Sort(TimestampField, -1)
  const LookupStage: Stage := Lookup(SkylinksCollection, LocalField, ForeignField, JoinField)
  const ReplaceStage: Stage := MergeFirstIntoRoot(JoinField)

  const UploadsProjection: seq<(string, Projection)> := [(JoinField, Exclude)]

  /** `{ $cond: [ { $gt: [ "$bytes", 0 ] }, "$bytes", "$size" ] }` */
  const EffectiveSizeExpr: Expr := CondGt("bytes", 0, Path("bytes"), Path("size"))

  const DownloadsProjection: seq<(string, Projection)> :=
    [ ("skylink", Include), ("name", Include), ("user_id", Include), ("skylink_id", Include),
      ("timestamp", Include), ("size", Computed(EffectiveSizeExpr)) ]

  /** The fields a download row copies from the merged document; `_id` is
      kept as well because an inclusion `$project` keeps it by default. */
  const DownloadFields: set<string> := {"_id", "skylink", "name", "user_id", "skylink_id", "timestamp"}

  /** The stages both builders share, and their order. */
  predicate HistoryPipeline(p: seq<Stage>, matchStage: Stage, offset: int, pageSize: int)
  {
    && |p| == 7
    && p[0] == matchStage
    && p[1] == Sort("timestamp", -1)
    && p[2] == Skip(offset)
    && p[3] == Limit(pageSize)
    && p[4] == Lookup("skylinks", "skylink_id", "_id", "fromSkylinks")
    && p[5] == MergeFirstIntoRoot("fromSkylinks")
    && p[6].Project?
  }

  function UploadsPipeline(matchStage: Stage, offset: int, pageSize: int): (p: seq<Stage>)
    ensures HistoryPipeline(p, matchStage, offset, pageSize)
    ensures p[6] == Project([("fromSkylinks", Exclude)])
  {
    [matchStage, SortStage, Skip(offset), Limit(pageSize), LookupStage, ReplaceStage, Project(UploadsProjection)]
  }

  function DownloadsPipeline(matchStage: Stage, offset: int, pageSize: int): (p: seq<Stage>)
    ensures HistoryPipeline(p, matchStage, offset, pageSize)
    ensures p[..6] == UploadsPipeline(matchStage, offset, pageSize)[..6]
    ensures p[6].Project? && forall i :: 0 <= i < |p[6].spec| ==> p[6].spec[i].1 != Exclude
  {
    [matchStage, SortStage, Skip(offset), Limit(pageSize), LookupStage, ReplaceStage, Project(DownloadsProjection)]
  }

  // ------------------------------------------------- reference semantics

  /** The records of one page: positions offset .. offset + pageSize - 1 of
      the matched records, most recent first. */
  function Page(coll: seq<Doc>, filter: map<string, Value>, offset: nat, pageSize: nat): (r: seq<Doc>)
    ensures |r| == Max(0, Min(pageSize, |Filter(coll, filter)| - offset))
  {
    var sorted := SortBy(Filter(coll, filter), TimestampField, true);
    SliceBounds(|sorted|, offset, pageSize);
    sorted[Min(offset, |sorted|)..Min(offset + pageSize, |sorted|)]
  }

  /** The number of positions offset .. offset + pageSize - 1 below n. */
  lemma SliceBounds(n: nat, offset: nat, pageSize: nat)
    ensures Min(offset + pageSize, n) - Min(offset, n) == Max(0, Min(pageSize, n - offset))
  {
  }

  /** The skylink a record joins to: the first document of the collection
      whose `_id` equals the record's `skylink_id`. */
  function SkylinkOf(d: Doc, skylinks: seq<Doc>): (r: Option<Doc>)
    ensures r.None? <==> forall k :: 0 <= k < |skylinks| ==> LookupKey(skylinks[k], "_id") != LookupKey(d, "skylink_id")
    ensures r.Some? ==> exists k :: 0 <= k < |skylinks| && skylinks[k] == r.value
                          && LookupKey(skylinks[k], "_id") == LookupKey(d, "skylink_id")
                          && forall j :: 0 <= j < k ==> LookupKey(skylinks[j], "_id") != LookupKey(d, "skylink_id")
  {
    if skylinks == [] then None
    else if LookupKey(skylinks[0], ForeignField) == LookupKey(d, LocalField) then Some(skylinks[0])
    else
      var r := SkylinkOf(d, skylinks[1..]);
      if r.Some? then
        var k :| 0 <= k < |skylinks[1..]| && skylinks[1..][k] == r.value
                 && LookupKey(skylinks[1..][k], "_id") == LookupKey(d, "skylink_id")
                 && forall j :: 0 <= j < k ==> LookupKey(skylinks[1..][j], "_id") != LookupKey(d, "skylink_id");
        assert skylinks[k + 1] == r.value;
        assert forall j :: 1 <= j < k + 1 ==> skylinks[j] == skylinks[1..][j - 1];
        r
      else
        assert forall k :: 1 <= k < |skylinks| ==> skylinks[k] == skylinks[1..][k - 1];
        r
  }

  /** A record overlaid on the skylink it joins to: the record's own fields
      win on collision, and a record that joins to nothing stays as it is. */
  function Enriched(d: Doc, skylinks: seq<Doc>): (r: Doc)
    ensures SkylinkOf(d, skylinks).None? ==> r == d
    ensures SkylinkOf(d, skylinks).Some? ==> r.Keys == SkylinkOf(d, skylinks).value.Keys + d.Keys
    ensures forall k :: k in d ==> k in r && r[k] == d[k]
    ensures forall k :: k in r && k !in d ==> (SkylinkOf(d, skylinks).Some?
                                              && k in SkylinkOf(d, skylinks).value
                                              && r[k] == SkylinkOf(d, skylinks).value[k])
  {
    match SkylinkOf(d, skylinks)
    case None => d
    case Some(sk) => sk + d
  }

  /** An uploads row: the enriched record without the join array. */
  function UploadRow(d: Doc, skylinks: seq<Doc>): (r: Doc)
    ensures r.Keys == Enriched(d, skylinks).Keys - {"fromSkylinks"}
    ensures forall k :: k in d && k != "fromSkylinks" ==> k in r && r[k] == d[k]
    ensures forall k :: k in r && k !in d ==> SkylinkOf(d, skylinks).Some? && r[k] == SkylinkOf(d, skylinks).value[k]
    ensures SkylinkOf(d, skylinks).None? ==> r == d - {"fromSkylinks"}
  {
    Enriched(d, skylinks) - {JoinField}
  }

  /** The reported size of a download: `bytes` when it is greater than
      zero, else the merged `size`; None when the result is missing. */
  function EffectiveSize(m: Doc): (r: Option<Value>)
    ensures "bytes" in m && m["bytes"].VInt? && m["bytes"].n > 0 ==> r == Some(m["bytes"])
    ensures "bytes" in m && !m["bytes"].VInt? && !m["bytes"].VNull? ==> r == Some(m["bytes"])
    ensures "bytes" !in m || m["bytes"].VNull? || (m["bytes"].VInt? && m["bytes"].n <= 0) ==>
              (r.Some? <==> "size" in m) && (r.Some? ==> r.value == m["size"])
  {
    if GreaterThan(Get(m, "bytes"), 0) then Get(m, "bytes") else Get(m, "size")
  }

  /** A downloads row: the kept fields of the enriched record plus the
      effective size. */
  function DownloadRow(d: Doc, skylinks: seq<Doc>): (r: Doc)
    ensures r.Keys <= DownloadFields + {"size"}
    ensures forall k :: k in DownloadFields ==> (k in r <==> k in Enriched(d, skylinks))
    ensures forall k :: k in DownloadFields && k in d ==> k in r && r[k] == d[k]
    ensures forall k :: k in r && k != "size" ==> r[k] == Enriched(d, skylinks)[k]
    ensures "size" in r <==> EffectiveSize(Enriched(d, skylinks)).Some?
    ensures "size" in r ==> r["size"] == EffectiveSize(Enriched(d, skylinks)).value
    ensures "bytes" in d && d["bytes"].VInt? && d["bytes"].n > 0 ==> "size" in r && r["size"] == d["bytes"]
    ensures "bytes" in d && d["bytes"].VInt? && d["bytes"].n <= 0 && "size" !in d ==>
              ("size" in r <==> SkylinkOf(d, skylinks).Some? && "size" in SkylinkOf(d, skylinks).value)
              && ("size" in r ==> r["size"] == SkylinkOf(d, skylinks).value["size"])
  {
    Projected(Enriched(d, skylinks))
  }

  /** The kept fields of a merged document plus its effective size. */
  function Projected(m: Doc): Doc
  {
    match EffectiveSize(m)
    case None => Kept(m)
    case Some(v) => Kept(m)["size" := v]
  }

  /** The fields of `m` a downloads row copies. */
  function Kept(m: Doc): (r: Doc)
    ensures forall k :: k in r <==> k in m && k in DownloadFields
    ensures forall k :: k in r ==> r[k] == m[k]
  {
    map f | f in m && f in DownloadFields :: m[f]
  }

  function UploadRows(page: seq<Doc>, skylinks: seq<Doc>): (r: seq<Doc>)
    ensures |r| == |page| && forall i :: 0 <= i < |page| ==> r[i] == UploadRow(page[i], skylinks)
  {
    seq(|page|, i requires 0 <= i < |page| => UploadRow(page[i], skylinks))
  }

  function DownloadRows(page: seq<Doc>, skylinks: seq<Doc>): (r: seq<Doc>)
    ensures |r| == |page| && forall i :: 0 <= i < |page| ==> r[i] == DownloadRow(page[i], skylinks)
  {
    seq(|page|, i requires 0 <= i < |page| => DownloadRow(page[i], skylinks))
  }

  // ------------------------------------------------------ stage lemmas

  /** `$lookup` finds the joined skylink first in its array. */
  lemma {:induction false} JoinedStartsWithSkylink(d: Doc, skylinks: seq<Doc>)
    ensures var j := Joined(d, skylinks, "skylink_id", "_id");
            (j == [] <==> SkylinkOf(d, skylinks).None?)
            && (j != [] ==> j[0] == VDoc(SkylinkOf(d, skylinks).value))
  {
    if skylinks != [] && LookupKey(skylinks[0], ForeignField) != LookupKey(d, LocalField) {
      JoinedStartsWithSkylink(d, skylinks[1..]);
    }
  }

  /** The document the `$replaceRoot` stage makes of a joined record. */
  lemma MergedRecord(d: Doc, skylinks: seq<Doc>)
    ensures var a := VArr(Joined(d, skylinks, "skylink_id", "_id"));
            MergeFirst(d["fromSkylinks" := a], "fromSkylinks") == Ok(Enriched(d, skylinks)["fromSkylinks" := a])
  {
    JoinedStartsWithSkylink(d, skylinks);
    var a := VArr(Joined(d, skylinks, LocalField, ForeignField));
    match SkylinkOf(d, skylinks)
    case None =>
      MergedWithNothing(d, a);
    case Some(sk) =>
      MergedWithFirst(d, sk, a);
  }

  /** An empty join array leaves the record as it is. */
  lemma MergedWithNothing(d: Doc, a: Value)
    requires a == VArr([])
    ensures MergeFirst(d[JoinField := a], JoinField) == Ok(d[JoinField := a])
  {
    assert FirstElement(d[JoinField := a], JoinField) == Ok(None);
  }

  /** A join array starting with `sk` overlays the record on `sk`. */
  lemma MergedWithFirst(d: Doc, sk: Doc, a: Value)
    requires a.VArr? && a.elems != [] && a.elems[0] == VDoc(sk)
    ensures MergeFirst(d[JoinField := a], JoinField) == Ok((sk + d)[JoinField := a])
  {
    var md := d[JoinField := a];
    assert FirstElement(md, JoinField) == Ok(Some(VDoc(sk)));
    assert sk + md == (sk + d)[JoinField := a];
  }

  predicate DistinctNames(spec: seq<(string, Projection)>)
  {
    forall i, j :: 0 <= i < j < |spec| ==> spec[i].0 != spec[j].0
  }

  /** Each entry of a projection with distinct names contributes exactly
      its own value. */
  lemma {:induction false} IncludedEntry(d: Doc, spec: seq<(string, Projection)>, i: int)
    requires DistinctNames(spec) && 0 <= i < |spec|
    ensures spec[i].0 in Included(d, spec) <==> EntryValue(d, spec[i].1, spec[i].0).Some?
    ensures spec[i].0 in Included(d, spec) ==> Included(d, spec)[spec[i].0] == EntryValue(d, spec[i].1, spec[i].0).value
    decreases |spec|
  {
    if i > 0 {
      DistinctTail(spec);
      IncludedEntry(d, spec[1..], i - 1);
      assert spec[1..][i - 1] == spec[i];
      assert spec[0].0 != spec[i].0;
    }
  }

  lemma DistinctTail(spec: seq<(string, Projection)>)
    requires DistinctNames(spec) && spec != []
    ensures DistinctNames(spec[1..])
  {
    forall a, b | 0 <= a < b < |spec[1..]| ensures spec[1..][a].0 != spec[1..][b].0 {
      assert spec[1..][a] == spec[a + 1] && spec[1..][b] == spec[b + 1];
    }
  }

  lemma DownloadsProjectionFacts()
    ensures DistinctNames(DownloadsProjection)
    ensures InclusionMode(DownloadsProjection)
    ensures ExcludedFields(DownloadsProjection) == {}
  {
    assert DownloadsProjection[0].1 != Exclude;
  }

  /** The names a downloads `$project` produces, and those it copies. */
  const ProjectedNames: set<string> := {"skylink", "name", "user_id", "skylink_id", "timestamp", "size"}
  const CopiedNames: set<string> := {"skylink", "name", "user_id", "skylink_id", "timestamp"}

  lemma IncludedCopies(md: Doc, spec: seq<(string, Projection)>, i: int)
    requires DistinctNames(spec) && 0 <= i < |spec| && spec[i].1 == Include
    ensures var inc := Included(md, spec); var f := spec[i].0;
            (f in inc <==> f in md) && (f in inc ==> inc[f] == md[f])
  {
    IncludedEntry(md, spec, i);
  }

  lemma DownloadsCopies(md: Doc, k: string)
    requires k in CopiedNames
    ensures var inc := Included(md, DownloadsProjection);
            (k in inc <==> k in md) && (k in inc ==> inc[k] == md[k])
  {
    var i := CopiedIndex(k);
    DownloadsProjectionFacts();
    IncludedCopies(md, DownloadsProjection, i);
  }

  /** Where a copied name sits in the downloads projection. */
  lemma CopiedIndex(k: string) returns (i: int)
    requires k in CopiedNames
    ensures 0 <= i < |DownloadsProjection| && DownloadsProjection[i] == (k, Include)
  {
    if k == "skylink" { i := 0; }
    else if k == "name" { i := 1; }
    else if k == "user_id" { i := 2; }
    else if k == "skylink_id" { i := 3; }
    else { i := 4; }
  }

  lemma DownloadsComputesSize(md: Doc)
    ensures var inc := Included(md, DownloadsProjection);
            && ("size" in inc <==> EffectiveSize(md).Some?)
            && ("size" in inc ==> inc["size"] == EffectiveSize(md).value)
  {
    DownloadsProjectionFacts();
    IncludedEntry(md, DownloadsProjection, 5);
    assert Eval(EffectiveSizeExpr, md) == EffectiveSize(md);
  }

  lemma DownloadsNames(md: Doc)
    ensures Included(md, DownloadsProjection).Keys <= ProjectedNames
  {
    var spec := DownloadsProjection;
    forall k | k in Included(md, spec) ensures k in ProjectedNames {
      var i :| 0 <= i < |spec| && spec[i].0 == k && spec[i].1 != Exclude;
    }
  }

  lemma DownloadsProjectOne(m: Doc, a: Value)
    ensures var md := m[JoinField := a];
            ProjectOne(md, DownloadsProjection)
            == (if "_id" in md then map["_id" := md["_id"]] else map[]) + Included(md, DownloadsProjection)
    ensures EffectiveSize(m[JoinField := a]) == EffectiveSize(m)
  {
    DownloadsProjectionFacts();
  }

  /** One field of a downloads row, as the `$project` stage produces it. */
  lemma DownloadsProjectionField(m: Doc, a: Value, k: string)
    ensures var lhs := ProjectOne(m[JoinField := a], DownloadsProjection);
            (k in lhs <==> k in Projected(m)) && (k in lhs ==> lhs[k] == Projected(m)[k])
  {
    if k == "size" {
      SizeField(m, a);
    } else if k in CopiedNames {
      CopiedField(m, a, k);
    } else {
      OtherField(m, a, k);
    }
  }

  lemma SizeField(m: Doc, a: Value)
    ensures var lhs := ProjectOne(m[JoinField := a], DownloadsProjection);
            ("size" in lhs <==> "size" in Projected(m)) && ("size" in lhs ==> lhs["size"] == Projected(m)["size"])
  {
    DownloadsProjectOne(m, a);
    DownloadsComputesSize(m[JoinField := a]);
  }

  lemma CopiedField(m: Doc, a: Value, k: string)
    requires k in CopiedNames
    ensures var lhs := ProjectOne(m[JoinField := a], DownloadsProjection);
            (k in lhs <==> k in Projected(m)) && (k in lhs ==> lhs[k] == Projected(m)[k])
  {
    var md := m[JoinField := a];
    DownloadsProjectOne(m, a);
    DownloadsCopies(md, k);
    assert k in md <==> k in m;
  }

  lemma OtherField(m: Doc, a: Value, k: string)
    requires k != "size" && k !in CopiedNames
    ensures var lhs := ProjectOne(m[JoinField := a], DownloadsProjection);
            (k in lhs <==> k in Projected(m)) && (k in lhs ==> lhs[k] == Projected(m)[k])
  {
    var md := m[JoinField := a];
    DownloadsProjectOne(m, a);
    DownloadsNames(md);
    assert k !in Included(md, DownloadsProjection);
    if k == "_id" {
      assert k in md <==> k in m;
    }
  }

  lemma DownloadsProjectionIsRow(d: Doc, skylinks: seq<Doc>, a: Value)
    ensures ProjectOne(Enriched(d, skylinks)[JoinField := a], DownloadsProjection) == DownloadRow(d, skylinks)
  {
    var m := Enriched(d, skylinks);
    var lhs := ProjectOne(m[JoinField := a], DownloadsProjection);
    forall k ensures (k in lhs <==> k in Projected(m)) && (k in lhs ==> lhs[k] == Projected(m)[k]) {
      DownloadsProjectionField(m, a, k);
    }
    assert lhs == Projected(m);
  }

  // ------------------------------------------------------------ running

  /** Pagination: skipping then limiting the sorted matches is the page. */
  lemma PageOfSteps(s: seq<Doc>, offset: nat, pageSize: nat)
    ensures s[Min(offset, |s|)..][..Min(pageSize, |s[Min(offset, |s|)..]|)]
            == s[Min(offset, |s|)..Min(offset + pageSize, |s|)]
  {
  }

  /** A stage that succeeds hands its output to the stages after it. */
  lemma RunsStep(p: seq<Stage>, i: nat, docs: seq<Doc>, next: seq<Doc>, db: Database)
    requires i < |p| && Step(p[i], docs, db) == Ok(next)
    ensures Run(p[i..], docs, db) == Run(p[i + 1..], next, db)
  {
    assert p[i..][0] == p[i] && p[i..][1..] == p[i + 1..];
  }

  /** The documents the first five shared stages pass along. */
  lemma FirstStages(filter: map<string, Value>, offset: nat, pageSize: nat, coll: seq<Doc>, db: Database)
    requires pageSize >= 1
    ensures var F := Filter(coll, filter);
            var S := SortBy(F, TimestampField, true);
            var K := S[Min(offset, |S|)..];
            var W := K[..Min(pageSize, |K|)];
            && Step(Match(filter), coll, db) == Ok(F)
            && Step(SortStage, F, db) == Ok(S)
            && Step(Skip(offset), S, db) == Ok(K)
            && Step(Limit(pageSize), K, db) == Ok(W)
            && W == Page(coll, filter, offset, pageSize)
  {
    var S := SortBy(Filter(coll, filter), TimestampField, true);
    PageOfSteps(S, offset, pageSize);
  }

  /** Running the first five shared stages on a collection yields the
      joined records of the page. */
  lemma RunsToLookup(p: seq<Stage>, filter: map<string, Value>, offset: nat, pageSize: nat, coll: seq<Doc>, db: Database)
    requires HistoryPipeline(p, Match(filter), offset, pageSize) && pageSize >= 1
    ensures var page := Page(coll, filter, offset, pageSize);
            Run(p, coll, db) == Run(p[5..], LookupAll(page, Collection(db, SkylinksCollection), LocalField, ForeignField, JoinField), db)
  {
    var F := Filter(coll, filter);
    var S := SortBy(F, TimestampField, true);
    var K := S[Min(offset, |S|)..];
    var W := K[..Min(pageSize, |K|)];
    var L := LookupAll(W, Collection(db, SkylinksCollection), LocalField, ForeignField, JoinField);
    FirstStages(filter, offset, pageSize, coll, db);
    assert p[..0] == [];
    RunsStep(p, 0, coll, F, db);
    RunsStep(p, 1, F, S, db);
    RunsStep(p, 2, S, K, db);
    RunsStep(p, 3, K, W, db);
    RunsStep(p, 4, W, L, db);
  }

  /** The joined records of a page after the `$replaceRoot` stage. */
  function MergedRecords(page: seq<Doc>, skylinks: seq<Doc>): (r: seq<Doc>)
    ensures |r| == |page|
    ensures forall i :: 0 <= i < |page| ==>
              r[i] == Enriched(page[i], skylinks)[JoinField := VArr(Joined(page[i], skylinks, LocalField, ForeignField))]
  {
    seq(|page|, i requires 0 <= i < |page| =>
          Enriched(page[i], skylinks)[JoinField := VArr(Joined(page[i], skylinks, LocalField, ForeignField))])
  }

  lemma MergeStage(page: seq<Doc>, skylinks: seq<Doc>)
    ensures MergeAll(LookupAll(page, skylinks, LocalField, ForeignField, JoinField), JoinField) == Ok(MergedRecords(page, skylinks))
  {
    var L := LookupAll(page, skylinks, LocalField, ForeignField, JoinField);
    var M := MergedRecords(page, skylinks);
    forall i | 0 <= i < |page| ensures MergeFirst(L[i], JoinField) == Ok(M[i]) {
      MergedRecord(page[i], skylinks);
    }
    var r := MergeAll(L, JoinField);
    assert r.Ok?;
    assert r.value == M;
  }

  lemma UploadsProjectStage(page: seq<Doc>, skylinks: seq<Doc>)
    ensures ProjectAll(MergedRecords(page, skylinks), UploadsProjection) == Ok(UploadRows(page, skylinks))
  {
    var M := MergedRecords(page, skylinks);
    var R := UploadRows(page, skylinks);
    assert ExclusionMode(UploadsProjection);
    assert ExcludedFields(UploadsProjection) == {JoinField} by {
      assert UploadsProjection[0] == (JoinField, Exclude);
    }
    forall i | 0 <= i < |page| ensures ProjectOne(M[i], UploadsProjection) == R[i] {
      assert M[i] - {JoinField} == Enriched(page[i], skylinks) - {JoinField};
    }
    var r := ProjectAll(M, UploadsProjection);
    assert r.value == R;
  }

  lemma DownloadsProjectStage(page: seq<Doc>, skylinks: seq<Doc>)
    ensures ProjectAll(MergedRecords(page, skylinks), DownloadsProjection) == Ok(DownloadRows(page, skylinks))
  {
    var M := MergedRecords(page, skylinks);
    var R := DownloadRows(page, skylinks);
    DownloadsProjectionFacts();
    forall i | 0 <= i < |page| ensures ProjectOne(M[i], DownloadsProjection) == R[i] {
      DownloadsProjectionIsRow(page[i], skylinks, VArr(Joined(page[i], skylinks, LocalField, ForeignField)));
    }
    var r := ProjectAll(M, DownloadsProjection);
    assert r.value == R;
  }

  /** The last two stages: flatten the join, then project. */
  lemma RunsFromLookup(p: seq<Stage>, page: seq<Doc>, skylinks: seq<Doc>, db: Database, rows: seq<Doc>)
    requires |p| == 7 && p[5] == ReplaceStage && p[6].Project?
    requires ProjectAll(MergedRecords(page, skylinks), p[6].spec) == Ok(rows)
    ensures Run(p[5..], LookupAll(page, skylinks, LocalField, ForeignField, JoinField), db) == Ok(rows)
  {
    var L := LookupAll(page, skylinks, LocalField, ForeignField, JoinField);
    var M := MergedRecords(page, skylinks);
    MergeStage(page, skylinks);
    assert p[5..][0] == p[5] && p[5..][1..] == p[6..];
    assert Step(p[5], L, db) == Ok(M);
    RunsLastStage(p[6..], M, db, rows);
  }

  lemma RunsLastStage(q: seq<Stage>, docs: seq<Doc>, db: Database, rows: seq<Doc>)
    requires |q| == 1 && q[0].Project? && ProjectAll(docs, q[0].spec) == Ok(rows)
    ensures Run(q, docs, db) == Ok(rows)
  {
    assert q[1..] == [];
  }

  /** The uploads pipeline, run on a collection, yields the uploads rows of
      the page. */
  lemma UploadsPipelineRuns(filter: map<string, Value>, offset: nat, pageSize: nat, coll: seq<Doc>, db: Database)
    requires pageSize >= 1
    ensures Run(UploadsPipeline(Match(filter), offset, pageSize), coll, db)
            == Ok(UploadRows(Page(coll, filter, offset, pageSize), Collection(db, SkylinksCollection)))
  {
    var p := UploadsPipeline(Match(filter), offset, pageSize);
    var sks := Collection(db, SkylinksCollection);
    var W := Page(coll, filter, offset, pageSize);
    RunsToLookup(p, filter, offset, pageSize, coll, db);
    UploadsProjectStage(W, sks);
    RunsFromLookup(p, W, sks, db, UploadRows(W, sks));
  }

  /** The downloads pipeline, run on a collection, yields the downloads
      rows of the page. */
  lemma DownloadsPipelineRuns(filter: map<string, Value>, offset: nat, pageSize: nat, coll: seq<Doc>, db: Database)
    requires pageSize >= 1
    ensures Run(DownloadsPipeline(Match(filter), offset, pageSize), coll, db)
            == Ok(DownloadRows(Page(coll, filter, offset, pageSize), Collection(db, SkylinksCollection)))
  {
    var p := DownloadsPipeline(Match(filter), offset, pageSize);
    var sks := Collection(db, SkylinksCollection);
    var W := Page(coll, filter, offset, pageSize);
    RunsToLookup(p, filter, offset, pageSize, coll, db);
    DownloadsProjectStage(W, sks);
    RunsFromLookup(p, W, sks, db, DownloadRows(W, sks));
  }
}
