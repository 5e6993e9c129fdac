/** What a page of upload or download history looks like: its length,
    its order, and where each row comes from.  These are stated about the
    pipelines of database/database.go run by the reference interpreter.
 */
module History {

  import opened Outcomes
  import opened Documents
  import opened Aggregate
  import opened Pipelines

  /** A page is sorted most recent first and holds only matched records. */
  lemma PageOfMatches(coll: seq<Doc>, filter: map<string, Value>, offset: nat, pageSize: nat)
    ensures SortedBy(Page(coll, filter, offset, pageSize), TimestampField, true)
    ensures forall x :: x in Page(coll, filter, offset, pageSize) ==> x in coll && Matches(x, filter)
  {
    var F := Filter(coll, filter);
    var S := SortBy(F, TimestampField, true);
    SliceSorted(S, Min(offset, |S|), Min(offset + pageSize, |S|));
    forall x | x in S ensures x in F {
      assert x in multiset(S);
    }
  }

  lemma SliceSorted(s: seq<Doc>, lo: int, hi: int)
    requires SortedBy(s, TimestampField, true) && 0 <= lo <= hi <= |s|
    ensures SortedBy(s[lo..hi], TimestampField, true)
    ensures forall x :: x in s[lo..hi] ==> x in s
  {
    var w := s[lo..hi];
    forall i, j | 0 <= i < j < |w|
      ensures Precedes(KeyOf(w[i], TimestampField), KeyOf(w[j], TimestampField), true)
    {
      assert w[i] == s[lo + i] && w[j] == s[lo + j];
    }
  }

  /** Row count: with offset o >= 0 and page size p >= 1 both queries
      succeed and return max(0, min(p, matched - o)) rows, never more than p;
      the uploads and downloads queries return equally many rows. */
  lemma HistoryRowCount(filter: map<string, Value>, offset: nat, pageSize: nat, coll: seq<Doc>, db: Database)
    requires pageSize >= 1
    ensures var up := Run(UploadsPipeline(Match(filter), offset, pageSize), coll, db);
            var down := Run(DownloadsPipeline(Match(filter), offset, pageSize), coll, db);
            && up.Ok? && down.Ok?
            && |up.value| == |down.value| == Max(0, Min(pageSize, |Filter(coll, filter)| - offset))
            && |up.value| <= pageSize
  {
    UploadsPipelineRuns(filter, offset, pageSize, coll, db);
    DownloadsPipelineRuns(filter, offset, pageSize, coll, db);
  }

  /** Rows computed record by record from a page keep the page's order on
      a field when each row carries its record's value of that field. */
  lemma SameKeysSorted(page: seq<Doc>, rows: seq<Doc>)
    requires SortedBy(page, TimestampField, true) && |rows| == |page|
    requires forall i :: 0 <= i < |page| ==> KeyOf(rows[i], TimestampField) == KeyOf(page[i], TimestampField)
    ensures SortedBy(rows, TimestampField, true)
  {
    forall i, j | 0 <= i < j < |rows|
      ensures Precedes(KeyOf(rows[i], TimestampField), KeyOf(rows[j], TimestampField), true)
    {
      assert Precedes(KeyOf(page[i], TimestampField), KeyOf(page[j], TimestampField), true);
    }
  }

  /** The uploads rows of a page of matched records. */
  lemma UploadRowsOfMatches(page: seq<Doc>, coll: seq<Doc>, filter: map<string, Value>, sks: seq<Doc>)
    requires SortedBy(page, TimestampField, true)
    requires forall x :: x in page ==> x in coll && Matches(x, filter)
    ensures var rows := UploadRows(page, sks);
            && (forall i :: 0 <= i < |rows| ==> exists d :: d in coll && Matches(d, filter) && rows[i] == UploadRow(d, sks))
            && ((forall d :: d in coll ==> TimestampField in d) ==> SortedBy(rows, TimestampField, true))
  {
    var rows := UploadRows(page, sks);
    forall i | 0 <= i < |rows|
      ensures exists d :: d in coll && Matches(d, filter) && rows[i] == UploadRow(d, sks)
    {
      assert page[i] in page;
    }
    if forall d :: d in coll ==> TimestampField in d {
      forall i | 0 <= i < |page| ensures KeyOf(rows[i], TimestampField) == KeyOf(page[i], TimestampField) {
        assert page[i] in page;
      }
      SameKeysSorted(page, rows);
    }
  }

  /** The downloads rows of a page of matched records. */
  lemma DownloadRowsOfMatches(page: seq<Doc>, coll: seq<Doc>, filter: map<string, Value>, sks: seq<Doc>)
    requires SortedBy(page, TimestampField, true)
    requires forall x :: x in page ==> x in coll && Matches(x, filter)
    ensures var rows := DownloadRows(page, sks);
            && (forall i :: 0 <= i < |rows| ==> exists d :: d in coll && Matches(d, filter) && rows[i] == DownloadRow(d, sks))
            && ((forall d :: d in coll ==> TimestampField in d) ==> SortedBy(rows, TimestampField, true))
  {
    var rows := DownloadRows(page, sks);
    forall i | 0 <= i < |rows|
      ensures exists d :: d in coll && Matches(d, filter) && rows[i] == DownloadRow(d, sks)
    {
      assert page[i] in page;
    }
    if forall d :: d in coll ==> TimestampField in d {
      forall i | 0 <= i < |page| ensures KeyOf(rows[i], TimestampField) == KeyOf(page[i], TimestampField) {
        assert page[i] in page;
      }
      SameKeysSorted(page, rows);
    }
  }

  /** Every uploads row is the enrichment of a record the filter matches,
      and the rows are most recent first whenever every record carries a
      `timestamp` (the sort happens on the records, and a record's own
      `timestamp` survives the merge). */
  lemma UploadsNewestFirst(filter: map<string, Value>, offset: nat, pageSize: nat, coll: seq<Doc>, db: Database)
    requires pageSize >= 1
    ensures var r := Run(UploadsPipeline(Match(filter), offset, pageSize), coll, db);
            && r.Ok?
            && (forall i :: 0 <= i < |r.value| ==>
                  exists d :: d in coll && Matches(d, filter) && r.value[i] == UploadRow(d, Collection(db, "skylinks")))
            && ((forall d :: d in coll ==> "timestamp" in d) ==> SortedBy(r.value, "timestamp", true))
  {
    UploadsPipelineRuns(filter, offset, pageSize, coll, db);
    PageOfMatches(coll, filter, offset, pageSize);
    UploadRowsOfMatches(Page(coll, filter, offset, pageSize), coll, filter, Collection(db, SkylinksCollection));
  }

  /** The same for the downloads rows. */
  lemma DownloadsNewestFirst(filter: map<string, Value>, offset: nat, pageSize: nat, coll: seq<Doc>, db: Database)
    requires pageSize >= 1
    ensures var r := Run(DownloadsPipeline(Match(filter), offset, pageSize), coll, db);
            && r.Ok?
            && (forall i :: 0 <= i < |r.value| ==>
                  exists d :: d in coll && Matches(d, filter) && r.value[i] == DownloadRow(d, Collection(db, "skylinks")))
            && ((forall d :: d in coll ==> "timestamp" in d) ==> SortedBy(r.value, "timestamp", true))
  {
    DownloadsPipelineRuns(filter, offset, pageSize, coll, db);
    PageOfMatches(coll, filter, offset, pageSize);
    DownloadRowsOfMatches(Page(coll, filter, offset, pageSize), coll, filter, Collection(db, SkylinksCollection));
  }

  /** A history pipeline fails at `$skip` for a negative offset and at
      `$limit` for a page size below one. */
  lemma RejectsBadPage(p: seq<Stage>, filter: map<string, Value>, offset: int, pageSize: int, coll: seq<Doc>, db: Database)
    requires HistoryPipeline(p, Match(filter), offset, pageSize)
    requires offset < 0 || pageSize < 1
    ensures Run(p, coll, db).Err?
  {
    var F := Filter(coll, filter);
    var S := SortBy(F, TimestampField, true);
    RunsTwoSteps(p, coll, F, S, db);
    RejectsFromSkip(p[2..], offset, pageSize, S, db);
  }

  /** Two stages that succeed hand their output to the rest. */
  lemma RunsTwoSteps(p: seq<Stage>, docs: seq<Doc>, mid: seq<Doc>, out: seq<Doc>, db: Database)
    requires |p| >= 2 && Step(p[0], docs, db) == Ok(mid) && Step(p[1], mid, db) == Ok(out)
    ensures Run(p, docs, db) == Run(p[2..], out, db)
  {
    var first := p[..2];
    assert p == first + p[2..];
    assert first[0] == p[0] && first[1..] == [p[1]];
    assert Run([p[1]], mid, db) == Ok(out) by { assert [p[1]][1..] == []; }
    assert Run(first, docs, db) == Ok(out);
    RunAppend(first, p[2..], docs, db);
  }

  lemma RejectsFromSkip(q: seq<Stage>, offset: int, pageSize: int, docs: seq<Doc>, db: Database)
    requires |q| >= 2 && q[0] == Skip(offset) && q[1] == Limit(pageSize)
    requires offset < 0 || pageSize < 1
    ensures Run(q, docs, db).Err?
  {
    if offset >= 0 {
      var K := docs[Min(offset, |docs|)..];
      assert Run(q, docs, db) == Run(q[1..], K, db);
      assert q[1..][0] == Limit(pageSize);
    }
  }

  /** A negative offset or a page size below one makes the server reject
      either query. */
  lemma HistoryRejectsBadPage(filter: map<string, Value>, offset: int, pageSize: int, coll: seq<Doc>, db: Database)
    requires offset < 0 || pageSize < 1
    ensures Run(UploadsPipeline(Match(filter), offset, pageSize), coll, db).Err?
    ensures Run(DownloadsPipeline(Match(filter), offset, pageSize), coll, db).Err?
  {
    RejectsBadPage(UploadsPipeline(Match(filter), offset, pageSize), filter, offset, pageSize, coll, db);
    RejectsBadPage(DownloadsPipeline(Match(filter), offset, pageSize), filter, offset, pageSize, coll, db);
  }
}
