/** `run_project_pipeline` and `log_pipeline_run` in `app/pipeline.py`: one full pass over
    a project's articles. The scrape and ingest steps before the article lifecycle are
    inputs (the number of scrape results and of ingested items); the clock readings at the
    start and at the end are parameters. */
module ProjectRun {
  import opened Wrappers
  import opened Seqs
  import opened Store
  import Grouping
  import Pipeline
  import Dedupe

  const ExtractBatch: nat := 20
  const MaxExtract: nat := 200
  const JudgeBatch: nat := 50
  const MaxJudge: nat := 500

  /** No row ever loses its processed or scored flag, and no row disappears. */
  ghost predicate KeepsFlags(before: map<string, Article>, after: map<string, Article>) {
    forall id :: id in before ==>
      id in after
      && (before[id].processed ==> after[id].processed)
      && (before[id].scored ==> after[id].scored)
  }

  lemma KeepsFlagsTrans(a: map<string, Article>, b: map<string, Article>, c: map<string, Article>)
    requires KeepsFlags(a, b) && KeepsFlags(b, c)
    ensures KeepsFlags(a, c)
  {
  }

  /** Extraction only ever sets the processed flag and never touches the scored flag. */
  lemma ExtractKeepsFlags(rows: map<string, Article>, ids: set<string>, extract: string -> Result<Pipeline.Extracted, Exc>,
                          sha: string -> string, now: int)
    ensures KeepsFlags(rows, UpdateIds(rows, ids, a => Pipeline.Extract(a, extract, sha, now)))
  {
  }

  /** The first judge only ever sets the scored flag and never touches the processed flag. */
  lemma JudgeKeepsFlags(rows: map<string, Article>, ids: set<string>, judge: string -> Result<int, Exc>, videoMinScore: int)
    ensures KeepsFlags(rows, UpdateIds(rows, ids, a => Pipeline.Judge(a, judge, videoMinScore)))
  {
  }

  /** No row the next extraction batch would fetch gets a summary. */
  ghost predicate ExtractionSettled(rows: map<string, Article>, order: seq<string>, projectId: string,
                                    extract: string -> Result<Pipeline.Extracted, Exc>) {
    forall a :: a in Pipeline.FetchUnprocessed(rows, order, ExtractBatch, Some(projectId)) ==> !Pipeline.Extracts(a, extract)
  }

  /** No row the next judge batch would fetch has a summary. */
  ghost predicate JudgeSettled(rows: map<string, Article>, order: seq<string>, projectId: string) {
    forall a :: a in Pipeline.FetchUnscored(rows, order, JudgeBatch, Some(projectId)) ==> !Pipeline.HasSummary(a)
  }

  /** An extraction batch that marks nothing changes nothing, so the table it leaves is
      settled: running it again would mark nothing either. */
  lemma {:induction false} NothingExtracted(rows: map<string, Article>, order: seq<string>, projectId: string,
                                            extract: string -> Result<Pipeline.Extracted, Exc>, sha: string -> string, now: int)
    requires Keyed(rows, order, ArticleId)
    ensures var items := Pipeline.FetchUnprocessed(rows, order, ExtractBatch, Some(projectId));
      Filter(items, a => Pipeline.Extracts(a, extract)) == [] ==>
        UpdateIds(rows, IdSet(items, ArticleId), a => Pipeline.Extract(a, extract, sha, now)) == rows
        && ExtractionSettled(rows, order, projectId, extract)
  {
    var items := Pipeline.FetchUnprocessed(rows, order, ExtractBatch, Some(projectId));
    var p := a => Pipeline.Extracts(a, extract);
    if Filter(items, p) == [] {
      Fetched(rows, order, ArticleId, a => Pipeline.Unprocessed(a, Some(projectId)), ExtractBatch);
      forall id | id in IdSet(items, ArticleId)
        ensures Pipeline.Extract(rows[id], extract, sha, now) == rows[id]
      {
        var i :| 0 <= i < |items| && ArticleId(items[i]) == id;
        assert rows[id] == items[i];
      }
    }
  }

  /** A judge batch that scores nothing changes nothing, and leaves the table settled. */
  lemma {:induction false} NothingJudged(rows: map<string, Article>, order: seq<string>, projectId: string,
                                         judge: string -> Result<int, Exc>, videoMinScore: int)
    requires Keyed(rows, order, ArticleId)
    ensures var items := Pipeline.FetchUnscored(rows, order, JudgeBatch, Some(projectId));
      Filter(items, Pipeline.HasSummary) == [] ==>
        UpdateIds(rows, IdSet(items, ArticleId), a => Pipeline.Judge(a, judge, videoMinScore)) == rows
        && JudgeSettled(rows, order, projectId)
  {
    var items := Pipeline.FetchUnscored(rows, order, JudgeBatch, Some(projectId));
    if Filter(items, Pipeline.HasSummary) == [] {
      Fetched(rows, order, ArticleId, a => Pipeline.Unscored(a, Some(projectId)), JudgeBatch);
      forall id | id in IdSet(items, ArticleId)
        ensures Pipeline.Judge(rows[id], judge, videoMinScore) == rows[id]
      {
        var i :| 0 <= i < |items| && ArticleId(items[i]) == id;
        assert rows[id] == items[i];
      }
    }
  }

  /** The extract loop: batches of 20 until a batch marks nothing or the running total
      reaches 200. It ends; the total stays below 220; and unless it reached 200 the table
      is settled for extraction. An exception from a batch ends it and propagates. */
  method ExtractAll(arts: Articles, projectId: string, extract: string -> Result<Pipeline.Extracted, Exc>,
                    sha: string -> string, now: int) returns (r: Result<nat, Exc>)
    requires arts.Valid()
    modifies arts
    ensures arts.Valid() && arts.order == old(arts.order)
    ensures r.Success? ==> r.value < MaxExtract + ExtractBatch
    ensures r.Success? && r.value < MaxExtract ==> ExtractionSettled(arts.rows, arts.order, projectId, extract)
    ensures KeepsFlags(old(arts.rows), arts.rows)
  {
    var total := 0;
    while total < MaxExtract
      invariant arts.Valid() && arts.order == old(arts.order)
      invariant total < MaxExtract + ExtractBatch
      invariant KeepsFlags(old(arts.rows), arts.rows)
      decreases MaxExtract - total
    {
      ghost var before := arts.rows;
      NothingExtracted(before, arts.order, projectId, extract, sha, now);
      var count := Pipeline.RunExtraction(arts, ExtractBatch, Some(projectId), extract, sha, now);
      ghost var items := Pipeline.FetchUnprocessed(before, arts.order, ExtractBatch, Some(projectId));
      ghost var n := FirstWhere(items, a => Pipeline.ExtractRaises(a, extract));
      ExtractKeepsFlags(before, IdSet(items[..n], ArticleId), extract, sha, now);
      KeepsFlagsTrans(old(arts.rows), before, arts.rows);
      if count.Failure? {
        return Failure(count.error);
      }
      assert items[..n] == items;
      total := total + count.value;
      if count.value == 0 {
        break;
      }
    }
    r := Success(total);
  }

  /** The judge loop: batches of 50 until a batch scores nothing or the running total
      reaches 500. It ends; the total stays below 550; and unless it reached 500 the table
      is settled for judging. An exception from a batch ends it and propagates. */
  method JudgeAll(arts: Articles, projectId: string, judge: string -> Result<int, Exc>, videoMinScore: int)
    returns (r: Result<nat, Exc>)
    requires arts.Valid()
    modifies arts
    ensures arts.Valid() && arts.order == old(arts.order)
    ensures r.Success? ==> r.value < MaxJudge + JudgeBatch
    ensures r.Success? && r.value < MaxJudge ==> JudgeSettled(arts.rows, arts.order, projectId)
    ensures KeepsFlags(old(arts.rows), arts.rows)
  {
    var total := 0;
    while total < MaxJudge
      invariant arts.Valid() && arts.order == old(arts.order)
      invariant total < MaxJudge + JudgeBatch
      invariant KeepsFlags(old(arts.rows), arts.rows)
      decreases MaxJudge - total
    {
      ghost var before := arts.rows;
      NothingJudged(before, arts.order, projectId, judge, videoMinScore);
      var count := Pipeline.RunFirstJudge(arts, JudgeBatch, Some(projectId), judge, videoMinScore);
      ghost var items := Pipeline.FetchUnscored(before, arts.order, JudgeBatch, Some(projectId));
      ghost var n := FirstWhere(items, a => Pipeline.JudgeRaises(a, judge));
      JudgeKeepsFlags(before, IdSet(items[..n], ArticleId), judge, videoMinScore);
      KeepsFlagsTrans(old(arts.rows), before, arts.rows);
      if count.Failure? {
        return Failure(count.error);
      }
      assert items[..n] == items;
      total := total + count.value;
      if count.value == 0 {
        break;
      }
    }
    r := Success(total);
  }

  /** The table after `dedupe_articles`. */
  ghost function Deduped(rows: map<string, Article>, order: seq<string>, projectId: string, now: int): map<string, Article> {
    var hashed := Dedupe.Grouped(rows, order, projectId);
    Dedupe.DedupeRows(rows, hashed, Grouping.Keys(hashed, Dedupe.HashKey), now)
  }

  /** The counts `run_project_pipeline` returns. */
  datatype Results = Results(scrape: nat, ingest: nat, extract: nat, judge: nat, dedupe: nat, unusable: nat)

  /** The row `log_pipeline_run` inserts into `pipeline_runs`. */
  datatype RunLog = RunLog(projectId: Option<string>, runType: string, status: string,
                           scrapeCount: nat, ingestCount: nat, extractCount: nat, judgeCount: nat,
                           dedupeCount: nat, unusableCount: nat, startedAt: int, finishedAt: int)

  /** The payload of `log_pipeline_run` for a successful run: every count of `results`
      under its own column, run type "pipeline" and status "ok". */
  function LogPayload(projectId: Option<string>, results: Results, startedAt: int, finishedAt: int): (r: RunLog)
    ensures r.runType == "pipeline" && r.status == "ok"
    ensures r.scrapeCount == results.scrape && r.ingestCount == results.ingest
      && r.extractCount == results.extract && r.judgeCount == results.judge
      && r.dedupeCount == results.dedupe && r.unusableCount == results.unusable
  {
    RunLog(projectId, "pipeline", "ok", results.scrape, results.ingest, results.extract, results.judge,
           results.dedupe, results.unusable, startedAt, finishedAt)
  }

  /** `run_project_pipeline`: the extract loop, then the judge loop, then `dedupe_articles`,
      then `mark_low_score_unusable` on what dedupe left, then the log row. `scraped` and
      `ingested` are what `scrape_project` and `ingest_source_items` reported; `settings` is
      the project's retirement settings row; `now` is the clock reading the lifecycle steps
      use. An exception from either loop propagates: dedupe, retirement and the log row
      never happen. The ghost outputs name the table after the loops and after dedupe. */
  method RunProjectPipeline(arts: Articles, projectId: string, scraped: nat, ingested: nat,
                            extract: string -> Result<Pipeline.Extracted, Exc>, sha: string -> string,
                            judge: string -> Result<int, Exc>, videoMinScore: int,
                            settings: Option<Pipeline.RetirementSettings>,
                            now: int, startedAt: int, finishedAt: int)
    returns (r: Result<Results, Exc>, log: Option<RunLog>,
             ghost afterLoops: map<string, Article>, ghost afterDedupe: map<string, Article>)
    requires arts.Valid()
    modifies arts
    ensures arts.Valid() && arts.order == old(arts.order)
    ensures r.Failure? ==> log.None? && KeepsFlags(old(arts.rows), arts.rows)
    ensures r.Success? ==> r.value.scrape == scraped && r.value.ingest == ingested
    ensures r.Success? ==> r.value.extract < MaxExtract + ExtractBatch && r.value.judge < MaxJudge + JudgeBatch
    ensures r.Success? ==> KeepsFlags(old(arts.rows), afterLoops)
    ensures r.Success? ==> afterDedupe == Deduped(afterLoops, arts.order, projectId, now)
    ensures r.Success? ==> var t := Pipeline.ProjectThresholds(Some(projectId), settings);
      arts.rows == UpdateIds(afterDedupe, Pipeline.StaleIds(afterDedupe, projectId, t.0, now - t.1 * 3600),
                             a => Pipeline.Retire(a, LowScoreAge(t.0, t.1), now))
    ensures r.Success? ==> log == Some(LogPayload(Some(projectId), r.value, startedAt, finishedAt))
  {
    afterLoops, afterDedupe := arts.rows, arts.rows;
    var extracted := ExtractAll(arts, projectId, extract, sha, now);
    if extracted.Failure? {
      return Failure(extracted.error), None, afterLoops, afterDedupe;
    }
    ghost var mid := arts.rows;
    var judged := JudgeAll(arts, projectId, judge, videoMinScore);
    KeepsFlagsTrans(old(arts.rows), mid, arts.rows);
    if judged.Failure? {
      return Failure(judged.error), None, afterLoops, afterDedupe;
    }
    afterLoops := arts.rows;
    var deduped := Dedupe.DedupeArticles(arts, projectId, now);
    afterDedupe := arts.rows;
    var unusable := Pipeline.MarkLowScoreUnusable(arts, projectId, settings, now);
    var results := Results(scraped, ingested, extracted.value, judged.value, deduped, unusable);
    r := Success(results);
    log := Some(LogPayload(Some(projectId), results, startedAt, finishedAt));
  }
}
