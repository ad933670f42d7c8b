/** The article lifecycle in `app/pipeline.py`: extraction, the first judge, the per-project
    retirement thresholds and the retirement of stale low-score articles. The language
    models (`extract_summary`, `judge_summary`) and SHA-256 are parameters, and so are the
    exceptions the models raise; `now` is the clock reading of the call. */
module Pipeline {
  import opened Wrappers
  import opened Text
  import opened Seqs
  import opened Store
  import ContentHash

  /** `x or d` for a nullable string. */
  function OrStr(x: Option<string>, d: string): string {
    if x.Some? && x.value != [] then x.value else d
  }

  /** A nullable string that is neither null nor empty. */
  predicate Present(x: Option<string>) {
    x.Some? && x.value != []
  }

  /** The `project_id` filter a query adds only when a project id is given. */
  predicate InProject(a: Article, projectId: Option<string>) {
    !Present(projectId) || a.projectId == projectId
  }

  // ----- run_extraction -----

  /** What `extract_summary` returns: a summary, a title and cleaned content, each optional. */
  datatype Extracted = Extracted(summary: Option<string>, title: Option<string>, content: Option<string>)

  predicate Unprocessed(a: Article, projectId: Option<string>) {
    !a.processed && InProject(a, projectId)
  }

  /** `fetch_unprocessed`: the first `limit` unprocessed rows of the project. */
  function FetchUnprocessed(rows: map<string, Article>, order: seq<string>, limit: nat, projectId: Option<string>): seq<Article> {
    Limit(Filter(Scan(rows, order), a => Unprocessed(a, projectId)), limit)
  }

  /** The raw HTML of a row, `""` when null. */
  function Raw(a: Article): string {
    OrStr(a.rawHtml, [])
  }

  /** A fetched row is extracted when its raw HTML is not blank and the extractor gives a
      non-empty summary. */
  predicate Extracts(a: Article, extract: string -> Result<Extracted, Exc>) {
    !IsBlank(Raw(a)) && extract(Raw(a)).Success? && OrStr(extract(Raw(a)).value.summary, []) != []
  }

  /** The extractor raises on a fetched row with non-blank raw HTML. */
  predicate ExtractRaises(a: Article, extract: string -> Result<Extracted, Exc>) {
    !IsBlank(Raw(a)) && extract(Raw(a)).Failure?
  }

  /** The content hash `run_extraction` writes: the stored one when present, else the hash
      of the extracted content, or of the raw HTML when there is none. */
  function NewHash(a: Article, extracted: Extracted, sha: string -> string): Option<string> {
    if Present(a.contentHash) then a.contentHash
    else ContentHash.Hash(Some(OrStr(extracted.content, Raw(a))), sha)
  }

  /** The row after `mark_processed`: summary, processed flag and scrape time are always
      written; title, content and hash only when truthy. */
  function Processed(a: Article, summary: string, title: Option<string>, content: Option<string>,
                     hash: Option<string>, now: int): Article {
    a.(summary := Some(summary), processed := true, scrapedAt := Some(now),
       title := if Present(title) then title else a.title,
       content := if Present(content) then content else a.content,
       contentHash := if Present(hash) then hash else a.contentHash)
  }

  /** `mark_processed`: updates the row with id `id`, if there is one. */
  method MarkProcessed(arts: Articles, id: string, summary: string, title: Option<string>,
                       content: Option<string>, hash: Option<string>, now: int)
    modifies arts
    ensures arts.order == old(arts.order)
    ensures id in old(arts.rows) ==> arts.rows == old(arts.rows)[id := Processed(old(arts.rows)[id], summary, title, content, hash, now)]
    ensures id !in old(arts.rows) ==> arts.rows == old(arts.rows)
  {
    if id in arts.rows {
      var row := arts.rows[id].(summary := Some(summary), processed := true, scrapedAt := Some(now));
      if Present(title) {
        row := row.(title := title);
      }
      if Present(content) {
        row := row.(content := content);
      }
      if Present(hash) {
        row := row.(contentHash := hash);
      }
      arts.rows := arts.rows[id := row];
    }
  }

  /** A fetched row after one step of `run_extraction`. */
  function Extract(a: Article, extract: string -> Result<Extracted, Exc>, sha: string -> string, now: int): (b: Article)
    ensures b.id == a.id
  {
    if !Extracts(a, extract) then a
    else
      var r := extract(Raw(a)).value;
      Processed(a, OrStr(r.summary, []), r.title, r.content, NewHash(a, r, sha), now)
  }

  /** Extraction never drops a content hash; a row it processes gets a non-empty summary,
      the current scrape time and, when it had no hash and its text is not blank, the hash
      of the normalised text. A row it skips is unchanged. */
  lemma ExtractionRule(a: Article, extract: string -> Result<Extracted, Exc>, sha: string -> string, now: int)
    ensures Present(a.contentHash) ==> Extract(a, extract, sha, now).contentHash == a.contentHash
    ensures Extracts(a, extract) ==>
      Extract(a, extract, sha, now).processed && Present(Extract(a, extract, sha, now).summary)
      && Extract(a, extract, sha, now).scrapedAt == Some(now)
    ensures !Extracts(a, extract) ==> Extract(a, extract, sha, now) == a
    ensures Extracts(a, extract) ==> var t := OrStr(extract(Raw(a)).value.content, Raw(a));
      !Present(a.contentHash) && !IsBlank(t) && sha(ContentHash.Normalize(t)) != []
      ==> Extract(a, extract, sha, now).contentHash == Some(sha(ContentHash.Normalize(t)))
  {
    if Extracts(a, extract) {
      var t := OrStr(extract(Raw(a)).value.content, Raw(a));
      ContentHash.HashAbsent(Some(t), sha);
    }
  }

  /** `run_extraction`: extracts every fetched row with non-blank raw HTML and marks the
      ones that get a summary as processed; returns how many it marked. An exception from
      the extractor ends the run: the rows before it stay as marked, and it propagates. */
  method RunExtraction(arts: Articles, limit: nat, projectId: Option<string>,
                       extract: string -> Result<Extracted, Exc>, sha: string -> string, now: int)
    returns (r: Result<nat, Exc>)
    requires arts.Valid()
    modifies arts
    ensures arts.Valid() && arts.order == old(arts.order)
    ensures var items := FetchUnprocessed(old(arts.rows), old(arts.order), limit, projectId);
      var n := FirstWhere(items, a => ExtractRaises(a, extract));
      arts.rows == UpdateIds(old(arts.rows), IdSet(items[..n], ArticleId), a => Extract(a, extract, sha, now))
      && (r.Success? <==> n == |items|)
      && (r.Success? ==> r.value == |Filter(items, a => Extracts(a, extract))|)
      && (r.Failure? ==> r.error == extract(Raw(items[n])).error)
    ensures r.Success? ==> r.value <= limit
  {
    var items := FetchUnprocessed(arts.rows, arts.order, limit, projectId);
    ghost var rows0 := arts.rows;
    ghost var f := a => Extract(a, extract, sha, now);
    ghost var raises := a => ExtractRaises(a, extract);
    ghost var n := FirstWhere(items, raises);
    Fetched(arts.rows, arts.order, ArticleId, a => Unprocessed(a, projectId), limit);
    var count := 0;
    for i := 0 to |items|
      invariant i <= n
      invariant arts.order == old(arts.order)
      invariant arts.rows == UpdateIds(rows0, IdSet(items[..i], ArticleId), f)
      invariant count == |Filter(items[..i], a => Extracts(a, extract))|
    {
      var item := items[i];
      NextItem(items, i);
      UpdateStep(rows0, IdSet(items[..i], ArticleId), item.id, f);
      var marked := ExtractItem(arts, item, extract, sha, now);
      FirstWhereStep(items, i, raises);
      if marked.Failure? {
        assert n == i;
        UpdateKeyed(rows0, arts.order, ArticleId, IdSet(items[..i], ArticleId), f);
        return Failure(marked.error);
      }
      FilterStep(items, i, a => Extracts(a, extract));
      if marked.value {
        count := count + 1;
      }
    }
    assert items[..|items|] == items;
    UpdateKeyed(rows0, arts.order, ArticleId, IdSet(items, ArticleId), f);
    r := Success(count);
  }

  /** One pass of the loop in `run_extraction` over the fetched row `item`: whether it was
      marked, or the exception the extractor raised, before any write. */
  method ExtractItem(arts: Articles, item: Article, extract: string -> Result<Extracted, Exc>,
                     sha: string -> string, now: int)
    returns (marked: Result<bool, Exc>)
    requires item.id in arts.rows && arts.rows[item.id] == item
    modifies arts
    ensures arts.order == old(arts.order)
    ensures marked.Failure? <==> ExtractRaises(item, extract)
    ensures marked.Failure? ==> marked.error == extract(Raw(item)).error && arts.rows == old(arts.rows)
    ensures marked.Success? ==>
      arts.rows == old(arts.rows)[item.id := Extract(item, extract, sha, now)]
      && marked.value == Extracts(item, extract)
  {
    var raw := Raw(item);
    if IsBlank(raw) {
      assert old(arts.rows)[item.id := item] == old(arts.rows);
      return Success(false);
    }
    var result := extract(raw);
    if result.Failure? {
      return Failure(result.error);
    }
    var summary := OrStr(result.value.summary, []);
    var hash := if Present(item.contentHash) then item.contentHash
      else ContentHash.Hash(Some(OrStr(result.value.content, raw)), sha);
    if summary != [] {
      MarkProcessed(arts, item.id, summary, result.value.title, result.value.content, hash, now);
      marked := Success(true);
    } else {
      assert old(arts.rows)[item.id := item] == old(arts.rows);
      marked := Success(false);
    }
  }

  /** Moving the loop cursor past `items[i]` adds its id, which was not there yet. */
  lemma NextItem(items: seq<Article>, i: nat)
    requires i < |items| && IdsDistinct(items, ArticleId)
    ensures IdSet(items[..i + 1], ArticleId) == IdSet(items[..i], ArticleId) + {items[i].id}
    ensures items[i].id !in IdSet(items[..i], ArticleId)
    ensures items[..i + 1][..i] == items[..i] && items[..i + 1][i] == items[i]
  {
  }

  // ----- run_first_judge -----

  predicate Unscored(a: Article, projectId: Option<string>) {
    a.processed && !a.scored && InProject(a, projectId)
  }

  /** `fetch_unscored`: the first `limit` processed, unscored rows of the project. */
  function FetchUnscored(rows: map<string, Article>, order: seq<string>, limit: nat, projectId: Option<string>): seq<Article> {
    Limit(Filter(Scan(rows, order), a => Unscored(a, projectId)), limit)
  }

  /** The formats assigned for a first-judge score. */
  function Formats(score: int, videoMinScore: int): seq<string> {
    if score >= videoMinScore then ["video"] else []
  }

  /** `mark_scored`: updates the row with id `id`, if there is one. */
  method MarkScored(arts: Articles, id: string, score: int, formats: seq<string>)
    modifies arts
    ensures arts.order == old(arts.order)
    ensures id in old(arts.rows) ==>
      arts.rows == old(arts.rows)[id := old(arts.rows)[id].(judgeScore := Some(score), formats := formats, scored := true)]
    ensures id !in old(arts.rows) ==> arts.rows == old(arts.rows)
  {
    if id in arts.rows {
      arts.rows := arts.rows[id := arts.rows[id].(judgeScore := Some(score), formats := formats, scored := true)];
    }
  }

  predicate HasSummary(a: Article) {
    Present(a.summary)
  }

  /** A fetched row after one step of `run_first_judge`. `judge` is `judge_summary`
      followed by `int(result.get("score", 0))`: the score for a summary, or the exception
      either of them raised. */
  function Judge(a: Article, judge: string -> Result<int, Exc>, videoMinScore: int): (b: Article)
    ensures b.id == a.id
  {
    if !HasSummary(a) || judge(a.summary.value).Failure? then a
    else
      var score := judge(a.summary.value).value;
      a.(judgeScore := Some(score), formats := Formats(score, videoMinScore), scored := true)
  }

  /** Judging raises on a fetched row with a summary. */
  predicate JudgeRaises(a: Article, judge: string -> Result<int, Exc>) {
    HasSummary(a) && judge(a.summary.value).Failure?
  }

  /** The first judge's rule: a row without a summary is left alone; any other row is
      scored, and gets the video format exactly when its score reaches the minimum (and no
      format otherwise). */
  lemma FirstJudgeRule(a: Article, judge: string -> Result<int, Exc>, videoMinScore: int)
    ensures !HasSummary(a) || JudgeRaises(a, judge) ==> Judge(a, judge, videoMinScore) == a
    ensures HasSummary(a) && !JudgeRaises(a, judge) ==> var b := Judge(a, judge, videoMinScore);
      b.scored && b.judgeScore == Some(judge(a.summary.value).value)
      && (b.formats == ["video"] <==> b.judgeScore.value >= videoMinScore)
      && (b.formats == [] <==> b.judgeScore.value < videoMinScore)
      && b.(judgeScore := a.judgeScore, formats := a.formats, scored := a.scored) == a
  {
  }

  /** One pass of the loop in `run_first_judge` over the fetched row `item`: whether it
      was scored, or the exception judging raised, before any write. */
  method JudgeItem(arts: Articles, item: Article, judge: string -> Result<int, Exc>, videoMinScore: int)
    returns (marked: Result<bool, Exc>)
    requires item.id in arts.rows && arts.rows[item.id] == item
    modifies arts
    ensures arts.order == old(arts.order)
    ensures marked.Failure? <==> JudgeRaises(item, judge)
    ensures marked.Failure? ==> marked.error == judge(item.summary.value).error && arts.rows == old(arts.rows)
    ensures marked.Success? ==>
      arts.rows == old(arts.rows)[item.id := Judge(item, judge, videoMinScore)]
      && marked.value == HasSummary(item)
  {
    var summary := OrStr(item.summary, []);
    if summary == [] {
      assert old(arts.rows)[item.id := item] == old(arts.rows);
      return Success(false);
    }
    var score := judge(summary);
    if score.Failure? {
      return Failure(score.error);
    }
    var formats := if score.value >= videoMinScore then ["video"] else [];
    MarkScored(arts, item.id, score.value, formats);
    marked := Success(true);
  }

  lemma FilterStep<T>(items: seq<T>, i: nat, p: T -> bool)
    requires i < |items|
    ensures Filter(items[..i + 1], p) == Filter(items[..i], p) + if p(items[i]) then [items[i]] else []
  {
    assert items[..i + 1] == items[..i] + [items[i]];
    FilterAppend(items[..i], items[i], p);
  }

  /** `run_first_judge`: scores every fetched row that has a summary and returns how many
      it scored. An exception from judging ends the run: the rows before it stay as
      scored, and it propagates. */
  method RunFirstJudge(arts: Articles, limit: nat, projectId: Option<string>,
                       judge: string -> Result<int, Exc>, videoMinScore: int)
    returns (r: Result<nat, Exc>)
    requires arts.Valid()
    modifies arts
    ensures arts.Valid() && arts.order == old(arts.order)
    ensures var items := FetchUnscored(old(arts.rows), old(arts.order), limit, projectId);
      var n := FirstWhere(items, a => JudgeRaises(a, judge));
      arts.rows == UpdateIds(old(arts.rows), IdSet(items[..n], ArticleId), a => Judge(a, judge, videoMinScore))
      && (r.Success? <==> n == |items|)
      && (r.Success? ==> r.value == |Filter(items, HasSummary)|)
      && (r.Failure? ==> r.error == judge(items[n].summary.value).error)
    ensures r.Success? ==> r.value <= limit
  {
    var items := FetchUnscored(arts.rows, arts.order, limit, projectId);
    ghost var rows0 := arts.rows;
    ghost var f := a => Judge(a, judge, videoMinScore);
    ghost var raises := a => JudgeRaises(a, judge);
    ghost var n := FirstWhere(items, raises);
    Fetched(arts.rows, arts.order, ArticleId, a => Unscored(a, projectId), limit);
    var count := 0;
    for i := 0 to |items|
      invariant i <= n
      invariant arts.order == old(arts.order)
      invariant arts.rows == UpdateIds(rows0, IdSet(items[..i], ArticleId), f)
      invariant count == |Filter(items[..i], HasSummary)|
    {
      var item := items[i];
      NextItem(items, i);
      UpdateStep(rows0, IdSet(items[..i], ArticleId), item.id, f);
      var marked := JudgeItem(arts, item, judge, videoMinScore);
      FirstWhereStep(items, i, raises);
      if marked.Failure? {
        assert n == i;
        UpdateKeyed(rows0, arts.order, ArticleId, IdSet(items[..i], ArticleId), f);
        return Failure(marked.error);
      }
      FilterStep(items, i, HasSummary);
      if marked.value {
        count := count + 1;
      }
    }
    assert items[..|items|] == items;
    UpdateKeyed(rows0, arts.order, ArticleId, IdSet(items, ArticleId), f);
    r := Success(count);
  }

  // ----- _project_thresholds, mark_low_score_unusable -----

  /** The retirement columns of a project row; either may be null. */
  datatype RetirementSettings = RetirementSettings(scoreThreshold: Option<int>, ageHours: Option<int>)

  /** `int(x or d)`. */
  function IntOr(x: Option<int>, d: int): (r: int)
    ensures x.None? || x.value == 0 ==> r == d
    ensures x.Some? && x.value != 0 ==> r == x.value
  {
    if x.Some? && x.value != 0 then x.value else d
  }

  /** `_project_thresholds`: the project's (score threshold, age in hours), where a missing
      project id or row gives (5, 48) and a null or zero column gives its default. `row` is
      what the project lookup returned. */
  function ProjectThresholds(projectId: Option<string>, row: Option<RetirementSettings>): (r: (int, int))
    ensures r.0 != 0 && r.1 != 0
    ensures !Present(projectId) || row.None? ==> r == (5, 48)
    ensures Present(projectId) && row.Some? && row.value.scoreThreshold.Some? && row.value.scoreThreshold.value != 0
      ==> r.0 == row.value.scoreThreshold.value
    ensures Present(projectId) && row.Some? && row.value.ageHours.Some? && row.value.ageHours.value != 0
      ==> r.1 == row.value.ageHours.value
    ensures Present(projectId) && row.Some? && (row.value.scoreThreshold.None? || row.value.scoreThreshold.value == 0)
      ==> r.0 == 5
    ensures Present(projectId) && row.Some? && (row.value.ageHours.None? || row.value.ageHours.value == 0)
      ==> r.1 == 48
  {
    if !Present(projectId) || row.None? then (5, 48)
    else (IntOr(row.value.scoreThreshold, 5), IntOr(row.value.ageHours, 48))
  }

  /** A row `mark_low_score_unusable` retires: scored, still usable, in the project, with a
      score below the threshold and scraped before the cutoff (null columns never match). */
  predicate StaleLowScore(a: Article, projectId: string, threshold: int, cutoff: int) {
    a.projectId == Some(projectId) && a.scored && !a.unusable
    && a.judgeScore.Some? && a.judgeScore.value < threshold
    && a.scrapedAt.Some? && a.scrapedAt.value < cutoff
  }

  /** The ids of the stored rows that are stale. */
  function StaleIds(rows: map<string, Article>, projectId: string, threshold: int, cutoff: int): set<string> {
    set id | id in rows && StaleLowScore(rows[id], projectId, threshold, cutoff)
  }

  /** The row after being marked unusable. */
  function Retire(a: Article, reason: Reason, now: int): (b: Article)
    ensures b.id == a.id
  {
    a.(unusable := true, unusableReason := Some(reason), unusableAt := Some(now))
  }

  /** The update `mark_low_score_unusable` sends for one row id. */
  method RetireRow(arts: Articles, id: string, reason: Reason, now: int)
    modifies arts
    ensures arts.order == old(arts.order)
    ensures id in old(arts.rows) ==> arts.rows == old(arts.rows)[id := Retire(old(arts.rows)[id], reason, now)]
    ensures id !in old(arts.rows) ==> arts.rows == old(arts.rows)
  {
    if id in arts.rows {
      arts.rows := arts.rows[id := arts.rows[id].(unusable := true, unusableReason := Some(reason), unusableAt := Some(now))];
    }
  }

  /** `mark_low_score_unusable`: marks every stale row of the project unusable and returns
      how many it marked. `settings` is the project row the threshold lookup found. */
  method MarkLowScoreUnusable(arts: Articles, projectId: string, settings: Option<RetirementSettings>, now: int)
    returns (count: nat)
    requires arts.Valid()
    modifies arts
    ensures arts.Valid() && arts.order == old(arts.order)
    ensures var t := ProjectThresholds(Some(projectId), settings);
      var stale := StaleIds(old(arts.rows), projectId, t.0, now - t.1 * 3600);
      arts.rows == UpdateIds(old(arts.rows), stale, a => Retire(a, LowScoreAge(t.0, t.1), now))
      && count == |stale|
  {
    var t := ProjectThresholds(Some(projectId), settings);
    var threshold, hours := t.0, t.1;
    var cutoff := now - hours * 3600;
    var reason := LowScoreAge(threshold, hours);
    var items := StaleQuery(arts.rows, arts.order, projectId, threshold, cutoff);
    StaleSelection(arts.rows, arts.order, projectId, threshold, cutoff);
    count := RetireEach(arts, items, reason, now);
  }

  /** The loop of `mark_low_score_unusable`: retires each fetched row in turn, counting. */
  method RetireEach(arts: Articles, items: seq<Article>, reason: Reason, now: int) returns (count: nat)
    requires arts.Valid() && IdsDistinct(items, ArticleId)
    requires forall i :: 0 <= i < |items| ==> items[i].id in arts.rows
    modifies arts
    ensures arts.Valid() && arts.order == old(arts.order)
    ensures arts.rows == UpdateIds(old(arts.rows), IdSet(items, ArticleId), a => Retire(a, reason, now))
    ensures count == |items|
  {
    ghost var rows0 := arts.rows;
    ghost var f := a => Retire(a, reason, now);
    count := 0;
    for i := 0 to |items|
      invariant arts.order == old(arts.order)
      invariant arts.rows == UpdateIds(rows0, IdSet(items[..i], ArticleId), f)
      invariant count == i
    {
      var item := items[i];
      NextItem(items, i);
      UpdateStep(rows0, IdSet(items[..i], ArticleId), item.id, f);
      RetireRow(arts, item.id, reason, now);
      count := count + 1;
    }
    assert items[..|items|] == items;
    UpdateKeyed(rows0, arts.order, ArticleId, IdSet(items, ArticleId), f);
  }

  /** The rows the retirement query returns, in table order. */
  function StaleQuery(rows: map<string, Article>, order: seq<string>, projectId: string, threshold: int, cutoff: int): seq<Article> {
    Filter(Scan(rows, order), a => StaleLowScore(a, projectId, threshold, cutoff))
  }

  /** The stale query returns each stale row once, each a stored row. */
  lemma StaleSelection(rows: map<string, Article>, order: seq<string>, projectId: string, threshold: int, cutoff: int)
    requires Keyed(rows, order, ArticleId)
    ensures var items := StaleQuery(rows, order, projectId, threshold, cutoff);
      IdsDistinct(items, ArticleId)
      && (forall i :: 0 <= i < |items| ==> items[i].id in rows && rows[items[i].id] == items[i])
      && IdSet(items, ArticleId) == StaleIds(rows, projectId, threshold, cutoff)
      && |items| == |StaleIds(rows, projectId, threshold, cutoff)|
  {
    var p := a => StaleLowScore(a, projectId, threshold, cutoff);
    var items := Filter(Scan(rows, order), p);
    Fetched(rows, order, ArticleId, p, |items|);
    SelectedIds(rows, order, ArticleId, p);
    IdSetSize(items, ArticleId);
  }

  /** Retirement marks exactly the stale rows: a row is newly unusable afterwards iff it
      was stale; a stale row gets the reason and time and keeps everything else; any other
      row is unchanged. Running it again with the same clock marks nothing. */
  lemma RetirementMarksExactlyStale(rows: map<string, Article>, projectId: string, threshold: int,
                                    cutoff: int, reason: Reason, now: int)
    ensures var after := UpdateIds(rows, StaleIds(rows, projectId, threshold, cutoff), a => Retire(a, reason, now));
      after.Keys == rows.Keys
      && (forall id :: id in rows ==>
            (after[id].unusable && !rows[id].unusable <==> StaleLowScore(rows[id], projectId, threshold, cutoff)))
      && (forall id :: id in rows && !StaleLowScore(rows[id], projectId, threshold, cutoff) ==> after[id] == rows[id])
      && (forall id :: id in rows && StaleLowScore(rows[id], projectId, threshold, cutoff) ==>
            after[id].unusableReason == Some(reason) && after[id].unusableAt == Some(now)
            && after[id].(unusable := false, unusableReason := rows[id].unusableReason, unusableAt := rows[id].unusableAt) == rows[id])
      && StaleIds(after, projectId, threshold, cutoff) == {}
  {
  }
}
