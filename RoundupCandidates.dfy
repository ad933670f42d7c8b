/** `fetch_for_audio_roundup` in `app/pipeline.py`: the recent, judged, usable articles
    that no earlier audio roundup has used, best-scored first. The query's ordering by
    `judge_score` is the `ranked` listing of the table. */
module RoundupCandidates {
  import opened Wrappers
  import opened Seqs
  import opened Store
  import Pipeline

  const RoundupUsage: string := "audio_roundup"

  /** A row the candidate query returns: processed, scored, usable, scraped at or after
      `since`, not a duplicate, and in the project when one is given. */
  predicate Candidate(a: Article, since: int, projectId: Option<string>) {
    a.processed && a.scored && !a.unusable
    && a.scrapedAt.Some? && a.scrapedAt.value >= since
    && Pipeline.InProject(a, projectId)
    && a.duplicateOf.None?
  }

  /** The candidate query: at most `3 * limit` candidates in ranked order. */
  function CandidateQuery(rows: map<string, Article>, ranked: seq<string>, since: int,
                          projectId: Option<string>, limit: nat): seq<Article> {
    Limit(Filter(Scan(rows, ranked), a => Candidate(a, since, projectId)), limit * 3)
  }

  /** A usage row that records `id` as used by an audio roundup (`article_id` truthy). */
  predicate UsedBy(u: Usage, id: string) {
    u.usageType == RoundupUsage && Pipeline.Present(u.articleId) && u.articleId.value == id
  }

  /** The ids the usage query marks as used, among the candidates' ids. */
  function UsedIds(items: seq<Article>, usage: seq<Usage>): set<string> {
    set i, u | 0 <= i < |items| && u in usage && UsedBy(u, items[i].id) :: items[i].id
  }

  /** The body of `fetch_for_audio_roundup` after the candidate query: the candidates
      without an audio-roundup usage row, in order, at most `limit` of them. */
  function Unused(items: seq<Article>, usage: seq<Usage>, limit: nat): seq<Article> {
    if items == [] then []
    else
      var used := UsedIds(items, usage);
      Limit(Filter(items, (a: Article) => a.id !in used), limit)
  }

  /** `fetch_for_audio_roundup`. */
  function FetchForAudioRoundup(rows: map<string, Article>, ranked: seq<string>, usage: seq<Usage>,
                                since: int, projectId: Option<string>, limit: nat): seq<Article> {
    Unused(CandidateQuery(rows, ranked, since, projectId, limit), usage, limit)
  }

  /** Nothing returned was used by an audio roundup before, everything returned is a
      candidate, and at most `limit` are returned. */
  lemma NeverReused(items: seq<Article>, usage: seq<Usage>, limit: nat)
    ensures var r := Unused(items, usage, limit);
      |r| <= limit
      && forall i :: 0 <= i < |r| ==>
           r[i] in items && forall u :: u in usage ==> !UsedBy(u, r[i].id)
  {
    var r := Unused(items, usage, limit);
    if items != [] {
      var used := UsedIds(items, usage);
      forall i, u | 0 <= i < |r| && u in usage
        ensures r[i] in items && !UsedBy(u, r[i].id)
      {
        assert r[i] in Filter(items, (a: Article) => a.id !in used);
        var j :| 0 <= j < |items| && items[j] == r[i];
        UsedIdsHas(items, usage, j, u);
      }
    }
  }

  lemma UsedIdsHas(items: seq<Article>, usage: seq<Usage>, j: nat, u: Usage)
    requires j < |items| && u in usage
    ensures UsedBy(u, items[j].id) ==> items[j].id in UsedIds(items, usage)
  {
  }

  /** The result keeps the candidates' order: it is the start of the unused candidates,
      and every unused candidate is returned unless `limit` were reached. */
  lemma UnusedInOrder(items: seq<Article>, usage: seq<Usage>, limit: nat)
    ensures var r := Unused(items, usage, limit);
      var unused := Filter(items, (a: Article) => a.id !in UsedIds(items, usage));
      r == unused[..|r|]
      && (|r| < limit ==> r == unused)
  {
  }

  /** A candidate with no audio-roundup usage row is returned whenever fewer than `limit`
      are. */
  lemma UnusedComplete(items: seq<Article>, usage: seq<Usage>, limit: nat, j: nat)
    requires j < |items| && forall u :: u in usage ==> !UsedBy(u, items[j].id)
    requires |Unused(items, usage, limit)| < limit
    ensures items[j] in Unused(items, usage, limit)
  {
    var used := UsedIds(items, usage);
    assert items[j].id !in used;
  }
}
