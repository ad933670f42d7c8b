# OnePlace content pipeline — a Dafny model of its core

OnePlace scrapes news sources per project. It extracts and judges the articles, retires
stale and duplicate ones, selects generated video posts and builds audio roundups. It
renders narration parts, karaoke subtitles and short videos, and uploads roundups to
YouTube, where it tracks their metrics at fixed checkpoints.

This project models the deterministic rules at the centre of that pipeline. Each Python
module of the core has its own Dafny module:

- `Pipeline`, `Dedupe`, `SecondJudge`, `RoundupCandidates`, `Cleanup`, `ProjectRun` and
  `ContentHash` model `app/pipeline.py`. Two helpers support them. `Store` models the
  `articles` and `posts` tables as classes holding a row map and a listing order, with
  updates as map writes. `Grouping` models `dict.setdefault` grouping.
- `Admin` models the scraping rules of `app/admin.py`. These are truncation,
  Reddit-listing normalisation, Reddit and RSS row building, and per-source status
  recording.
- `Chunking` models the sentence-boundary chunker. It appears twice in the source, as
  `_chunks` in `app/media/audio.py` and in `app/media/short_video.py`. `Audio` models the
  turn, voice and part sequencing of `render_audio_roundup`.
- `ShortVideo` models ASS escaping, centisecond times and karaoke grouping.
  `ShortVideoRender` models the ASR normalisation, fallback captions and scene-image
  rules of `render_short_video`.
- `AudioRoundup` models `app/ai/audio_roundup.py` and `Generate` models `app/ai/generate.py`.
- `OpenAI` models the payload shaping, retry bound, image selection and `_parse_json`
  of `app/ai/openai_client.py`.
- `Config` models `get_settings` as a function of an environment map.
- `Paths` models `app/media/paths.py`.
- `YoutubeMetrics` models video-id parsing, the analytics window and the checkpoint loop
  of `app/youtube_video_metrics.py`. Every YouTube request and metric-row write in the
  loop may raise, and the loop stops at the first exception with the rows written before
  it. `YoutubeUpload` models the defaults and the
  decision flow of `app/youtube_upload.py`.
- `Wrappers`, `Text`, `Seqs`, `Url` and `Json` are shared building blocks:
  - `Wrappers`: Option and Result, plus the Python exceptions as values.
  - `Text`: Python's `str.strip`, ASCII `lower`, `find`, `split` and `join`, and decimal
    conversion.
  - `Seqs`: batching, filtering, and the first index a loop that raises stops at.
  - `Url`: `urlparse`, `parse_qs`, `urlencode` and `urlunparse` on the forms the core
    uses.
  - `Json`: JSON values, with objects as ordered field lists.

External services are parameters of the model: the datastore, the LLM judges and
extractors, SHA-256, feed and page fetching, captioning, the YouTube API and the clock.
A datastore query is a filter over the stored rows in listing order. An update is a
map write. Clock readings are integer seconds.

## Model

| member | source | states |
|---|---|---|
| `ContentHash.CollapseRuns` | app/pipeline.py:22 | every whitespace run collapses to one space; never longer than the input and non-empty for non-empty input |
| `ContentHash.HashAbsent` | app/pipeline.py:19-25 | there is no hash exactly for a missing, empty or all-whitespace text; otherwise the hash is `sha` of the normal form |
| `ContentHash.NormalizeIsJoinedWords` | app/pipeline.py:22 | the normal form (strip, lower, collapse) equals the lower-cased words joined by single spaces |
| `ContentHash.HashIgnoresCaseAndSpacing` | app/pipeline.py:19-25 | texts with the same lower-cased words hash alike, whatever their case or spacing |
| `ContentHash.NormalizeIdempotent` | app/pipeline.py:22 | normalising a normal form changes nothing |
| `ContentHash.CollapseIsJoinedWords` | app/pipeline.py:22 | on text with no whitespace at either end, collapsing runs is joining the words with single spaces |
| `ContentHash.WordsShape` | app/pipeline.py:22 | every word is non-empty and holds no whitespace |
| `Pipeline.MarkProcessed` | app/pipeline.py:42-57 | the row with that id gets summary, processed flag and scrape time, and title, content and hash only when truthy; a missing id changes nothing |
| `Pipeline.ExtractionRule` | app/pipeline.py:63-74 | an existing hash is kept; a processed row gets a non-empty summary and the scrape time; a row with no hash gets the hash of the extracted content or raw HTML; a row that is skipped, or on which the extractor raises, is unchanged |
| `Pipeline.ExtractItem` | app/pipeline.py:63-74 | one loop pass raises exactly when the extractor does on non-blank HTML, and then writes nothing; otherwise it writes exactly the extracted row and reports whether it was marked |
| `Pipeline.RunExtraction` | app/pipeline.py:60-75 | the fetched rows up to the first on which the extractor raises are rewritten by the extraction rule, and no others; the run succeeds iff no fetched row raises, with the number of rows given a summary, at most `limit`; otherwise the exception of that row propagates |
| `Pipeline.MarkScored` | app/pipeline.py:93-101 | the row with that id gets score, formats and the scored flag, nothing else |
| `Pipeline.FirstJudgeRule` | app/pipeline.py:108-116 | a row without summary, or on which judging raises, is untouched; any other row is scored, with formats `["video"]` iff the score reaches `video_min_score` and `[]` iff below; all other fields kept |
| `Pipeline.JudgeItem` | app/pipeline.py:108-116 | one loop pass raises exactly when `judge_summary` or the `int()` of its score does on a row with a summary, and then writes nothing; otherwise it writes exactly the judged row and reports whether it was scored |
| `Pipeline.RunFirstJudge` | app/pipeline.py:104-117 | the fetched rows up to the first on which judging raises are rewritten by the judge rule, and no others; the run succeeds iff no fetched row raises, with the number of rows with a summary, at most `limit`; otherwise the exception of that row propagates |
| `Pipeline.ProjectThresholds` | app/pipeline.py:202-219 | (5, 48) without a project id or row; with a row, each column is its value when non-null and non-zero, and its default (5, 48) when null or zero |
| `Pipeline.RetireRow` | app/pipeline.py:240-246 | the row with that id is retired with reason and time; a missing id changes nothing |
| `Pipeline.RetireEach` | app/pipeline.py:238-248 | every fetched row is retired once and the count is the number of fetched rows |
| `Pipeline.MarkLowScoreUnusable` | app/pipeline.py:222-248 | exactly the stale rows (scored, usable, in the project, score below threshold, scraped before now minus the age) are retired; the count is their number |
| `Pipeline.StaleSelection` | app/pipeline.py:226-237 | the query returns every stale stored row exactly once |
| `Pipeline.RetirementMarksExactlyStale` | app/pipeline.py:222-248 | a row becomes unusable iff it was stale; stale rows keep every other field; other rows are unchanged; a second run retires nothing |
| `Dedupe.KeeperIndex` | app/pipeline.py:275-280 | the kept member's position lies within the group |
| `Dedupe.KeeperIndexBest` | app/pipeline.py:275-280 | no member outranks the kept one under (score or 0, scraped_at or "") descending, and it outranks every member before it (stable sort) |
| `Dedupe.DupRow` | app/pipeline.py:282-289 | the duplicate row gets unusable, reason "duplicate", `duplicate_of` the kept id and the time; nothing else changes |
| `Dedupe.RetireGroup` | app/pipeline.py:281-290 | every member but the kept one is retired as its duplicate; the count is the group size less one |
| `Dedupe.DedupeGroup` | app/pipeline.py:272-290 | a group of more than one retires all but its keeper; a group of one is skipped |
| `Dedupe.RetireDuplicates` | app/pipeline.py:271-291 | the outer loop retires the duplicates of every group in first-appearance order and counts them |
| `Dedupe.DedupeArticles` | app/pipeline.py:251-291 | the table becomes the grouped rows with every non-keeper retired; the count is the grouped rows less the number of groups |
| `Dedupe.DedupeOutcome` | app/pipeline.py:251-291 | keepers and rows not grouped (other project, already unusable, no hash) are unchanged; every other grouped row is retired as a duplicate of its group's keeper |
| `Dedupe.OneSurvivorPerHash` | app/pipeline.py:272-290 | of the rows sharing a hash exactly one is still usable afterwards |
| `Dedupe.KeeperIsBest` | app/pipeline.py:279-280 | the keeper of a hash has that hash and no row with the hash outranks it |
| `Dedupe.DupCount` | app/pipeline.py:271-291 | the retired ids plus one per group add up to the grouped rows |
| `Dedupe.DedupeCountIsRetired` | app/pipeline.py:291 | the returned count equals the number of rows retired |
| `Dedupe.GroupedRows` | app/pipeline.py:253-270 | the grouped rows are stored rows, each under its own id, usable, in the project, with a hash |
| `Grouping.GroupBy` | app/pipeline.py:265-270 | each key's group is the rows with that key, in order; the keys are distinct and in first-appearance order |
| `Grouping.GroupsPartition` | app/pipeline.py:265-270 | the group sizes add up to the number of rows grouped |
| `Grouping.KeysAreNonEmptyGroups` | app/pipeline.py:265-270 | a key is listed exactly when its group is non-empty |
| `Grouping.ItemInOwnGroup` | app/pipeline.py:267-270 | every row lands in the group of its own key |
| `SecondJudge.VersionOfPost` | app/pipeline.py:311-328 | the version's variant id is the content's `variant_id` when the content is a dict (decoded from a string when needed), otherwise None; id and model are the post's |
| `SecondJudge.GroupVersions` | app/pipeline.py:307-330 | the versions are grouped by (article id, content type), each group in post order, keys in first-appearance order |
| `SecondJudge.GroupVersionsStep` | app/pipeline.py:322-329 | one more post appends its version to its own group and leaves the others |
| `SecondJudge.FirstMatchIsFirst` | app/pipeline.py:358-360 | a match is the first version carrying the variant; no match means no version carries it |
| `SecondJudge.Decision` | app/pipeline.py:355-356 | a raising `pick_winner` propagates; a decision that is not a dict raises `AttributeError`; a dict is the decision |
| `SecondJudge.WinnerRule` | app/pipeline.py:355-362 | judging raises exactly when `pick_winner` raises or returns a non-dict; otherwise the winner is the first version with the decision's `winner_variant` (or `winner`), else the first version |
| `SecondJudge.FirstRaising` | app/pipeline.py:354-366 | the loop completes exactly the groups before the first one whose judging raises |
| `SecondJudge.PerfCallsPerVersion` | app/pipeline.py:364-365 | one performance call per version, in order, with its model and the format, winning exactly for the selected post |
| `SecondJudge.MarkPostSelected` | app/pipeline.py:333-335 | the post with that id becomes selected; nothing else changes |
| `SecondJudge.JudgeGroup` | app/pipeline.py:355-366 | one loop pass fails, changing nothing, exactly when judging the group raises; otherwise it selects the group's winner and appends its performance calls |
| `SecondJudge.RecordPerformance` | app/pipeline.py:364-365 | the inner loop issues exactly the per-version calls |
| `SecondJudge.RunSecondJudge` | app/pipeline.py:350-367 | the winners of the groups before the first raising one are selected and their calls recorded; the run returns the number of groups when none raises, and that group's exception otherwise |
| `SecondJudge.JudgeGroups` | app/pipeline.py:354-367 | the loop over the groups stops at the first raising one, keeping the selections and calls of the groups before it |
| `SecondJudge.SecondJudgeOutcome` | app/pipeline.py:350-367 | a fetched post is selected afterwards iff its group was judged before the first raising one and it is that group's winner; the raising group, later groups and posts not fetched are unchanged; a run with no raise covers every group |
| `SecondJudge.OneSelectedPerGroup` | app/pipeline.py:363 | each group judged before the first raising one has exactly one selected post afterwards |
| `SecondJudge.OneSelectedIn` | app/pipeline.py:363 | the same for given fetched posts and judged groups |
| `SecondJudge.OneWinPerGroup` | app/pipeline.py:364-365 | within a judged group exactly one performance call records a win |
| `SecondJudge.WinnerInGroup` | app/pipeline.py:358-362 | the winner of a non-empty group is one of its posts |
| `RoundupCandidates.NeverReused` | app/pipeline.py:391-403 | nothing returned has an audio-roundup usage row, every result is a candidate, at most `limit` are returned |
| `RoundupCandidates.UnusedInOrder` | app/pipeline.py:402-403 | the result is the start of the unused candidates in query order, and all of them when fewer than `limit` |
| `RoundupCandidates.UnusedComplete` | app/pipeline.py:402-403 | an unused candidate is returned whenever fewer than `limit` are |
| `Cleanup.ChunkIds` | app/pipeline.py:582-583 | the chunks concatenate back to the list; each holds 1 to `size` ids, all but the last exactly `size` |
| `Cleanup.DatedTable.DeleteBefore` | app/pipeline.py:597-603 | the rows stamped before the cutoff are removed and counted; the rest keep their order |
| `Cleanup.Page` | app/pipeline.py:617 | a page holds at most `size` rows, exactly `size` when that many remain, and at least one when any remain |
| `Cleanup.CollectPages` | app/pipeline.py:608-626 | the paging loop, stopping on an empty or short page, collects the truthy ids of all matching rows in order |
| `Cleanup.CollectRetired` | app/pipeline.py:608-626 | the ids collected are those of the retired rows scraped before the cutoff |
| `Cleanup.PageStep` | app/pipeline.py:620-626 | an empty page ends with every row read; a short page ends the rows; a full page leaves the next offset within the rows |
| `Cleanup.PageExtends` | app/pipeline.py:623 | one more page appends its ids to those collected so far |
| `Cleanup.Wipe` | app/pipeline.py:653 | a wiped row keeps its id and loses raw HTML and content |
| `Cleanup.WipeChunk` | app/pipeline.py:653 | one update wipes exactly the stored rows whose ids are in the chunk |
| `Cleanup.WipeAll` | app/pipeline.py:652-653 | the chunked loop wipes exactly the ids of the wipe list |
| `Cleanup.WipeUnusable` | app/pipeline.py:608-655 | the rows on the wipe list are wiped and the count is the list's length, 0 when nothing was collected |
| `Cleanup.CleanupOldData` | app/pipeline.py:586-656 | the source items, and the legacy tables only when asked, are pruned and counted; articles are wiped only when `wipe_unusable`, otherwise untouched |
| `Cleanup.WipedExactly` | app/pipeline.py:628-651 | an id is on the wipe list iff its row is retired, scraped before the cutoff, has an id and no post or usage row references it |
| `Cleanup.CleanupOutcome` | app/pipeline.py:605-655 | a stored row is wiped iff it is on the wipe list; every other row is unchanged |
| `Cleanup.WipeCount` | app/pipeline.py:655 | `articles_wiped` equals the number of distinct rows wiped |
| `Cleanup.WipeTwice` | app/pipeline.py:653 | wiping is idempotent |
| `Cleanup.CollectedIds` | app/pipeline.py:611-626 | an id is collected iff it is a stored retired row with a non-empty id |
| `ProjectRun.ExtractKeepsFlags` | app/pipeline.py:60-75 | extraction only ever sets the processed flag and never touches the scored flag |
| `ProjectRun.JudgeKeepsFlags` | app/pipeline.py:104-117 | the first judge only ever sets the scored flag and never touches the processed flag |
| `ProjectRun.NothingExtracted` | app/pipeline.py:697-701 | a batch that marks nothing changes nothing and leaves the table settled for extraction |
| `ProjectRun.NothingJudged` | app/pipeline.py:702-706 | a batch that scores nothing changes nothing and leaves the table settled for judging |
| `ProjectRun.ExtractAll` | app/pipeline.py:697-701 | an exception from a batch propagates; a run that completes ends with a total below 220, and below 200 means a batch marked nothing and the table is settled; either way no row loses a flag |
| `ProjectRun.JudgeAll` | app/pipeline.py:702-706 | an exception from a batch propagates; a run that completes ends with a total below 550, and below 500 means the table is settled; either way no row loses a flag |
| `ProjectRun.LogPayload` | app/pipeline.py:667-679 | the log row carries each count under its own column, run type "pipeline" and status "ok" |
| `ProjectRun.RunProjectPipeline` | app/pipeline.py:687-713 | the loops run, then dedupe, then retirement on dedupe's output, and the results and log carry their counts; an exception from a loop propagates with no dedupe, retirement or log row, and no row has lost a flag |
| `Admin.Truncate` | app/admin.py:41-46 | empty stays empty, a value within the limit is kept, a longer one becomes a prefix of at most `maxChars` characters that stops just before the last space of the first `maxChars`, or is all of them when they hold no space |
| `Admin.IndexOfPart` | app/admin.py:71-72 | the index of the first occurrence of the segment (none before it), and -1 exactly when it is absent |
| `Admin.SortOf` | app/admin.py:80 | the first segment that is a sort word, `top` when none is |
| `Admin.ListingUrlText` | app/admin.py:83-85 | the rebuilt listing URL is the `https://www.reddit.com/r/<sub>/<sort>/.json?` address with the encoded parameters |
| `Admin.ParseAvoids` | app/admin.py:63 | a character absent from a query string is absent from every parsed key and value |
| `Admin.EncodeAvoids` | app/admin.py:66 | a character other than `&` and `=` that no key or value holds is absent from the encoded query |
| `Admin.JsonQueryShape` | app/admin.py:63-66 | the `.json` query is well formed, has no `#` and holds both `limit` and `raw_json` |
| `Admin.JsonQueryLookups` | app/admin.py:63-65 | `setdefault` gives `limit` and `raw_json` their old values or the defaults, and every other key reads as before |
| `Admin.NormalizeJson` | app/admin.py:62-67 | a `.json` listing keeps scheme, host, path and fragment; its query keeps every parameter and gains `limit` and `raw_json=1` only when absent |
| `Admin.NormalizeJsonSplit` | app/admin.py:66-67 | the normalised `.json` URL splits into the old parts with the re-encoded query, which parses back to itself |
| `Admin.SubredditChars` | app/admin.py:69-77 | the subreddit holds no `/` and only characters of the path |
| `Admin.ListingQueryShape` | app/admin.py:84-85 | the listing query is well formed and its encoding holds no `#` |
| `Admin.TimeframeShape` | app/admin.py:82 | the timeframe is never empty and holds neither `&` nor `#` |
| `Admin.NormalizeListing` | app/admin.py:69-85 | a non-`.json` Reddit path naming a subreddit becomes that subreddit's `.json` listing under the first sort word (`top` by default), with `limit`, `t` (`day` by default) and `raw_json=1` in that order |
| `Admin.JsonFixed` | app/admin.py:62-67 | a `.json` Reddit URL whose query already has both keys is returned as it is |
| `Admin.JsonUnchanged` | app/admin.py:62-67 | normalising a normalised `.json` URL changes nothing |
| `Admin.ListingKeys` | app/admin.py:84 | the listing query already holds `limit` and `raw_json` |
| `Admin.ListingUnchanged` | app/admin.py:69-85 | normalising a rebuilt listing URL changes nothing |
| `Admin.NormalizeIdempotent` | app/admin.py:56-85 | normalising twice is the same as normalising once, for every URL |
| `Admin.ExtractRedditImageUrl` | app/admin.py:88-98 | an image URL exists iff the post is hinted as an image with a URL or has a first preview source; the hinted URL wins, else the unescaped preview source |
| `Admin.FetchArticleText` | app/admin.py:101-115 | text comes back only for a non-empty link that is neither media nor a Reddit page, and then it is what the fetch yields |
| `Admin.ContentParts` | app/admin.py:357-367 | one to three parts: self text first, then the article text, then the caption or else the image URL, and the title alone when nothing else applies |
| `Admin.JoinContent` | app/admin.py:368 | the joined content never exceeds 4000 characters |
| `Admin.RedditRaw` | app/admin.py:369-378 | the raw column never exceeds 4000 characters |
| `Admin.CreatedAt` | app/admin.py:25-27 | a missing or zero timestamp gives no publication time, any other is kept |
| `Admin.RedditItem` | app/admin.py:345-389 | the row fails exactly when there is an image and captioning it fails; otherwise it carries the source, title, permalink or link, bounded content and raw, and the creation time |
| `Admin.TraverseAll` | app/admin.py:344-389 | the run of rows succeeds iff every post's row does, with row `i` from post `i`; otherwise it fails with the first failure |
| `Admin.TraverseFailureSticks` | app/admin.py:344-389 | once a prefix of the posts has failed, the whole run fails the same way |
| `Admin.TraverseSnoc` | app/admin.py:379 | one more successful row extends a successful run |
| `Admin.BuildParts` | app/admin.py:357-367 | the appends build exactly the content parts of the post |
| `Admin.RedditRow` | app/admin.py:345-389 | the loop body yields the post's row or its caption failure |
| `Admin.AppendRedditRow` | app/admin.py:344-389 | one more turn of the loop gives the run of rows over one more post |
| `Admin.RedditRows` | app/admin.py:343-389 | the loop over the first `max_items` posts gives their rows, or the first failure |
| `Admin.RssItem` | app/admin.py:311-326 | the row carries the link, title and source; raw is the summary cut to 4000 characters; content is the summary, or the first content value when the summary is empty; published time falls back to the update time |
| `Admin.RssItems` | app/admin.py:307-326 | at most one row per entry, each with a link, the source id and bounded content |
| `Admin.RssItemsLinked` | app/admin.py:308-310 | the rows are exactly those of the entries with a link or id, in order |
| `Admin.RssRows` | app/admin.py:306-326 | the loop over the first `max_items` entries gives their rows |
| `Admin.Upserted` | app/admin.py:413-418 | no rows report 0 without a call; otherwise the count is 0 only for no rows, and the call fails iff the upsert does |
| `Admin.ScrapeRss` | app/admin.py:297-329 | a failed fetch is the failure; otherwise the count is the upsert of the rows of the first `max_items` entries |
| `Admin.ScrapeReddit` | app/admin.py:332-392 | the listing is fetched at the normalised URL; a fetch or caption failure is the failure, otherwise the rows are upserted |
| `Admin.ScrapePage` | app/admin.py:395-410 | a failed fetch is the failure; otherwise the one page row is upserted |
| `Admin.ParseStatusText` | app/admin.py:274-286 | the `ok`, `unknown source_type: …` and `error: …` statuses never collide |
| `Admin.KindOf` | app/admin.py:271-284 | the lowercased type picks Reddit for `reddit`, RSS for `rss`/`youtube`, page for `page`/`website`, and nothing else |
| `Admin.Outcome` | app/admin.py:274-294 | a status other than ok carries count 0; the status is "unknown source_type" iff no scraper matches, and then names the lowercased type |
| `Admin.RecordedAll` | app/admin.py:287-293 | recording attempts never adds or removes a source row |
| `Admin.RecordedAllKeeps` | app/admin.py:287-293 | sources not scraped keep their rows |
| `Admin.RecordedAllLast` | app/admin.py:287-293 | a scraped source's row carries the time and status of its last attempt |
| `Admin.SourceTable.constructor` | app/admin.py:287 | the table starts with the given rows |
| `Admin.SourceTable.ScrapeSource` | app/admin.py:269-294 | the result is the source's outcome, and the source's row records it |
| `Admin.SourceTable.ScrapeProject` | app/admin.py:261-266 | one result per enabled source, in order, each recorded in the table |
| `Url.SplitUnsplit` | app/admin.py:59-67 | splitting an assembled URL gives back its parts |
| `Url.SplitIsCanonical` | app/admin.py:59-67 | every URL with a host splits into parts that assemble and split back to themselves |
| `Url.ParseEncode` | app/admin.py:63-66 | parsing an encoded well-formed query gives back its pairs |
| `Url.ParsedWellFormed` | app/admin.py:63-66 | a parsed query is well formed and each key reads its first value |
| `Url.SetDefault` | app/admin.py:64-65 | after `setdefault` the key reads its old value, or the default when it had none, and every other key reads as before |
| `Json.LookupOr` | app/admin.py:89-94 | `get` gives the stored value, even a null, when the key is present, and the default only when it is absent |
| `Json.GetSet` | app/pipeline.py:441 | after a store the key reads the new value and every other key reads as before |
| `Json.HasKeyStore` | app/pipeline.py:441 | a store adds the key and removes none |
| `OpenAI.NewClient` | app/ai/openai_client.py:11-17 | a missing or empty API key raises; otherwise the client keeps the key and the timeout, and a base URL that is the given one less exactly its run of trailing slashes |
| `OpenAI.BaseKeys` | app/ai/openai_client.py:65-73 | the first payload holds exactly model, messages, the token limit under the model's name for it and, in JSON mode, the response format |
| `OpenAI.ChatPayloadKeeps` | app/ai/openai_client.py:74-78 | the optional steps touch no key other than `temperature` and `reasoning_effort` |
| `OpenAI.TokenLimitKey` | app/ai/openai_client.py:30-31 | the token limit goes under `max_completion_tokens` for gpt-5 models and `max_tokens` otherwise, never both |
| `OpenAI.TemperatureOnlyBeforeGpt5` | app/ai/openai_client.py:19-20 | the temperature is sent, unchanged, exactly to models that are not gpt-5 |
| `OpenAI.ReasoningEffortOnlyForGpt5` | app/ai/openai_client.py:22-28 | a reasoning effort is sent exactly to gpt-5 models: the explicit one when non-empty, otherwise `minimal` |
| `OpenAI.TemperedLacksEffort` | app/ai/openai_client.py:74-75 | the temperature step never adds `reasoning_effort` |
| `OpenAI.JsonModeFormat` | app/ai/openai_client.py:72 | only `chat_json` asks for a JSON object |
| `OpenAI.PostLoop` | app/ai/openai_client.py:39-54 | at most `retries + 1` attempts; the result is the last attempt's, every earlier attempt failed transiently; no attempt and a `RuntimeError` when `retries` is negative |
| `OpenAI.PostUsesOnlyAllowedAttempts` | app/ai/openai_client.py:41 | attempts past the last allowed one never influence the outcome |
| `OpenAI.TransientRaisedLast` | app/ai/openai_client.py:49-52 | a transient error escapes only when every allowed attempt failed transiently, and it is the last one's |
| `OpenAI.ContentOfReply` | app/ai/openai_client.py:83 | a reply of the usual shape yields its content, and one without choices yields the empty string |
| `OpenAI.ChatAnswer` | app/ai/openai_client.py:79-86 | a failed request propagates; a non-ok status raises with the code and text; on an ok reply a failed body or content read propagates, blank content raises, and non-blank content is the answer |
| `OpenAI.ChatAtMostThreeAttempts` | app/ai/openai_client.py:88-117 | a chat request depends on at most three attempts |
| `OpenAI.ParseJson` | app/ai/openai_client.py:207-209 | decoded content, or any error other than a decoding error, is returned as it is |
| `OpenAI.ParseJsonSlices` | app/ai/openai_client.py:211-215 | undecodable content with a `{` before a `}` is decoded from the first `{` to the last `}` |
| `OpenAI.ParseJsonGivesUp` | app/ai/openai_client.py:214-216 | undecodable content without a `{` before a `}` re-raises the decoding error |
| `OpenAI.ImageFormatOnlyForDallE` | app/ai/openai_client.py:195-196 | base64 output is requested exactly from `dall-e` models |
| `OpenAI.ImageResult` | app/ai/openai_client.py:202-204 | a reply without data, or with empty data, yields "" |
| `OpenAI.ImagePrefersUrl` | app/ai/openai_client.py:203 | the first entry's truthy `url` wins, then its `b64_json`, then "" |
| `OpenAI.Image` | app/ai/openai_client.py:187-204 | a failed request propagates; a non-ok status raises `HTTPError`; on an ok reply a failed body read propagates and otherwise the answer is `ImageResult` of the body |
| `Config.ModelList` | app/config.py:90-94 | no listed model is empty |
| `Config.ModelListClean` | app/config.py:90-94 | every listed model is non-empty and already stripped |
| `Config.ModelListOfJoin` | app/config.py:90-94 | a comma-joined list of clean names reads back as that list |
| `Config.GetSettings` | app/config.py:64-124 | a blank store URL or key raises `RuntimeError` first; when both are given the call fails exactly when an integer variable does not parse, with `ValueError`; a result carries the stripped URL and key |
| `Config.TtsCap` | app/config.py:71-74 | the TTS chunk size drops to 2000 exactly when the provider is Inworld, in any case, and the configured size is larger |
| `Config.Defaults` | app/config.py:85-118 | absent variables give a roundup size of 5, LLM extraction on, and TTS, ASR, image generation and captioning off |
| `Config.InworldFallback` | app/config.py:107 | the Inworld key falls back to the base64 key when absent or empty |
| `Config.FlagWords` | app/config.py:85-86 | a flag is on exactly for `1`, `true` and `yes`, in any case |
| `Paths.JoinName` | app/media/paths.py:5 | joining a plain name adds exactly that component |
| `Paths.RoundupArtefacts` | app/media/paths.py:4-17 | the audio, video and image of a roundup sit directly in its directory under three different names |
| `Paths.ShortVideoNotRoundupVideo` | app/media/paths.py:12-25 | for a relative post id the short video and the roundup video are different paths (`..` is not resolved, so they may still name one file) |
| `Paths.AbsolutePostIdCollides` | app/media/paths.py:12-25 | an absolute post id makes the two videos the same file |
| `Chunking.SeparatorCut` | app/media/audio.py:18-22 | the cut stays strictly after `start` and within the window |
| `Chunking.FirstHit` | app/media/audio.py:18-20 | the separators before the chosen one do not occur strictly after `start` in the window, and the chosen one does |
| `Chunking.SeparatorCutRule` | app/media/audio.py:17-22 | the cut is the window's end when no separator occurs strictly after `start`, else just after the last occurrence of the first separator, in the order `. `, `! `, `? `, newline, that occurs |
| `Chunking.ChunkEnd` | app/media/audio.py:15-22 | each window is non-empty, at most `max_chars` long, and reaches the end when the rest of the text fits |
| `Chunking.CutWindow` | app/media/audio.py:18-22 | the `for sep` search computes the separator cut |
| `Chunking.Chunks` | app/media/audio.py:10-24 | no chunks for empty text; otherwise the cursor loop yields the stripped windows |
| `Chunking.WindowsCover` | app/media/audio.py:13-24 | the windows concatenate back to the text: nothing skipped, nothing repeated |
| `Chunking.WindowsBounded` | app/media/audio.py:15 | every window holds 1 to `max_chars` characters |
| `Chunking.ChunksAreStrippedWindows` | app/media/audio.py:23 | the chunks are the windows, each stripped |
| `Chunking.ShortTextOneChunk` | app/media/audio.py:15-23 | a text that fits in one window is one chunk, the whole text stripped |
| `Audio.ChunkCalls` | app/media/audio.py:42-44 | one request per chunk, in order, each with the turn's voice |
| `Audio.Numbered` | app/media/audio.py:35-45 | the parts are the requests in order, numbered from 1 |
| `Audio.NumberedAppend` | app/media/audio.py:43-45 | one more request adds one part named after the next number |
| `Audio.AppendChunks` | app/media/audio.py:42-45 | the chunk loop appends one numbered part per chunk after the parts already made; the first chunk whose speech synthesis raises ends it with that exception |
| `Audio.AppendChunk` | app/media/audio.py:42-45 | one pass of the chunk loop adds the next numbered part, or raises exactly when that chunk is the first whose speech synthesis raises |
| `Audio.FirstFailing` | app/media/audio.py:44 | the first request whose `generate_voiceover` raises: every request before it succeeds |
| `Audio.NumberedStep` | app/media/audio.py:42-45 | one more chunk adds one part numbered after those before it |
| `Audio.RenderAudioRoundup` | app/media/audio.py:27-58 | the first raising speech synthesis ends the render with its exception; no parts raises "No audio parts generated"; no ffmpeg raises its error; otherwise the parts are the numbered requests of all turns and the concat file lists them one per line |
| `Audio.RenderTurn` | app/media/audio.py:36-45 | one turn of the dialogue loop adds the numbered parts of that turn's requests, or raises the exception of the first failing one |
| `Audio.CallsPrefix` | app/media/audio.py:36-45 | the requests of the first turns are the start of the dialogue's requests |
| `Audio.CallsSnoc` | app/media/audio.py:36-45 | one more turn appends that turn's requests |
| `Audio.PartNameNumber` | app/media/audio.py:43 | the digits in a part's name read back as its number |
| `Audio.PartNamesDistinct` | app/media/audio.py:43 | different numbers give different file names, so no part overwrites another |
| `Audio.TurnCallsEmpty` | app/media/audio.py:38-40 | a turn yields no requests exactly when its text is blank |
| `Audio.TurnCallsFrom` | app/media/audio.py:37-44 | each request of a turn reads one of its chunks with the voice its speaker selects |
| `Audio.CallsEmpty` | app/media/audio.py:36-48 | a dialogue gives no parts exactly when every turn is blank |
| `Audio.CallFromTurn` | app/media/audio.py:36-45 | every part comes from a non-blank turn, reading one of its chunks with that turn's voice |
| `ShortVideo.VoiceoverChunks` | app/media/short_video.py:18-33 | no chunks for empty text; otherwise the audio chunker's chunks, with the `tts_max_chars` setting when no size is given |
| `ShortVideo.ReplaceAppend` | app/media/short_video.py:92 | replacing a character distributes over concatenation |
| `ShortVideo.EscapeAssEach` | app/media/short_video.py:91-92 | the three chained replacements escape every backslash and brace exactly once; the backslashes one replacement adds are never escaped again |
| `ShortVideo.UnescapeEach` | app/media/short_video.py:91-92 | reading escaped text back, a backslash taking the next character literally, gives the original |
| `ShortVideo.UnescapeEscapeAss` | app/media/short_video.py:91-92 | escaping loses nothing: the original text can be read back |
| `ShortVideo.EscapePlain` | app/media/short_video.py:91-92 | text without backslashes or braces is left as it is |
| `ShortVideo.Decompose` | app/media/short_video.py:155-159 | the hours, minutes, seconds and centiseconds denote the same total, with minutes and seconds below 60 and centiseconds below 100 |
| `ShortVideo.DecomposeFields` | app/media/short_video.py:156-159 | the floor divisions give in-range fields that add back to the total |
| `ShortVideo.ParseFormatAssTime` | app/media/short_video.py:154-160 | the printed `H:MM:SS.cc` time parses back to the same number of centiseconds |
| `ShortVideo.KaraokeDuration` | app/media/short_video.py:121 | a word's `\k` duration is its length in centiseconds, or 1 when that is smaller |
| `ShortVideo.EventOf` | app/media/short_video.py:116-123 | a group's event has one syllable per word |
| `ShortVideo.KaraokeEvents` | app/media/short_video.py:114-127 | one event per group of `max_words` words |
| `ShortVideo.KaraokeEventAt` | app/media/short_video.py:116-126 | event `i` is the event of the non-empty group `i` |
| `ShortVideo.KaraokeEventCount` | app/media/short_video.py:114-127 | there are ceil(n / `max_words`) events, and none exactly when there are no words |
| `ShortVideo.KaraokeEventWords` | app/media/short_video.py:116-123 | event `i` runs from the start of word `i * max_words` to the end of the last word of its group, with one syllable per word in order |
| `ShortVideo.EventTimes` | app/media/short_video.py:124-126 | the second and third comma-separated fields of a Dialogue line read back as the event's start and end |
| `ShortVideo.DialogueOf` | app/media/short_video.py:116-126 | one loop iteration builds the Dialogue line of the group's event |
| `ShortVideo.KaraokeStep` | app/media/short_video.py:115-127 | each loop step handles the next event, and the events after it are those of the remaining words |
| `ShortVideo.AppendEvents` | app/media/short_video.py:114-127 | the loop appends one Dialogue line per event, in order, after the header |
| `ShortVideo.WriteAssKaraoke` | app/media/short_video.py:95-129 | the file text is the header and the Dialogue lines joined by newlines; the header alone when there are no words |
| `ShortVideoRender.Iterate` | app/media/short_video.py:212-214 | iterating a list yields its items; a string or a dict yields strings; `None`, a bool or an int raises |
| `ShortVideoRender.SegmentStep` | app/media/short_video.py:211-213 | a segment only ever extends the words collected so far |
| `ShortVideoRender.AsrWords` | app/media/short_video.py:204-221 | only dicts with `start`, `end` and `word` are kept, and none when recognition is off or raises |
| `ShortVideoRender.SegmentWordsListed` | app/media/short_video.py:210-213 | over dict segments with iterable word lists, the loop collects their words in order |
| `ShortVideoRender.TopLevelWordsWin` | app/media/short_video.py:209-210 | a non-empty top-level word list is used, filtered, and the segments are ignored |
| `ShortVideoRender.SegmentFallback` | app/media/short_video.py:209-218 | with an empty or missing top-level list, the timed words of the segments are used, in order |
| `ShortVideoRender.BadSegmentDropsAll` | app/media/short_video.py:211-221 | one segment that is not a dict makes the whole block fail |
| `ShortVideoRender.KeepTimed` | app/media/short_video.py:214-218 | the filter loop keeps exactly the timed dict words, in order |
| `ShortVideoRender.AppendAll` | app/media/short_video.py:212-213 | the inner loop appends every word of the segment |
| `ShortVideoRender.CollectSegmentWords` | app/media/short_video.py:211-213 | the segment loop collects the segments' words, or raises |
| `ShortVideoRender.NoneStaysNone` | app/media/short_video.py:211-213 | once a prefix of the segments raised, the whole loop raises |
| `ShortVideoRender.NormalizeAsr` | app/media/short_video.py:204-221 | the recognition block computes the filtered recognised words |
| `ShortVideoRender.SpacedTexts` | app/media/short_video.py:231-233 | the spaced words carry the tokens in order and each lasts one step |
| `ShortVideoRender.SpacedContiguous` | app/media/short_video.py:231-233 | each spaced word starts where the one before it ends |
| `ShortVideoRender.SpacedEnds` | app/media/short_video.py:230-233 | the first word starts at `t` and the last ends one step per token later |
| `ShortVideoRender.FallbackWithinDuration` | app/media/short_video.py:223-233 | the fallback captions carry the tokens in order, back to back from 0, and never run past the duration |
| `ShortVideoRender.SpreadTokens` | app/media/short_video.py:228-233 | the fallback loop computes the evenly spaced captions |
| `ShortVideoRender.ChooseCaptions` | app/media/short_video.py:204-233 | recognised words are used when there are any, otherwise the script's tokens (or the captions') spread over the audio |
| `ShortVideoRender.SceneNamesDistinct` | app/media/short_video.py:180 | two scenes never share an image file |
| `ShortVideoRender.SceneImages` | app/media/short_video.py:177-192 | images exist iff generation is on, there are prompts and every scene rendered; then one file per scene, in order |
| `ShortVideoRender.PlaceholderTexts` | app/media/short_video.py:194-198 | the placeholders are the scene texts; without scenes they are eight equal copies of the script's first 120 characters, or of `Scene` when the script is empty |
| `ShortVideoRender.DurationSeconds` | app/media/short_video.py:172 | a falsy value gives 45, a non-zero int itself, a non-empty list raises |
| `ShortVideoRender.DurationOfDecimal` | app/media/short_video.py:172 | a duration written as a decimal string reads back as itself |
| `ShortVideoRender.TruncDivBounds` | app/media/short_video.py:237 | the truncating division gives the whole number of divisors in the value, rounded toward zero |
| `ShortVideoRender.SecondsPerImage` | app/media/short_video.py:237 | every image is shown at least two seconds |
| `ShortVideoRender.SecondsPerImageFill` | app/media/short_video.py:237 | above the two-second floor the images together fill the duration without running past it |
| `AudioRoundup.Trim` | app/ai/audio_roundup.py:43-48 | empty text stays empty and text within the budget is kept; longer text becomes the first `maxChars - 1` characters with their trailing whitespace removed (the rest of the kept part does not end in whitespace) followed by an ellipsis |
| `AudioRoundup.TrimWithinBudget` | app/ai/audio_roundup.py:43-48 | with a positive budget the trimmed text never exceeds it |
| `AudioRoundup.StoryOf` | app/ai/audio_roundup.py:58-70 | a story keeps the title and the stripped summary, and uses the summary as content when the content is blank |
| `AudioRoundup.StoriesWithinBudget` | app/ai/audio_roundup.py:57-70 | every story whose content is not blank respects the budget |
| `AudioRoundup.GenerateAudioRoundup` | app/ai/audio_roundup.py:51-95 | the budget loop computes the attempt over 8000, 4000 and 2000 characters |
| `AudioRoundup.BuildStories` | app/ai/audio_roundup.py:56-70 | the inner loop builds one story per item, in order |
| `AudioRoundup.FirstAnswerWins` | app/ai/audio_roundup.py:78-86 | an answer under the 8000-character budget is returned as it is |
| `AudioRoundup.OtherFailurePropagates` | app/ai/audio_roundup.py:87-92 | an error that mentions neither "empty content" nor "JSON" is raised at once |
| `AudioRoundup.AllBudgetsFail` | app/ai/audio_roundup.py:87-94 | when every budget fails retriably, the error of the 2000-character attempt is raised |
| `AudioRoundup.AnswerFromSomeBudget` | app/ai/audio_roundup.py:55-92 | any answer is the chat's answer under some budget, every earlier budget having failed retriably |
| `AudioRoundup.AttemptRetries` | app/ai/audio_roundup.py:87-91 | a failed first budget that still leads to an answer failed retriably, and the answer comes from the remaining budgets |
| `AudioRoundup.SystemPromptNamesLanguage` | app/ai/audio_roundup.py:20-23 | the roundup prompt names the language right after its fixed opening |
| `Generate.KnownOf` | app/ai/generate.py:4-8 | exactly `en`, `es` and `sk` have labels |
| `Generate.LanguageLabel` | app/ai/generate.py:11-15 | a missing or empty value is English |
| `Generate.LabelOfCode` | app/ai/generate.py:14-15 | a known code is recognised whatever its case and surrounding whitespace |
| `Generate.LabelOfOther` | app/ai/generate.py:14-15 | any other non-blank value comes back stripped |
| `Generate.LabelIdempotent` | app/ai/generate.py:11-15 | labelling a label changes nothing |
| `Generate.WithExtraShape` | app/ai/generate.py:28-30 | the extra instructions, stripped and after their separator, extend the base prompt exactly when they are not blank |
| `Generate.SystemPromptShape` | app/ai/generate.py:18-30 | the prompt names the language after its fixed head and keeps the base prompt intact, followed by the extra instructions only when they are not blank |
| `Generate.StampVariant` | app/ai/generate.py:56-57 | only a dict answer is changed, and it stays a dict |
| `Generate.StampVariantReads` | app/ai/generate.py:56-57 | a stamped answer reads the variant id and every other key as before |
| `Generate.GenerateVideoVariant` | app/ai/generate.py:33-58 | a failing chat call propagates; an answer comes back exactly as `StampVariant` stamps it with the variant id (dicts stamped, other answers unchanged) |
| `Generate.GenerationModelsClean` | app/ai/generate.py:61-63 | the configured models are non-empty and carry no surrounding whitespace |
| `YoutubeMetrics.ParseVideoId` | app/youtube_video_metrics.py:86-99 | no id for a missing or empty URL, and an id only from a youtu.be or youtube.com host |
| `YoutubeMetrics.ShortLinkId` | app/youtube_video_metrics.py:91 | a short-link id is non-empty and holds no `/` |
| `YoutubeMetrics.IdOfSplit` | app/youtube_video_metrics.py:89-99 | the id of a URL is the one its parsed parts give |
| `YoutubeMetrics.ShortLinkRoundTrip` | app/youtube_video_metrics.py:90-91 | the `https://youtu.be/<id>` link the uploader stores gives its id back |
| `YoutubeMetrics.WatchLinkRoundTrip` | app/youtube_video_metrics.py:92-96 | a watch URL on a youtube.com host gives its `v` value back |
| `YoutubeMetrics.QueryOfOneValue` | app/youtube_video_metrics.py:93-94 | `v=<id>` parses to the one value |
| `YoutubeMetrics.ShortsLinkRoundTrip` | app/youtube_video_metrics.py:97-98 | a Shorts URL on a youtube.com host gives back the segment after `/shorts/` |
| `YoutubeMetrics.ToInt` | app/youtube_video_metrics.py:102-106 | an int is itself; a null, a list, a dict or a string `int()` rejects is 0 |
| `YoutubeMetrics.ToIntOfDecimal` | app/youtube_video_metrics.py:102-106 | a counter sent as a decimal string reads back exactly |
| `YoutubeMetrics.VideoStatsOfFirstItem` | app/youtube_video_metrics.py:116-126 | the counters read are those of the first item |
| `YoutubeMetrics.VideoStatsOfReply` | app/youtube_video_metrics.py:121-126 | views, likes and comments sent as decimal strings are read back exactly |
| `YoutubeMetrics.VideoStatsOfNothing` | app/youtube_video_metrics.py:118-120 | a reply without items gives no counters |
| `YoutubeMetrics.DayBefore` | app/youtube_video_metrics.py:138 | the day 24 hours earlier is the previous day |
| `YoutubeMetrics.DayMonotonic` | app/youtube_video_metrics.py:136-139 | a later instant never falls on an earlier day |
| `YoutubeMetrics.WindowClamp` | app/youtube_video_metrics.py:136-141 | the report window starts on the posting day and ends on the earlier of the checkpoint's day and yesterday; it is empty exactly when the post is from today or later |
| `YoutubeMetrics.EmptyWindowNoQuery` | app/youtube_video_metrics.py:140-141 | with an empty window the report is not requested, so it gives `{}` and cannot raise |
| `YoutubeMetrics.CheckpointsOrdered` | app/youtube_video_metrics.py:15-23 | the checkpoints have distinct names and strictly increasing hours, from 1 |
| `YoutubeMetrics.CheckpointWrite` | app/youtube_video_metrics.py:268-309 | nothing before a checkpoint is due; for a missing row the counters, the analytics and the insert, in that order, the first to raise ending the step with its exception; an insert is made iff none raises; for an incomplete row an update iff the analytics came back and its execution does not raise; nothing for a complete row |
| `YoutubeMetrics.CountsAppend` | app/youtube_video_metrics.py:291-311 | insert and update counts add up over concatenated runs |
| `YoutubeMetrics.CheckpointRunAppend` | app/youtube_video_metrics.py:268-311 | a run that got through some checkpoints without an exception goes on with the rest |
| `YoutubeMetrics.FailureEndsRun` | app/youtube_video_metrics.py:268-311 | the inner loop ends without an exception iff no step raises; otherwise at the first step that raises, with its exception and exactly the rows of the steps before it |
| `YoutubeMetrics.VisitCheckpoints` | app/youtube_video_metrics.py:268-311 | the inner loop makes the checkpoint writes of the post in order up to the first exception, ends with that exception, and counts its inserts and updates |
| `YoutubeMetrics.VisitEach` | app/youtube_video_metrics.py:268-311 | the same for any list of checkpoints, leaving the loop at once on an exception |
| `YoutubeMetrics.WriteStep` | app/youtube_video_metrics.py:290-311 | one written checkpoint extends the writes and its count |
| `YoutubeMetrics.SkipStep` | app/youtube_video_metrics.py:269-297 | a checkpoint that writes nothing leaves the writes as they are |
| `YoutubeMetrics.FailStep` | app/youtube_video_metrics.py:272-302 | a checkpoint that raises ends the inner loop with that exception and the rows written so far |
| `YoutubeMetrics.WritesAreDecisions` | app/youtube_video_metrics.py:268-311 | every row written is some checkpoint's write; every checkpoint's write reached before any step raised is written |
| `YoutubeMetrics.CompleteRowsUntouched` | app/youtube_video_metrics.py:269-297 | a written checkpoint is due, and one that had a row is an update of an incomplete row |
| `YoutubeMetrics.InsertCount` | app/youtube_video_metrics.py:271-291 | `inserted` grows by exactly the number of due checkpoints without a row when nothing raises, and by no more otherwise |
| `YoutubeMetrics.TooEarlyNothing` | app/youtube_video_metrics.py:269-270 | a post less than an hour old gets no rows and raises nothing |
| `YoutubeMetrics.PostVisit` | app/youtube_video_metrics.py:251-266 | only a post with an id, a URL, a video id and a parsable time is visited, with its stored rows and the run's clock |
| `YoutubeMetrics.CollectMetrics` | app/youtube_video_metrics.py:250-311 | the outer loop makes every post's writes in order up to the first exception, ends with it, and counts the rows written |
| `YoutubeMetrics.AllRunAppend` | app/youtube_video_metrics.py:250-311 | a run that got through some posts without an exception goes on with the rest |
| `YoutubeMetrics.PostStep` | app/youtube_video_metrics.py:250-311 | one more post extends the run with its rows, and with its exception if it raised |
| `YoutubeMetrics.PostFailStep` | app/youtube_video_metrics.py:250-311 | a post that raises ends the whole run with the rows before it and its own |
| `YoutubeMetrics.FailureEndsCollection` | app/youtube_video_metrics.py:250-311 | the outer loop ends without an exception iff no post raises; otherwise at the first post that raises, with every earlier post's rows and what that post wrote before its exception |
| `YoutubeMetrics.WritesOfListedPosts` | app/youtube_video_metrics.py:250-290 | every row written concerns a listed post, and every insert names the project |
| `YoutubeMetrics.HasScope` | app/youtube_video_metrics.py:227 | `in` fails only on a value that is not iterable; on a list it is membership |
| `YoutubeMetrics.FetchMetricsForProject` | app/youtube_video_metrics.py:222-313 | the status, the exception and the rows written are those the project-level rules give: early returns, a failing scope test, credential or channel lookup, then the loop |
| `YoutubeMetrics.MetricsOutcome` | app/youtube_video_metrics.py:224-313 | the early returns and an exception before the loop write nothing; an exception in the loop keeps exactly the rows written before it; a completed run reports exactly its inserts and updates; every row is for a post of the project |
| `YoutubeMetrics.ScopeRequired` | app/youtube_video_metrics.py:226-228 | without the read-only scope the run stops at `missing_scope` and writes nothing |
| `YoutubeUpload.NormalizeTags` | app/youtube_upload.py:79-84 | a value that is neither a list nor a string gives no tags |
| `YoutubeUpload.TagsClean` | app/youtube_upload.py:79-84 | every tag kept is non-empty and already stripped |
| `YoutubeUpload.CleanTagsKept` | app/youtube_upload.py:80-81 | a list of clean tag strings is kept whole and in order |
| `YoutubeUpload.LocaleOf` | app/youtube_upload.py:88-93 | Spanish exactly for a non-empty language starting with `es` in lower case, Slovak exactly for one starting with `sk` and not `es` |
| `YoutubeUpload.DefaultTitleShape` | app/youtube_upload.py:87-93 | the title starts with the project name and a dash and ends with the date in parentheses, with the phrase of the language |
| `YoutubeUpload.LocaleIgnoresCase` | app/youtube_upload.py:89-91 | a language code and its lower-case form always pick the same phrase; so `ES` and `es-MX` are Spanish and `Sk` Slovak |
| `YoutubeUpload.DescriptionUrl` | app/youtube_upload.py:96-108 | the description starts with the base line, a blank line and the call to action, and ends with the subscribe URL on its own line exactly when one is given |
| `YoutubeUpload.ProjectName` | app/youtube_upload.py:66-76 | the first row's non-empty name, otherwise `Daily Roundup`; never empty |
| `YoutubeUpload.Scopes` | app/youtube_upload.py:198-201 | stored scopes win when truthy, otherwise upload and read-only |
| `YoutubeUpload.Publish` | app/youtube_upload.py:232-252 | an exception from authorizing or from the insert propagates with no mark and no run record; the upload fails otherwise only when the answer is not a dict; without an id it ends in `missing_video_id` with an error run; with one it marks the post with the youtu.be link and records an ok run |
| `YoutubeUpload.EarlyReturnsDoNotUpload` | app/youtube_upload.py:185-195 | a missing account or token, a missing roundup and an already posted one return without any effect |
| `YoutubeUpload.MarkedOnlyWithVideoId` | app/youtube_upload.py:238-250 | a post is marked as posted only after YouTube returned an id, with that id's link; without one no mark is made |
| `YoutubeUpload.AlreadyPostedNeverFires` | app/pipeline.py:509 | the latest-roundup row carries only `id`, `content` and `created_at`, so the `already_posted` branch is never taken for it |
| `YoutubeUpload.ScopesDefault` | app/youtube_upload.py:198-202 | an account without stored scopes authorizes for upload and read-only access |
| `YoutubeUpload.UploadAuthorizes` | app/youtube_upload.py:198-202 | an upload that gets an answer has authorized first, with the account's token and scopes |
| `YoutubeUpload.TitleChain` | app/youtube_upload.py:209 | the content's `title` wins, then `youtube_title`, and the default only when both are empty |
| `YoutubeUpload.UploadedUrlParsesBack` | app/youtube_upload.py:249 | the stored link reads back as the uploaded id through the metrics job's URL parser |

## Left out

Around the modelled rules:
- Datastore access (query building, server-side filters, ordering and limits) is not modelled. A query result is an input sequence in listing order, and an update is a map write. Datastore reads and writes are assumed to succeed, except the metric-row writes of the metrics job, whose contracts say otherwise.
- Upsert conflict handling of `source_items` is not modelled. `_upsert_items` is a call whose reported row count is a parameter.
- SHA-256 is a function parameter. Only the normalisation of `_content_hash` is modelled.
- Clock readings (`_now`, `_now_iso`, the date in `_default_title`) are integer seconds or a date string given as a parameter. `_to_iso` is modelled only as "missing or zero gives null"; its ISO formatting, and the overflow of out-of-range timestamps, are not modelled.
- Times in the metrics job are whole UTC seconds. The timezone offset of `posted_at` is not modelled; its parsing is a parameter. Elapsed hours are whole seconds divided by 3600, not floats.
- Network and library calls are parameters, including their failures: feed, listing and page fetches, article-text extraction, HTML unescaping, image captioning, `json.loads`, `resp.json()`, text-to-speech, speech recognition, image generation, the YouTube Data and Analytics APIs, and OAuth credentials.
- Files, ffmpeg and ffprobe runs, and PIL drawing are not modelled. This covers the part files, the concat file, the ASS file, the placeholder images and the video render. `render_short_video` is modelled through its decisions only, and `_render_voiceover` is not part of this model.
- The ingest step, `extract_summary`, `judge_summary` and `pick_winner` are not part of this model. They are parameters of the modelled rules. The exceptions they raise are part of those parameters.
- `.env` loading and the `lru_cache` memoisation of `get_settings` are not modelled.
- The pause of `1 + attempt` seconds between retries in `_post` is not modelled. Neither is the wording of exception messages, beyond the class and the texts the code compares.
- `fetch_youtube_video_metrics_all` and `upload_latest_roundups_all` are not modelled. They are loops over projects that call the modelled per-project functions.
- `_resolve_project_ids`, `_list_posted_roundups` (including its limit) and the metric-row lookups are queries, so they are inputs. `_to_float` and the analytics cells are opaque JSON values.
- The thumbnail upload, the file-existence checks and the rendering in `_ensure_roundup_assets` are not modelled. Neither are the payload of `_record_audio_run` or the timestamp `_mark_post_uploaded` writes; they are effects with the post id and status only.
- Floating point is not modelled:
  - ASR times are whole centiseconds;
  - the conversion of a recognised word's float seconds into centiseconds (`round(x * 100)`) is not modelled, so the karaoke file takes words already in centiseconds;
  - the fallback caption step is a whole number of centiseconds, rounded down;
  - `seconds_per_image` divides integers, truncating as `int(a / n)` does.
- The temperature is an opaque value, passed through unchanged.
- `chat_text_with_image` is modelled only up to its payload.
- A call into a function whose signature does not match its definition is modelled after the definition. There are two: `extra_prompt` is passed to `generate_audio_roundup` at app/pipeline.py:472, and `voice_a`/`voice_b` are passed to `render_audio_roundup` at app/media/roundup_video.py:137.
- Scrape-interval scheduling, access checks, the HTTP routes, the worker loop, the analytics export, the source-sync scripts and app/media/roundup_video.py are outside the modelled core.

Modelling choices that narrow a contract:
- Text.Lower: case folding is ASCII only. Python's `lower` also maps non-ASCII letters. Whitespace is the full set `str.isspace` accepts.
- Text.ParseInt: `int(...)` is modelled on optionally signed ASCII decimals with surrounding whitespace. Underscores between digits and non-ASCII digits are rejected, although Python accepts them.
- Url.SplitUrl: percent-encoding and percent-decoding are not modelled, and neither is the `;params` part of `urlparse`. Keys and values are taken as written.
- Paths.Join: only the `pathlib` rules the builders need are modelled: an absolute part replaces the path, and empty and `.` components vanish. `..` is kept as a component and not resolved.
- Chunking.Chunks: requires `max_chars >= 1`. On non-empty text with `max_chars <= 0` the source loop never advances. The same holds for ShortVideo.VoiceoverChunks. Audio.RenderAudioRoundup always chunks with 3500.
- ShortVideo.WriteAssKaraoke: requires `max_words >= 1`. The one caller uses the default of 8. With 0 and at least one word the source raises `IndexError` on an empty group. The same holds for ShortVideo.AppendEvents.
- Admin.ScrapeSource: the final update of the `sources` row is assumed to succeed. In the source it sits outside the `try`, so a failing update would raise.
- Admin.ScrapeProject: the sources come in the order the listing query returns them.
- Admin.RedditItem: the caption call is a `Result`, because constructing the client outside its `try` can raise. The page fetch is total, because it catches every exception.
- ShortVideoRender.NormalizeAsr: the recognised words are modelled as values already holding their start, end and text. Reading them from the speech-recognition dicts is not modelled.
- ShortVideoRender.PlaceholderTexts: the scene texts are given. How the scene fields are read from the content is not modelled.
- YoutubeMetrics.FetchMetricsForProject: the datastore reads (`_existing_metrics`, the post listing and the project lookup) are assumed to succeed. The YouTube requests, the credential refresh and the metric-row writes may raise. The `videos().list` reply is one per video and checkpoint, so two listed posts with the same video id see the same reply at a checkpoint.
- YoutubeUpload.Upload: the credential refresh and the insert are one outcome, `insert(body)`, consulted after the post's id and content are read. When the refresh raises and the content is also unusable, the source raises the refresh's exception and the model the content's.
- YoutubeUpload.Publish: the thumbnail upload between the insert and the mark is not modelled. When it raises, the source propagates the exception without marking the post.
- OpenAI.ChatAnswer: the empty-content error carries only its fixed prefix. The source also appends the reply itself to the message, and that text is not modelled.
- AudioRoundup.GenerateAudioRoundup: the final `raise` after the loop cannot be reached and is not modelled. A `JSONDecodeError` from `chat_json` is not retried, as in the source, and propagates.
