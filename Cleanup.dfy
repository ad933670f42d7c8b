/** `cleanup_old_data` and `_chunk_ids` in `app/pipeline.py`: prunes the scrape logs by
    age and wipes the stored text of retired articles that nothing references. */
module Cleanup {
  import opened Wrappers
  import opened Seqs
  import opened Store
  import Pipeline

  /** `_chunk_ids`: the list cut into consecutive chunks of `size`. */
  function ChunkIds(values: seq<string>, size: nat): (r: seq<seq<string>>)
    requires size >= 1
    ensures Concat(r) == values
    ensures forall i :: 0 <= i < |r| ==> 1 <= |r[i]| <= size
    ensures forall i :: 0 <= i < |r| - 1 ==> |r[i]| == size
    ensures (|r| - 1) * size < |values| <= |r| * size
  {
    BatchesConcat(values, size);
    BatchesSizes(values, size);
    BatchesCount(values, size);
    Batches(values, size)
  }

  /** A table pruned by age (`category_pages`, `article_urls`, `source_items`); a row is
      represented by its timestamp column, null when unset. */
  class DatedTable {
    var stamps: seq<Option<int>>

    constructor(initial: seq<Option<int>>)
      ensures stamps == initial
    {
      stamps := initial;
    }

    /** `.delete().lt(column, cutoff)`: removes the rows stamped before the cutoff and
        returns the number of deleted rows. */
    method DeleteBefore(cutoff: int) returns (deleted: nat)
      modifies this
      ensures stamps == Filter(old(stamps), s => !Before(s, cutoff))
      ensures deleted == |Filter(old(stamps), s => Before(s, cutoff))|
    {
      FilterSplit(stamps, s => Before(s, cutoff));
      deleted := |Filter(stamps, s => Before(s, cutoff))|;
      stamps := Filter(stamps, s => !Before(s, cutoff));
    }
  }

  /** A timestamp that is set and earlier than the cutoff (a null never compares). */
  predicate Before(stamp: Option<int>, cutoff: int) {
    stamp.Some? && stamp.value < cutoff
  }

  /** A row the id-collection query matches: unusable and scraped before the cutoff. */
  predicate Retired(a: Article, cutoff: int) {
    a.unusable && Before(a.scrapedAt, cutoff)
  }

  function RetiredRows(rows: map<string, Article>, order: seq<string>, cutoff: int): seq<Article> {
    Filter(Scan(rows, order), a => Retired(a, cutoff))
  }

  const PageSize: nat := 500
  const WipeChunkSize: nat := 200

  /** `.range(offset, offset + size - 1)`: the rows at positions `offset` up to
      `offset + size - 1`, as many as exist. */
  function Page<T>(s: seq<T>, offset: nat, size: nat): (r: seq<T>)
    ensures |r| <= size
    ensures offset + size <= |s| ==> |r| == size
    ensures offset < |s| && size > 0 ==> r != []
  {
    if offset >= |s| then [] else if offset + size <= |s| then s[offset..offset + size] else s[offset..]
  }

  /** A row whose `id` is truthy. */
  predicate HasId(a: Article) {
    a.id != []
  }

  /** The ids of a list of rows, in order. */
  function IdList(s: seq<Article>): (r: seq<string>)
    ensures |r| == |s| && forall i :: 0 <= i < |s| ==> r[i] == s[i].id
  {
    seq(|s|, i requires 0 <= i < |s| => s[i].id)
  }

  /** `[row["id"] for row in batch if row.get("id")]`. */
  function BatchIds(batch: seq<Article>): seq<string> {
    IdList(Filter(batch, HasId))
  }

  /** The id-collection loop of `cleanup_old_data`: reads the matching rows a page of 500
      at a time and stops on an empty page or one shorter than 500. It collects the truthy
      ids of all the matching rows, in order. */
  method CollectRetired(arts: Articles, cutoff: int) returns (ids: seq<string>)
    ensures ids == BatchIds(RetiredRows(arts.rows, arts.order, cutoff))
  {
    ids := CollectPages(RetiredRows(arts.rows, arts.order, cutoff));
  }

  /** The paging loop over the matching rows, in their order. */
  method CollectPages(matches: seq<Article>) returns (ids: seq<string>)
    ensures ids == BatchIds(matches)
  {
    ids := [];
    var offset := 0;
    while true
      invariant offset <= |matches|
      invariant ids == BatchIds(matches[..offset])
      decreases |matches| - offset
    {
      var batch := Page(matches, offset, PageSize);
      PageStep(matches, offset, PageSize);
      if batch == [] {
        break;
      }
      ids := ids + BatchIds(batch);
      if |batch| < PageSize {
        break;
      }
      offset := offset + PageSize;
    }
  }

  /** One turn of the paging loop: an empty page means every row was read, a short page
      ends the rows, and a full page leaves the next offset within the rows. */
  lemma PageStep(s: seq<Article>, offset: nat, size: nat)
    requires offset <= |s| && size > 0
    ensures var batch := Page(s, offset, size);
      && (batch == [] ==> BatchIds(s[..offset]) == BatchIds(s))
      && (batch != [] ==> BatchIds(s[..offset + |batch|]) == BatchIds(s[..offset]) + BatchIds(batch))
      && (|batch| < size ==> BatchIds(s[..offset]) + BatchIds(batch) == BatchIds(s))
      && (|batch| == size ==> offset + size <= |s|)
  {
    var batch := Page(s, offset, size);
    if offset == |s| {
      assert batch == [];
      EmptyPageAll(s, offset);
    } else {
      assert batch != [];
      PageExtends(s, offset, size);
      if |batch| < size {
        ShortPageAll(s, offset, batch);
      }
    }
  }

  /** An empty page means every row was already read. */
  lemma EmptyPageAll(s: seq<Article>, offset: nat)
    requires offset == |s|
    ensures BatchIds(s[..offset]) == BatchIds(s)
    ensures BatchIds(s[..offset]) + BatchIds([]) == BatchIds(s)
  {
    assert s[..offset] == s;
    assert BatchIds([]) == [];
  }

  /** A page that ends at the last row completes the ids of all rows. */
  lemma ShortPageAll(s: seq<Article>, offset: nat, batch: seq<Article>)
    requires offset + |batch| == |s|
    requires BatchIds(s[..offset + |batch|]) == BatchIds(s[..offset]) + BatchIds(batch)
    ensures BatchIds(s[..offset]) + BatchIds(batch) == BatchIds(s)
  {
    assert s[..offset + |batch|] == s;
  }

  /** Reading one more page appends its ids to those of the pages before it. */
  lemma PageExtends(s: seq<Article>, offset: nat, size: nat)
    requires offset < |s|
    ensures var batch := Page(s, offset, size);
      offset + |batch| <= |s| && s[..offset + |batch|] == s[..offset] + batch
      && BatchIds(s[..offset + |batch|]) == BatchIds(s[..offset]) + BatchIds(batch)
  {
    var batch := Page(s, offset, size);
    assert s[..offset + |batch|] == s[..offset] + batch;
    FilterConcat(s[..offset], batch, HasId);
    var a, b := Filter(s[..offset], HasId), Filter(batch, HasId);
    assert IdList(a + b) == IdList(a) + IdList(b);
  }

  /** The collected ids some post or usage row references (`article_id` truthy). */
  function Blocked(ids: seq<string>, posts: seq<Post>, usage: seq<Usage>): set<string> {
    (set p | p in posts && Pipeline.Present(p.articleId) && p.articleId.value in ids :: p.articleId.value)
    + (set u | u in usage && Pipeline.Present(u.articleId) && u.articleId.value in ids :: u.articleId.value)
  }

  /** `to_wipe`: the collected ids nothing references, in order. */
  function ToWipe(ids: seq<string>, posts: seq<Post>, usage: seq<Usage>): seq<string> {
    var blocked := Blocked(ids, posts, usage);
    Filter(ids, id => id !in blocked)
  }

  /** The row with its raw HTML and content cleared. */
  function Wipe(a: Article): (b: Article)
    ensures b.id == a.id && b.rawHtml.None? && b.content.None?
  {
    a.(rawHtml := None, content := None)
  }

  function Self(id: string): string {
    id
  }

  /** The update of one chunk: every stored row whose id is in `chunk` is wiped. */
  method WipeChunk(arts: Articles, chunk: seq<string>)
    modifies arts
    ensures arts.order == old(arts.order)
    ensures arts.rows == UpdateIds(old(arts.rows), IdSet(chunk, Self), Wipe)
  {
    arts.rows := map id | id in arts.rows :: if id in chunk then arts.rows[id].(rawHtml := None, content := None) else arts.rows[id];
  }

  /** What `cleanup_old_data` returns; a key it does not set is `None`. */
  datatype Summary = Summary(
    categoryPagesDeleted: Option<nat>,
    articleUrlsDeleted: Option<nat>,
    sourceItemsDeleted: nat,
    articlesWiped: Option<nat>)

  /** The ids `cleanup_old_data` wipes for the table state `rows`/`order`. */
  function WipeList(rows: map<string, Article>, order: seq<string>, cutoff: int,
                    posts: seq<Post>, usage: seq<Usage>): seq<string> {
    ToWipe(BatchIds(RetiredRows(rows, order, cutoff)), posts, usage)
  }

  /** `cleanup_old_data`: with `hours` of age, prunes the logs (the legacy tables only when
      `deleteLegacy`), and when `wipeUnusable` wipes every collected id nothing references,
      in chunks of 200. `posts` and `usage` are the `posts` and `article_usage` tables. */
  method CleanupOldData(arts: Articles, posts: seq<Post>, usage: seq<Usage>,
                        pages: DatedTable, urls: DatedTable, sourceItems: DatedTable,
                        now: int, hours: int, deleteLegacy: bool, wipeUnusable: bool)
    returns (summary: Summary)
    requires arts.Valid()
    requires pages != urls && pages != sourceItems && urls != sourceItems
    modifies arts, pages, urls, sourceItems
    ensures arts.Valid() && arts.order == old(arts.order)
    ensures Pruned(old(sourceItems.stamps), sourceItems.stamps, now - hours * 3600, summary.sourceItemsDeleted)
    ensures if deleteLegacy then
        summary.categoryPagesDeleted.Some? && summary.articleUrlsDeleted.Some?
        && Pruned(old(pages.stamps), pages.stamps, now - hours * 3600, summary.categoryPagesDeleted.value)
        && Pruned(old(urls.stamps), urls.stamps, now - hours * 3600, summary.articleUrlsDeleted.value)
      else
        pages.stamps == old(pages.stamps) && urls.stamps == old(urls.stamps)
        && summary.categoryPagesDeleted.None? && summary.articleUrlsDeleted.None?
    ensures if wipeUnusable then
        var wiped := WipeList(old(arts.rows), old(arts.order), now - hours * 3600, posts, usage);
        arts.rows == UpdateIds(old(arts.rows), IdSet(wiped, Self), Wipe) && summary.articlesWiped == Some(|wiped|)
      else
        arts.rows == old(arts.rows) && summary.articlesWiped.None?
  {
    var cutoff := now - hours * 3600;
    var categoryPagesDeleted, articleUrlsDeleted := None, None;
    if deleteLegacy {
      var n := pages.DeleteBefore(cutoff);
      categoryPagesDeleted := Some(n);
      n := urls.DeleteBefore(cutoff);
      articleUrlsDeleted := Some(n);
    }
    var sourceItemsDeleted := sourceItems.DeleteBefore(cutoff);
    var articlesWiped := None;
    if wipeUnusable {
      var n := WipeUnusable(arts, posts, usage, cutoff);
      articlesWiped := Some(n);
    }
    summary := Summary(categoryPagesDeleted, articleUrlsDeleted, sourceItemsDeleted, articlesWiped);
  }

  /** `after` is `before` without the rows stamped before the cutoff, and `deleted` counts
      those rows. */
  ghost predicate Pruned(before: seq<Option<int>>, after: seq<Option<int>>, cutoff: int, deleted: nat) {
    after == Filter(before, s => !Before(s, cutoff))
    && deleted == |Filter(before, s => Before(s, cutoff))|
  }

  /** The `wipe_unusable` half of `cleanup_old_data`: collects the ids, drops the referenced
      ones and wipes the rest; returns how many ids it wiped (0 when none was collected). */
  method WipeUnusable(arts: Articles, posts: seq<Post>, usage: seq<Usage>, cutoff: int)
    returns (wiped: nat)
    requires arts.Valid()
    modifies arts
    ensures arts.Valid() && arts.order == old(arts.order)
    ensures var list := WipeList(old(arts.rows), old(arts.order), cutoff, posts, usage);
      arts.rows == UpdateIds(old(arts.rows), IdSet(list, Self), Wipe) && wiped == |list|
  {
    var ids := CollectRetired(arts, cutoff);
    if ids == [] {
      UpdateNone(arts.rows, Wipe);
      return 0;
    }
    var toWipe := ToWipe(ids, posts, usage);
    WipeAll(arts, toWipe);
    wiped := |toWipe|;
  }

  /** The wipe loop: one update per chunk of 200 ids. */
  method WipeAll(arts: Articles, toWipe: seq<string>)
    requires arts.Valid()
    modifies arts
    ensures arts.Valid() && arts.order == old(arts.order)
    ensures arts.rows == UpdateIds(old(arts.rows), IdSet(toWipe, Self), Wipe)
  {
    ghost var rows0 := arts.rows;
    var chunks := ChunkIds(toWipe, WipeChunkSize);
    UpdateNone(rows0, Wipe);
    for k := 0 to |chunks|
      invariant arts.order == old(arts.order)
      invariant arts.rows == UpdateIds(rows0, IdSet(Concat(chunks[..k]), Self), Wipe)
    {
      WipeStep(rows0, chunks, k);
      WipeChunk(arts, chunks[k]);
    }
    assert chunks[..|chunks|] == chunks;
    UpdateKeyed(rows0, arts.order, ArticleId, IdSet(toWipe, Self), Wipe);
  }

  /** Wiping chunk `k` after the chunks before it wipes the ids of the first `k + 1`. */
  lemma WipeStep(rows: map<string, Article>, chunks: seq<seq<string>>, k: nat)
    requires k < |chunks|
    ensures UpdateIds(UpdateIds(rows, IdSet(Concat(chunks[..k]), Self), Wipe), IdSet(chunks[k], Self), Wipe)
            == UpdateIds(rows, IdSet(Concat(chunks[..k + 1]), Self), Wipe)
  {
    var done := Concat(chunks[..k]);
    assert chunks[..k + 1] == chunks[..k] + [chunks[k]];
    ConcatAppend(chunks[..k], chunks[k]);
    IdSetConcat(done, chunks[k]);
    UpdateTwice(rows, IdSet(done, Self), IdSet(chunks[k], Self), Wipe);
  }

  lemma IdSetConcat(a: seq<string>, b: seq<string>)
    ensures IdSet(a + b, Self) == IdSet(a, Self) + IdSet(b, Self)
  {
    forall id | id in IdSet(a, Self) ensures id in IdSet(a + b, Self) {
      var i :| 0 <= i < |a| && Self(a[i]) == id;
      assert (a + b)[i] == a[i];
    }
    forall id | id in IdSet(a + b, Self) ensures id in IdSet(a, Self) + IdSet(b, Self) {
      var i :| 0 <= i < |a + b| && Self((a + b)[i]) == id;
      if i >= |a| {
        assert Self(b[i - |a|]) == id;
      }
    }
    forall id | id in IdSet(b, Self) ensures id in IdSet(a + b, Self) {
      var i :| 0 <= i < |b| && Self(b[i]) == id;
      assert (a + b)[|a| + i] == b[i];
    }
  }

  /** Applying an idempotent update twice to the same ids is applying it once. */
  lemma UpdateTwice(rows: map<string, Article>, a: set<string>, b: set<string>, f: Article -> Article)
    requires forall id :: id in rows ==> f(f(rows[id])) == f(rows[id])
    ensures UpdateIds(UpdateIds(rows, a, f), b, f) == UpdateIds(rows, a + b, f)
  {
  }

  /** Wiping is idempotent. */
  lemma WipeTwice(a: Article)
    ensures Wipe(Wipe(a)) == Wipe(a)
  {
  }

  /** An id some post or usage row references. */
  predicate Referenced(id: string, posts: seq<Post>, usage: seq<Usage>) {
    (exists p :: p in posts && Pipeline.Present(p.articleId) && p.articleId.value == id)
    || (exists u :: u in usage && Pipeline.Present(u.articleId) && u.articleId.value == id)
  }

  /** The rows `cleanup_old_data` wipes: stored, unusable, scraped before the cutoff, with
      a non-empty id, and referenced by no post and no usage row. */
  predicate Wiped(rows: map<string, Article>, cutoff: int, posts: seq<Post>, usage: seq<Usage>, id: string) {
    id in rows && Retired(rows[id], cutoff) && id != [] && !Referenced(id, posts, usage)
  }

  lemma SelfIds(s: seq<string>, x: string)
    ensures x in IdSet(s, Self) <==> x in s
  {
    if x in s {
      var i :| 0 <= i < |s| && s[i] == x;
      assert Self(s[i]) == x;
    }
  }

  /** The collected ids are the stored retired rows with a non-empty id. */
  lemma CollectedIds(rows: map<string, Article>, order: seq<string>, cutoff: int, id: string)
    requires Keyed(rows, order, ArticleId)
    ensures id in BatchIds(RetiredRows(rows, order, cutoff))
        <==> id in rows && Retired(rows[id], cutoff) && id != []
  {
    var rr := RetiredRows(rows, order, cutoff);
    SelectedIds(rows, order, ArticleId, a => Retired(a, cutoff));
    BatchIdsHas(rr, id);
  }

  /** An id is among a page's collected ids exactly when a row of the page with that id
      exists and the id is non-empty. */
  lemma BatchIdsHas(rr: seq<Article>, id: string)
    ensures id in BatchIds(rr) <==> id in IdSet(rr, ArticleId) && id != []
  {
    var f := Filter(rr, HasId);
    if id in BatchIds(rr) {
      var i :| 0 <= i < |f| && IdList(f)[i] == id;
      assert f[i] in rr && HasId(f[i]);
      var j :| 0 <= j < |rr| && rr[j] == f[i];
      assert ArticleId(rr[j]) == id;
    }
    if id in IdSet(rr, ArticleId) && id != [] {
      var j :| 0 <= j < |rr| && ArticleId(rr[j]) == id;
      assert rr[j] in f;
      var i :| 0 <= i < |f| && f[i] == rr[j];
      assert IdList(f)[i] == id;
    }
  }

  /** An id is on the wipe list exactly when its row is one `cleanup_old_data` wipes. */
  lemma WipedExactly(rows: map<string, Article>, order: seq<string>, cutoff: int,
                     posts: seq<Post>, usage: seq<Usage>, id: string)
    requires Keyed(rows, order, ArticleId)
    ensures id in WipeList(rows, order, cutoff, posts, usage) <==> Wiped(rows, cutoff, posts, usage, id)
  {
    var ids := BatchIds(RetiredRows(rows, order, cutoff));
    var blocked := Blocked(ids, posts, usage);
    CollectedIds(rows, order, cutoff, id);
    if id in ids {
      if Referenced(id, posts, usage) {
        if p :| p in posts && Pipeline.Present(p.articleId) && p.articleId.value == id {
          assert id in blocked;
        } else {
          var u :| u in usage && Pipeline.Present(u.articleId) && u.articleId.value == id;
          assert id in blocked;
        }
      }
    }
    if Wiped(rows, cutoff, posts, usage, id) {
      assert id !in blocked;
      assert id in Filter(ids, x => x !in blocked);
    }
  }

  /** After `cleanup_old_data` with `wipe_unusable`, a stored row is wiped exactly when it
      is retired, has an id and nothing references it; every other row is as it was. */
  lemma CleanupOutcome(rows: map<string, Article>, order: seq<string>, cutoff: int,
                       posts: seq<Post>, usage: seq<Usage>)
    requires Keyed(rows, order, ArticleId)
    ensures var after := UpdateIds(rows, IdSet(WipeList(rows, order, cutoff, posts, usage), Self), Wipe);
      after.Keys == rows.Keys
      && forall id :: id in rows ==>
           after[id] == if Wiped(rows, cutoff, posts, usage, id) then Wipe(rows[id]) else rows[id]
  {
    var list := WipeList(rows, order, cutoff, posts, usage);
    forall id | id in rows
      ensures id in IdSet(list, Self) <==> Wiped(rows, cutoff, posts, usage, id)
    {
      SelfIds(list, id);
      WipedExactly(rows, order, cutoff, posts, usage, id);
    }
  }

  /** The wipe list repeats no id, so the `articles_wiped` count is the number of rows
      wiped. */
  lemma WipeCount(rows: map<string, Article>, order: seq<string>, cutoff: int,
                  posts: seq<Post>, usage: seq<Usage>)
    requires Keyed(rows, order, ArticleId)
    ensures |WipeList(rows, order, cutoff, posts, usage)|
            == |set id | id in rows && Wiped(rows, cutoff, posts, usage, id)|
  {
    var rr := RetiredRows(rows, order, cutoff);
    var ids := BatchIds(rr);
    var list := WipeList(rows, order, cutoff, posts, usage);
    ScanIdsDistinct(rows, order, ArticleId);
    FilterIdsDistinct(Scan(rows, order), a => Retired(a, cutoff), ArticleId);
    FilterIdsDistinct(rr, HasId, ArticleId);
    assert IdsDistinct(ids, Self);
    FilterIdsDistinct(ids, x => x !in Blocked(ids, posts, usage), Self);
    IdSetSize(list, Self);
    forall id ensures id in IdSet(list, Self) <==> id in rows && Wiped(rows, cutoff, posts, usage, id) {
      SelfIds(list, id);
      WipedExactly(rows, order, cutoff, posts, usage, id);
    }
    assert IdSet(list, Self) == set id | id in rows && Wiped(rows, cutoff, posts, usage, id);
  }
}
