/** `dedupe_articles` in `app/pipeline.py`: the project's usable, hashed articles are
    grouped by content hash; in every group the best-ranked article survives and each
    other member is retired as a duplicate of it. */
module Dedupe {
  import opened Wrappers
  import opened Seqs
  import opened Store
  import opened Grouping
  import Pipeline

  /** A row the dedupe query returns: in the project, still usable, with a content hash. */
  predicate Candidate(a: Article, projectId: string) {
    a.projectId == Some(projectId) && !a.unusable && a.contentHash.Some?
  }

  function CandidateQuery(rows: map<string, Article>, order: seq<string>, projectId: string): seq<Article> {
    Filter(Scan(rows, order), a => Candidate(a, projectId))
  }

  /** A row whose hash is truthy; the others are skipped before grouping. */
  predicate Hashed(a: Article) {
    Pipeline.Present(a.contentHash)
  }

  /** The group key. */
  function HashKey(a: Article): string {
    a.contentHash.GetOr([])
  }

  /** The rows that are grouped: the fetched candidates with a non-empty hash. */
  function Grouped(rows: map<string, Article>, order: seq<string>, projectId: string): seq<Article> {
    Filter(CandidateQuery(rows, order, projectId), Hashed)
  }

  /** `a` sorts strictly before `b` under the descending sort key
      `(int(judge_score or 0), scraped_at or "")`; a null scrape time sorts last. */
  predicate Outranks(a: Article, b: Article) {
    var sa, sb := a.judgeScore.GetOr(0), b.judgeScore.GetOr(0);
    sa > sb || (sa == sb && a.scrapedAt.Some? && (b.scrapedAt.None? || a.scrapedAt.value > b.scrapedAt.value))
  }

  /** The position in `group` of `sorted(group, key=key, reverse=True)[0]`: scanning in
      order, a member replaces the best so far only when it outranks it. */
  function KeeperIndex(group: seq<Article>): (k: nat)
    requires group != []
    ensures k < |group|
    decreases |group|
  {
    if |group| == 1 then 0
    else
      var k := KeeperIndex(group[..|group| - 1]);
      if Outranks(group[|group| - 1], group[k]) then |group| - 1 else k
  }

  /** The sort is stable, so its first element is the first member that no member
      outranks: it outranks every member before it. */
  lemma {:induction false} KeeperIndexBest(group: seq<Article>)
    requires group != []
    ensures forall j :: 0 <= j < |group| ==> !Outranks(group[j], group[KeeperIndex(group)])
    ensures forall j :: 0 <= j < KeeperIndex(group) ==> Outranks(group[KeeperIndex(group)], group[j])
    decreases |group|
  {
    if |group| > 1 {
      var init := group[..|group| - 1];
      KeeperIndexBest(init);
      assert forall j :: 0 <= j < |init| ==> init[j] == group[j];
    }
  }

  /** The id of the article kept for hash `h` (`""` when no grouped row has that hash). */
  function KeeperId(hashed: seq<Article>, h: string): string {
    var group := Members(hashed, HashKey, h);
    if group == [] then [] else group[KeeperIndex(group)].id
  }

  /** The ids retired as duplicates in the groups whose hashes are `ks`: each group's
      ids but its keeper's. */
  ghost function DupIds(hashed: seq<Article>, ks: seq<string>): set<string>
    decreases |ks|
  {
    if ks == [] then {}
    else
      var h := ks[|ks| - 1];
      DupIds(hashed, ks[..|ks| - 1]) + (IdSet(Members(hashed, HashKey, h), ArticleId) - {KeeperId(hashed, h)})
  }

  /** The row after being retired as a duplicate of `keepId`. */
  function MarkDup(a: Article, keepId: string, now: int): (b: Article)
    ensures b.id == a.id
  {
    a.(unusable := true, unusableReason := Some(Duplicate), duplicateOf := Some(keepId), unusableAt := Some(now))
  }

  /** The update `dedupe_articles` sends for one duplicate. */
  method DupRow(arts: Articles, id: string, keepId: string, now: int)
    modifies arts
    ensures arts.order == old(arts.order)
    ensures id in old(arts.rows) ==> arts.rows == old(arts.rows)[id := MarkDup(old(arts.rows)[id], keepId, now)]
    ensures id !in old(arts.rows) ==> arts.rows == old(arts.rows)
  {
    if id in arts.rows {
      arts.rows := arts.rows[id := arts.rows[id].(unusable := true, unusableReason := Some(Duplicate),
                                                  duplicateOf := Some(keepId), unusableAt := Some(now))];
    }
  }

  /** The inner loop: every member of `group` but the one kept is retired, one update each. */
  method RetireGroup(arts: Articles, group: seq<Article>, keep: nat, now: int) returns (n: nat)
    requires keep < |group| && IdsDistinct(group, ArticleId)
    requires forall j :: 0 <= j < |group| ==> group[j].id in arts.rows
    modifies arts
    ensures arts.order == old(arts.order)
    ensures arts.rows == UpdateIds(old(arts.rows), IdSet(group, ArticleId) - {group[keep].id},
                                   a => MarkDup(a, group[keep].id, now))
    ensures n == |group| - 1
  {
    ghost var rows0 := arts.rows;
    var keepId := group[keep].id;
    ghost var g := a => MarkDup(a, keepId, now);
    n := 0;
    for j := 0 to |group|
      invariant arts.order == old(arts.order)
      invariant arts.rows == UpdateIds(rows0, IdSet(group[..j], ArticleId) - {keepId}, g)
      invariant n == if keep < j then j - 1 else j
    {
      SkipKeeperStep(rows0, group, j, keep, g);
      if j != keep {
        DupRow(arts, group[j].id, keepId, now);
        n := n + 1;
      }
    }
    assert group[..|group|] == group;
  }

  /** Moving the inner loop past `group[j]`: the keeper adds nothing, any other member is
      a row not updated yet whose update extends the updated set. */
  lemma SkipKeeperStep(rows: map<string, Article>, group: seq<Article>, j: nat, keep: nat, g: Article -> Article)
    requires j < |group| && keep < |group| && IdsDistinct(group, ArticleId)
    requires group[j].id in rows
    ensures var done := IdSet(group[..j], ArticleId) - {group[keep].id};
      var next := IdSet(group[..j + 1], ArticleId) - {group[keep].id};
      (j == keep ==> next == done)
      && (j != keep ==> group[j].id in UpdateIds(rows, done, g) && UpdateIds(rows, done, g)[group[j].id] == rows[group[j].id]
                        && UpdateIds(rows, done, g)[group[j].id := g(rows[group[j].id])] == UpdateIds(rows, next, g))
  {
    Pipeline.NextItem(group, j);
    if j != keep {
      UpdateStep(rows, IdSet(group[..j], ArticleId) - {group[keep].id}, group[j].id, g);
      assert IdSet(group[..j + 1], ArticleId) - {group[keep].id}
        == IdSet(group[..j], ArticleId) - {group[keep].id} + {group[j].id};
    }
  }

  /** The grouped rows are stored rows, each under its own id, and no id repeats. */
  lemma GroupedRows(rows: map<string, Article>, order: seq<string>, projectId: string)
    requires Keyed(rows, order, ArticleId)
    ensures var hashed := Grouped(rows, order, projectId);
      IdsDistinct(hashed, ArticleId)
      && forall i :: 0 <= i < |hashed| ==>
           hashed[i].id in rows && rows[hashed[i].id] == hashed[i] && Candidate(hashed[i], projectId) && Hashed(hashed[i])
  {
    var items := CandidateQuery(rows, order, projectId);
    Fetched(rows, order, ArticleId, a => Candidate(a, projectId), |items|);
    FilterIdsDistinct(items, Hashed, ArticleId);
  }

  /** The duplicates of the groups `ks` share no id with a group whose hash is not in `ks`. */
  lemma {:induction false} DupIdsDisjoint(hashed: seq<Article>, ks: seq<string>, h: string)
    requires IdsDistinct(hashed, ArticleId) && h !in ks
    ensures DupIds(hashed, ks) !! IdSet(Members(hashed, HashKey, h), ArticleId)
    decreases |ks|
  {
    if ks != [] {
      DupIdsDisjoint(hashed, ks[..|ks| - 1], h);
      GroupsDisjoint(hashed, HashKey, ArticleId, ks[|ks| - 1], h);
    }
  }

  /** The table after retiring the duplicates of the groups whose hash is in `ks`. */
  ghost function DedupeRows(rows: map<string, Article>, hashed: seq<Article>, ks: seq<string>, now: int): map<string, Article> {
    UpdateIds(rows, DupIds(hashed, ks), a => MarkDup(a, KeeperId(hashed, HashKey(a)), now))
  }

  /** One pass of the outer loop: group `k` is non-empty, its members are stored rows with
      distinct ids, and retiring all of them but its keeper extends the table's update to
      the first `k + 1` groups; a group of one changes nothing. */
  lemma DedupeStep(rows: map<string, Article>, hashed: seq<Article>, ks: seq<string>, k: nat, now: int)
    requires IdsDistinct(hashed, ArticleId)
    requires forall i :: 0 <= i < |hashed| ==> hashed[i].id in rows && rows[hashed[i].id] == hashed[i]
    requires ks == Keys(hashed, HashKey) && k < |ks|
    ensures var group := Members(hashed, HashKey, ks[k]);
      group != [] && IdsDistinct(group, ArticleId)
      && (forall j :: 0 <= j < |group| ==> group[j].id in DedupeRows(rows, hashed, ks[..k], now))
      && var keepId := group[KeeperIndex(group)].id;
      DedupeRows(rows, hashed, ks[..k + 1], now)
        == UpdateIds(DedupeRows(rows, hashed, ks[..k], now), IdSet(group, ArticleId) - {keepId},
                     a => MarkDup(a, keepId, now))
      && (|group| == 1 ==> DedupeRows(rows, hashed, ks[..k + 1], now) == DedupeRows(rows, hashed, ks[..k], now))
      && SumSizes(hashed, HashKey, ks[..k + 1]) == SumSizes(hashed, HashKey, ks[..k]) + |group|
  {
    GroupShape(hashed, ks, k);
    GroupMembersStored(rows, hashed, ks[k]);
    StepRows(rows, hashed, ks, k, now);
  }

  /** Group `k` is non-empty, its ids are distinct and it adds its size to the sum. */
  lemma GroupShape(hashed: seq<Article>, ks: seq<string>, k: nat)
    requires IdsDistinct(hashed, ArticleId)
    requires ks == Keys(hashed, HashKey) && k < |ks|
    ensures var group := Members(hashed, HashKey, ks[k]);
      group != [] && IdsDistinct(group, ArticleId)
      && SumSizes(hashed, HashKey, ks[..k + 1]) == SumSizes(hashed, HashKey, ks[..k]) + |group|
  {
    KeysAreNonEmptyGroups(hashed, HashKey, ks[k]);
    GroupIdsDistinct(hashed, HashKey, ArticleId, ks[k]);
    assert ks[..k + 1][..k] == ks[..k];
  }

  /** The table update of group `k`. */
  lemma StepRows(rows: map<string, Article>, hashed: seq<Article>, ks: seq<string>, k: nat, now: int)
    requires IdsDistinct(hashed, ArticleId)
    requires forall i :: 0 <= i < |hashed| ==> hashed[i].id in rows && rows[hashed[i].id] == hashed[i]
    requires ks == Keys(hashed, HashKey) && k < |ks|
    ensures var group := Members(hashed, HashKey, ks[k]);
      group != [] &&
      var keepId := group[KeeperIndex(group)].id;
      DedupeRows(rows, hashed, ks[..k + 1], now)
        == UpdateIds(DedupeRows(rows, hashed, ks[..k], now), IdSet(group, ArticleId) - {keepId},
                     a => MarkDup(a, keepId, now))
      && (|group| == 1 ==> DedupeRows(rows, hashed, ks[..k + 1], now) == DedupeRows(rows, hashed, ks[..k], now))
  {
    var h := ks[k];
    KeysAreNonEmptyGroups(hashed, HashKey, h);
    KeysDistinct(hashed, HashKey);
    assert h !in ks[..k];
    DupIdsDisjoint(hashed, ks[..k], h);
    DupIdsNext(hashed, ks, k);
    GroupMembersStored(rows, hashed, h);
    ComposeGroup(rows, hashed, DupIds(hashed, ks[..k]), h, now);
    var group := Members(hashed, HashKey, h);
    if |group| == 1 {
      SingletonGroup(DedupeRows(rows, hashed, ks[..k], now), group, now);
    }
  }

  lemma DupIdsNext(hashed: seq<Article>, ks: seq<string>, k: nat)
    requires k < |ks|
    ensures DupIds(hashed, ks[..k + 1])
      == DupIds(hashed, ks[..k]) + (IdSet(Members(hashed, HashKey, ks[k]), ArticleId) - {KeeperId(hashed, ks[k])})
  {
    assert ks[..k + 1][..k] == ks[..k];
  }

  /** Retiring group `h` after the rows `done` is one update over both. */
  lemma ComposeGroup(rows: map<string, Article>, hashed: seq<Article>, done: set<string>, h: string, now: int)
    requires Members(hashed, HashKey, h) != []
    requires var group := Members(hashed, HashKey, h);
      forall j :: 0 <= j < |group| ==> group[j].id in rows && rows[group[j].id] == group[j] && HashKey(group[j]) == h
    requires done !! IdSet(Members(hashed, HashKey, h), ArticleId)
    ensures var group := Members(hashed, HashKey, h);
      var keepId := group[KeeperIndex(group)].id;
      var f := a => MarkDup(a, KeeperId(hashed, HashKey(a)), now);
      UpdateIds(UpdateIds(rows, done, f), IdSet(group, ArticleId) - {keepId}, a => MarkDup(a, keepId, now))
        == UpdateIds(rows, done + (IdSet(group, ArticleId) - {KeeperId(hashed, h)}), f)
  {
    var group := Members(hashed, HashKey, h);
    var keepId := group[KeeperIndex(group)].id;
    KeeperOfGroup(rows, hashed, h);
    UpdateCompose(rows, done, IdSet(group, ArticleId) - {keepId},
                  a => MarkDup(a, KeeperId(hashed, HashKey(a)), now), a => MarkDup(a, keepId, now));
  }

  /** Every stored member of group `h` has the group's keeper. */
  lemma KeeperOfGroup(rows: map<string, Article>, hashed: seq<Article>, h: string)
    requires Members(hashed, HashKey, h) != []
    requires var group := Members(hashed, HashKey, h);
      forall j :: 0 <= j < |group| ==> group[j].id in rows && rows[group[j].id] == group[j] && HashKey(group[j]) == h
    ensures var group := Members(hashed, HashKey, h);
      forall id :: id in IdSet(group, ArticleId) && id in rows ==> KeeperId(hashed, HashKey(rows[id])) == group[KeeperIndex(group)].id
  {
  }

  /** A group of one has nothing to retire. */
  lemma SingletonGroup(rows: map<string, Article>, group: seq<Article>, now: int)
    requires |group| == 1
    ensures UpdateIds(rows, IdSet(group, ArticleId) - {group[0].id}, a => MarkDup(a, group[0].id, now)) == rows
  {
    assert IdSet(group, ArticleId) - {group[0].id} == {};
    UpdateNone(rows, a => MarkDup(a, group[0].id, now));
  }

  /** The members of a group are stored rows, and the keeper of each is the group's. */
  lemma GroupMembersStored(rows: map<string, Article>, hashed: seq<Article>, h: string)
    requires forall i :: 0 <= i < |hashed| ==> hashed[i].id in rows && rows[hashed[i].id] == hashed[i]
    ensures var group := Members(hashed, HashKey, h);
      forall j :: 0 <= j < |group| ==> group[j].id in rows && rows[group[j].id] == group[j] && HashKey(group[j]) == h
  {
    var group := Members(hashed, HashKey, h);
    forall j | 0 <= j < |group|
      ensures group[j].id in rows && rows[group[j].id] == group[j] && HashKey(group[j]) == h
    {
      InGroup(hashed, HashKey, h, group[j]);
    }
  }

  /** The outer loop of `dedupe_articles`, over the groups in first-appearance order. */
  method RetireDuplicates(arts: Articles, hashed: seq<Article>, ks: seq<string>, groups: map<string, seq<Article>>, now: int)
    returns (count: nat)
    requires IdsDistinct(hashed, ArticleId)
    requires forall i :: 0 <= i < |hashed| ==> hashed[i].id in arts.rows && arts.rows[hashed[i].id] == hashed[i]
    requires ks == Keys(hashed, HashKey)
    requires forall h :: h in groups <==> h in ks
    requires forall h :: h in groups ==> groups[h] == Members(hashed, HashKey, h)
    modifies arts
    ensures arts.order == old(arts.order)
    ensures arts.rows == DedupeRows(old(arts.rows), hashed, ks[..|ks|], now)
    ensures count + |ks| == SumSizes(hashed, HashKey, ks[..|ks|])
  {
    ghost var rows0 := arts.rows;
    count := 0;
    for k := 0 to |ks|
      invariant arts.order == old(arts.order)
      invariant arts.rows == DedupeRows(rows0, hashed, ks[..k], now)
      invariant count + k == SumSizes(hashed, HashKey, ks[..k])
    {
      var n := DedupeGroup(arts, rows0, hashed, ks, k, groups[ks[k]], now);
      count := count + n;
    }
  }

  /** One pass of the outer loop of `dedupe_articles`: a group of more than one member has
      all members but its keeper retired; a group of one is skipped. */
  method DedupeGroup(arts: Articles, ghost rows: map<string, Article>, hashed: seq<Article>, ks: seq<string>, k: nat,
                     group: seq<Article>, now: int) returns (n: nat)
    requires IdsDistinct(hashed, ArticleId)
    requires forall i :: 0 <= i < |hashed| ==> hashed[i].id in rows && rows[hashed[i].id] == hashed[i]
    requires ks == Keys(hashed, HashKey) && k < |ks| && group == Members(hashed, HashKey, ks[k])
    requires arts.rows == DedupeRows(rows, hashed, ks[..k], now)
    modifies arts
    ensures arts.order == old(arts.order)
    ensures arts.rows == DedupeRows(rows, hashed, ks[..k + 1], now)
    ensures n + SumSizes(hashed, HashKey, ks[..k]) + 1 == SumSizes(hashed, HashKey, ks[..k + 1])
  {
    DedupeStep(rows, hashed, ks, k, now);
    n := 0;
    if |group| > 1 {
      var keep := KeeperIndex(group);
      n := RetireGroup(arts, group, keep, now);
    }
  }

  /** `dedupe_articles`: retires every grouped row but its group's keeper as a duplicate
      of the keeper, and returns how many it retired, the sum over groups of their size
      less one. */
  method DedupeArticles(arts: Articles, projectId: string, now: int) returns (count: nat)
    requires arts.Valid()
    modifies arts
    ensures arts.Valid() && arts.order == old(arts.order)
    ensures var hashed := Grouped(old(arts.rows), old(arts.order), projectId);
      arts.rows == DedupeRows(old(arts.rows), hashed, Keys(hashed, HashKey), now)
      && count == |hashed| - |Keys(hashed, HashKey)|
  {
    var items := CandidateQuery(arts.rows, arts.order, projectId);
    if items == [] {
      UpdateNone(arts.rows, a => MarkDup(a, KeeperId([], HashKey(a)), now));
      return 0;
    }
    var hashed := Filter(items, Hashed);
    ghost var rows0 := arts.rows;
    GroupedRows(arts.rows, arts.order, projectId);
    var ks, groups := GroupBy(hashed, HashKey);
    count := RetireDuplicates(arts, hashed, ks, groups, now);
    assert ks[..|ks|] == ks;
    GroupsPartition(hashed, HashKey);
    UpdateKeyed(rows0, arts.order, ArticleId, DupIds(hashed, ks), a => MarkDup(a, KeeperId(hashed, HashKey(a)), now));
  }

  /** A grouped row is among the duplicates of `ks` exactly when its hash is in `ks` and
      it is not its group's keeper. */
  lemma {:induction false} DupIdsMember(hashed: seq<Article>, ks: seq<string>, i: nat)
    requires IdsDistinct(hashed, ArticleId) && i < |hashed|
    ensures hashed[i].id in DupIds(hashed, ks)
      <==> HashKey(hashed[i]) in ks && hashed[i].id != KeeperId(hashed, HashKey(hashed[i]))
    decreases |ks|
  {
    if ks != [] {
      var init, h := ks[..|ks| - 1], ks[|ks| - 1];
      DupIdsMember(hashed, init, i);
      assert ks == init + [h];
      OwnGroupIds(hashed, h, i);
    }
  }

  /** A grouped row's id is in group `h` exactly when its hash is `h`. */
  lemma OwnGroupIds(hashed: seq<Article>, h: string, i: nat)
    requires IdsDistinct(hashed, ArticleId) && i < |hashed|
    ensures hashed[i].id in IdSet(Members(hashed, HashKey, h), ArticleId) <==> HashKey(hashed[i]) == h
  {
    var group := Members(hashed, HashKey, h);
    InGroup(hashed, HashKey, h, hashed[i]);
    if hashed[i].id in IdSet(group, ArticleId) {
      var j :| 0 <= j < |group| && group[j].id == hashed[i].id;
      InGroup(hashed, HashKey, h, group[j]);
      var i' :| 0 <= i' < |hashed| && hashed[i'] == group[j];
      assert i' == i;
    }
  }

  /** Every duplicate is a grouped row. */
  lemma {:induction false} DupIdsGrouped(hashed: seq<Article>, ks: seq<string>)
    ensures DupIds(hashed, ks) <= IdSet(hashed, ArticleId)
    decreases |ks|
  {
    if ks != [] {
      var h := ks[|ks| - 1];
      DupIdsGrouped(hashed, ks[..|ks| - 1]);
      var group := Members(hashed, HashKey, h);
      forall id | id in IdSet(group, ArticleId) ensures id in IdSet(hashed, ArticleId) {
        var j :| 0 <= j < |group| && group[j].id == id;
        InGroup(hashed, HashKey, h, group[j]);
        var i :| 0 <= i < |hashed| && hashed[i] == group[j];
      }
    }
  }

  /** What dedupe does to each row: a grouped row that is its group's keeper is unchanged,
      every other grouped row is retired as a duplicate of its group's keeper, and a row
      that was not grouped (another project, already unusable, or no hash) is unchanged. */
  lemma DedupeOutcome(rows: map<string, Article>, hashed: seq<Article>, now: int)
    requires IdsDistinct(hashed, ArticleId)
    requires forall i :: 0 <= i < |hashed| ==> hashed[i].id in rows && rows[hashed[i].id] == hashed[i]
    ensures var after := DedupeRows(rows, hashed, Keys(hashed, HashKey), now);
      after.Keys == rows.Keys
      && (forall i :: 0 <= i < |hashed| && hashed[i].id == KeeperId(hashed, HashKey(hashed[i])) ==>
            after[hashed[i].id] == hashed[i])
      && (forall i :: 0 <= i < |hashed| && hashed[i].id != KeeperId(hashed, HashKey(hashed[i])) ==>
            after[hashed[i].id] == MarkDup(hashed[i], KeeperId(hashed, HashKey(hashed[i])), now))
      && (forall id :: id in rows && id !in IdSet(hashed, ArticleId) ==> after[id] == rows[id])
  {
    var ks := Keys(hashed, HashKey);
    forall i | 0 <= i < |hashed|
      ensures hashed[i].id in DupIds(hashed, ks) <==> hashed[i].id != KeeperId(hashed, HashKey(hashed[i]))
    {
      DupIdsMember(hashed, ks, i);
      KeysAreNonEmptyGroups(hashed, HashKey, HashKey(hashed[i]));
      ItemInOwnGroup(hashed, HashKey, hashed[i]);
    }
    DupIdsGrouped(hashed, ks);
  }

  /** The keeper of a hash is a grouped row with that hash that no row with that hash
      outranks. */
  lemma KeeperIsBest(hashed: seq<Article>, h: string)
    requires h in Keys(hashed, HashKey)
    ensures exists k :: 0 <= k < |hashed| && hashed[k].id == KeeperId(hashed, h) && HashKey(hashed[k]) == h
                        && forall i :: 0 <= i < |hashed| && HashKey(hashed[i]) == h ==> !Outranks(hashed[i], hashed[k])
  {
    var group := Members(hashed, HashKey, h);
    KeysAreNonEmptyGroups(hashed, HashKey, h);
    var keeper := group[KeeperIndex(group)];
    KeeperIndexBest(group);
    InGroup(hashed, HashKey, h, keeper);
    var k :| 0 <= k < |hashed| && hashed[k] == keeper;
    forall i | 0 <= i < |hashed| && HashKey(hashed[i]) == h ensures !Outranks(hashed[i], keeper) {
      InGroup(hashed, HashKey, h, hashed[i]);
      var j :| 0 <= j < |group| && group[j] == hashed[i];
    }
  }

  /** Of the rows sharing a hash, exactly one is still usable after dedupe: the keeper. */
  lemma OneSurvivorPerHash(rows: map<string, Article>, hashed: seq<Article>, h: string, now: int)
    requires IdsDistinct(hashed, ArticleId)
    requires forall i :: 0 <= i < |hashed| ==> hashed[i].id in rows && rows[hashed[i].id] == hashed[i] && !hashed[i].unusable
    requires h in Keys(hashed, HashKey)
    ensures var after := DedupeRows(rows, hashed, Keys(hashed, HashKey), now);
      exists k :: 0 <= k < |hashed| && HashKey(hashed[k]) == h && !after[hashed[k].id].unusable
        && forall i :: 0 <= i < |hashed| && HashKey(hashed[i]) == h && !after[hashed[i].id].unusable ==> i == k
  {
    var after := DedupeRows(rows, hashed, Keys(hashed, HashKey), now);
    DedupeOutcome(rows, hashed, now);
    KeeperIsBest(hashed, h);
    var k :| 0 <= k < |hashed| && hashed[k].id == KeeperId(hashed, h) && HashKey(hashed[k]) == h;
    assert !after[hashed[k].id].unusable;
    forall i | 0 <= i < |hashed| && HashKey(hashed[i]) == h && i != k ensures after[hashed[i].id].unusable {
      assert hashed[i].id != KeeperId(hashed, HashKey(hashed[i]));
    }
  }

  /** Dedupe retires as many rows as it counts: the grouped rows less one per group. */
  lemma {:induction false} DupCount(hashed: seq<Article>, ks: seq<string>)
    requires IdsDistinct(hashed, ArticleId)
    requires Grouping.Distinct(ks) && forall i :: 0 <= i < |ks| ==> ks[i] in Keys(hashed, HashKey)
    ensures |DupIds(hashed, ks)| + |ks| == SumSizes(hashed, HashKey, ks)
    decreases |ks|
  {
    if ks != [] {
      var init, h := ks[..|ks| - 1], ks[|ks| - 1];
      var group := Members(hashed, HashKey, h);
      DupCount(hashed, init);
      assert h !in init;
      DupIdsDisjoint(hashed, init, h);
      KeysAreNonEmptyGroups(hashed, HashKey, h);
      GroupIdsDistinct(hashed, HashKey, ArticleId, h);
      IdSetSize(group, ArticleId);
      var keepId := group[KeeperIndex(group)].id;
      assert keepId in IdSet(group, ArticleId);
      assert |IdSet(group, ArticleId) - {keepId}| == |group| - 1;
    }
  }

  /** The count `dedupe_articles` returns is the number of rows it retired. */
  lemma DedupeCountIsRetired(hashed: seq<Article>)
    requires IdsDistinct(hashed, ArticleId)
    ensures |DupIds(hashed, Keys(hashed, HashKey))| == |hashed| - |Keys(hashed, HashKey)|
  {
    KeysDistinct(hashed, HashKey);
    DupCount(hashed, Keys(hashed, HashKey));
    GroupsPartition(hashed, HashKey);
  }
}
