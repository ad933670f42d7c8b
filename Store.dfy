/** The datastore tables the pipeline reads and writes. A table keyed by id is a map from
    id to record plus the order in which a query returns its rows; an update by id is a
    map write. Timestamps are integer seconds. */
module Store {
  import opened Wrappers
  import opened Json
  import opened Seqs
  import Grouping
  import opened Text

  /** A row of `articles`. */
  datatype Article = Article(
    id: string,
    projectId: Option<string>,
    rawHtml: Option<string>,
    title: Option<string>,
    summary: Option<string>,
    content: Option<string>,
    contentHash: Option<string>,
    processed: bool,
    scored: bool,
    judgeScore: Option<int>,
    formats: seq<string>,
    scrapedAt: Option<int>,
    unusable: bool,
    unusableReason: Option<Reason>,
    unusableAt: Option<int>,
    duplicateOf: Option<string>)

  /** Why an article was retired; `ReasonText` is the text stored in `unusable_reason`. */
  datatype Reason = LowScoreAge(threshold: int, hours: int) | Duplicate

  function ReasonText(r: Reason): string {
    match r
    case LowScoreAge(threshold, hours) =>
      "low_score_age(score<" + IntToDecimal(threshold) + ",>" + IntToDecimal(hours) + "h)"
    case Duplicate => "duplicate"
  }

  /** A row of `posts`. */
  datatype Post = Post(
    id: string,
    articleId: Option<string>,
    platform: string,
    contentType: string,
    generatingModel: string,
    content: Json,
    selected: bool,
    posted: bool,
    postedAt: Option<int>,
    postUrl: Option<string>,
    mediaUrls: seq<string>,
    createdAt: int)

  /** A row of `article_usage`: an article consumed by a post. */
  datatype Usage = Usage(articleId: Option<string>, usageType: string, postId: Option<string>)

  function ArticleId(a: Article): string {
    a.id
  }

  function PostId(p: Post): string {
    p.id
  }

  /** The rows listed by `order`, as a query returns them. */
  function Scan<T>(rows: map<string, T>, order: seq<string>): seq<T>
    decreases |order|
  {
    if order == [] then []
    else
      var id := order[|order| - 1];
      Scan(rows, order[..|order| - 1]) + if id in rows then [rows[id]] else []
  }

  /** Every row is stored under its own id and listed exactly once by `order`. */
  ghost predicate Keyed<T>(rows: map<string, T>, order: seq<string>, key: T -> string) {
    Grouping.Distinct(order)
    && (forall id :: id in rows <==> id in order)
    && (forall id :: id in rows ==> key(rows[id]) == id)
  }

  /** No two rows of a list share an id. */
  ghost predicate IdsDistinct<T>(s: seq<T>, key: T -> string) {
    forall i, j :: 0 <= i < j < |s| ==> key(s[i]) != key(s[j])
  }

  /** The ids of a list of rows. */
  ghost function IdSet<T>(s: seq<T>, key: T -> string): set<string> {
    set i | 0 <= i < |s| :: key(s[i])
  }

  /** The table after applying `f` to the rows whose id is in `ids`. */
  function UpdateIds<T>(rows: map<string, T>, ids: set<string>, f: T -> T): map<string, T> {
    map id | id in rows :: if id in ids then f(rows[id]) else rows[id]
  }

  /** The `articles` table. */
  class Articles {
    var rows: map<string, Article>
    var order: seq<string>

    ghost predicate Valid()
      reads this
    {
      Keyed(rows, order, ArticleId)
    }

    constructor(initial: map<string, Article>, listing: seq<string>)
      requires Keyed(initial, listing, ArticleId)
      ensures Valid() && rows == initial && order == listing
    {
      rows := initial;
      order := listing;
    }

    /** The rows in query order. */
    function All(): seq<Article>
      reads this
    {
      Scan(rows, order)
    }
  }

  /** The `posts` table. */
  class Posts {
    var rows: map<string, Post>
    var order: seq<string>

    ghost predicate Valid()
      reads this
    {
      Keyed(rows, order, PostId)
    }

    constructor(initial: map<string, Post>, listing: seq<string>)
      requires Keyed(initial, listing, PostId)
      ensures Valid() && rows == initial && order == listing
    {
      rows := initial;
      order := listing;
    }

    /** The rows in query order. */
    function All(): seq<Post>
      reads this
    {
      Scan(rows, order)
    }
  }

  lemma ScanStep<T>(rows: map<string, T>, order: seq<string>)
    requires order != []
    ensures Scan(rows, order) == Scan(rows, order[..|order| - 1])
      + if order[|order| - 1] in rows then [rows[order[|order| - 1]]] else []
  {
  }

  /** A scan lists exactly the stored rows named by `order`. */
  lemma {:induction false} ScanHolds<T>(rows: map<string, T>, order: seq<string>, key: T -> string, id: string)
    requires forall k :: k in rows ==> key(rows[k]) == k
    ensures id in IdSet(Scan(rows, order), key) <==> id in rows && id in order
    decreases |order|
  {
    if order != [] {
      var init := order[..|order| - 1];
      var last := order[|order| - 1];
      ScanHolds(rows, init, key, id);
      var s := Scan(rows, order);
      var s0 := Scan(rows, init);
      ScanStep(rows, order);
      if id in rows && id in order {
        if id == last {
          assert key(s[|s| - 1]) == id;
        } else {
          assert id in init;
          var i :| 0 <= i < |s0| && key(s0[i]) == id;
          assert s[i] == s0[i];
        }
      }
      if id in IdSet(s, key) {
        var i :| 0 <= i < |s| && key(s[i]) == id;
        if i < |s0| {
          assert s0[i] == s[i];
        } else {
          assert last in rows && s[i] == rows[last];
        }
      }
    }
  }

  /** A scan of a keyed table repeats no id. */
  lemma {:induction false} ScanIdsDistinct<T>(rows: map<string, T>, order: seq<string>, key: T -> string)
    requires Grouping.Distinct(order)
    requires forall k :: k in rows ==> key(rows[k]) == k
    ensures IdsDistinct(Scan(rows, order), key)
    decreases |order|
  {
    if order != [] {
      var init := order[..|order| - 1];
      var last := order[|order| - 1];
      ScanIdsDistinct(rows, init, key);
      ScanStep(rows, order);
      if last in rows {
        ScanHolds(rows, init, key, last);
        assert last !in init;
      }
    }
  }

  /** Filtering keeps ids distinct. */
  lemma {:induction false} FilterIdsDistinct<T>(s: seq<T>, p: T -> bool, key: T -> string)
    requires IdsDistinct(s, key)
    ensures IdsDistinct(Filter(s, p), key)
    decreases |s|
  {
    if s != [] {
      var init := s[..|s| - 1];
      var last := s[|s| - 1];
      FilterIdsDistinct(init, p, key);
      FilterAppend(init, last, p);
      assert s == init + [last];
      assert key(last) !in IdSet(init, key);
      var r := Filter(init, p);
      forall i | 0 <= i < |r| ensures key(r[i]) != key(last) {
        var j :| 0 <= j < |init| && init[j] == r[i];
        assert key(r[i]) in IdSet(init, key);
      }
      if p(last) {
        AppendIdsDistinct(r, last, key);
      }
    }
  }

  lemma AppendIdsDistinct<T>(r: seq<T>, x: T, key: T -> string)
    requires IdsDistinct(r, key)
    requires forall i :: 0 <= i < |r| ==> key(r[i]) != key(x)
    ensures IdsDistinct(r + [x], key)
  {
  }

  /** A list without repeated ids has as many ids as rows. */
  lemma {:induction false} IdSetSize<T>(s: seq<T>, key: T -> string)
    requires IdsDistinct(s, key)
    ensures |IdSet(s, key)| == |s|
    decreases |s|
  {
    if s != [] {
      var init := s[..|s| - 1];
      IdSetSize(init, key);
      assert IdSet(s, key) == IdSet(init, key) + {key(s[|s| - 1])};
      assert key(s[|s| - 1]) !in IdSet(init, key);
    }
  }

  /** The ids a filtered scan returns are the stored rows that pass the filter. */
  lemma SelectedIds<T>(rows: map<string, T>, order: seq<string>, key: T -> string, p: T -> bool)
    requires Keyed(rows, order, key)
    ensures IdSet(Filter(Scan(rows, order), p), key) == set id | id in rows && p(rows[id])
  {
    var s := Scan(rows, order);
    var f := Filter(s, p);
    forall id | id in rows && p(rows[id]) ensures id in IdSet(f, key) {
      ScanHolds(rows, order, key, id);
      var i :| 0 <= i < |s| && key(s[i]) == id;
      ScanMember(rows, order, i);
    }
    forall id | id in IdSet(f, key) ensures id in rows && p(rows[id]) {
      var i :| 0 <= i < |f| && key(f[i]) == id;
      var j :| 0 <= j < |s| && s[j] == f[i];
      ScanMember(rows, order, j);
    }
  }

  /** Every scanned row is the stored row of its id. */
  lemma {:induction false} ScanMember<T>(rows: map<string, T>, order: seq<string>, i: nat)
    requires i < |Scan(rows, order)|
    ensures exists id :: id in rows && rows[id] == Scan(rows, order)[i]
    decreases |order|
  {
    ScanStep(rows, order);
    if i < |Scan(rows, order[..|order| - 1])| {
      ScanMember(rows, order[..|order| - 1], i);
    }
  }

  /** Updating one more row, not updated before, extends the updated set. */
  lemma UpdateStep<T>(rows: map<string, T>, ids: set<string>, id: string, f: T -> T)
    requires id in rows && id !in ids
    ensures id in UpdateIds(rows, ids, f) && UpdateIds(rows, ids, f)[id] == rows[id]
    ensures UpdateIds(rows, ids, f)[id := f(rows[id])] == UpdateIds(rows, ids + {id}, f)
  {
  }

  /** An update that keeps ids keeps the table keyed. */
  lemma UpdateKeyed<T>(rows: map<string, T>, order: seq<string>, key: T -> string, ids: set<string>, f: T -> T)
    requires Keyed(rows, order, key)
    requires forall id :: id in ids && id in rows ==> key(f(rows[id])) == key(rows[id])
    ensures Keyed(UpdateIds(rows, ids, f), order, key)
  {
  }

  /** Updating no row leaves the table as it is. */
  lemma UpdateNone<T>(rows: map<string, T>, f: T -> T)
    ensures UpdateIds(rows, {}, f) == rows
  {
  }

  /** Updating a further, disjoint set of rows with a function that agrees with `f` on
      them is one update with `f` over both sets. */
  lemma UpdateCompose<T>(rows: map<string, T>, done: set<string>, more: set<string>, f: T -> T, g: T -> T)
    requires done !! more
    requires forall id :: id in more && id in rows ==> g(rows[id]) == f(rows[id])
    ensures UpdateIds(UpdateIds(rows, done, f), more, g) == UpdateIds(rows, done + more, f)
  {
  }

  /** Rows fetched by a filtered, limited query are stored rows, each under its own id,
      and no id repeats. */
  lemma Fetched<T>(rows: map<string, T>, order: seq<string>, key: T -> string, p: T -> bool, limit: nat)
    requires Keyed(rows, order, key)
    ensures var items := Limit(Filter(Scan(rows, order), p), limit);
      IdsDistinct(items, key)
      && forall i :: 0 <= i < |items| ==> key(items[i]) in rows && rows[key(items[i])] == items[i] && p(items[i])
  {
    var s := Scan(rows, order);
    var f := Filter(s, p);
    ScanIdsDistinct(rows, order, key);
    FilterIdsDistinct(s, p, key);
    forall i | 0 <= i < |f| ensures key(f[i]) in rows && rows[key(f[i])] == f[i] {
      var j :| 0 <= j < |s| && s[j] == f[i];
      ScanMember(rows, order, j);
    }
  }

  /** Membership in a group, read off the grouped list. */
  lemma InGroup<K, T>(items: seq<T>, key: T -> K, h: K, x: T)
    ensures x in Grouping.Members(items, key, h) <==> x in items && key(x) == h
  {
    Grouping.MembersHaveKey(items, key, h);
    if x in items && key(x) == h {
      Grouping.ItemInOwnGroup(items, key, x);
    }
  }

  /** A group of a list without repeated ids has no repeated ids. */
  lemma GroupIdsDistinct<K, T>(items: seq<T>, key: T -> K, id: T -> string, h: K)
    requires IdsDistinct(items, id)
    ensures IdsDistinct(Grouping.Members(items, key, h), id)
  {
    Grouping.MembersFilter(items, key, h);
    FilterIdsDistinct(items, x => key(x) == h, id);
  }

  /** Groups with different keys share no id. */
  lemma GroupsDisjoint<K, T>(items: seq<T>, key: T -> K, id: T -> string, h: K, h': K)
    requires IdsDistinct(items, id) && h != h'
    ensures IdSet(Grouping.Members(items, key, h), id) !! IdSet(Grouping.Members(items, key, h'), id)
  {
    Grouping.MembersFilter(items, key, h);
    Grouping.MembersFilter(items, key, h');
  }
}
