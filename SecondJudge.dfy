/** `run_second_judge` in `app/pipeline.py`: unselected video posts are grouped by
    (article, content type); the judge (`pick_winner`, a parameter here, with the exception
    it may raise) names a winning variant per group, the matching version (or the group's
    first) is marked selected, and every version's model gets a win or loss recorded. The
    first group whose judging raises ends the run; the groups before it keep their
    selections and calls. */
module SecondJudge {
  import opened Wrappers
  import opened Json
  import opened Seqs
  import opened Store
  import opened Grouping

  /** A post `fetch_for_second_judge` returns: not yet selected, of content type video. */
  predicate AwaitingJudge(p: Post) {
    !p.selected && p.contentType == "video"
  }

  /** `fetch_for_second_judge`: the first `limit` posts awaiting the second judge. */
  function FetchForSecondJudge(rows: map<string, Post>, order: seq<string>, limit: nat): seq<Post> {
    Limit(Filter(Scan(rows, order), AwaitingJudge), limit)
  }

  /** The grouping key `(article_id, content_type)`. */
  function VersionKey(p: Post): (Option<string>, string) {
    (p.articleId, p.contentType)
  }

  /** One version of a group, as `group_versions` records it. */
  datatype Version = Version(id: string, model: string, variantId: Json, content: Json)

  /** A post's content as JSON: `content or {}`, with a string parsed by `parse` and read
      as `{}` when it does not parse. */
  function ContentOf(p: Post, parse: string -> Option<Json>): Json {
    var c := Or(p.content, JObj([]));
    if c.JStr? then parse(c.s).GetOr(JObj([])) else c
  }

  function ToVersion(p: Post, parse: string -> Option<Json>): Version {
    var content := ContentOf(p, parse);
    Version(p.id, p.generatingModel, Get(content, "variant_id"), content)
  }

  /** The versions of a list of posts, in order. */
  function Versions(s: seq<Post>, parse: string -> Option<Json>): (r: seq<Version>)
    ensures |r| == |s|
    ensures forall j :: 0 <= j < |s| ==> r[j] == ToVersion(s[j], parse)
    decreases |s|
  {
    if s == [] then []
    else Versions(s[..|s| - 1], parse) + [ToVersion(s[|s| - 1], parse)]
  }

  /** The version's variant id reads the content's `variant_id`, and is `None` unless the
      content is a dict; the version keeps the post's id and model. */
  lemma VersionOfPost(p: Post, parse: string -> Option<Json>)
    ensures var v := ToVersion(p, parse);
      v.id == p.id && v.model == p.generatingModel
      && (!v.content.JObj? ==> v.variantId == JNull)
      && (v.variantId != JNull ==> exists i :: 0 <= i < |v.content.fields| && v.content.fields[i] == ("variant_id", v.variantId))
      && (!Truthy(p.content) ==> v.content == JObj([]))
      && (p.content.JObj? && p.content.fields != [] ==> v.content == p.content)
  {
  }

  /** `group_versions`: the versions of the fetched posts, per key, in first-appearance
      order of the keys. */
  method GroupVersions(items: seq<Post>, parse: string -> Option<Json>)
    returns (ks: seq<(Option<string>, string)>, grouped: map<(Option<string>, string), seq<Version>>)
    ensures ks == Keys(items, VersionKey)
    ensures forall k :: k in grouped <==> k in ks
    ensures forall k :: k in grouped ==> grouped[k] == Versions(Members(items, VersionKey, k), parse)
  {
    ks := [];
    grouped := map[];
    for i := 0 to |items|
      invariant ks == Keys(items[..i], VersionKey)
      invariant forall k :: k in grouped <==> k in ks
      invariant forall k :: k in grouped ==> grouped[k] == Versions(Members(items[..i], VersionKey, k), parse)
    {
      Prefix(items, i);
      GroupVersionsStep(items, i, parse);
      var key := VersionKey(items[i]);
      var version := ToVersion(items[i], parse);
      if key in grouped {
        grouped := grouped[key := grouped[key] + [version]];
      } else {
        KeysAreNonEmptyGroups(items[..i], VersionKey, key);
        grouped := grouped[key := [version]];
        ks := ks + [key];
      }
    }
    assert items[..|items|] == items;
  }

  /** Taking one more post appends its version to its own group and leaves the others. */
  lemma GroupVersionsStep(items: seq<Post>, i: nat, parse: string -> Option<Json>)
    requires i < |items|
    ensures forall k ::
              Versions(Members(items[..i + 1], VersionKey, k), parse)
                == Versions(Members(items[..i], VersionKey, k), parse) + (if VersionKey(items[i]) == k then [ToVersion(items[i], parse)] else [])
  {
    forall k ensures Versions(Members(items[..i + 1], VersionKey, k), parse)
      == Versions(Members(items[..i], VersionKey, k), parse) + (if VersionKey(items[i]) == k then [ToVersion(items[i], parse)] else [])
    {
      assert items[..i + 1][..i] == items[..i];
      var m := Members(items[..i], VersionKey, k);
      if VersionKey(items[i]) == k {
        VersionsAppend(m, items[i], parse);
      }
    }
  }

  lemma VersionsAppend(s: seq<Post>, x: Post, parse: string -> Option<Json>)
    ensures Versions(s + [x], parse) == Versions(s, parse) + [ToVersion(x, parse)]
  {
    assert (s + [x])[..|s|] == s;
  }

  /** `pick_winner` on a group, followed by the `.get` on its result: a raising judge
      propagates, and a decision that is not a dict has no `.get` and raises
      `AttributeError`. */
  function Decision(versions: seq<Version>, fmt: string, pick: (string, seq<Version>) -> Result<Json, Exc>): (r: Result<Json, Exc>)
    ensures r.Success? <==> pick(fmt, versions).Success? && pick(fmt, versions).value.JObj?
    ensures r.Success? || pick(fmt, versions).Failure? ==> r == pick(fmt, versions)
    ensures pick(fmt, versions).Success? && !pick(fmt, versions).value.JObj? ==> r == Failure(OtherError("AttributeError"))
  {
    match pick(fmt, versions)
    case Failure(e) => Failure(e)
    case Success(d) => if d.JObj? then Success(d) else Failure(OtherError("AttributeError"))
  }

  /** `decision.get("winner_variant") or decision.get("winner")`. */
  function WinnerVariant(decision: Json): Json {
    Or(Get(decision, "winner_variant"), Get(decision, "winner"))
  }

  /** The index of the first version whose variant id equals `w`, if any. */
  function FirstMatch(versions: seq<Version>, w: Json): (r: Option<nat>)
    ensures r.Some? ==> r.value < |versions|
  {
    if versions == [] then None
    else if versions[0].variantId == w then Some(0)
    else match FirstMatch(versions[1..], w)
      case Some(i) => Some(i + 1)
      case None => None
  }

  /** A match is the first version with that variant id; no match means no version has it. */
  lemma {:induction false} FirstMatchIsFirst(versions: seq<Version>, w: Json)
    ensures var r := FirstMatch(versions, w);
      (r.Some? ==> versions[r.value].variantId == w && forall j :: 0 <= j < r.value ==> versions[j].variantId != w)
      && (r.None? ==> forall j :: 0 <= j < |versions| ==> versions[j].variantId != w)
  {
    if versions != [] && versions[0].variantId != w {
      FirstMatchIsFirst(versions[1..], w);
    }
  }

  /** The position of the winning version: the first with the judge's variant, else 0. */
  function WinnerIndex(versions: seq<Version>, w: Json): (i: nat)
    requires versions != []
    ensures i < |versions|
  {
    match FirstMatch(versions, w)
    case Some(i) => i
    case None => 0
  }

  /** The id of the post selected for a group of versions of format `fmt` whose judging
      did not raise (`""` for no versions). */
  function WinnerId(versions: seq<Version>, fmt: string, pick: (string, seq<Version>) -> Result<Json, Exc>): string
    requires Decision(versions, fmt, pick).Success?
  {
    if versions == [] then []
    else versions[WinnerIndex(versions, WinnerVariant(Decision(versions, fmt, pick).value))].id
  }

  /** Judging a group raises exactly when `pick_winner` raises or returns something other
      than a dict; otherwise the winner is the first version carrying the decision's winning
      variant, or the first version when none carries it. */
  lemma WinnerRule(versions: seq<Version>, fmt: string, pick: (string, seq<Version>) -> Result<Json, Exc>)
    requires versions != []
    ensures Decision(versions, fmt, pick).Failure?
            <==> pick(fmt, versions).Failure? || !pick(fmt, versions).value.JObj?
    ensures Decision(versions, fmt, pick).Success? ==>
      var w := WinnerVariant(pick(fmt, versions).value);
      var i := WinnerIndex(versions, w);
      WinnerId(versions, fmt, pick) == versions[i].id
      && (versions[i].variantId == w || (i == 0 && forall j :: 0 <= j < |versions| ==> versions[j].variantId != w))
      && forall j :: 0 <= j < i ==> versions[j].variantId != w
  {
    if Decision(versions, fmt, pick).Success? {
      FirstMatchIsFirst(versions, WinnerVariant(pick(fmt, versions).value));
    }
  }

  /** One `update_model_performance` call. */
  datatype Perf = Perf(model: string, contentType: string, winner: bool)

  /** The calls made for a group, in version order. */
  function PerfCalls(versions: seq<Version>, fmt: string, winnerId: string): (r: seq<Perf>)
    decreases |versions|
  {
    if versions == [] then []
    else
      var v := versions[|versions| - 1];
      PerfCalls(versions[..|versions| - 1], fmt, winnerId) + [Perf(v.model, fmt, v.id == winnerId)]
  }

  /** One call per version, in order, naming its model and the group's format, with a win
      exactly for the selected post. */
  lemma {:induction false} PerfCallsPerVersion(versions: seq<Version>, fmt: string, winnerId: string)
    ensures var r := PerfCalls(versions, fmt, winnerId);
      |r| == |versions|
      && forall j :: 0 <= j < |r| ==> r[j].model == versions[j].model && r[j].contentType == fmt
                                      && (r[j].winner <==> versions[j].id == winnerId)
    decreases |versions|
  {
    if versions != [] {
      PerfCallsPerVersion(versions[..|versions| - 1], fmt, winnerId);
    }
  }

  /** The versions of group `k` of the fetched posts. */
  function GroupOf(items: seq<Post>, k: (Option<string>, string), parse: string -> Option<Json>): seq<Version> {
    Versions(Members(items, VersionKey, k), parse)
  }

  /** Judging group `k` does not raise. */
  predicate Judged(items: seq<Post>, k: (Option<string>, string), parse: string -> Option<Json>,
                   pick: (string, seq<Version>) -> Result<Json, Exc>) {
    Decision(GroupOf(items, k, parse), k.1, pick).Success?
  }

  /** Judging none of the groups `ks` raises. */
  predicate AllJudged(items: seq<Post>, ks: seq<(Option<string>, string)>, parse: string -> Option<Json>,
                      pick: (string, seq<Version>) -> Result<Json, Exc>) {
    forall j :: 0 <= j < |ks| ==> Judged(items, ks[j], parse, pick)
  }

  /** The position of the first group whose judging raises, or `|ks|` when none does: the
      groups the loop of `run_second_judge` completes. */
  function FirstRaising(items: seq<Post>, ks: seq<(Option<string>, string)>, parse: string -> Option<Json>,
                        pick: (string, seq<Version>) -> Result<Json, Exc>): (n: nat)
    ensures n <= |ks|
    ensures AllJudged(items, ks[..n], parse, pick)
    ensures n < |ks| ==> !Judged(items, ks[n], parse, pick)
  {
    FirstWhere(ks, (k: (Option<string>, string)) => !Judged(items, k, parse, pick))
  }

  /** A loop that reached group `k` without a raise stops there exactly when judging
      group `k` raises. */
  lemma FirstRaisingStep(items: seq<Post>, ks: seq<(Option<string>, string)>, k: nat,
                         parse: string -> Option<Json>, pick: (string, seq<Version>) -> Result<Json, Exc>)
    requires k < |ks| && k <= FirstRaising(items, ks, parse, pick)
    ensures !Judged(items, ks[k], parse, pick) ==> FirstRaising(items, ks, parse, pick) == k
    ensures Judged(items, ks[k], parse, pick) ==> k < FirstRaising(items, ks, parse, pick)
  {
    assert forall j :: 0 <= j < FirstRaising(items, ks, parse, pick) ==> Judged(items, ks[..FirstRaising(items, ks, parse, pick)][j], parse, pick);
  }

  /** The ids selected for the groups `ks`. */
  ghost function Winners(items: seq<Post>, ks: seq<(Option<string>, string)>, parse: string -> Option<Json>,
                         pick: (string, seq<Version>) -> Result<Json, Exc>): set<string>
    requires AllJudged(items, ks, parse, pick)
    decreases |ks|
  {
    if ks == [] then {}
    else
      var k := ks[|ks| - 1];
      Winners(items, ks[..|ks| - 1], parse, pick) + {WinnerId(GroupOf(items, k, parse), k.1, pick)}
  }

  /** The `update_model_performance` calls for the groups `ks`, in order. */
  function PerfLog(items: seq<Post>, ks: seq<(Option<string>, string)>, parse: string -> Option<Json>,
                   pick: (string, seq<Version>) -> Result<Json, Exc>): seq<Perf>
    requires AllJudged(items, ks, parse, pick)
    decreases |ks|
  {
    if ks == [] then []
    else
      var k := ks[|ks| - 1];
      var versions := GroupOf(items, k, parse);
      PerfLog(items, ks[..|ks| - 1], parse, pick) + PerfCalls(versions, k.1, WinnerId(versions, k.1, pick))
  }

  function Select(p: Post): (q: Post)
    ensures q.id == p.id
  {
    p.(selected := true)
  }

  /** `mark_post_selected`: updates the post with id `id`, if there is one. */
  method MarkPostSelected(posts: Posts, id: string)
    modifies posts
    ensures posts.order == old(posts.order)
    ensures id in old(posts.rows) ==> posts.rows == old(posts.rows)[id := Select(old(posts.rows)[id])]
    ensures id !in old(posts.rows) ==> posts.rows == old(posts.rows)
  {
    if id in posts.rows {
      posts.rows := posts.rows[id := posts.rows[id].(selected := true)];
    }
  }

  /** The winner of a non-empty group is one of its posts. */
  lemma WinnerInGroup(items: seq<Post>, k: (Option<string>, string), parse: string -> Option<Json>,
                      pick: (string, seq<Version>) -> Result<Json, Exc>)
    requires k in Keys(items, VersionKey) && Judged(items, k, parse, pick)
    ensures GroupOf(items, k, parse) != []
    ensures var wid := WinnerId(GroupOf(items, k, parse), k.1, pick);
      wid in IdSet(Members(items, VersionKey, k), PostId)
      && exists i :: 0 <= i < |items| && items[i].id == wid
  {
    var group := Members(items, VersionKey, k);
    KeysAreNonEmptyGroups(items, VersionKey, k);
    var i := WinnerIndex(GroupOf(items, k, parse), WinnerVariant(Decision(GroupOf(items, k, parse), k.1, pick).value));
    assert group[i].id == GroupOf(items, k, parse)[i].id;
    InGroup(items, VersionKey, k, group[i]);
  }

  /** Every id selected for the groups `ks` belongs to one of those groups. */
  lemma {:induction false} WinnersDisjoint(items: seq<Post>, ks: seq<(Option<string>, string)>, h: (Option<string>, string),
                                           parse: string -> Option<Json>, pick: (string, seq<Version>) -> Result<Json, Exc>)
    requires IdsDistinct(items, PostId) && h !in ks && AllJudged(items, ks, parse, pick)
    requires forall x :: x in ks ==> x in Keys(items, VersionKey)
    ensures Winners(items, ks, parse, pick) !! IdSet(Members(items, VersionKey, h), PostId)
    decreases |ks|
  {
    if ks != [] {
      var k := ks[|ks| - 1];
      assert forall x :: x in ks[..|ks| - 1] ==> x in ks;
      WinnersDisjoint(items, ks[..|ks| - 1], h, parse, pick);
      WinnerInGroup(items, k, parse, pick);
      GroupsDisjoint(items, VersionKey, PostId, k, h);
    }
  }

  /** One pass of the loop in `run_second_judge`: judges the group; when that raises, the
      pass ends with the exception and changes nothing, otherwise it selects the group's
      winner and records one performance call per version. */
  method JudgeGroup(posts: Posts, ghost rows: map<string, Post>, items: seq<Post>, ks: seq<(Option<string>, string)>,
                    k: nat, versions: seq<Version>, parse: string -> Option<Json>, pick: (string, seq<Version>) -> Result<Json, Exc>)
    returns (r: Result<seq<Perf>, Exc>)
    requires IdsDistinct(items, PostId)
    requires forall i :: 0 <= i < |items| ==> items[i].id in rows
    requires ks == Keys(items, VersionKey) && k < |ks| && versions == GroupOf(items, ks[k], parse)
    requires k <= FirstRaising(items, ks, parse, pick) && AllJudged(items, ks[..k], parse, pick)
    requires posts.rows == UpdateIds(rows, Winners(items, ks[..k], parse, pick), Select)
    modifies posts
    ensures posts.order == old(posts.order)
    ensures r.Failure? <==> !Judged(items, ks[k], parse, pick)
    ensures r.Failure? <==> k == FirstRaising(items, ks, parse, pick)
    ensures r.Failure? ==> r.error == Decision(versions, ks[k].1, pick).error && posts.rows == old(posts.rows)
    ensures r.Success? ==>
              && AllJudged(items, ks[..k + 1], parse, pick)
              && posts.rows == UpdateIds(rows, Winners(items, ks[..k + 1], parse, pick), Select)
              && PerfLog(items, ks[..k + 1], parse, pick) == PerfLog(items, ks[..k], parse, pick) + r.value
  {
    FirstRaisingStep(items, ks, k, parse, pick);
    var fmt := ks[k].1;
    var decision := pick(fmt, versions);
    if decision.Failure? {
      return Failure(decision.error);
    }
    if !decision.value.JObj? {
      return Failure(OtherError("AttributeError"));
    }
    JudgeStep(rows, items, ks, k, parse, pick);
    var winnerVariant := WinnerVariant(decision.value);
    var w := WinnerIndex(versions, winnerVariant);
    var winnerPost := versions[w];
    MarkPostSelected(posts, winnerPost.id);
    var calls := RecordPerformance(versions, fmt, winnerPost.id);
    r := Success(calls);
  }

  /** The inner loop of `run_second_judge`: one `update_model_performance` call per
      version. The calls' own failures are swallowed, so only the calls are modelled. */
  method RecordPerformance(versions: seq<Version>, fmt: string, winnerId: string) returns (calls: seq<Perf>)
    ensures calls == PerfCalls(versions, fmt, winnerId)
  {
    calls := [];
    for j := 0 to |versions|
      invariant calls == PerfCalls(versions[..j], fmt, winnerId)
    {
      assert versions[..j + 1][..j] == versions[..j];
      calls := calls + [Perf(versions[j].model, fmt, versions[j].id == winnerId)];
    }
    assert versions[..|versions|] == versions;
  }

  /** The winner of group `k` is a stored post not selected by the earlier groups, and the
      groups' selections and logs grow by group `k`'s. */
  lemma {:induction false} JudgeStep(rows: map<string, Post>, items: seq<Post>, ks: seq<(Option<string>, string)>, k: nat,
                  parse: string -> Option<Json>, pick: (string, seq<Version>) -> Result<Json, Exc>)
    requires IdsDistinct(items, PostId)
    requires forall i :: 0 <= i < |items| ==> items[i].id in rows
    requires ks == Keys(items, VersionKey) && k < |ks|
    requires AllJudged(items, ks[..k], parse, pick) && Judged(items, ks[k], parse, pick)
    ensures AllJudged(items, ks[..k + 1], parse, pick)
    ensures var versions := GroupOf(items, ks[k], parse);
      var wid := WinnerId(versions, ks[k].1, pick);
      versions != [] && wid in rows && wid !in Winners(items, ks[..k], parse, pick)
      && UpdateIds(rows, Winners(items, ks[..k], parse, pick), Select)[wid := Select(rows[wid])]
         == UpdateIds(rows, Winners(items, ks[..k + 1], parse, pick), Select)
      && PerfLog(items, ks[..k + 1], parse, pick) == PerfLog(items, ks[..k], parse, pick) + PerfCalls(versions, ks[k].1, wid)
  {
    var h := ks[k];
    var wid := WinnerId(GroupOf(items, h, parse), h.1, pick);
    AllJudgedSnoc(items, ks, k, parse, pick);
    WinnerIsNew(rows, items, ks, k, parse, pick);
    assert ks[..k + 1][..k] == ks[..k];
    UpdateStep(rows, Winners(items, ks[..k], parse, pick), wid, Select);
  }

  /** Judging the first `k` groups and group `k` judges the first `k + 1`. */
  lemma AllJudgedSnoc(items: seq<Post>, ks: seq<(Option<string>, string)>, k: nat,
                      parse: string -> Option<Json>, pick: (string, seq<Version>) -> Result<Json, Exc>)
    requires k < |ks| && AllJudged(items, ks[..k], parse, pick) && Judged(items, ks[k], parse, pick)
    ensures AllJudged(items, ks[..k + 1], parse, pick)
  {
    var next := ks[..k + 1];
    forall j | 0 <= j < |next| ensures Judged(items, next[j], parse, pick) {
      if j < k {
        assert next[j] == ks[..k][j];
      }
    }
  }

  /** The winner of group `k` is a stored post that no earlier group selected. */
  lemma {:induction false} WinnerIsNew(rows: map<string, Post>, items: seq<Post>, ks: seq<(Option<string>, string)>, k: nat,
                    parse: string -> Option<Json>, pick: (string, seq<Version>) -> Result<Json, Exc>)
    requires IdsDistinct(items, PostId)
    requires forall i :: 0 <= i < |items| ==> items[i].id in rows
    requires ks == Keys(items, VersionKey) && k < |ks|
    requires AllJudged(items, ks[..k], parse, pick) && Judged(items, ks[k], parse, pick)
    ensures GroupOf(items, ks[k], parse) != []
    ensures var wid := WinnerId(GroupOf(items, ks[k], parse), ks[k].1, pick);
      wid in rows && wid !in Winners(items, ks[..k], parse, pick)
  {
    var h := ks[k];
    var wid := WinnerId(GroupOf(items, h, parse), h.1, pick);
    KeysDistinct(items, VersionKey);
    assert h !in ks[..k];
    assert forall x :: x in ks[..k] ==> x in ks;
    WinnersDisjoint(items, ks[..k], h, parse, pick);
    WinnerInGroup(items, h, parse, pick);
  }

  /** `run_second_judge`: selects one post per group of fetched posts, records a win or
      loss for every version, and returns the number of groups. `pick` stands for the
      `pick_winner` judge; `parse` for `json.loads` (`None` when the text is not JSON).
      The first group whose judging raises ends the run with that exception, after the
      selections and calls of the groups before it. */
  method RunSecondJudge(posts: Posts, limit: nat, parse: string -> Option<Json>, pick: (string, seq<Version>) -> Result<Json, Exc>)
    returns (r: Result<nat, Exc>, perf: seq<Perf>)
    requires posts.Valid()
    modifies posts
    ensures posts.Valid() && posts.order == old(posts.order)
    ensures var items := FetchForSecondJudge(old(posts.rows), old(posts.order), limit);
      var ks := Keys(items, VersionKey);
      var n := FirstRaising(items, ks, parse, pick);
      posts.rows == UpdateIds(old(posts.rows), Winners(items, ks[..n], parse, pick), Select)
      && perf == PerfLog(items, ks[..n], parse, pick)
      && (n == |ks| ==> r == Success(|ks|))
      && (n < |ks| ==> r == Failure(Decision(GroupOf(items, ks[n], parse), ks[n].1, pick).error))
  {
    var items := FetchForSecondJudge(posts.rows, posts.order, limit);
    Fetched(posts.rows, posts.order, PostId, AwaitingJudge, limit);
    var ks, grouped := GroupVersions(items, parse);
    ghost var rows0 := posts.rows;
    assert forall j :: 0 <= j < |ks| ==> ks[j] in ks;
    r, perf := JudgeGroups(posts, rows0, items, ks, grouped, parse, pick);
    UpdateKeyed(rows0, posts.order, PostId, Winners(items, ks[..FirstRaising(items, ks, parse, pick)], parse, pick), Select);
  }

  /** The loop of `run_second_judge` over the groups `ks`: each pass judges one group, and
      the first raise ends the loop. */
  method JudgeGroups(posts: Posts, ghost rows: map<string, Post>, items: seq<Post>, ks: seq<(Option<string>, string)>,
                     grouped: map<(Option<string>, string), seq<Version>>, parse: string -> Option<Json>, pick: (string, seq<Version>) -> Result<Json, Exc>)
    returns (r: Result<nat, Exc>, perf: seq<Perf>)
    requires IdsDistinct(items, PostId)
    requires forall i :: 0 <= i < |items| ==> items[i].id in rows
    requires ks == Keys(items, VersionKey)
    requires forall j :: 0 <= j < |ks| ==> ks[j] in grouped && grouped[ks[j]] == GroupOf(items, ks[j], parse)
    requires posts.rows == rows
    modifies posts
    ensures posts.order == old(posts.order)
    ensures var n := FirstRaising(items, ks, parse, pick);
      posts.rows == UpdateIds(rows, Winners(items, ks[..n], parse, pick), Select)
      && perf == PerfLog(items, ks[..n], parse, pick)
      && (n == |ks| ==> r == Success(|ks|))
      && (n < |ks| ==> r == Failure(Decision(GroupOf(items, ks[n], parse), ks[n].1, pick).error))
  {
    ghost var n := FirstRaising(items, ks, parse, pick);
    UpdateNone(rows, Select);
    var count := 0;
    perf := [];
    for k := 0 to |ks|
      invariant k <= n && AllJudged(items, ks[..k], parse, pick)
      invariant posts.order == old(posts.order)
      invariant posts.rows == UpdateIds(rows, Winners(items, ks[..k], parse, pick), Select)
      invariant perf == PerfLog(items, ks[..k], parse, pick)
      invariant count == k
    {
      var step := JudgeGroup(posts, rows, items, ks, k, grouped[ks[k]], parse, pick);
      if step.Failure? {
        r := Failure(step.error);
        return;
      }
      perf := perf + step.value;
      count := count + 1;
    }
    assert ks[..|ks|] == ks;
    r := Success(count);
  }

  /** The winner's id picks out one fetched post: the selected ids are exactly the posts
      that are their own group's winner. */
  lemma {:induction false} WinnersMember(items: seq<Post>, ks: seq<(Option<string>, string)>, i: nat,
                                         parse: string -> Option<Json>, pick: (string, seq<Version>) -> Result<Json, Exc>)
    requires IdsDistinct(items, PostId) && i < |items| && AllJudged(items, ks, parse, pick)
    requires forall x :: x in ks ==> x in Keys(items, VersionKey)
    ensures var h := VersionKey(items[i]);
      items[i].id in Winners(items, ks, parse, pick)
      <==> h in ks && items[i].id == WinnerId(GroupOf(items, h, parse), h.1, pick)
    decreases |ks|
  {
    if ks != [] {
      var last := ks[|ks| - 1];
      assert forall x :: x in ks[..|ks| - 1] ==> x in ks;
      WinnersMember(items, ks[..|ks| - 1], i, parse, pick);
      var wid := WinnerId(GroupOf(items, last, parse), last.1, pick);
      assert Winners(items, ks, parse, pick) == Winners(items, ks[..|ks| - 1], parse, pick) + {wid};
      assert VersionKey(items[i]) in ks <==> VersionKey(items[i]) in ks[..|ks| - 1] || VersionKey(items[i]) == last by {
        assert ks == ks[..|ks| - 1] + [last];
      }
      if items[i].id == wid {
        WinnerIdentifiesGroup(items, last, i, parse, pick);
      }
    }
  }

  /** A post carrying the id of a group's winner belongs to that group. */
  lemma WinnerIdentifiesGroup(items: seq<Post>, h: (Option<string>, string), i: nat,
                              parse: string -> Option<Json>, pick: (string, seq<Version>) -> Result<Json, Exc>)
    requires IdsDistinct(items, PostId) && i < |items| && h in Keys(items, VersionKey) && Judged(items, h, parse, pick)
    requires items[i].id == WinnerId(GroupOf(items, h, parse), h.1, pick)
    ensures VersionKey(items[i]) == h
  {
    WinnerInGroup(items, h, parse, pick);
    var group := Members(items, VersionKey, h);
    var g :| 0 <= g < |group| && group[g].id == items[i].id;
    InGroup(items, VersionKey, h, group[g]);
    var j :| 0 <= j < |items| && items[j] == group[g];
    assert j == i;
  }

  /** After `run_second_judge`, a fetched post is selected exactly when its group was
      judged before the first raising one and it is that group's winner; the posts of the
      raising group and of every group after it, and every post that was not fetched, are
      unchanged. A run that raises nowhere selects every group's winner. */
  lemma SecondJudgeOutcome(rows: map<string, Post>, order: seq<string>, limit: nat,
                           parse: string -> Option<Json>, pick: (string, seq<Version>) -> Result<Json, Exc>)
    requires Keyed(rows, order, PostId)
    ensures var items := FetchForSecondJudge(rows, order, limit);
      var ks := Keys(items, VersionKey);
      var n := FirstRaising(items, ks, parse, pick);
      var after := UpdateIds(rows, Winners(items, ks[..n], parse, pick), Select);
      && (forall i :: 0 <= i < |items| ==>
            items[i].id in after
            && (after[items[i].id].selected
                <==> VersionKey(items[i]) in ks[..n]
                     && items[i].id == WinnerId(GroupOf(items, VersionKey(items[i]), parse), VersionKey(items[i]).1, pick)))
      && (forall i :: 0 <= i < |items| && VersionKey(items[i]) !in ks[..n] ==> after[items[i].id] == rows[items[i].id])
      && (n == |ks| ==> forall i :: 0 <= i < |items| ==> VersionKey(items[i]) in ks[..n])
      && forall id :: id in rows && id !in IdSet(items, PostId) ==> id in after && after[id] == rows[id]
  {
    var items := FetchForSecondJudge(rows, order, limit);
    var ks := Keys(items, VersionKey);
    var n := FirstRaising(items, ks, parse, pick);
    var judged := ks[..n];
    Fetched(rows, order, PostId, AwaitingJudge, limit);
    assert forall x :: x in judged ==> x in ks;
    var after := UpdateIds(rows, Winners(items, judged, parse, pick), Select);
    forall i | 0 <= i < |items|
      ensures items[i].id in after
      ensures after[items[i].id].selected
              <==> VersionKey(items[i]) in judged
                   && items[i].id == WinnerId(GroupOf(items, VersionKey(items[i]), parse), VersionKey(items[i]).1, pick)
      ensures VersionKey(items[i]) !in judged ==> after[items[i].id] == rows[items[i].id]
    {
      WinnersMember(items, judged, i, parse, pick);
      ItemInOwnGroup(items, VersionKey, items[i]);
      KeysAreNonEmptyGroups(items, VersionKey, VersionKey(items[i]));
    }
    if n == |ks| {
      assert judged == ks;
      forall i | 0 <= i < |items| ensures VersionKey(items[i]) in judged {
        ItemInOwnGroup(items, VersionKey, items[i]);
        KeysAreNonEmptyGroups(items, VersionKey, VersionKey(items[i]));
      }
    }
    forall id | id in rows && id !in IdSet(items, PostId)
      ensures id in after && after[id] == rows[id]
    {
      WinnersWithin(items, judged, parse, pick);
    }
  }

  /** Every selected id is the id of a fetched post. */
  lemma {:induction false} WinnersWithin(items: seq<Post>, ks: seq<(Option<string>, string)>,
                                         parse: string -> Option<Json>, pick: (string, seq<Version>) -> Result<Json, Exc>)
    requires forall x :: x in ks ==> x in Keys(items, VersionKey)
    requires AllJudged(items, ks, parse, pick)
    ensures Winners(items, ks, parse, pick) <= IdSet(items, PostId)
    decreases |ks|
  {
    if ks != [] {
      var last := ks[|ks| - 1];
      assert forall x :: x in ks[..|ks| - 1] ==> x in ks;
      WinnersWithin(items, ks[..|ks| - 1], parse, pick);
      WinnerInGroup(items, last, parse, pick);
    }
  }

  predicate SelectedIn(rows: map<string, Post>, id: string) {
    id in rows && rows[id].selected
  }

  /** Each group judged before the first raising one has exactly one selected post
      afterwards. */
  lemma OneSelectedPerGroup(rows: map<string, Post>, order: seq<string>, limit: nat,
                            parse: string -> Option<Json>, pick: (string, seq<Version>) -> Result<Json, Exc>,
                            h: (Option<string>, string))
    requires Keyed(rows, order, PostId)
    requires var items := FetchForSecondJudge(rows, order, limit);
      var ks := Keys(items, VersionKey);
      h in ks[..FirstRaising(items, ks, parse, pick)]
    ensures var items := FetchForSecondJudge(rows, order, limit);
      var ks := Keys(items, VersionKey);
      var after := UpdateIds(rows, Winners(items, ks[..FirstRaising(items, ks, parse, pick)], parse, pick), Select);
      && (exists i :: 0 <= i < |items| && VersionKey(items[i]) == h && SelectedIn(after, items[i].id))
      && forall i, j ::
           (0 <= i < |items| && 0 <= j < |items| && VersionKey(items[i]) == h && VersionKey(items[j]) == h
            && SelectedIn(after, items[i].id) && SelectedIn(after, items[j].id)) ==> i == j
  {
    var items := FetchForSecondJudge(rows, order, limit);
    var ks := Keys(items, VersionKey);
    var judged := ks[..FirstRaising(items, ks, parse, pick)];
    Fetched(rows, order, PostId, AwaitingJudge, limit);
    assert forall x :: x in judged ==> x in ks;
    OneSelectedIn(rows, items, judged, parse, pick, h);
  }

  /** The step of `OneSelectedPerGroup` for given fetched posts `items`, none of them
      selected, and judged groups `judged`. */
  lemma OneSelectedIn(rows: map<string, Post>, items: seq<Post>, judged: seq<(Option<string>, string)>,
                      parse: string -> Option<Json>, pick: (string, seq<Version>) -> Result<Json, Exc>,
                      h: (Option<string>, string))
    requires IdsDistinct(items, PostId)
    requires forall i :: 0 <= i < |items| ==> items[i].id in rows && !rows[items[i].id].selected
    requires forall x :: x in judged ==> x in Keys(items, VersionKey)
    requires AllJudged(items, judged, parse, pick) && h in judged
    ensures var after := UpdateIds(rows, Winners(items, judged, parse, pick), Select);
      && (exists i :: 0 <= i < |items| && VersionKey(items[i]) == h && SelectedIn(after, items[i].id))
      && forall i, j ::
           (0 <= i < |items| && 0 <= j < |items| && VersionKey(items[i]) == h && VersionKey(items[j]) == h
            && SelectedIn(after, items[i].id) && SelectedIn(after, items[j].id)) ==> i == j
  {
    var after := UpdateIds(rows, Winners(items, judged, parse, pick), Select);
    WinnerInGroup(items, h, parse, pick);
    var wid := WinnerId(GroupOf(items, h, parse), h.1, pick);
    var group := Members(items, VersionKey, h);
    var g :| 0 <= g < |group| && group[g].id == wid;
    InGroup(items, VersionKey, h, group[g]);
    var w :| 0 <= w < |items| && items[w] == group[g];
    WinnersMember(items, judged, w, parse, pick);
    assert VersionKey(items[w]) == h && SelectedIn(after, items[w].id);
    forall i, j | 0 <= i < |items| && 0 <= j < |items| && VersionKey(items[i]) == h && VersionKey(items[j]) == h
                  && SelectedIn(after, items[i].id) && SelectedIn(after, items[j].id)
      ensures i == j
    {
      WinnersMember(items, judged, i, parse, pick);
      WinnersMember(items, judged, j, parse, pick);
      assert items[i].id == wid == items[j].id;
    }
  }

  /** Within the performance calls of a group whose judging did not raise, exactly one
      records a win: the selected post's. */
  lemma OneWinPerGroup(items: seq<Post>, h: (Option<string>, string), parse: string -> Option<Json>,
                       pick: (string, seq<Version>) -> Result<Json, Exc>)
    requires IdsDistinct(items, PostId) && h in Keys(items, VersionKey) && Judged(items, h, parse, pick)
    ensures var versions := GroupOf(items, h, parse);
      var calls := PerfCalls(versions, h.1, WinnerId(versions, h.1, pick));
      (exists j :: 0 <= j < |calls| && calls[j].winner)
      && forall j, j' :: 0 <= j < |calls| && 0 <= j' < |calls| && calls[j].winner && calls[j'].winner ==> j == j'
  {
    var versions := GroupOf(items, h, parse);
    var wid := WinnerId(versions, h.1, pick);
    var group := Members(items, VersionKey, h);
    PerfCallsPerVersion(versions, h.1, wid);
    WinnerInGroup(items, h, parse, pick);
    GroupIdsDistinct(items, VersionKey, PostId, h);
    var g :| 0 <= g < |group| && group[g].id == wid;
    assert versions[g].id == wid;
  }
}
