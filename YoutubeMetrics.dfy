/** app/youtube_video_metrics.py: reading a video id back from a post's URL, the
    conversions of the statistics, the day window of the analytics report, and which
    metric rows the checkpoint loop inserts or completes. The database, the YouTube APIs
    and the clock are parameters; times are whole seconds since the epoch, in UTC. */
module YoutubeMetrics {
  import opened Wrappers
  import opened Text
  import opened Seqs
  import opened Json
  import Url

  // ----- video ids -----

  /** `_parse_video_id(url)`: the first path segment of a youtu.be link; for a youtube.com
      link the first non-empty `v` query value, else the segment after "/shorts/". */
  function ParseVideoId(url: Option<string>): (r: Option<string>)
    ensures url.None? || url == Some([]) ==> r.None?
    ensures r.Some? ==> url.Some? && (Contains(Url.SplitUrl(url.value).netloc, "youtu.be")
                                      || Contains(Url.SplitUrl(url.value).netloc, "youtube.com"))
  {
    if url.None? || url.value == [] then None else IdOfParts(Url.SplitUrl(url.value))
  }

  /** The host decides how the id is read. */
  function IdOfParts(p: Url.Parts): Option<string> {
    if Contains(p.netloc, "youtu.be") then ShortLinkId(p.path)
    else if Contains(p.netloc, "youtube.com") then WatchOrShortsId(p.query, p.path)
    else None
  }

  /** `parsed.path.strip("/").split("/")[0] or None`. */
  function ShortLinkId(path: string): (r: Option<string>)
    ensures r.Some? ==> r.value != [] && '/' !in r.value
  {
    var first := Split(StripChar(path, '/'), '/')[0];
    if first == [] then None else Some(first)
  }

  /** The `v` query value when there is one, else the third segment of a "/shorts/" path. */
  function WatchOrShortsId(query: string, path: string): Option<string> {
    var v := Url.Lookup(Url.ParseQuery(query), "v");
    if v.Some? && v.value != [] then v
    else if StartsWith(path, "/shorts/") then
      var pieces := Split(path, '/');
      if |pieces| > 2 then Some(pieces[2]) else None
    else None
  }

  /** A video id as YouTube writes it into a URL path. */
  predicate PathId(id: string) {
    id != [] && '/' !in id && '?' !in id && '#' !in id
  }

  /** A network location that reads as youtube.com but not as youtu.be. */
  predicate YoutubeHost(host: string) {
    host != [] && (forall i :: 0 <= i < |host| ==> host[i] !in Url.NetlocStops)
    && Contains(host, "youtube.com") && !Contains(host, "youtu.be")
  }

  lemma HttpsScheme()
    ensures Url.IsScheme("https") && Lower("https") == "https"
  {
  }

  /** `https://<host><path>[?<query>]` splits into those parts. */
  lemma SplitHttps(host: string, path: string, query: string)
    requires host != [] && (forall i :: 0 <= i < |host| ==> host[i] !in Url.NetlocStops)
    requires path != [] && path[0] == '/' && '?' !in path && '#' !in path && '#' !in query
    ensures Url.SplitUrl("https://" + host + path + Url.QueryPart(query)) == Url.Parts("https", host, path, query, [])
  {
    var p := Url.Parts("https", host, path, query, []);
    HttpsScheme();
    assert Url.Canonical(p);
    HttpsUnsplit(p);
    Url.SplitUnsplit(p);
  }

  lemma HttpsUnsplit(p: Url.Parts)
    requires p.scheme == "https" && p.fragment == []
    ensures Url.Unsplit(p) == "https://" + p.netloc + p.path + Url.QueryPart(p.query)
  {
    var t := Url.QueryPart(p.query);
    assert Url.Tail(p) == p.path + t;
    assert Url.SchemePrefix("https") == "https:";
    assert "https:" + "//" == "https://";
    calc {
      Url.Unsplit(p);
      "https:" + ("//" + p.netloc + (p.path + t));
      ("https:" + "//") + p.netloc + p.path + t;
    }
  }

  /** The id of a URL is the one its parts give. */
  lemma IdOfSplit(u: string, p: Url.Parts)
    requires u != [] && Url.SplitUrl(u) == p
    ensures ParseVideoId(Some(u)) == IdOfParts(p)
  {
  }

  /** The URL the uploader stores, `https://youtu.be/<id>`, gives its id back. */
  lemma ShortLinkRoundTrip(id: string)
    requires PathId(id)
    ensures ParseVideoId(Some("https://youtu.be/" + id)) == Some(id)
  {
    var path := "/" + id;
    var u := "https://youtu.be/" + id;
    ShortLinkSplit(id);
    IdOfSplit(u, Url.Parts("https", "youtu.be", path, [], []));
    ContainsAt("youtu.be", "youtu.be", 0);
    ShortLinkPath(id);
  }

  lemma ShortLinkSplit(id: string)
    requires PathId(id)
    ensures Url.SplitUrl("https://youtu.be/" + id) == Url.Parts("https", "youtu.be", "/" + id, [], [])
  {
    var path := "/" + id;
    assert '?' !in path && '#' !in path by {
      assert forall k :: 1 <= k < |path| ==> path[k] == id[k - 1];
    }
    assert forall i :: 0 <= i < |"youtu.be"| ==> "youtu.be"[i] !in Url.NetlocStops;
    ShortLinkText(id);
    SplitHttps("youtu.be", path, []);
  }

  lemma ShortLinkText(id: string)
    ensures "https://youtu.be/" + id == "https://" + "youtu.be" + ("/" + id) + Url.QueryPart([])
  {
    assert "https://" + "youtu.be" + "/" == "https://youtu.be/";
  }

  lemma ShortLinkPath(id: string)
    requires PathId(id)
    ensures ShortLinkId("/" + id) == Some(id)
  {
    assert LStripChar("/" + id, '/') == id by {
      assert ("/" + id)[1..] == id;
    }
    assert RStripChar(id, '/') == id;
    assert FindChar(id, '/') == -1;
  }

  /** A watch URL on a youtube.com host gives back its `v` value. */
  lemma WatchLinkRoundTrip(host: string, id: string)
    requires YoutubeHost(host)
    requires id != [] && '&' !in id && '#' !in id
    ensures ParseVideoId(Some("https://" + host + "/watch?v=" + id)) == Some(id)
  {
    var q := "v=" + id;
    var u := "https://" + host + "/watch?v=" + id;
    WatchLinkSplit(host, id);
    IdOfSplit(u, Url.Parts("https", host, "/watch", q, []));
    QueryOfOneValue(id);
  }

  lemma WatchLinkSplit(host: string, id: string)
    requires YoutubeHost(host)
    requires '#' !in id
    ensures Url.SplitUrl("https://" + host + "/watch?v=" + id) == Url.Parts("https", host, "/watch", "v=" + id, [])
  {
    var q := "v=" + id;
    assert '#' !in q by {
      assert forall k :: 2 <= k < |q| ==> q[k] == id[k - 2];
    }
    WatchLinkText(host, id);
    SplitHttps(host, "/watch", q);
  }

  lemma WatchLinkText(host: string, id: string)
    ensures "https://" + host + "/watch?v=" + id == "https://" + host + "/watch" + Url.QueryPart("v=" + id)
  {
    assert Url.QueryPart("v=" + id) == "?v=" + id;
    assert "/watch" + "?v=" == "/watch?v=";
  }

  /** `parse_qs("v=<id>")` holds the one value. */
  lemma QueryOfOneValue(id: string)
    requires id != [] && '&' !in id
    ensures Url.Lookup(Url.ParseQuery("v=" + id), "v") == Some(id)
  {
    var q := "v=" + id;
    assert '&' !in q by {
      assert forall k :: 2 <= k < |q| ==> q[k] == id[k - 2];
    }
    assert FindChar(q, '&') == -1;
    assert FindChar(q, '=') == 1;
    assert q[..1] == "v" && q[2..] == id;
    assert Url.Pairs([q]) == [("v", id)];
    assert Url.FirstValues([("v", id)]) == [("v", id)];
  }

  /** A Shorts URL on a youtube.com host gives back the segment after "/shorts/". */
  lemma ShortsLinkRoundTrip(host: string, id: string)
    requires YoutubeHost(host) && PathId(id)
    ensures ParseVideoId(Some("https://" + host + "/shorts/" + id)) == Some(id)
  {
    var u := "https://" + host + "/shorts/" + id;
    ShortsLinkSplit(host, id);
    IdOfSplit(u, Url.Parts("https", host, "/shorts/" + id, [], []));
    ShortsPath(id);
  }

  lemma ShortsPath(id: string)
    requires PathId(id)
    ensures WatchOrShortsId([], "/shorts/" + id) == Some(id)
  {
    assert Url.Lookup(Url.ParseQuery([]), "v").None? by {
      assert Url.Pairs(Split([], '&')) == [];
    }
    ShortsSegments(id);
  }

  lemma ShortsLinkSplit(host: string, id: string)
    requires YoutubeHost(host) && PathId(id)
    ensures Url.SplitUrl("https://" + host + "/shorts/" + id) == Url.Parts("https", host, "/shorts/" + id, [], [])
  {
    var path := "/shorts/" + id;
    assert '?' !in path && '#' !in path by {
      assert forall k :: 8 <= k < |path| ==> path[k] == id[k - 8];
    }
    assert "https://" + host + "/shorts/" + id == "https://" + host + path + Url.QueryPart([]);
    SplitHttps(host, path, []);
  }

  lemma ShortsSegments(id: string)
    requires PathId(id)
    ensures StartsWith("/shorts/" + id, "/shorts/")
    ensures Split("/shorts/" + id, '/') == ["", "shorts", id]
  {
    var path := "/shorts/" + id;
    assert path[..8] == "/shorts/";
    assert FindChar(path, '/') == 0;
    var rest := path[1..];
    assert rest == "shorts/" + id;
    assert FindChar(rest, '/') == 6;
    assert rest[..6] == "shorts" && rest[7..] == id;
    assert FindChar(id, '/') == -1;
    assert Split(rest, '/') == ["shorts"] + Split(id, '/');
  }

  // ----- statistics -----

  /** `_to_int(value)`: `int(value)`, or 0 when Python cannot convert it. */
  function ToInt(value: Json): (r: int)
    ensures value.JInt? ==> r == value.i
    ensures value.JNull? || value.JArr? || value.JObj? ==> r == 0
    ensures value.JStr? && ParseInt(value.s).None? ==> r == 0
  {
    match value
    case JInt(i) => i
    case JBool(b) => if b then 1 else 0
    case JStr(s) => ParseInt(s).GetOr(0)
    case _ => 0
  }

  /** The counters the API returns as decimal strings are read back exactly. */
  lemma ToIntOfDecimal(n: int)
    ensures ToInt(JStr(IntToDecimal(n))) == n
  {
    ParseIntOfIntDecimal(n);
  }

  datatype Counts = Counts(views: int, likes: int, comments: int)

  /** `_fetch_video_stats` on the decoded `videos().list` response: no counts (`{}`)
      when there are no items, else the three counters of the first item. */
  function VideoStats(resp: Json): Result<Option<Counts>, Exc> {
    var items := if Truthy(resp) then DictGet(resp, "items", JArr([])) else Success(JArr([]));
    match items
    case Failure(e) => Failure(e)
    case Success(list) =>
      if !Truthy(list) then Success(None)
      else
        match Index0(list)
        case Failure(e) => Failure(e)
        case Success(first) =>
          match DictGet(first, "statistics", JNull)
          case Failure(e) => Failure(e)
          case Success(given) => CountsOf(Or(given, JObj([])))
  }

  /** The three counters of `stats`, each through `_to_int`. */
  function CountsOf(stats: Json): Result<Option<Counts>, Exc> {
    if !stats.JObj? then Failure(OtherError("AttributeError"))
    else Success(Some(Counts(ToInt(Get(stats, "viewCount")), ToInt(Get(stats, "likeCount")),
                             ToInt(Get(stats, "commentCount")))))
  }

  function StatsReply(stats: Json): Json {
    JObj([("items", JArr([JObj([("statistics", stats)])]))])
  }

  function DecimalCounts(c: Counts): Json {
    JObj([("viewCount", JStr(IntToDecimal(c.views))), ("likeCount", JStr(IntToDecimal(c.likes))),
          ("commentCount", JStr(IntToDecimal(c.comments)))])
  }

  /** The counters of the first item are the ones read. */
  lemma VideoStatsOfFirstItem(stats: Json)
    requires Truthy(stats)
    ensures VideoStats(StatsReply(stats)) == CountsOf(stats)
  {
    var first := JObj([("statistics", stats)]);
    var resp := StatsReply(stats);
    assert HasKey(resp.fields, "items") by { assert resp.fields[0].0 == "items"; }
    assert HasKey(first.fields, "statistics") by { assert first.fields[0].0 == "statistics"; }
  }

  /** Counters sent as decimal strings are read back exactly. */
  lemma VideoStatsOfReply(c: Counts)
    ensures VideoStats(StatsReply(DecimalCounts(c))) == Success(Some(c))
  {
    VideoStatsOfFirstItem(DecimalCounts(c));
    CountsOfDecimals(c);
  }

  lemma CountsOfDecimals(c: Counts)
    ensures CountsOf(DecimalCounts(c)) == Success(Some(c))
  {
    DecimalLookups(c);
    ToIntOfDecimal(c.views);
    ToIntOfDecimal(c.likes);
    ToIntOfDecimal(c.comments);
  }

  lemma DecimalLookups(c: Counts)
    ensures Get(DecimalCounts(c), "viewCount") == JStr(IntToDecimal(c.views))
    ensures Get(DecimalCounts(c), "likeCount") == JStr(IntToDecimal(c.likes))
    ensures Get(DecimalCounts(c), "commentCount") == JStr(IntToDecimal(c.comments))
  {
    var fields := DecimalCounts(c).fields;
    LookupAt(fields, 0);
    LookupAt(fields, 1);
    LookupAt(fields, 2);
  }

  /** An empty response or one without items means no counts. */
  lemma VideoStatsOfNothing()
    ensures VideoStats(JObj([])) == Success(None)
    ensures VideoStats(JObj([("items", JArr([]))])) == Success(None)
  {
    var resp := JObj([("items", JArr([]))]);
    assert HasKey(resp.fields, "items") by { assert resp.fields[0].0 == "items"; }
  }

  // ----- the analytics window -----

  const SecondsPerHour: int := 3600

  const SecondsPerDay: int := 86400

  /** `.date()` of a UTC instant, as a day number. */
  function Day(t: int): int {
    t / SecondsPerDay
  }

  /** The day before: `(now - timedelta(days=1)).date()`. */
  lemma DayBefore(t: int)
    ensures Day(t - SecondsPerDay) == Day(t) - 1
  {
    var q := t / SecondsPerDay;
    var m := t % SecondsPerDay;
    assert t - SecondsPerDay == (q - 1) * SecondsPerDay + m;
  }

  /** A later instant is never on an earlier day. */
  lemma DayMonotonic(a: int, b: int)
    requires a <= b
    ensures Day(a) <= Day(b)
  {
    assert a == Day(a) * SecondsPerDay + a % SecondsPerDay;
    assert b == Day(b) * SecondsPerDay + b % SecondsPerDay;
  }

  /** The report window of `_fetch_analytics_stats`: from the posting day to the day the
      checkpoint ends, but not past yesterday; none when that end precedes the start. */
  function Window(postedAt: int, hours: int, now: int): Option<(int, int)> {
    var start := Day(postedAt);
    var checkpointEnd := Day(postedAt + hours * SecondsPerHour);
    var yesterday := Day(now - SecondsPerDay);
    var end := if checkpointEnd <= yesterday then checkpointEnd else yesterday;
    if end < start then None else Some((start, end))
  }

  /** The window starts on the posting day, ends at the earlier of the checkpoint's end
      and yesterday, and is empty exactly when the post is from today or later. */
  lemma WindowClamp(postedAt: int, hours: int, now: int)
    requires hours >= 0
    ensures var w := Window(postedAt, hours, now);
      && (w.None? <==> Day(now) - 1 < Day(postedAt))
      && (w.Some? ==> w.value.0 == Day(postedAt) <= w.value.1 <= Day(now) - 1
                      && w.value.1 <= Day(postedAt + hours * SecondsPerHour)
                      && (w.value.1 == Day(now) - 1 || w.value.1 == Day(postedAt + hours * SecondsPerHour)))
  {
    DayBefore(now);
    DayMonotonic(postedAt, postedAt + hours * SecondsPerHour);
  }

  /** `{}` or the first row of the report. The cells are `_to_float` values, kept opaque. */
  datatype Analytics = NoAnalytics | Analytics(watchTime: Json, averageViewDuration: Json)

  /** `_fetch_analytics_stats`: `query(video, start, end)` is the outcome of the report
      request, its first row if it has one, or the exception the request, or reading the
      two cells of that row, raised; an empty window gives `{}` without a request. */
  function AnalyticsStats(query: (string, int, int) -> Result<Option<(Json, Json)>, Exc>, videoId: string,
                          postedAt: int, hours: int, now: int): Result<Analytics, Exc> {
    match Window(postedAt, hours, now)
    case None => Success(NoAnalytics)
    case Some(w) =>
      match query(videoId, w.0, w.1)
      case Failure(e) => Failure(e)
      case Success(None) => Success(NoAnalytics)
      case Success(Some(row)) => Success(Analytics(row.0, row.1))
  }

  /** With an empty window the report is not requested at all, so it cannot fail. */
  lemma EmptyWindowNoQuery(query: (string, int, int) -> Result<Option<(Json, Json)>, Exc>,
                           other: (string, int, int) -> Result<Option<(Json, Json)>, Exc>,
                           videoId: string, postedAt: int, hours: int, now: int)
    requires hours >= 0 && Day(now) - 1 < Day(postedAt)
    ensures AnalyticsStats(query, videoId, postedAt, hours, now) == Success(NoAnalytics)
    ensures AnalyticsStats(query, videoId, postedAt, hours, now) == AnalyticsStats(other, videoId, postedAt, hours, now)
  {
    WindowClamp(postedAt, hours, now);
  }

  // ----- the checkpoint loop -----

  /** `CHECKPOINTS_HOURS`, in its insertion order. */
  const Checkpoints: seq<(string, int)> :=
    [("1h", 1), ("12h", 12), ("24h", 24), ("3d", 72), ("7d", 168), ("14d", 336), ("30d", 720)]

  /** The checkpoints are named apart and come in increasing order of hours. */
  lemma CheckpointsOrdered()
    ensures forall i, j :: 0 <= i < j < |Checkpoints| ==> Checkpoints[i].0 != Checkpoints[j].0
    ensures forall i, j :: 0 <= i < j < |Checkpoints| ==> 1 <= Checkpoints[i].1 < Checkpoints[j].1
  {
  }

  /** The two analytics columns of a stored metrics row; `JNull` is SQL null. */
  datatype Stored = Stored(watchTime: Json, averageViewDuration: Json)

  /** A stored row still missing an analytics value. */
  predicate Incomplete(row: Stored) {
    row.watchTime.JNull? || row.averageViewDuration.JNull?
  }

  /** A checkpoint is due once the post is at least that many hours old. */
  predicate Due(elapsed: int, hours: int) {
    elapsed >= hours * SecondsPerHour
  }

  /** A row the loop writes to `youtube_video_metrics`. */
  datatype Write =
    | Insert(projectId: string, postId: string, videoId: string, checkpoint: string,
             stats: Option<Counts>, analytics: Analytics)
    | Update(postId: string, checkpoint: string, analytics: Analytics)

  /** What the loop knows about one post when it reaches its checkpoints: `existing` is
      `_existing_metrics(post_id)`; `videosList(video, checkpoint)` is the outcome of the
      `videos().list` request made for that checkpoint, the decoded reply or the exception
      it raised; `query` is the analytics report; `send(w)` is the exception the
      `.insert(...).execute()` or `.update(...).execute()` of `w` raises, if it does. */
  datatype Visit = Visit(projectId: string, postId: string, videoId: string, postedAt: int,
                         now: int, existing: map<string, Stored>,
                         videosList: (string, string) -> Result<Json, Exc>,
                         query: (string, int, int) -> Result<Option<(Json, Json)>, Exc>,
                         send: Write -> Option<Exc>)

  /** `_fetch_video_stats(youtube, video_id)` as called for `checkpoint`. */
  function StatsAt(v: Visit, checkpoint: string): Result<Option<Counts>, Exc> {
    match v.videosList(v.videoId, checkpoint)
    case Failure(e) => Failure(e)
    case Success(resp) => VideoStats(resp)
  }

  function VisitAnalytics(v: Visit, hours: int): Result<Analytics, Exc> {
    AnalyticsStats(v.query, v.videoId, v.postedAt, hours, v.now)
  }

  /** Executing the write `w`: made, unless the request raises. */
  function Send(v: Visit, w: Write): Result<Option<Write>, Exc> {
    match v.send(w)
    case Some(e) => Failure(e)
    case None => Success(Some(w))
  }

  /** The insert a due checkpoint without a row gets, once both fetches succeeded. */
  function InsertFor(v: Visit, c: (string, int)): Write
    requires StatsAt(v, c.0).Success? && VisitAnalytics(v, c.1).Success?
  {
    Insert(v.projectId, v.postId, v.videoId, c.0, StatsAt(v, c.0).value, VisitAnalytics(v, c.1).value)
  }

  /** The one step of the inner loop for a checkpoint: nothing before it is due; for a
      missing row the counters, then the analytics, then the insert; for an incomplete row
      the analytics, then an update when they came back; nothing otherwise. The first of
      these requests to raise ends the step with its exception. */
  function CheckpointWrite(v: Visit, c: (string, int)): (r: Result<Option<Write>, Exc>)
    ensures !Due(v.now - v.postedAt, c.1) ==> r == Success(None)
    ensures r.Success? && r.value.Some? ==>
              Due(v.now - v.postedAt, c.1) && r.value.value.checkpoint == c.0
              && r.value.value.postId == v.postId && v.send(r.value.value).None?
              && (r.value.value.Insert? <==> c.0 !in v.existing)
    ensures Due(v.now - v.postedAt, c.1) && c.0 !in v.existing ==>
              (r.Success? <==> StatsAt(v, c.0).Success? && VisitAnalytics(v, c.1).Success?
                               && v.send(InsertFor(v, c)).None?)
              && (r.Success? ==> r == Success(Some(InsertFor(v, c))))
              && (StatsAt(v, c.0).Failure? ==> r == Failure(StatsAt(v, c.0).error))
    ensures Due(v.now - v.postedAt, c.1) && c.0 in v.existing && !Incomplete(v.existing[c.0]) ==>
              r == Success(None)
    ensures Due(v.now - v.postedAt, c.1) && c.0 in v.existing && Incomplete(v.existing[c.0]) ==>
              (VisitAnalytics(v, c.1).Failure? ==> r == Failure(VisitAnalytics(v, c.1).error))
              && (VisitAnalytics(v, c.1) == Success(NoAnalytics) ==> r == Success(None))
              && (VisitAnalytics(v, c.1).Success? && VisitAnalytics(v, c.1).value.Analytics? ==>
                    r == Send(v, Update(v.postId, c.0, VisitAnalytics(v, c.1).value)))
  {
    if !Due(v.now - v.postedAt, c.1) then Success(None)
    else if c.0 !in v.existing then
      match StatsAt(v, c.0)
      case Failure(e) => Failure(e)
      case Success(stats) =>
        match VisitAnalytics(v, c.1)
        case Failure(e) => Failure(e)
        case Success(analytics) => Send(v, Insert(v.projectId, v.postId, v.videoId, c.0, stats, analytics))
    else if Incomplete(v.existing[c.0]) then
      match VisitAnalytics(v, c.1)
      case Failure(e) => Failure(e)
      case Success(analytics) =>
        if analytics.Analytics? then Send(v, Update(v.postId, c.0, analytics)) else Success(None)
    else Success(None)
  }

  function Written(w: Option<Write>): seq<Write> {
    if w.Some? then [w.value] else []
  }

  /** The rows a run of a loop wrote, and the exception that ended it, if one did. */
  datatype Run = Run(writes: seq<Write>, error: Option<Exc>)

  /** `ws`, written before `run`. */
  function After(ws: seq<Write>, run: Run): Run {
    Run(ws + run.writes, run.error)
  }

  /** The inner loop over the checkpoints `cs`: each step's write in order, up to the
      first step that raises. */
  function CheckpointRun(v: Visit, cs: seq<(string, int)>): Run {
    if cs == [] then Run([], None)
    else
      match CheckpointWrite(v, cs[0])
      case Failure(e) => Run([], Some(e))
      case Success(w) => After(Written(w), CheckpointRun(v, cs[1..]))
  }

  /** A run that got through `a` goes on with `b`. */
  lemma {:induction false} CheckpointRunAppend(v: Visit, a: seq<(string, int)>, b: seq<(string, int)>)
    requires CheckpointRun(v, a).error.None?
    ensures CheckpointRun(v, a + b) == After(CheckpointRun(v, a).writes, CheckpointRun(v, b))
    decreases |a|
  {
    if a == [] {
      assert a + b == b;
    } else {
      var w := CheckpointRunCons(v, a, b);
      CheckpointRunAppend(v, a[1..], b);
      AfterAfter(Written(w), CheckpointRun(v, a[1..]).writes, CheckpointRun(v, b));
    }
  }

  /** One step of `CheckpointRunAppend`: the first step of `a` is the first of `a + b`. */
  lemma CheckpointRunCons(v: Visit, a: seq<(string, int)>, b: seq<(string, int)>) returns (w: Option<Write>)
    requires a != [] && CheckpointRun(v, a).error.None?
    ensures CheckpointRun(v, a) == After(Written(w), CheckpointRun(v, a[1..]))
    ensures CheckpointRun(v, a + b) == After(Written(w), CheckpointRun(v, a[1..] + b))
    ensures CheckpointRun(v, a[1..]).error.None?
  {
    assert (a + b)[0] == a[0] && (a + b)[1..] == a[1..] + b;
    w := CheckpointWrite(v, a[0]).value;
  }

  lemma AfterAfter(x: seq<Write>, y: seq<Write>, run: Run)
    ensures After(x, After(y, run)) == After(x + y, run)
  {
    assert x + (y + run.writes) == (x + y) + run.writes;
  }

  /** The run ends without an exception exactly when no step raises; otherwise it ends
      at the first step that raises, with that step's exception and exactly the rows of
      the steps before it. */
  lemma FailureEndsRun(v: Visit, cs: seq<(string, int)>)
    ensures CheckpointRun(v, cs).error.None? <==> forall k :: 0 <= k < |cs| ==> CheckpointWrite(v, cs[k]).Success?
    ensures CheckpointRun(v, cs).error.Some? ==>
              exists k :: 0 <= k < |cs| && CheckpointWrite(v, cs[k]).Failure?
                          && CheckpointRun(v, cs[..k]).error.None?
                          && CheckpointRun(v, cs) == Run(CheckpointRun(v, cs[..k]).writes, Some(CheckpointWrite(v, cs[k]).error))
  {
    FailureEndsRunFrom(v, cs);
  }

  /** Induction for `FailureEndsRun`. */
  lemma {:induction false} FailureEndsRunFrom(v: Visit, cs: seq<(string, int)>)
    ensures CheckpointRun(v, cs).error.None? <==> forall k :: 0 <= k < |cs| ==> CheckpointWrite(v, cs[k]).Success?
    ensures CheckpointRun(v, cs).error.Some? ==>
              exists k :: 0 <= k < |cs| && CheckpointWrite(v, cs[k]).Failure?
                          && CheckpointRun(v, cs[..k]).error.None?
                          && CheckpointRun(v, cs) == Run(CheckpointRun(v, cs[..k]).writes, Some(CheckpointWrite(v, cs[k]).error))
    decreases |cs|
  {
    if cs != [] {
      var rest := cs[1..];
      FailureEndsRunFrom(v, rest);
      assert forall k :: 0 <= k < |rest| ==> rest[k] == cs[k + 1];
      if CheckpointWrite(v, cs[0]).Failure? {
        assert cs[..0] == [];
        assert CheckpointRun(v, cs[..0]).error.None?;
      } else {
        var w := CheckpointWrite(v, cs[0]).value;
        assert CheckpointRun(v, cs) == After(Written(w), CheckpointRun(v, rest));
        if (forall k :: 0 <= k < |rest| ==> CheckpointWrite(v, rest[k]).Success?) {
          forall k | 0 <= k < |cs| ensures CheckpointWrite(v, cs[k]).Success? {
            if k > 0 {
              assert cs[k] == rest[k - 1];
            }
          }
        }
        if CheckpointRun(v, cs).error.Some? {
          var j :| 0 <= j < |rest| && CheckpointWrite(v, rest[j]).Failure?
                   && CheckpointRun(v, rest[..j]).error.None?
                   && CheckpointRun(v, rest) == Run(CheckpointRun(v, rest[..j]).writes, Some(CheckpointWrite(v, rest[j]).error));
          assert cs[..j + 1] == [cs[0]] + rest[..j];
          assert cs[..j + 1][0] == cs[0] && cs[..j + 1][1..] == rest[..j];
          assert CheckpointRun(v, cs[..j + 1]) == After(Written(w), CheckpointRun(v, rest[..j]));
          assert cs[j + 1] == rest[j];
        }
      }
    }
  }

  /** The number of inserts among `ws`. */
  function Inserts(ws: seq<Write>): nat {
    if ws == [] then 0 else Inserts(ws[..|ws| - 1]) + (if ws[|ws| - 1].Insert? then 1 else 0)
  }

  /** The number of updates among `ws`. */
  function Updates(ws: seq<Write>): nat {
    if ws == [] then 0 else Updates(ws[..|ws| - 1]) + (if ws[|ws| - 1].Update? then 1 else 0)
  }

  /** Counting distributes over concatenation. */
  lemma {:induction false} CountsAppend(a: seq<Write>, b: seq<Write>)
    ensures Inserts(a + b) == Inserts(a) + Inserts(b)
    ensures Updates(a + b) == Updates(a) + Updates(b)
    decreases |b|
  {
    if b != [] {
      var init := b[..|b| - 1];
      assert (a + b)[..|a + b| - 1] == a + init;
      CountsAppend(a, init);
    } else {
      assert a + b == a;
    }
  }

  /** The inner `for checkpoint, hours in CHECKPOINTS_HOURS.items()` loop of one post. */
  method VisitCheckpoints(v: Visit) returns (writes: seq<Write>, inserted: nat, updated: nat, error: Option<Exc>)
    ensures Run(writes, error) == CheckpointRun(v, Checkpoints)
    ensures inserted == Inserts(writes) && updated == Updates(writes)
  {
    writes, inserted, updated, error := VisitEach(v, Checkpoints);
  }

  /** The inner loop over any list of checkpoints; an exception leaves it at once. */
  method VisitEach(v: Visit, cs: seq<(string, int)>)
    returns (writes: seq<Write>, inserted: nat, updated: nat, error: Option<Exc>)
    ensures Run(writes, error) == CheckpointRun(v, cs)
    ensures inserted == Inserts(writes) && updated == Updates(writes)
  {
    writes, inserted, updated, error := [], 0, 0, None;
    var elapsed := v.now - v.postedAt;
    for i := 0 to |cs|
      invariant After(writes, CheckpointRun(v, cs[i..])) == CheckpointRun(v, cs)
      invariant inserted == Inserts(writes) && updated == Updates(writes)
    {
      var checkpoint, hours := cs[i].0, cs[i].1;
      if elapsed < hours * SecondsPerHour {
        SkipStep(v, cs, i, writes);
        continue;
      }
      if checkpoint !in v.existing {
        var resp := v.videosList(v.videoId, checkpoint);
        if resp.Failure? {
          FailStep(v, cs, i, writes);
          return writes, inserted, updated, Some(resp.error);
        }
        var stats := VideoStats(resp.value);
        if stats.Failure? {
          FailStep(v, cs, i, writes);
          return writes, inserted, updated, Some(stats.error);
        }
        var analytics := VisitAnalytics(v, hours);
        if analytics.Failure? {
          FailStep(v, cs, i, writes);
          return writes, inserted, updated, Some(analytics.error);
        }
        var w := Insert(v.projectId, v.postId, v.videoId, checkpoint, stats.value, analytics.value);
        var raised := v.send(w);
        if raised.Some? {
          FailStep(v, cs, i, writes);
          return writes, inserted, updated, raised;
        }
        WriteStep(v, cs, i, writes, w);
        writes := writes + [w];
        inserted := inserted + 1;
        continue;
      }
      var row := v.existing[checkpoint];
      if row.watchTime.JNull? || row.averageViewDuration.JNull? {
        var analytics := VisitAnalytics(v, hours);
        if analytics.Failure? {
          FailStep(v, cs, i, writes);
          return writes, inserted, updated, Some(analytics.error);
        }
        if analytics.value.Analytics? {
          var w := Update(v.postId, checkpoint, analytics.value);
          var raised := v.send(w);
          if raised.Some? {
            FailStep(v, cs, i, writes);
            return writes, inserted, updated, raised;
          }
          WriteStep(v, cs, i, writes, w);
          writes := writes + [w];
          updated := updated + 1;
        } else {
          SkipStep(v, cs, i, writes);
        }
      } else {
        SkipStep(v, cs, i, writes);
      }
    }
    assert cs[|cs|..] == [];
    assert writes + [] == writes;
  }

  /** A turn of the inner loop that writes nothing. */
  lemma SkipStep(v: Visit, cs: seq<(string, int)>, i: nat, writes: seq<Write>)
    requires i < |cs| && CheckpointWrite(v, cs[i]) == Success(None)
    requires After(writes, CheckpointRun(v, cs[i..])) == CheckpointRun(v, cs)
    ensures After(writes, CheckpointRun(v, cs[i + 1..])) == CheckpointRun(v, cs)
  {
    assert cs[i..][1..] == cs[i + 1..];
    assert CheckpointRun(v, cs[i..]) == After([], CheckpointRun(v, cs[i + 1..]));
    assert [] + CheckpointRun(v, cs[i + 1..]).writes == CheckpointRun(v, cs[i + 1..]).writes;
  }

  /** A turn of the inner loop that writes `w`, which is counted. */
  lemma WriteStep(v: Visit, cs: seq<(string, int)>, i: nat, writes: seq<Write>, w: Write)
    requires i < |cs| && CheckpointWrite(v, cs[i]) == Success(Some(w))
    requires After(writes, CheckpointRun(v, cs[i..])) == CheckpointRun(v, cs)
    ensures After(writes + [w], CheckpointRun(v, cs[i + 1..])) == CheckpointRun(v, cs)
    ensures Inserts(writes + [w]) == Inserts(writes) + (if w.Insert? then 1 else 0)
    ensures Updates(writes + [w]) == Updates(writes) + (if w.Update? then 1 else 0)
  {
    assert cs[i..][1..] == cs[i + 1..];
    assert CheckpointRun(v, cs[i..]) == After([w], CheckpointRun(v, cs[i + 1..]));
    assert writes + ([w] + CheckpointRun(v, cs[i + 1..]).writes) == (writes + [w]) + CheckpointRun(v, cs[i + 1..]).writes;
    assert (writes + [w])[..|writes|] == writes;
  }

  /** A turn of the inner loop that raises: the run ends with the rows written so far. */
  lemma FailStep(v: Visit, cs: seq<(string, int)>, i: nat, writes: seq<Write>)
    requires i < |cs| && CheckpointWrite(v, cs[i]).Failure?
    requires After(writes, CheckpointRun(v, cs[i..])) == CheckpointRun(v, cs)
    ensures CheckpointRun(v, cs) == Run(writes, Some(CheckpointWrite(v, cs[i]).error))
  {
    assert CheckpointRun(v, cs[i..]) == Run([], Some(CheckpointWrite(v, cs[i]).error));
    assert writes + [] == writes;
  }

  /** Every row written answers one checkpoint's step, and every step before the run
      ended whose answer is a write is written. */
  lemma {:induction false} WritesAreDecisions(v: Visit, cs: seq<(string, int)>, w: Write)
    ensures w in CheckpointRun(v, cs).writes ==>
              exists k :: 0 <= k < |cs| && CheckpointWrite(v, cs[k]) == Success(Some(w))
    ensures (exists k :: 0 <= k < |cs| && CheckpointWrite(v, cs[k]) == Success(Some(w))
                         && CheckpointRun(v, cs[..k]).error.None?) ==>
              w in CheckpointRun(v, cs).writes
    decreases |cs|
  {
    if cs != [] {
      var rest := cs[1..];
      WritesAreDecisions(v, rest, w);
      var step := CheckpointWrite(v, cs[0]);
      if w in CheckpointRun(v, cs).writes {
        if step != Success(Some(w)) {
          var k :| 0 <= k < |rest| && CheckpointWrite(v, rest[k]) == Success(Some(w));
          assert CheckpointWrite(v, cs[k + 1]) == Success(Some(w));
        }
      }
      if exists k :: 0 <= k < |cs| && CheckpointWrite(v, cs[k]) == Success(Some(w))
                     && CheckpointRun(v, cs[..k]).error.None? {
        var k :| 0 <= k < |cs| && CheckpointWrite(v, cs[k]) == Success(Some(w))
                 && CheckpointRun(v, cs[..k]).error.None?;
        if k > 0 {
          assert cs[..k][0] == cs[0] && cs[..k][1..] == rest[..k - 1];
          assert step.Success?;
          assert CheckpointWrite(v, rest[k - 1]) == Success(Some(w));
        }
      }
    }
  }

  /** A row whose analytics are both filled in is never written again, and no checkpoint
      is touched before it is due. */
  lemma CompleteRowsUntouched(v: Visit, name: string, hours: int, w: Write)
    requires (name, hours) in Checkpoints
    requires w in CheckpointRun(v, Checkpoints).writes && w.checkpoint == name
    ensures Due(v.now - v.postedAt, hours)
    ensures name in v.existing ==> w.Update? && Incomplete(v.existing[name])
  {
    WritesAreDecisions(v, Checkpoints, w);
    var k :| 0 <= k < |Checkpoints| && CheckpointWrite(v, Checkpoints[k]) == Success(Some(w));
    var j :| 0 <= j < |Checkpoints| && Checkpoints[j] == (name, hours);
    CheckpointsOrdered();
    assert k == j;
  }

  /** The number of due checkpoints with no stored row. */
  function MissingDue(v: Visit, cs: seq<(string, int)>): nat {
    if cs == [] then 0
    else (if Due(v.now - v.postedAt, cs[0].1) && cs[0].0 !in v.existing then 1 else 0)
         + MissingDue(v, cs[1..])
  }

  /** `inserted` grows by exactly the number of due checkpoints that had no row when no
      request raises, and by no more than that otherwise. */
  lemma {:induction false} InsertCount(v: Visit, cs: seq<(string, int)>)
    ensures Inserts(CheckpointRun(v, cs).writes) <= MissingDue(v, cs)
    ensures CheckpointRun(v, cs).error.None? ==> Inserts(CheckpointRun(v, cs).writes) == MissingDue(v, cs)
    decreases |cs|
  {
    if cs != [] {
      InsertCount(v, cs[1..]);
      var step := CheckpointWrite(v, cs[0]);
      if step.Success? {
        CountsAppend(Written(step.value), CheckpointRun(v, cs[1..]).writes);
        assert Inserts(Written(step.value)) == (if step.value.Some? && step.value.value.Insert? then 1 else 0);
      }
    }
  }

  /** A post less than an hour old gets no rows at all, and no request is made for it. */
  lemma {:induction false} TooEarlyNothing(v: Visit, cs: seq<(string, int)>)
    requires v.now - v.postedAt < SecondsPerHour
    requires forall k :: 0 <= k < |cs| ==> cs[k].1 >= 1
    ensures CheckpointRun(v, cs) == Run([], None)
    decreases |cs|
  {
    if cs != [] {
      TooEarlyNothing(v, cs[1..]);
      assert CheckpointWrite(v, cs[0]) == Success(None);
    }
  }

  // ----- the posts of a project -----

  /** The columns of a `posts` row the loop reads. */
  datatype Post = Post(id: Option<string>, postUrl: Option<string>, postedAt: Option<string>,
                       createdAt: Option<string>)

  /** The clock, the timestamp parser (`datetime.fromisoformat` after the "Z" rewrite,
      `None` when it raises), the stored metrics, the two YouTube APIs and the execution
      of a metrics write, each as described for `Visit`. */
  datatype Services = Services(now: int, parseTime: string -> Option<int>,
                               existingOf: string -> map<string, Stored>,
                               videosList: (string, string) -> Result<Json, Exc>,
                               query: (string, int, int) -> Result<Option<(Json, Json)>, Exc>,
                               send: Write -> Option<Exc>)

  predicate Given(s: Option<string>) {
    s.Some? && s.value != []
  }

  /** The checks before the inner loop: a post without id or URL, without a video id,
      without a timestamp, or whose timestamp does not parse is skipped. */
  function PostVisit(projectId: string, post: Post, s: Services): (r: Option<Visit>)
    ensures r.Some? ==> Given(post.id) && Given(post.postUrl) && r.value.postId == post.id.value
                        && Given(ParseVideoId(post.postUrl))
                        && r.value.videoId == ParseVideoId(post.postUrl).value
    ensures r.Some? ==> r.value.existing == s.existingOf(post.id.value) && r.value.now == s.now
  {
    if !Given(post.id) || !Given(post.postUrl) then None
    else
      var videoId := ParseVideoId(post.postUrl);
      if !Given(videoId) then None
      else
        var raw := if Given(post.postedAt) then post.postedAt else post.createdAt;
        if !Given(raw) then None
        else
          match s.parseTime(raw.value)
          case None => None
          case Some(postedAt) =>
            Some(Visit(projectId, post.id.value, videoId.value, postedAt, s.now,
                       s.existingOf(post.id.value), s.videosList, s.query, s.send))
  }

  function PostRun(projectId: string, post: Post, s: Services): Run {
    match PostVisit(projectId, post, s)
    case None => Run([], None)
    case Some(v) => CheckpointRun(v, Checkpoints)
  }

  /** The outer loop over `posts`: one post after another, up to the first exception. */
  function AllRun(projectId: string, posts: seq<Post>, s: Services): Run {
    if posts == [] then Run([], None)
    else
      var first := PostRun(projectId, posts[0], s);
      if first.error.Some? then first
      else After(first.writes, AllRun(projectId, posts[1..], s))
  }

  /** A run that got through the posts `a` goes on with `b`. */
  lemma {:induction false} AllRunAppend(projectId: string, a: seq<Post>, b: seq<Post>, s: Services)
    requires AllRun(projectId, a, s).error.None?
    ensures AllRun(projectId, a + b, s) == After(AllRun(projectId, a, s).writes, AllRun(projectId, b, s))
    decreases |a|
  {
    if a == [] {
      assert a + b == b;
    } else {
      AllRunCons(projectId, a, b, s);
      AllRunAppend(projectId, a[1..], b, s);
      AfterAfter(PostRun(projectId, a[0], s).writes, AllRun(projectId, a[1..], s).writes, AllRun(projectId, b, s));
    }
  }

  /** One step of `AllRunAppend`: the first post of `a` is the first of `a + b`. */
  lemma AllRunCons(projectId: string, a: seq<Post>, b: seq<Post>, s: Services)
    requires a != [] && AllRun(projectId, a, s).error.None?
    ensures PostRun(projectId, a[0], s).error.None?
    ensures AllRun(projectId, a, s) == After(PostRun(projectId, a[0], s).writes, AllRun(projectId, a[1..], s))
    ensures AllRun(projectId, a + b, s) == After(PostRun(projectId, a[0], s).writes, AllRun(projectId, a[1..] + b, s))
  {
    assert (a + b)[0] == a[0] && (a + b)[1..] == a[1..] + b;
  }

  /** The outer `for post in posts` loop. */
  method CollectMetrics(projectId: string, posts: seq<Post>, s: Services)
    returns (writes: seq<Write>, inserted: nat, updated: nat, error: Option<Exc>)
    ensures Run(writes, error) == AllRun(projectId, posts, s)
    ensures inserted == Inserts(writes) && updated == Updates(writes)
  {
    writes, inserted, updated, error := [], 0, 0, None;
    for i := 0 to |posts|
      invariant AllRun(projectId, posts[..i], s) == Run(writes, None)
      invariant inserted == Inserts(writes) && updated == Updates(writes)
    {
      var post := posts[i];
      var visit := PostVisit(projectId, post, s);
      PostStep(projectId, posts, i, s);
      if visit.None? {
        assert writes + [] == writes;
        continue;
      }
      var w, ins, upd, raised := VisitCheckpoints(visit.value);
      CountsAppend(writes, w);
      writes := writes + w;
      inserted := inserted + ins;
      updated := updated + upd;
      if raised.Some? {
        PostFailStep(projectId, posts, i, s);
        return writes, inserted, updated, raised;
      }
    }
    assert posts[..|posts|] == posts;
  }

  /** A post the loop gets through extends the run. */
  lemma PostStep(projectId: string, posts: seq<Post>, i: nat, s: Services)
    requires i < |posts| && AllRun(projectId, posts[..i], s).error.None?
    ensures AllRun(projectId, posts[..i + 1], s)
            == (var p := PostRun(projectId, posts[i], s);
                if p.error.Some? then After(AllRun(projectId, posts[..i], s).writes, p)
                else Run(AllRun(projectId, posts[..i], s).writes + p.writes, None))
  {
    assert posts[..i + 1] == posts[..i] + [posts[i]];
    AllRunAppend(projectId, posts[..i], [posts[i]], s);
    assert [posts[i]][1..] == [];
    assert PostRun(projectId, posts[i], s).writes + [] == PostRun(projectId, posts[i], s).writes;
  }

  /** A post whose checkpoints raise ends the whole run there. */
  lemma PostFailStep(projectId: string, posts: seq<Post>, i: nat, s: Services)
    requires i < |posts| && AllRun(projectId, posts[..i], s).error.None?
    requires PostRun(projectId, posts[i], s).error.Some?
    ensures AllRun(projectId, posts, s) == After(AllRun(projectId, posts[..i], s).writes, PostRun(projectId, posts[i], s))
  {
    var tail := posts[i..];
    SplitPosts(posts, i);
    AllRunAppend(projectId, posts[..i], tail, s);
    assert AllRun(projectId, tail, s) == PostRun(projectId, posts[i], s);
  }

  lemma SplitPosts(posts: seq<Post>, i: nat)
    requires i < |posts|
    ensures posts == posts[..i] + posts[i..] && posts[i..][0] == posts[i]
  {
  }

  /** The outer run ends without an exception exactly when no post's run raises;
      otherwise it ends at the first post that raises, with the rows of every earlier
      post and those that post wrote before its exception. */
  lemma {:induction false} FailureEndsCollection(projectId: string, posts: seq<Post>, s: Services)
    ensures AllRun(projectId, posts, s).error.None? <==>
              forall k :: 0 <= k < |posts| ==> PostRun(projectId, posts[k], s).error.None?
    ensures AllRun(projectId, posts, s).error.Some? ==>
              exists k :: 0 <= k < |posts| && PostRun(projectId, posts[k], s).error.Some?
                          && AllRun(projectId, posts[..k], s).error.None?
                          && AllRun(projectId, posts, s) == After(AllRun(projectId, posts[..k], s).writes, PostRun(projectId, posts[k], s))
    decreases |posts|
  {
    if posts != [] {
      var rest := posts[1..];
      FailureEndsCollection(projectId, rest, s);
      var first := PostRun(projectId, posts[0], s);
      if first.error.Some? {
        FirstPostFails(projectId, posts, s);
      } else {
        assert AllRun(projectId, posts, s) == After(first.writes, AllRun(projectId, rest, s));
        forall k | 0 < k < |posts| ensures posts[k] == rest[k - 1] {
        }
        if AllRun(projectId, posts, s).error.Some? {
          var j :| 0 <= j < |rest| && PostRun(projectId, rest[j], s).error.Some?
                   && AllRun(projectId, rest[..j], s).error.None?
                   && AllRun(projectId, rest, s) == After(AllRun(projectId, rest[..j], s).writes, PostRun(projectId, rest[j], s));
          LaterPostFails(projectId, posts, j, s);
          AfterAfter(first.writes, AllRun(projectId, rest[..j], s).writes, PostRun(projectId, rest[j], s));
        }
      }
    }
  }

  /** `FailureEndsCollection` when the first post raises. */
  lemma FirstPostFails(projectId: string, posts: seq<Post>, s: Services)
    requires posts != [] && PostRun(projectId, posts[0], s).error.Some?
    ensures AllRun(projectId, posts[..0], s) == Run([], None)
    ensures AllRun(projectId, posts, s) == After([], PostRun(projectId, posts[0], s))
  {
    assert posts[..0] == [];
    assert [] + PostRun(projectId, posts[0], s).writes == PostRun(projectId, posts[0], s).writes;
  }

  /** `FailureEndsCollection` when a later post raises: the prefix before it starts with
      the first post. */
  lemma LaterPostFails(projectId: string, posts: seq<Post>, j: nat, s: Services)
    requires j + 1 < |posts| && PostRun(projectId, posts[0], s).error.None?
    ensures AllRun(projectId, posts[..j + 1], s)
            == After(PostRun(projectId, posts[0], s).writes, AllRun(projectId, posts[1..][..j], s))
    ensures posts[j + 1] == posts[1..][j]
  {
    assert posts[..j + 1][0] == posts[0] && posts[..j + 1][1..] == posts[1..][..j];
  }

  /** Every row written concerns a post of the list, and every insert the project. */
  lemma {:induction false} WritesOfListedPosts(projectId: string, posts: seq<Post>, s: Services, w: Write)
    requires w in AllRun(projectId, posts, s).writes
    ensures exists k :: 0 <= k < |posts| && posts[k].id == Some(w.postId)
    ensures w.Insert? ==> w.projectId == projectId
    decreases |posts|
  {
    var first := PostRun(projectId, posts[0], s);
    if w in first.writes {
      var v := PostVisit(projectId, posts[0], s).value;
      WritesAreDecisions(v, Checkpoints, w);
      var k :| 0 <= k < |Checkpoints| && CheckpointWrite(v, Checkpoints[k]) == Success(Some(w));
    } else {
      var rest := posts[1..];
      WritesOfListedPosts(projectId, rest, s, w);
      var k :| 0 <= k < |rest| && rest[k].id == Some(w.postId);
      assert posts[k + 1] == rest[k];
    }
  }

  // ----- the project -----

  /** The columns of the `youtube_accounts` row. */
  datatype Account = Account(refreshToken: Json, scopes: Json)

  /** The statuses `fetch_youtube_video_metrics_for_project` returns. */
  datatype Outcome = MissingAccount | MissingScope | NoPosts | NoChannel | Done(inserted: nat, updated: nat)

  const ReadonlyScope: string := "https://www.googleapis.com/auth/youtube.readonly"

  /** `scope in scopes`: list membership, substring of a string, key of a dict; other
      values are not iterable. */
  function HasScope(scopes: Json, scope: string): (r: Result<bool, Exc>)
    ensures r.Failure? <==> scopes.JNull? || scopes.JBool? || scopes.JInt?
    ensures scopes.JArr? ==> r == Success(JStr(scope) in scopes.items)
  {
    match scopes
    case JArr(items) => Success(JStr(scope) in items)
    case JStr(text) => Success(Contains(text, scope))
    case JObj(fields) => Success(HasKey(fields, scope))
    case _ => Failure(OtherError("TypeError"))
  }

  /** `post_project.get(p["id"]) == project_id`. */
  predicate BelongsTo(post: Post, postProject: map<string, Option<string>>, projectId: string) {
    post.id.Some? && post.id.value in postProject && postProject[post.id.value] == Some(projectId)
  }

  function OfProject(posts: seq<Post>, postProject: map<string, Option<string>>, projectId: string): seq<Post> {
    Filter(posts, p => BelongsTo(p, postProject, projectId))
  }

  /** `fetch_youtube_video_metrics_for_project` as a value: the status or the exception
      it raised, and the rows written before it returned. `listed` is
      `_list_posted_roundups(max_posts)`, `postProject` what `_resolve_project_ids` finds
      for them, and `channel` the outcome of `_credentials` followed by `_get_channel_id`:
      the channel id, if any, or the exception the credential refresh or the channel
      request raised. */
  function MetricsFor(projectId: string, account: Option<Account>, listed: seq<Post>,
                      postProject: map<string, Option<string>>, channel: Result<Option<string>, Exc>,
                      s: Services): (Result<Outcome, Exc>, seq<Write>) {
    if account.None? || !Truthy(account.value.refreshToken) then (Success(MissingAccount), [])
    else
      match HasScope(Or(account.value.scopes, JArr([])), ReadonlyScope)
      case Failure(e) => (Failure(e), [])
      case Success(found) =>
        if !found then (Success(MissingScope), [])
        else if listed == [] then (Success(NoPosts), [])
        else
          var posts := OfProject(listed, postProject, projectId);
          if posts == [] then (Success(NoPosts), [])
          else
            match channel
            case Failure(e) => (Failure(e), [])
            case Success(channelId) =>
              if !Given(channelId) then (Success(NoChannel), [])
              else
                var run := AllRun(projectId, posts, s);
                match run.error
                case Some(e) => (Failure(e), run.writes)
                case None => (Success(Done(Inserts(run.writes), Updates(run.writes))), run.writes)
  }

  method FetchMetricsForProject(projectId: string, account: Option<Account>, listed: seq<Post>,
                                postProject: map<string, Option<string>>,
                                channel: Result<Option<string>, Exc>, s: Services)
    returns (r: Result<Outcome, Exc>, writes: seq<Write>)
    ensures (r, writes) == MetricsFor(projectId, account, listed, postProject, channel, s)
  {
    writes := [];
    if account.None? || !Truthy(account.value.refreshToken) {
      return Success(MissingAccount), writes;
    }
    var scopes := Or(account.value.scopes, JArr([]));
    var found := HasScope(scopes, ReadonlyScope);
    if found.Failure? {
      return Failure(found.error), writes;
    }
    if !found.value {
      return Success(MissingScope), writes;
    }
    if listed == [] {
      return Success(NoPosts), writes;
    }
    var posts := OfProject(listed, postProject, projectId);
    if posts == [] {
      return Success(NoPosts), writes;
    }
    if channel.Failure? {
      return Failure(channel.error), writes;
    }
    if !Given(channel.value) {
      return Success(NoChannel), writes;
    }
    var inserted, updated, error;
    writes, inserted, updated, error := CollectMetrics(projectId, posts, s);
    if error.Some? {
      return Failure(error.value), writes;
    }
    r := Success(Done(inserted, updated));
  }

  /** The early returns and an exception before the loop write nothing; an exception in
      the loop keeps exactly the rows written before it; a completed run reports exactly
      the rows it wrote; every row is for a post of the project. */
  lemma MetricsOutcome(projectId: string, account: Option<Account>, listed: seq<Post>,
                       postProject: map<string, Option<string>>, channel: Result<Option<string>, Exc>,
                       s: Services)
    ensures var r := MetricsFor(projectId, account, listed, postProject, channel, s);
      r.0.Success? && !r.0.value.Done? ==> r.1 == []
    ensures var r := MetricsFor(projectId, account, listed, postProject, channel, s);
      r.0.Success? && r.0.value.Done? ==>
        r.0.value.inserted == Inserts(r.1) && r.0.value.updated == Updates(r.1)
    ensures var r := MetricsFor(projectId, account, listed, postProject, channel, s);
      r.0.Failure? ==>
        r.1 == [] || AllRun(projectId, OfProject(listed, postProject, projectId), s) == Run(r.1, Some(r.0.error))
    ensures var r := MetricsFor(projectId, account, listed, postProject, channel, s);
      channel.Failure? ==> r.1 == []
    ensures var r := MetricsFor(projectId, account, listed, postProject, channel, s);
      forall w :: w in r.1 ==> exists p :: p in listed && BelongsTo(p, postProject, projectId)
                                                   && p.id == Some(w.postId)
  {
    var r := MetricsFor(projectId, account, listed, postProject, channel, s);
    var posts := OfProject(listed, postProject, projectId);
    forall w | w in r.1
      ensures exists p :: p in listed && BelongsTo(p, postProject, projectId) && p.id == Some(w.postId)
    {
      WritesOfListedPosts(projectId, posts, s, w);
      var k :| 0 <= k < |posts| && posts[k].id == Some(w.postId);
      assert posts[k] in listed && BelongsTo(posts[k], postProject, projectId);
    }
  }

  /** Without stored scopes, or without the read-only scope, nothing is collected. */
  lemma ScopeRequired(projectId: string, token: Json, scopes: Json, listed: seq<Post>,
                      postProject: map<string, Option<string>>, channel: Result<Option<string>, Exc>,
                      s: Services)
    requires Truthy(token)
    requires !Truthy(scopes) || (scopes.JArr? && JStr(ReadonlyScope) !in scopes.items)
    ensures MetricsFor(projectId, Some(Account(token, scopes)), listed, postProject, channel, s)
            == (Success(MissingScope), [])
  {
  }
}
