/** app/youtube_upload.py: the tags, title and description sent with an audio roundup
    video, and the decisions of `upload_latest_roundup_for_project`. The database rows,
    the clock's date string, `json.loads` and the YouTube insert call, which may raise, are
    parameters. */
module YoutubeUpload {
  import opened Wrappers
  import opened Text
  import opened Seqs
  import opened Json
  import Config
  import YoutubeMetrics

  // ----- tags -----

  /** `str(v)` of every element. */
  function Strs(items: seq<Json>, repr: Json -> string): seq<string> {
    Map(items, j => Str(j, repr))
  }

  /** `_normalize_tags(value)`: a list gives its stringified, stripped, non-empty items; a
      string is split on commas the same way; anything else gives no tags. */
  function NormalizeTags(value: Json, repr: Json -> string): (r: seq<string>)
    ensures !value.JArr? && !value.JStr? ==> r == []
  {
    match value
    case JArr(items) => Filter(Map(Strs(items, repr), Strip), Config.NonEmpty)
    case JStr(s) => Config.ModelList(s)
    case _ => []
  }

  /** Every tag is non-empty and has no surrounding whitespace. */
  lemma TagsClean(value: Json, repr: Json -> string)
    ensures forall t :: t in NormalizeTags(value, repr) ==> t != [] && Strip(t) == t
  {
    match value
    case JArr(items) =>
      var stripped := Map(Strs(items, repr), Strip);
      forall i | 0 <= i < |stripped|
        ensures Strip(stripped[i]) == stripped[i]
      {
        Config.StripIdempotent(Strs(items, repr)[i]);
      }
    case JStr(s) =>
      Config.ModelListClean(s);
    case _ =>
  }

  /** A list of strings as JSON. */
  function Strings(tags: seq<string>): (r: seq<Json>)
    ensures |r| == |tags| && forall i :: 0 <= i < |tags| ==> r[i] == JStr(tags[i])
  {
    if tags == [] then [] else [JStr(tags[0])] + Strings(tags[1..])
  }

  /** A list of clean tag strings is kept as it is, in order. */
  lemma CleanTagsKept(tags: seq<string>, repr: Json -> string)
    requires forall i :: 0 <= i < |tags| ==> tags[i] != [] && Strip(tags[i]) == tags[i]
    ensures NormalizeTags(JArr(Strings(tags)), repr) == tags
  {
    StrsOfStrings(tags, repr);
    StripClean(tags);
    FilterAll(tags, Config.NonEmpty);
  }

  lemma StrsOfStrings(tags: seq<string>, repr: Json -> string)
    ensures Strs(Strings(tags), repr) == tags
  {
    assert forall i :: 0 <= i < |tags| ==> Strs(Strings(tags), repr)[i] == tags[i];
  }

  lemma StripClean(tags: seq<string>)
    requires forall i :: 0 <= i < |tags| ==> Strip(tags[i]) == tags[i]
    ensures Map(tags, Strip) == tags
  {
  }

  // ----- titles and descriptions -----

  /** The three languages the defaults are written in. */
  datatype Locale = Es | Sk | En

  /** A truthy language whose lower-cased text starts with "es" or "sk"; English otherwise. */
  function LocaleOf(language: Option<string>): (r: Locale)
    ensures r == Es <==> language.Some? && language.value != [] && StartsWith(Lower(language.value), "es")
    ensures r == Sk <==> language.Some? && language.value != [] && !StartsWith(Lower(language.value), "es")
                         && StartsWith(Lower(language.value), "sk")
  {
    if language.None? || language.value == [] then En
    else if StartsWith(Lower(language.value), "es") then Es
    else if StartsWith(Lower(language.value), "sk") then Sk
    else En
  }

  const Dash: string := " \U{2014} "

  function TitlePhrase(l: Locale): string {
    match l
    case Es => "Resumen diario"
    case Sk => "Denn\U{00FD} preh\U{013E}ad"
    case En => "Daily Roundup"
  }

  /** `_default_title`: the project name, a dash, the localised phrase and the date. */
  function DefaultTitle(projectName: string, language: Option<string>, date: string): string {
    projectName + Dash + TitlePhrase(LocaleOf(language)) + " (" + date + ")"
  }

  /** The title starts with the project name and ends with the date in parentheses, and a
      language that reads as Spanish or Slovak gets its own phrase. */
  lemma DefaultTitleShape(projectName: string, language: Option<string>, date: string)
    ensures var r := DefaultTitle(projectName, language, date);
      && StartsWith(r, projectName + Dash)
      && EndsWith(r, " (" + date + ")")
      && r[|projectName + Dash|..|r| - |" (" + date + ")"|] == TitlePhrase(LocaleOf(language))
  {
    var r := DefaultTitle(projectName, language, date);
    var head := projectName + Dash;
    var tail := " (" + date + ")";
    var phrase := TitlePhrase(LocaleOf(language));
    assert r == head + phrase + tail;
    assert r[..|head|] == head;
    assert r[|r| - |tail|..] == tail;
    assert r[|head|..|r| - |tail|] == phrase;
  }

  /** The language code's case never matters: a code and its lower-case form pick the
      same phrase, so "ES" and "es-MX" are Spanish and "Sk" is Slovak. */
  lemma LocaleIgnoresCase(language: string)
    ensures LocaleOf(Some(language)) == LocaleOf(Some(Lower(language)))
    ensures LocaleOf(Some("ES")) == Es && LocaleOf(Some("es-MX")) == Es && LocaleOf(Some("Sk")) == Sk
  {
    var low := Lower(language);
    assert Lower(low) == low;
    assert Lower("ES") == "es";
    assert Lower("es-MX")[..2] == "es";
    assert Lower("Sk") == "sk";
  }

  function Base(l: Locale, projectName: string): string {
    match l
    case Es => projectName + ": episodio diario de 7\U{2013}10 minutos."
    case Sk => projectName + ": denn\U{00FD} 7\U{2013}10 min\U{00FA}tov\U{00FD} podcast."
    case En => projectName + ": 7\U{2013}10 minute daily podcast."
  }

  function CallToAction(l: Locale): string {
    match l
    case Es => "Escucha el podcast completo en nuestra suscripci\U{00F3}n."
    case Sk => "Cel\U{00FA} epiz\U{00F3}du n\U{00E1}jde\U{0161} v na\U{0161}om predplatnom."
    case En => "Listen to the full episode on our subscriber feed."
  }

  /** `_default_description`: base line, a blank line, the call to action, and the
      subscribe URL on a line of its own when one is given. */
  function DefaultDescription(projectName: string, language: Option<string>, subscribeUrl: Option<string>): string {
    var l := LocaleOf(language);
    var text := Base(l, projectName) + "\n\n" + CallToAction(l);
    if subscribeUrl.Some? && subscribeUrl.value != [] then text + "\n" + subscribeUrl.value else text
  }

  /** The description always begins with the base and the call to action; it ends with
      the URL on its own line exactly when a URL is given. */
  lemma DescriptionUrl(projectName: string, language: Option<string>, subscribeUrl: Option<string>)
    ensures var l := LocaleOf(language);
      var text := Base(l, projectName) + "\n\n" + CallToAction(l);
      var r := DefaultDescription(projectName, language, subscribeUrl);
      && StartsWith(r, text)
      && (subscribeUrl.Some? && subscribeUrl.value != [] ==> EndsWith(r, "\n" + subscribeUrl.value)
                                                             && |r| == |text| + 1 + |subscribeUrl.value|)
      && (subscribeUrl.None? || subscribeUrl.value == [] ==> r == text)
  {
    var l := LocaleOf(language);
    var text := Base(l, projectName) + "\n\n" + CallToAction(l);
    var r := DefaultDescription(projectName, language, subscribeUrl);
    assert r[..|text|] == text;
    if subscribeUrl.Some? && subscribeUrl.value != [] {
      var tail := "\n" + subscribeUrl.value;
      assert r == text + tail;
      assert r[|r| - |tail|..] == tail;
    }
  }

  const DefaultName: string := "Daily Roundup"

  /** `_project_name`: the `name` of the first `projects` row, or "Daily Roundup" when
      there is no row or its name is missing or empty. */
  function ProjectName(names: seq<Option<string>>): (r: string)
    ensures r != []
    ensures names != [] && names[0].Some? && names[0].value != [] ==> r == names[0].value
    ensures names == [] || names[0].None? || names[0].value == [] ==> r == DefaultName
  {
    if names != [] && names[0].Some? && names[0].value != [] then names[0].value else DefaultName
  }

  // ----- the upload -----

  const UploadScope: string := "https://www.googleapis.com/auth/youtube.upload"

  /** `account.get("scopes") or [upload, readonly]`. */
  function Scopes(stored: Json): (r: Json)
    ensures Truthy(stored) ==> r == stored
    ensures !Truthy(stored) ==> r == JArr([JStr(UploadScope), JStr(YoutubeMetrics.ReadonlyScope)])
  {
    Or(stored, JArr([JStr(UploadScope), JStr(YoutubeMetrics.ReadonlyScope)]))
  }

  /** `_ensure_roundup_assets`' content: `post.get("content") or {}`, decoded when it is a
      string, `{}` when that decoding fails. */
  function ContentOf(post: seq<(string, Json)>, loads: string -> Option<Json>): Json {
    var raw := Or(LookupOr(post, "content", JNull), JObj([]));
    if raw.JStr? then loads(raw.s).GetOr(JObj([])) else raw
  }

  /** The `snippet` and `status` of the insert request. */
  datatype Body = Body(title: Json, description: Json, tags: seq<string>, categoryId: string,
                       language: string, audioLanguage: string, privacy: string, madeForKids: bool, embeddable: bool,
                       license: string)

  /** What the upload does to the outside world, in order. */
  datatype Effect =
    | Authorize(refreshToken: Json, scopes: Json)
    | InsertVideo(body: Body)
    | MarkPosted(postId: Json, url: string)
    | RecordRun(postId: Json, status: string, error: Option<string>)

  /** The statuses `upload_latest_roundup_for_project` returns. */
  datatype Status =
    | MissingAccount
    | NoRoundup
    | AlreadyPosted(postId: Json)
    | UploadError(error: string)
    | Uploaded(videoId: Json, url: string)

  /** The title: the content's `title`, else its `youtube_title`, else the default. */
  function Title(content: Json, projectName: string, language: string, date: string): Json {
    Or(Get(content, "title"), Or(Get(content, "youtube_title"), JStr(DefaultTitle(projectName, Some(language), date))))
  }

  /** The description: `description`, else `youtube_description`, else the default. */
  function Description(content: Json, projectName: string, language: string, subscribeUrl: Option<string>): Json {
    Or(Get(content, "description"),
       Or(Get(content, "youtube_description"), JStr(DefaultDescription(projectName, Some(language), subscribeUrl))))
  }

  /** The tags: `tags`, else `youtube_tags`, else none, normalised. */
  function Tags(content: Json, repr: Json -> string): seq<string> {
    NormalizeTags(Or(Get(content, "tags"), Or(Get(content, "youtube_tags"), JArr([]))), repr)
  }

  function BodyOf(content: Json, projectName: string, language: string, date: string,
                  settings: Config.Settings, repr: Json -> string): Body {
    Body(Title(content, projectName, language, date),
         Description(content, projectName, language, settings.podcastSubscribeUrl),
         Tags(content, repr), "24", language, language, settings.youtubePrivacyStatus, false, true, "youtube")
  }

  /** The link stored as the post's URL. */
  function VideoUrl(videoId: Json, repr: Json -> string): string {
    "https://youtu.be/" + Str(videoId, repr)
  }

  /** `upload_latest_roundup_for_project` as a value: the status and the effects in order.
      `account` is the `youtube_accounts` row, `post` what
      `fetch_latest_audio_roundup_for_project` returns, `language` and `names` the
      `projects` columns, `insert` the outcome of authorizing and running `videos().insert`
      for a body: the decoded response, or the exception the credential refresh or the
      request raised. */
  function UploadLatestRoundup(account: Option<YoutubeMetrics.Account>, post: Option<seq<(string, Json)>>,
                               language: Option<string>, names: seq<Option<string>>, date: string,
                               settings: Config.Settings, loads: string -> Option<Json>,
                               repr: Json -> string, insert: Body -> Result<Json, Exc>)
    : Result<(Status, seq<Effect>), Exc>
  {
    if account.None? || !Truthy(account.value.refreshToken) then Success((MissingAccount, []))
    else if post.None? || post.value == [] then Success((NoRoundup, []))
    else if Truthy(LookupOr(post.value, "posted", JNull)) then
      Success((AlreadyPosted(LookupOr(post.value, "id", JNull)), []))
    else Upload(account.value, post.value, language, names, date, settings, loads, repr, insert)
  }

  /** The upload of a post that is not marked as posted: the body is built from its content
      and the project, then sent. */
  function Upload(account: YoutubeMetrics.Account, post: seq<(string, Json)>,
                  language: Option<string>, names: seq<Option<string>>, date: string,
                  settings: Config.Settings, loads: string -> Option<Json>,
                  repr: Json -> string, insert: Body -> Result<Json, Exc>)
    : Result<(Status, seq<Effect>), Exc>
  {
    if !HasKey(post, "id") then Failure(OtherError("KeyError"))
    else
      var content := ContentOf(post, loads);
      if !content.JObj? then Failure(OtherError("AttributeError"))
      else
        var lang := if language.Some? && language.value != [] then language.value else "en";
        var body := BodyOf(content, ProjectName(names), lang, date, settings, repr);
        Publish(Authorize(account.refreshToken, Scopes(account.scopes)), body, Lookup(post, "id"),
                insert(body), repr)
  }

  /** After the insert: a raised exception propagates before any mark or run record; no id
      records an error run; an id marks the post with its link and records a successful run. */
  function Publish(auth: Effect, body: Body, postId: Json, response: Result<Json, Exc>, repr: Json -> string)
    : (r: Result<(Status, seq<Effect>), Exc>)
    ensures response.Failure? ==> r == Failure(response.error)
    ensures r.Failure? <==> response.Failure? || !response.value.JObj?
    ensures r.Success? ==> r.value.0.Uploaded? || r.value.0 == UploadError("missing_video_id")
    ensures r.Success? ==> |r.value.1| >= 3 && r.value.1[0] == auth && r.value.1[1] == InsertVideo(body)
    ensures r.Success? && r.value.0.Uploaded? ==>
              Truthy(r.value.0.videoId) && r.value.0.videoId == Get(response.value, "id")
              && r.value.0.url == VideoUrl(r.value.0.videoId, repr)
              && r.value.1 == [auth, InsertVideo(body), MarkPosted(postId, r.value.0.url), RecordRun(postId, "ok", None)]
    ensures r.Success? && r.value.0.UploadError? ==>
              !Truthy(Get(response.value, "id"))
              && r.value.1 == [auth, InsertVideo(body), RecordRun(postId, "error", Some("missing_video_id"))]
  {
    match response
    case Failure(e) => Failure(e)
    case Success(answer) =>
      if !answer.JObj? then Failure(OtherError("AttributeError"))
      else
        var videoId := Get(answer, "id");
        if !Truthy(videoId) then
          Success((UploadError("missing_video_id"),
                   [auth, InsertVideo(body), RecordRun(postId, "error", Some("missing_video_id"))]))
        else
          var url := VideoUrl(videoId, repr);
          Success((Uploaded(videoId, url),
                   [auth, InsertVideo(body), MarkPosted(postId, url), RecordRun(postId, "ok", None)]))
  }

  /** The three early returns upload nothing and write nothing. */
  lemma EarlyReturnsDoNotUpload(account: Option<YoutubeMetrics.Account>, post: Option<seq<(string, Json)>>,
                                language: Option<string>, names: seq<Option<string>>, date: string,
                                settings: Config.Settings, loads: string -> Option<Json>,
                                repr: Json -> string, insert: Body -> Result<Json, Exc>)
    ensures var r := UploadLatestRoundup(account, post, language, names, date, settings, loads, repr, insert);
      r.Success? && (r.value.0.MissingAccount? || r.value.0.NoRoundup? || r.value.0.AlreadyPosted?)
      ==> r.value.1 == []
    ensures account.None? ==> UploadLatestRoundup(account, post, language, names, date, settings, loads, repr, insert)
                              == Success((MissingAccount, []))
  {
  }

  /** Only an upload that got a video id marks the post, with the youtu.be link of that id;
      without an id no mark is made and the last effect records the error run. */
  predicate MarksOnlyUploads(r: Result<(Status, seq<Effect>), Exc>, postId: Json, repr: Json -> string) {
    r.Success? ==>
      && (forall e :: e in r.value.1 && e.MarkPosted? ==>
            r.value.0.Uploaded? && Truthy(r.value.0.videoId) && e == MarkPosted(postId, r.value.0.url)
            && r.value.0.url == VideoUrl(r.value.0.videoId, repr))
      && (r.value.0.UploadError? ==>
            (forall e :: e in r.value.1 ==> !e.MarkPosted?) && |r.value.1| == 3
            && r.value.1[2] == RecordRun(postId, "error", Some("missing_video_id")))
  }

  /** A post is marked as posted only after YouTube returned a video id. */
  lemma MarkedOnlyWithVideoId(account: Option<YoutubeMetrics.Account>, post: Option<seq<(string, Json)>>,
                              language: Option<string>, names: seq<Option<string>>, date: string,
                              settings: Config.Settings, loads: string -> Option<Json>,
                              repr: Json -> string, insert: Body -> Result<Json, Exc>)
    ensures var postId := if post.Some? then LookupOr(post.value, "id", JNull) else JNull;
      MarksOnlyUploads(UploadLatestRoundup(account, post, language, names, date, settings, loads, repr, insert),
                       postId, repr)
  {
    if account.Some? && Truthy(account.value.refreshToken) && post.Some? && post.value != []
       && !Truthy(LookupOr(post.value, "posted", JNull)) {
      UploadMarks(account.value, post.value, language, names, date, settings, loads, repr, insert);
    }
  }

  lemma UploadMarks(account: YoutubeMetrics.Account, post: seq<(string, Json)>,
                    language: Option<string>, names: seq<Option<string>>, date: string,
                    settings: Config.Settings, loads: string -> Option<Json>,
                    repr: Json -> string, insert: Body -> Result<Json, Exc>)
    ensures MarksOnlyUploads(Upload(account, post, language, names, date, settings, loads, repr, insert),
                             LookupOr(post, "id", JNull), repr)
  {
    if HasKey(post, "id") && ContentOf(post, loads).JObj? {
      var lang := if language.Some? && language.value != [] then language.value else "en";
      var body := BodyOf(ContentOf(post, loads), ProjectName(names), lang, date, settings, repr);
      PublishMarks(Authorize(account.refreshToken, Scopes(account.scopes)), body, Lookup(post, "id"),
                   insert(body), repr);
    }
  }

  lemma PublishMarks(auth: Effect, body: Body, postId: Json, response: Result<Json, Exc>, repr: Json -> string)
    requires !auth.MarkPosted?
    ensures MarksOnlyUploads(Publish(auth, body, postId, response, repr), postId, repr)
  {
  }

  /** The row `fetch_latest_audio_roundup_for_project` returns holds only `id`, `content`
      and `created_at`, so the "already posted" guard never fires for it. */
  lemma AlreadyPostedNeverFires(account: Option<YoutubeMetrics.Account>, post: seq<(string, Json)>,
                                language: Option<string>, names: seq<Option<string>>, date: string,
                                settings: Config.Settings, loads: string -> Option<Json>,
                                repr: Json -> string, insert: Body -> Result<Json, Exc>)
    requires forall i :: 0 <= i < |post| ==> post[i].0 in {"id", "content", "created_at"}
    ensures var r := UploadLatestRoundup(account, Some(post), language, names, date, settings, loads, repr, insert);
      r.Success? ==> !r.value.0.AlreadyPosted?
  {
  }

  /** Without stored scopes the credentials ask for upload and read-only access. */
  lemma ScopesDefault(token: Json, stored: Json, post: seq<(string, Json)>,
                      language: Option<string>, names: seq<Option<string>>, date: string,
                      settings: Config.Settings, loads: string -> Option<Json>,
                      repr: Json -> string, insert: Body -> Result<Json, Exc>)
    requires Truthy(token) && !Truthy(stored) && post != [] && !Truthy(LookupOr(post, "posted", JNull))
    ensures var r := UploadLatestRoundup(Some(YoutubeMetrics.Account(token, stored)), Some(post), language,
                                         names, date, settings, loads, repr, insert);
      r.Success? ==> r.value.1[0] == Authorize(token, JArr([JStr(UploadScope), JStr(YoutubeMetrics.ReadonlyScope)]))
  {
    var account := YoutubeMetrics.Account(token, stored);
    assert UploadLatestRoundup(Some(account), Some(post), language, names, date, settings, loads, repr, insert)
        == Upload(account, post, language, names, date, settings, loads, repr, insert);
    UploadAuthorizes(account, post, language, names, date, settings, loads, repr, insert);
  }

  /** An upload that gets as far as an answer has authorized first, with the stored scopes
      or the default ones. */
  lemma UploadAuthorizes(account: YoutubeMetrics.Account, post: seq<(string, Json)>,
                         language: Option<string>, names: seq<Option<string>>, date: string,
                         settings: Config.Settings, loads: string -> Option<Json>,
                         repr: Json -> string, insert: Body -> Result<Json, Exc>)
    ensures var r := Upload(account, post, language, names, date, settings, loads, repr, insert);
      r.Success? ==> r.value.1[0] == Authorize(account.refreshToken, Scopes(account.scopes))
  {
  }

  /** The title chain: the content's own title wins, then `youtube_title`, and the default
      is used only when both are missing or empty. */
  lemma TitleChain(content: Json, projectName: string, language: string, date: string)
    ensures Truthy(Get(content, "title")) ==> Title(content, projectName, language, date) == Get(content, "title")
    ensures !Truthy(Get(content, "title")) && Truthy(Get(content, "youtube_title"))
            ==> Title(content, projectName, language, date) == Get(content, "youtube_title")
    ensures !Truthy(Get(content, "title")) && !Truthy(Get(content, "youtube_title"))
            ==> Title(content, projectName, language, date) == JStr(DefaultTitle(projectName, Some(language), date))
  {
  }

  /** The stored link reads back, through the metrics job's parser, as the uploaded id. */
  lemma UploadedUrlParsesBack(videoId: string, repr: Json -> string)
    requires YoutubeMetrics.PathId(videoId)
    ensures YoutubeMetrics.ParseVideoId(Some(VideoUrl(JStr(videoId), repr))) == Some(videoId)
  {
    YoutubeMetrics.ShortLinkRoundTrip(videoId);
  }
}
