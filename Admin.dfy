/** The scraping rules of `app/admin.py`: word-boundary truncation, the Reddit listing-URL
    normalisation, Reddit image-URL and content assembly, RSS row building and the
    per-source dispatch that records a status and never raises. The network (feed, listing
    and page fetches, article-text extraction, image captioning, HTML unescaping) and the
    `source_items` upsert are parameters; `now` is the clock reading of the call. */
module Admin {
  import opened Wrappers
  import opened Text
  import opened Seqs
  import Url

  const MaxContentChars: nat := 4000

  // ----- _truncate -----

  /** `_truncate`: empty stays empty, a short value is kept, and a long one is cut to its
      first `maxChars` characters and then just before the last space among them. */
  function Truncate(value: string, maxChars: nat): (r: string)
    ensures value == [] ==> r == []
    ensures |value| <= maxChars ==> r == value
    ensures |value| > maxChars ==>
      |r| <= maxChars && r == value[..|r|]
      && if ' ' in value[..maxChars] then |r| < maxChars && value[|r|] == ' ' && ' ' !in value[|r| + 1..maxChars]
         else r == value[..maxChars]
  {
    if value == [] then []
    else if |value| <= maxChars then value
    else
      var p := value[..maxChars];
      var k := RFindChar(p, ' ');
      assert k >= 0 ==> p[k + 1..] == value[k + 1..maxChars];
      if k == -1 then p else p[..k]
  }

  // ----- _normalize_reddit_listing_url -----

  predicate IsRedditHost(p: Url.Parts) {
    Contains(p.netloc, "reddit.com")
  }

  predicate IsJsonPath(path: string) {
    EndsWith(path, ".json") || EndsWith(path, ".json/")
  }

  /** The non-empty segments of a path. */
  function PathParts(path: string): seq<string> {
    Filter(Split(path, '/'), (s: string) => s != [])
  }

  /** `parts.index(x)`, or -1 when `x` is absent. */
  function IndexOfPart(parts: seq<string>, x: string): (r: int)
    ensures -1 <= r < |parts|
    ensures r >= 0 ==> parts[r] == x
    ensures r == -1 <==> x !in parts
    ensures r >= 0 ==> x !in parts[..r]
  {
    if parts == [] then -1
    else if parts[0] == x then 0
    else
      var k := IndexOfPart(parts[1..], x);
      if k == -1 then -1 else k + 1
  }

  /** The subreddit named by the path: the segment after the first `r`, else the first
      segment without its leading `r` when it starts with one; empty when there is none. */
  function Subreddit(parts: seq<string>): string {
    var idx := IndexOfPart(parts, "r");
    if idx >= 0 && idx + 1 < |parts| then parts[idx + 1]
    else if parts != [] && StartsWith(parts[0], "r") then parts[0][1..]
    else []
  }

  const Sorts: set<string> := {"top", "new", "hot", "rising"}

  /** The first segment that is a listing sort, `top` when none is. */
  function SortOf(parts: seq<string>): (r: string)
    ensures r in Sorts
    ensures (forall i :: 0 <= i < |parts| ==> parts[i] !in Sorts) ==> r == "top"
    ensures (exists i :: 0 <= i < |parts| && parts[i] in Sorts) ==>
      exists i :: 0 <= i < |parts| && parts[i] == r && forall j :: 0 <= j < i ==> parts[j] !in Sorts
  {
    if parts == [] then "top"
    else if parts[0] in Sorts then parts[0]
    else
      var r := SortOf(parts[1..]);
      assert (exists i :: 0 <= i < |parts| && parts[i] in Sorts) ==> exists i :: 0 <= i < |parts[1..]| && parts[1..][i] in Sorts;
      assert (exists i :: 0 <= i < |parts[1..]| && parts[1..][i] == r && forall j :: 0 <= j < i ==> parts[1..][j] !in Sorts)
        ==> exists i :: 0 <= i < |parts| && parts[i] == r && forall j :: 0 <= j < i ==> parts[j] !in Sorts;
      r
  }

  /** The query of a `.json` listing: the given one, with `limit` and `raw_json=1` added
      when absent. */
  function JsonQuery(query: string, maxItems: int): seq<(string, string)> {
    Url.SetDefault(Url.SetDefault(Url.ParseQuery(query), "limit", IntToDecimal(maxItems)), "raw_json", "1")
  }

  /** The `t` parameter of the query, `day` when absent. */
  function Timeframe(query: string): string {
    Url.Lookup(Url.ParseQuery(query), "t").GetOr("day")
  }

  function ListingQuery(maxItems: int, t: string): seq<(string, string)> {
    [("limit", IntToDecimal(maxItems)), ("t", t), ("raw_json", "1")]
  }

  function ListingParts(sub: string, sort: string, maxItems: int, t: string): Url.Parts {
    Url.Parts("https", "www.reddit.com", "/r/" + sub + "/" + sort + "/.json", Url.EncodeQuery(ListingQuery(maxItems, t)), [])
  }

  /** `https://www.reddit.com/r/<sub>/<sort>/.json?limit=<n>&t=<t>&raw_json=1`. */
  function ListingUrl(sub: string, sort: string, maxItems: int, t: string): string {
    Url.Unsplit(ListingParts(sub, sort, maxItems, t))
  }

  /** `_normalize_reddit_listing_url`. */
  function NormalizeRedditListingUrl(url: string, maxItems: int): string {
    if url == [] then url
    else
      var p := Url.SplitUrl(url);
      if !IsRedditHost(p) then url
      else if IsJsonPath(p.path) then Url.Unsplit(p.(query := Url.EncodeQuery(JsonQuery(p.query, maxItems))))
      else
        var parts := PathParts(p.path);
        var sub := Subreddit(parts);
        if sub == [] then url
        else ListingUrl(sub, SortOf(parts), maxItems, Timeframe(p.query))
  }

  /** The listing URL is the address the f-string in the source spells out. */
  lemma ListingUrlText(sub: string, sort: string, maxItems: int, t: string)
    ensures ListingUrl(sub, sort, maxItems, t)
      == "https://www.reddit.com" + ("/r/" + sub + "/" + sort + "/.json") + ("?" + Url.EncodeQuery(ListingQuery(maxItems, t)))
  {
    var lp := ListingParts(sub, sort, maxItems, t);
    var q := Url.EncodeQuery(ListingQuery(maxItems, t));
    assert q != [] by {
      assert Url.Pieces(ListingQuery(maxItems, t))[0] == "limit=" + IntToDecimal(maxItems);
    }
    assert Url.Tail(lp) == lp.path + ("?" + q);
    assert Url.SchemePrefix("https") + ("//" + "www.reddit.com") == "https://www.reddit.com";
  }

  // ----- character bookkeeping for the round trips -----

  /** No key and no value of the query contains `c`. */
  predicate Avoids(pairs: seq<(string, string)>, c: char) {
    forall i :: 0 <= i < |pairs| ==> c !in pairs[i].0 && c !in pairs[i].1
  }

  lemma {:induction false} SplitChars(s: string, sep: char, x: char)
    ensures forall i :: 0 <= i < |Split(s, sep)| ==> (x in Split(s, sep)[i] ==> x in s)
    decreases |s|
  {
    var k := FindChar(s, sep);
    if k != -1 {
      SplitChars(s[k + 1..], sep, x);
      assert forall y :: y in s[k + 1..] ==> y in s;
      assert forall y :: y in s[..k] ==> y in s;
    }
  }

  lemma {:induction false} PairsAvoid(pieces: seq<string>, c: char)
    requires forall i :: 0 <= i < |pieces| ==> c !in pieces[i]
    ensures Avoids(Url.Pairs(pieces), c)
    decreases |pieces|
  {
    if pieces != [] {
      PairsAvoid(pieces[1..], c);
      var i := FindChar(pieces[0], '=');
      if i >= 0 {
        assert forall y :: y in pieces[0][i + 1..] ==> y in pieces[0];
        assert forall y :: y in pieces[0][..i] ==> y in pieces[0];
      }
    }
  }

  /** A character absent from a query string is absent from its parsed keys and values. */
  lemma ParseAvoids(q: string, c: char)
    requires c !in q
    ensures Avoids(Url.ParseQuery(q), c)
  {
    SplitChars(q, '&', c);
    PairsAvoid(Split(q, '&'), c);
    Url.FirstValuesShape(Url.Pairs(Split(q, '&')));
    var pairs := Url.Pairs(Split(q, '&'));
    var r := Url.FirstValues(pairs);
    forall i | 0 <= i < |r| ensures c !in r[i].0 && c !in r[i].1 {
      assert r[i] in pairs;
    }
  }

  lemma {:induction false} JoinAvoids(parts: seq<string>, sep: string, c: char)
    requires c !in sep && forall i :: 0 <= i < |parts| ==> c !in parts[i]
    ensures c !in Join(parts, sep)
    decreases |parts|
  {
    if |parts| > 1 {
      JoinAvoids(parts[1..], sep, c);
    }
  }

  /** A character other than `&` and `=` that no key or value contains is absent from the
      encoded query. */
  lemma EncodeAvoids(pairs: seq<(string, string)>, c: char)
    requires c != '&' && c != '=' && Avoids(pairs, c)
    ensures c !in Url.EncodeQuery(pairs)
  {
    var ps := Url.Pieces(pairs);
    forall i | 0 <= i < |ps| ensures c !in ps[i] {
      assert ps[i] == pairs[i].0 + "=" + pairs[i].1;
    }
    JoinAvoids(ps, "&", c);
  }

  lemma DecimalShape(i: int)
    ensures IntToDecimal(i) != [] && '&' !in IntToDecimal(i) && '#' !in IntToDecimal(i)
  {
    var d := NatToDecimal(if i < 0 then -i else i);
    assert '&' !in d && '#' !in d by {
      assert forall j :: 0 <= j < |d| ==> '0' <= d[j] <= '9';
    }
  }

  lemma SetDefaultShape(pairs: seq<(string, string)>, key: string, value: string, c: char)
    requires Url.WellFormed(pairs) && Avoids(pairs, c)
    requires '&' !in key && '=' !in key && value != [] && '&' !in value && c !in key && c !in value
    ensures Url.WellFormed(Url.SetDefault(pairs, key, value)) && Avoids(Url.SetDefault(pairs, key, value), c)
    ensures Url.Lookup(pairs, key).Some? ==> Url.SetDefault(pairs, key, value) == pairs
  {
    if Url.Lookup(pairs, key).None? {
      var r := pairs + [(key, value)];
      forall i | 0 <= i < |pairs| ensures pairs[i].0 != key {
      }
    }
  }

  /** The `.json`-branch query parses back to itself, carries no `#` and has both keys. */
  lemma JsonQueryShape(query: string, maxItems: int)
    requires '#' !in query
    ensures var q := JsonQuery(query, maxItems);
      Url.WellFormed(q) && Avoids(q, '#')
      && Url.Lookup(q, "limit").Some? && Url.Lookup(q, "raw_json").Some?
  {
    Url.ParsedWellFormed(query);
    ParseAvoids(query, '#');
    DecimalShape(maxItems);
    KeyChars();
    var q0 := Url.ParseQuery(query);
    SetDefaultShape(q0, "limit", IntToDecimal(maxItems), '#');
    var q1 := Url.SetDefault(q0, "limit", IntToDecimal(maxItems));
    SetDefaultShape(q1, "raw_json", "1", '#');
  }

  /** The keys and the constant value the normalisation writes hold no separator. */
  lemma KeyChars()
    ensures '&' !in "limit" && '=' !in "limit" && '#' !in "limit"
    ensures '&' !in "raw_json" && '=' !in "raw_json" && '#' !in "raw_json"
    ensures '&' !in "t" && '=' !in "t" && '#' !in "t"
    ensures '&' !in "1" && '#' !in "1"
  {
  }

  /** Normalising a `.json` listing keeps its scheme, host, path and fragment, and leaves
      the query with every parameter it had, plus `limit` and `raw_json=1` when they were
      absent. */
  lemma NormalizeJson(url: string, maxItems: int)
    requires url != [] && IsRedditHost(Url.SplitUrl(url)) && IsJsonPath(Url.SplitUrl(url).path)
    ensures var p := Url.SplitUrl(url);
      var r := Url.SplitUrl(NormalizeRedditListingUrl(url, maxItems));
      var before := Url.ParseQuery(p.query);
      var after := Url.ParseQuery(r.query);
      r.scheme == p.scheme && r.netloc == p.netloc && r.path == p.path && r.fragment == p.fragment
      && Url.Lookup(after, "limit") == Some(Url.Lookup(before, "limit").GetOr(IntToDecimal(maxItems)))
      && Url.Lookup(after, "raw_json") == Some(Url.Lookup(before, "raw_json").GetOr("1"))
      && forall k :: k != "limit" && k != "raw_json" ==> Url.Lookup(after, k) == Url.Lookup(before, k)
  {
    var p := Url.SplitUrl(url);
    NormalizeJsonSplit(url, maxItems);
    JsonQueryLookups(p.query, maxItems);
  }

  /** The normalised `.json` URL splits into the old parts with the new query. */
  lemma NormalizeJsonSplit(url: string, maxItems: int)
    requires url != [] && IsRedditHost(Url.SplitUrl(url)) && IsJsonPath(Url.SplitUrl(url).path)
    ensures var p := Url.SplitUrl(url);
      var q := JsonQuery(p.query, maxItems);
      Url.SplitUrl(NormalizeRedditListingUrl(url, maxItems)) == p.(query := Url.EncodeQuery(q))
      && Url.ParseQuery(Url.EncodeQuery(q)) == q
  {
    var p := Url.SplitUrl(url);
    Contains0(p.netloc, "reddit.com");
    Url.SplitIsCanonical(url);
    JsonQueryShape(p.query, maxItems);
    var q := JsonQuery(p.query, maxItems);
    EncodeAvoids(q, '#');
    Url.SplitUnsplit(p.(query := Url.EncodeQuery(q)));
    Url.ParseEncode(q);
  }

  /** `setdefault` of `limit` and `raw_json` keeps every other parameter. */
  lemma JsonQueryLookups(query: string, maxItems: int)
    ensures var before := Url.ParseQuery(query);
      var after := JsonQuery(query, maxItems);
      && Url.Lookup(after, "limit") == Some(Url.Lookup(before, "limit").GetOr(IntToDecimal(maxItems)))
      && Url.Lookup(after, "raw_json") == Some(Url.Lookup(before, "raw_json").GetOr("1"))
      && forall k :: k != "limit" && k != "raw_json" ==> Url.Lookup(after, k) == Url.Lookup(before, k)
  {
  }

  lemma Contains0(s: string, sub: string)
    requires Contains(s, sub) && sub != []
    ensures s != []
  {
  }

  /** Every character of a path segment is a character of the path other than `/`. */
  lemma PartChars(path: string, parts: seq<string>, i: nat, x: char)
    requires parts == PathParts(path) && i < |parts|
    ensures x in parts[i] ==> x in path && x != '/'
  {
    var pieces := Split(path, '/');
    assert parts[i] in pieces;
    var j :| 0 <= j < |pieces| && pieces[j] == parts[i];
    SplitChars(path, '/', x);
  }

  lemma SubredditChars(path: string, x: char)
    ensures x in Subreddit(PathParts(path)) ==> x in path && x != '/'
  {
    var parts := PathParts(path);
    var idx := IndexOfPart(parts, "r");
    if idx >= 0 && idx + 1 < |parts| {
      PartChars(path, parts, idx + 1, x);
    } else if parts != [] && StartsWith(parts[0], "r") {
      PartChars(path, parts, 0, x);
      assert x in parts[0][1..] ==> x in parts[0];
    }
  }

  /** The listing query parses back to itself and carries no `#`. */
  lemma ListingQueryShape(maxItems: int, t: string)
    requires t != [] && '&' !in t && '#' !in t
    ensures Url.WellFormed(ListingQuery(maxItems, t)) && '#' !in Url.EncodeQuery(ListingQuery(maxItems, t))
  {
    DecimalShape(maxItems);
    KeyChars();
    var q := ListingQuery(maxItems, t);
    assert q[0].0 != q[1].0 && q[0].0 != q[2].0 && q[1].0 != q[2].0;
    EncodeAvoids(q, '#');
  }

  lemma TimeframeShape(query: string)
    requires '#' !in query
    ensures var t := Timeframe(query); t != [] && '&' !in t && '#' !in t
  {
    Url.ParsedWellFormed(query);
    ParseAvoids(query, '#');
    var q := Url.ParseQuery(query);
    var r := Url.Lookup(q, "t");
    if r.Some? {
      var i :| 0 <= i < |q| && q[i] == ("t", r.value);
    }
  }

  lemma ListingHost()
    ensures Url.IsScheme("https") && Lower("https") == "https"
    ensures forall i :: 0 <= i < |"www.reddit.com"| ==> "www.reddit.com"[i] !in Url.NetlocStops
    ensures Contains("www.reddit.com", "reddit.com")
  {
    RedditHostChars();
    RedditHostContains();
  }

  lemma RedditHostChars()
    ensures forall i :: 0 <= i < |"www.reddit.com"| ==> "www.reddit.com"[i] !in Url.NetlocStops
  {
  }

  lemma RedditHostContains()
    ensures Contains("www.reddit.com", "reddit.com")
  {
    assert "www.reddit.com"[4..14] == "reddit.com";
    ContainsAt("www.reddit.com", "reddit.com", 4);
  }

  lemma SortChars(sort: string)
    requires sort in Sorts
    ensures forall c :: c in sort ==> 'a' <= c <= 'z'
  {
    assert sort == "top" || sort == "new" || sort == "hot" || sort == "rising";
  }

  lemma ListingPathShape(sub: string, sort: string, c: char)
    requires c != '/' && c != 'r' && c != '.' && c != 'j' && c != 's' && c != 'o' && c != 'n'
    requires c !in sub && c !in sort
    ensures var path := "/r/" + sub + "/" + sort + "/.json";
      path[0] == '/' && c !in path && EndsWith(path, ".json")
  {
    var path := "/r/" + sub + "/" + sort + "/.json";
    assert path[|path| - 5..] == ".json";
  }

  lemma ListingCanonical(path: string, sub: string, sort: string, maxItems: int, t: string)
    requires sub == Subreddit(PathParts(path)) && sub != [] && '?' !in path && '#' !in path
    requires sort in Sorts && t != [] && '&' !in t && '#' !in t
    ensures var lp := ListingParts(sub, sort, maxItems, t);
      Url.Canonical(lp) && IsRedditHost(lp) && IsJsonPath(lp.path)
  {
    SubredditChars(path, '?');
    SubredditChars(path, '#');
    ListingQueryShape(maxItems, t);
    ListingHost();
    SortChars(sort);
    ListingPathShape(sub, sort, '?');
    ListingPathShape(sub, sort, '#');
  }

  /** For a Reddit path that is not a `.json` listing but names a subreddit, the result is
      the `.json` listing of that subreddit under the first sort word of the path (`top`
      when there is none), with the given `t` (`day` by default), `limit` and `raw_json=1`. */
  lemma NormalizeListing(url: string, maxItems: int)
    requires url != [] && IsRedditHost(Url.SplitUrl(url)) && !IsJsonPath(Url.SplitUrl(url).path)
    requires Subreddit(PathParts(Url.SplitUrl(url).path)) != []
    ensures var p := Url.SplitUrl(url);
      var parts := PathParts(p.path);
      var r := Url.SplitUrl(NormalizeRedditListingUrl(url, maxItems));
      r == ListingParts(Subreddit(parts), SortOf(parts), maxItems, Timeframe(p.query))
      && Url.ParseQuery(r.query) == [("limit", IntToDecimal(maxItems)), ("t", Timeframe(p.query)), ("raw_json", "1")]
  {
    var p := Url.SplitUrl(url);
    Contains0(p.netloc, "reddit.com");
    Url.SplitIsCanonical(url);
    var parts := PathParts(p.path);
    var sub := Subreddit(parts);
    var t := Timeframe(p.query);
    TimeframeShape(p.query);
    ListingQueryShape(maxItems, t);
    ListingCanonical(p.path, sub, SortOf(parts), maxItems, t);
    Url.SplitUnsplit(ListingParts(sub, SortOf(parts), maxItems, t));
    Url.ParseEncode(ListingQuery(maxItems, t));
  }

  lemma SetDefaultPresent(pairs: seq<(string, string)>, key: string, value: string)
    requires Url.Lookup(pairs, key).Some?
    ensures Url.SetDefault(pairs, key, value) == pairs
  {
  }

  /** A Reddit `.json` URL whose query already has `limit` and `raw_json` is left as it is. */
  lemma JsonFixed(p: Url.Parts, q: seq<(string, string)>, maxItems: int)
    requires Url.Canonical(p) && IsRedditHost(p) && IsJsonPath(p.path)
    requires p.query == Url.EncodeQuery(q) && Url.WellFormed(q)
    requires Url.Lookup(q, "limit").Some? && Url.Lookup(q, "raw_json").Some?
    ensures NormalizeRedditListingUrl(Url.Unsplit(p), maxItems) == Url.Unsplit(p)
  {
    Url.SplitUnsplit(p);
    Url.ParseEncode(q);
    SetDefaultPresent(q, "limit", IntToDecimal(maxItems));
    SetDefaultPresent(q, "raw_json", "1");
    assert JsonQuery(p.query, maxItems) == q;
    assert |Url.Unsplit(p)| >= 2;
  }

  lemma JsonUnchanged(url: string, maxItems: int)
    requires url != [] && IsRedditHost(Url.SplitUrl(url)) && IsJsonPath(Url.SplitUrl(url).path)
    ensures var r := NormalizeRedditListingUrl(url, maxItems);
      NormalizeRedditListingUrl(r, maxItems) == r
  {
    var p := Url.SplitUrl(url);
    Contains0(p.netloc, "reddit.com");
    Url.SplitIsCanonical(url);
    JsonQueryShape(p.query, maxItems);
    var q := JsonQuery(p.query, maxItems);
    EncodeAvoids(q, '#');
    JsonFixed(p.(query := Url.EncodeQuery(q)), q, maxItems);
  }

  /** Both keys the `.json` branch adds are already in the listing query. */
  lemma ListingKeys(maxItems: int, t: string)
    ensures Url.Lookup(ListingQuery(maxItems, t), "limit").Some?
    ensures Url.Lookup(ListingQuery(maxItems, t), "raw_json").Some?
  {
    var q := ListingQuery(maxItems, t);
    assert q[0].0 == "limit" && q[2].0 == "raw_json";
  }

  lemma ListingUnchanged(url: string, maxItems: int)
    requires url != [] && IsRedditHost(Url.SplitUrl(url)) && !IsJsonPath(Url.SplitUrl(url).path)
    requires Subreddit(PathParts(Url.SplitUrl(url).path)) != []
    ensures var r := NormalizeRedditListingUrl(url, maxItems);
      NormalizeRedditListingUrl(r, maxItems) == r
  {
    var p := Url.SplitUrl(url);
    Contains0(p.netloc, "reddit.com");
    Url.SplitIsCanonical(url);
    var parts := PathParts(p.path);
    var t := Timeframe(p.query);
    TimeframeShape(p.query);
    ListingQueryShape(maxItems, t);
    ListingCanonical(p.path, Subreddit(parts), SortOf(parts), maxItems, t);
    ListingKeys(maxItems, t);
    var lp := ListingParts(Subreddit(parts), SortOf(parts), maxItems, t);
    assert NormalizeRedditListingUrl(url, maxItems) == Url.Unsplit(lp);
    JsonFixed(lp, ListingQuery(maxItems, t), maxItems);
  }

  /** Normalising twice is normalising once: the result is already a normalised listing. */
  lemma NormalizeIdempotent(url: string, maxItems: int)
    ensures var r := NormalizeRedditListingUrl(url, maxItems);
      NormalizeRedditListingUrl(r, maxItems) == r
  {
    if url != [] && IsRedditHost(Url.SplitUrl(url)) {
      var p := Url.SplitUrl(url);
      if IsJsonPath(p.path) {
        JsonUnchanged(url, maxItems);
      } else if Subreddit(PathParts(p.path)) != [] {
        ListingUnchanged(url, maxItems);
      }
    }
  }

  // ----- _looks_like_media, _extract_reddit_image_url, _fetch_article_text -----

  const MediaSuffixes: seq<string> := [".jpg", ".jpeg", ".png", ".gif", ".webp", ".mp4", ".mov", ".webm"]

  /** A URL whose lowercased path ends with an image or video extension. */
  predicate LooksLikeMedia(url: string) {
    url != [] && exists i :: 0 <= i < |MediaSuffixes| && EndsWith(Lower(Url.SplitUrl(url).path), MediaSuffixes[i])
  }

  /** The fields of a listing child's `data` the scraper reads. A missing or null string
      field is the empty string; `previewImages` holds the `source.url` of each preview
      image, empty when absent. */
  datatype RedditPost = RedditPost(title: string, url: string, permalink: string, selftext: string,
                                   postHint: string, isSelf: bool, previewImages: seq<string>,
                                   score: Option<int>, numComments: Option<int>,
                                   subreddit: Option<string>, author: Option<string>,
                                   createdUtc: Option<int>)

  predicate HintedImage(post: RedditPost) {
    post.postHint == "image" && post.url != []
  }

  /** `_extract_reddit_image_url`: the post's own URL when it is hinted as an image, else
      the HTML-unescaped source of the first preview image, else nothing. */
  function ExtractRedditImageUrl(post: RedditPost, unescape: string -> string): (r: Option<string>)
    ensures r.Some? <==> HintedImage(post) || (post.previewImages != [] && post.previewImages[0] != [])
    ensures HintedImage(post) ==> r == Some(post.url)
    ensures r.Some? && !HintedImage(post) ==> r.value == unescape(post.previewImages[0])
  {
    if HintedImage(post) then Some(post.url)
    else if post.previewImages != [] && post.previewImages[0] != [] then Some(unescape(post.previewImages[0]))
    else None
  }

  /** `_fetch_article_text`: nothing for an empty link, a media file or a Reddit page,
      otherwise what the page fetch and extraction yield (`fetch` returns "" on any
      failure, as the source does). */
  function FetchArticleText(link: string, fetch: string -> string): (r: string)
    ensures r != [] ==> link != [] && !LooksLikeMedia(link) && !Contains(Url.SplitUrl(link).netloc, "reddit.com")
    ensures link != [] && !LooksLikeMedia(link) && !Contains(Url.SplitUrl(link).netloc, "reddit.com") ==> r == fetch(link)
  {
    if link == [] || LooksLikeMedia(link) then []
    else if Contains(Url.SplitUrl(link).netloc, "reddit.com") then []
    else fetch(link)
  }

  // ----- rows -----

  /** A `source_items` row. Timestamps are integer seconds; `None` is SQL null. */
  datatype Item = Item(sourceId: string, title: Option<string>, url: string, content: string, raw: string,
                       publishedAt: Option<int>, scrapedAt: int)

  /** The content parts of a Reddit post, in the order the scraper appends them. */
  function ContentParts(selftext: string, article: string, caption: string, imageUrl: Option<string>,
                        title: string): (r: seq<string>)
    ensures 1 <= |r| <= 3
    ensures selftext == [] && article == [] && caption == [] && imageUrl.None? ==> r == [title]
    ensures selftext != [] ==> r[0] == selftext
    ensures article != [] ==> |r| >= (if selftext != [] then 2 else 1) && r[if selftext != [] then 1 else 0] == article
    ensures caption != [] ==> r[|r| - 1] == "Image description: " + caption
    ensures caption == [] && imageUrl.Some? ==> r[|r| - 1] == "Image URL: " + imageUrl.value
    ensures caption == [] && imageUrl.None? && (selftext != [] || article != []) ==>
      r[|r| - 1] == (if article != [] then article else selftext)
  {
    var parts := (if selftext != [] then [selftext] else [])
      + (if article != [] then [article] else [])
      + (if caption != [] then ["Image description: " + caption]
         else if imageUrl.Some? then ["Image URL: " + imageUrl.value] else []);
    if parts == [] then [title] else parts
  }

  /** The non-empty parts, joined by blank lines, stripped and truncated. */
  function JoinContent(parts: seq<string>): (r: string)
    ensures |r| <= MaxContentChars
  {
    Truncate(Strip(Join(Filter(parts, (p: string) => p != []), "\n\n")), MaxContentChars)
  }

  /** Python's `str()` of an optional integer or string. */
  function ShowInt(v: Option<int>): string {
    if v.Some? then IntToDecimal(v.value) else "None"
  }

  function ShowStr(v: Option<string>): string {
    if v.Some? then v.value else "None"
  }

  /** The `raw` column of a Reddit row: score, comment count, subreddit and author. */
  function RedditRaw(post: RedditPost): (r: string)
    ensures |r| <= MaxContentChars
  {
    Truncate(Join(["score=" + ShowInt(post.score), "comments=" + ShowInt(post.numComments),
                   "subreddit=" + ShowStr(post.subreddit), "author=" + ShowStr(post.author)], " | "),
             MaxContentChars)
  }

  /** The post's Reddit permalink, or its link when it has none. */
  function RedditUrl(post: RedditPost): string {
    if post.permalink != [] then "https://www.reddit.com" + post.permalink else post.url
  }

  /** `_to_iso` of `created_utc`: a missing or zero timestamp is null. */
  function CreatedAt(created: Option<int>): (r: Option<int>)
    ensures r.Some? <==> created.Some? && created.value != 0
    ensures r.Some? ==> r == created
  {
    if created.None? || created.value == 0 then None else created
  }

  /** Whether the scraper fetches the linked article for a post. */
  predicate FetchesArticle(post: RedditPost, imageUrl: Option<string>) {
    post.url != [] && !post.isSelf && imageUrl.None?
  }

  /** One Reddit row, or the exception the caption call raised. */
  function RedditItem(net: Network, sourceId: string, post: RedditPost, now: int): (r: Result<Item, string>)
    ensures r.Failure? <==>
      ExtractRedditImageUrl(post, net.unescape).Some? && net.caption(ExtractRedditImageUrl(post, net.unescape).value).Failure?
    ensures r.Success? ==>
      var it := r.value;
      it.sourceId == sourceId && it.title == Some(post.title) && it.scrapedAt == now
      && it.url == RedditUrl(post) && (it.url == [] <==> post.permalink == [] && post.url == [])
      && |it.content| <= MaxContentChars && |it.raw| <= MaxContentChars
      && it.publishedAt == CreatedAt(post.createdUtc)
  {
    var image := ExtractRedditImageUrl(post, net.unescape);
    var article := if FetchesArticle(post, image) then FetchArticleText(post.url, net.articleText) else [];
    var caption := if image.Some? then net.caption(image.value) else Success([]);
    if caption.Failure? then Failure(caption.error)
    else
      var link := RedditUrl(post);
      Success(Item(sourceId, Some(post.title), if link != [] then link else post.url,
                   JoinContent(ContentParts(post.selftext, article, caption.value, image, post.title)),
                   RedditRaw(post), CreatedAt(post.createdUtc), now))
  }

  /** `f` applied to each element in order, stopping at the first failure, as a loop
      that raises out of its body does. */
  function Traverse<A, B, E>(s: seq<A>, f: A -> Result<B, E>): Result<seq<B>, E>
    decreases |s|
  {
    if s == [] then Success([])
    else
      var init := Traverse(s[..|s| - 1], f);
      if init.Failure? then init
      else
        var last := f(s[|s| - 1]);
        if last.Failure? then Failure(last.error) else Success(init.value + [last.value])
  }

  /** The run succeeds exactly when every element does; then result `i` is element `i`'s,
      and otherwise the failure is that of the first failing element. */
  lemma {:induction false} TraverseAll<A, B, E>(s: seq<A>, f: A -> Result<B, E>)
    ensures var r := Traverse(s, f);
      (r.Success? <==> forall i :: 0 <= i < |s| ==> f(s[i]).Success?)
      && (r.Success? ==>
            |r.value| == |s| && forall i :: 0 <= i < |s| ==> f(s[i]) == Success(r.value[i]))
      && (r.Failure? ==>
            exists i :: (0 <= i < |s| && f(s[i]) == Failure(r.error)
                         && forall j :: 0 <= j < i ==> f(s[j]).Success?))
    decreases |s|
  {
    if s != [] {
      var init := s[..|s| - 1];
      TraverseAll(init, f);
      assert forall i :: 0 <= i < |init| ==> init[i] == s[i];
    }
  }

  /** Once a prefix has failed, the whole run fails the same way. */
  lemma {:induction false} TraverseFailureSticks<A, B, E>(s: seq<A>, f: A -> Result<B, E>, k: nat)
    requires k <= |s| && Traverse(s[..k], f).Failure?
    ensures Traverse(s, f) == Traverse(s[..k], f)
    decreases |s| - k
  {
    if k < |s| {
      var init := s[..|s| - 1];
      assert init[..k] == s[..k];
      TraverseFailureSticks(init, f, k);
    } else {
      assert s[..k] == s;
    }
  }

  /** The rows of a run of posts, or the first caption failure among them. */
  function RedditItems(net: Network, sourceId: string, posts: seq<RedditPost>, now: int): Result<seq<Item>, string> {
    Traverse(posts, RedditItemOf(net, sourceId, now))
  }

  function RedditItemOf(net: Network, sourceId: string, now: int): (f: RedditPost -> Result<Item, string>)
    ensures forall post :: f(post) == RedditItem(net, sourceId, post, now)
  {
    (post: RedditPost) => RedditItem(net, sourceId, post, now)
  }

  /** One more successful element extends a successful run. */
  lemma TraverseSnoc<A, B, E>(s: seq<A>, f: A -> Result<B, E>, i: nat, done: seq<B>, x: B)
    requires i < |s| && Traverse(s[..i], f) == Success(done) && f(s[i]) == Success(x)
    ensures Traverse(s[..i + 1], f) == Success(done + [x])
  {
    assert s[..i + 1][..i] == s[..i];
  }

  /** The appends to `content_parts` in `_scrape_reddit_source`. */
  method BuildParts(selftext: string, article: string, caption: string, imageUrl: Option<string>, title: string)
    returns (parts: seq<string>)
    ensures parts == ContentParts(selftext, article, caption, imageUrl, title)
  {
    parts := [];
    if selftext != [] {
      parts := parts + [selftext];
    }
    if article != [] {
      parts := parts + [article];
    }
    if caption != [] {
      parts := parts + ["Image description: " + caption];
    } else if imageUrl.Some? {
      parts := parts + ["Image URL: " + imageUrl.value];
    }
    if parts == [] {
      parts := parts + [title];
    }
  }

  /** The body of the loop of `_scrape_reddit_source` for one post. */
  method RedditRow(net: Network, sourceId: string, post: RedditPost, now: int) returns (r: Result<Item, string>)
    ensures r == RedditItem(net, sourceId, post, now)
  {
    var title := post.title;
    var link := post.url;
    var redditUrl := if post.permalink != [] then "https://www.reddit.com" + post.permalink else link;
    var imageUrl := ExtractRedditImageUrl(post, net.unescape);
    var articleText: string := [];
    if link != [] && !post.isSelf && imageUrl.None? {
      articleText := FetchArticleText(link, net.articleText);
    }
    var caption: string := [];
    if imageUrl.Some? {
      var c := net.caption(imageUrl.value);
      if c.Failure? {
        return Failure(c.error);
      }
      caption := c.value;
    }
    var parts := BuildParts(post.selftext, articleText, caption, imageUrl, title);
    var content := JoinContent(parts);
    var url := if redditUrl != [] then redditUrl else link;
    r := Success(Item(sourceId, Some(title), url, content, RedditRaw(post), CreatedAt(post.createdUtc), now));
  }

  /** One turn of that loop: the row of post `i` after the rows of the posts before it. */
  method AppendRedditRow(net: Network, sourceId: string, taken: seq<RedditPost>, i: nat, rows: seq<Item>, now: int)
    returns (r: Result<seq<Item>, string>)
    requires i < |taken| && Traverse(taken[..i], RedditItemOf(net, sourceId, now)) == Success(rows)
    ensures r == Traverse(taken[..i + 1], RedditItemOf(net, sourceId, now))
  {
    var row := RedditRow(net, sourceId, taken[i], now);
    assert taken[..i + 1][..i] == taken[..i];
    if row.Failure? {
      return Failure(row.error);
    }
    TraverseSnoc(taken, RedditItemOf(net, sourceId, now), i, rows, row.value);
    r := Success(rows + [row.value]);
  }

  /** The loop of `_scrape_reddit_source` over the first `maxItems` posts. */
  method RedditRows(net: Network, sourceId: string, posts: seq<RedditPost>, maxItems: int, now: int)
    returns (r: Result<seq<Item>, string>)
    ensures r == RedditItems(net, sourceId, PyTake(posts, maxItems), now)
  {
    var taken := PyTake(posts, maxItems);
    ghost var f := RedditItemOf(net, sourceId, now);
    var rows: seq<Item> := [];
    for i := 0 to |taken|
      invariant Traverse(taken[..i], f) == Success(rows)
    {
      var next := AppendRedditRow(net, sourceId, taken, i, rows, now);
      if next.Failure? {
        TraverseFailureSticks(taken, f, i + 1);
        return next;
      }
      rows := next.value;
    }
    assert taken[..|taken|] == taken;
    r := Success(rows);
  }

  /** A feed entry as `feedparser` gives it: a missing link, id or summary is the empty
      string, `contents` holds the `value` of each content element, and the parsed
      timestamps are integer seconds. */
  datatype FeedEntry = FeedEntry(link: string, id: string, title: Option<string>, summary: string,
                                 contents: seq<string>, published: Option<int>, updated: Option<int>)

  /** The entry's link, or its id when it has no link. */
  function EntryLink(e: FeedEntry): string {
    if e.link != [] then e.link else e.id
  }

  predicate Linked(e: FeedEntry) {
    EntryLink(e) != []
  }

  /** The row of one feed entry: the summary as content, falling back to the first content
      value when the summary is empty, both cut to 4000 characters. */
  function RssItem(sourceId: string, e: FeedEntry, now: int): (r: Item)
    ensures r.sourceId == sourceId && r.url == EntryLink(e) && r.title == e.title && r.scrapedAt == now
    ensures |r.content| <= MaxContentChars && |r.raw| <= MaxContentChars
    ensures |r.raw| <= |e.summary| && r.raw == e.summary[..|r.raw|] && (|e.summary| <= MaxContentChars ==> r.raw == e.summary)
    ensures e.summary != [] ==> r.content == r.raw
    ensures e.summary == [] ==> r.raw == [] && r.content == (if e.contents != [] then PyTake(e.contents[0], MaxContentChars) else [])
    ensures r.publishedAt == (if e.published.Some? then e.published else e.updated)
  {
    var content := if e.summary == [] && e.contents != [] then e.contents[0] else e.summary;
    Item(sourceId, e.title, EntryLink(e), PyTake(content, MaxContentChars), PyTake(e.summary, MaxContentChars),
         if e.published.Some? then e.published else e.updated, now)
  }

  /** The rows of a run of entries: one per entry with a link or id, in order. */
  function RssItems(sourceId: string, entries: seq<FeedEntry>, now: int): (r: seq<Item>)
    ensures |r| <= |entries|
    ensures forall i :: 0 <= i < |r| ==>
      (r[i].url != [] && r[i].sourceId == sourceId && |r[i].content| <= MaxContentChars && |r[i].raw| <= MaxContentChars)
    decreases |entries|
  {
    if entries == [] then []
    else
      var last := entries[|entries| - 1];
      RssItems(sourceId, entries[..|entries| - 1], now) + if Linked(last) then [RssItem(sourceId, last, now)] else []
  }

  /** The RSS rows are exactly the linked entries' rows, in order: nothing else is kept. */
  lemma {:induction false} RssItemsLinked(sourceId: string, entries: seq<FeedEntry>, now: int)
    ensures var linked := Filter(entries, Linked);
      |RssItems(sourceId, entries, now)| == |linked|
      && forall i :: 0 <= i < |linked| ==> RssItems(sourceId, entries, now)[i] == RssItem(sourceId, linked[i], now)
    decreases |entries|
  {
    if entries != [] {
      RssItemsLinked(sourceId, entries[..|entries| - 1], now);
    }
  }

  /** The loop of `_scrape_rss_source` over the first `maxItems` entries. */
  method RssRows(sourceId: string, entries: seq<FeedEntry>, maxItems: int, now: int) returns (rows: seq<Item>)
    ensures rows == RssItems(sourceId, PyTake(entries, maxItems), now)
  {
    var taken := PyTake(entries, maxItems);
    rows := [];
    for i := 0 to |taken|
      invariant rows == RssItems(sourceId, taken[..i], now)
    {
      assert taken[..i + 1][..i] == taken[..i];
      var entry := taken[i];
      var link := if entry.link != [] then entry.link else entry.id;
      if link == [] {
        continue;
      }
      var summary := entry.summary;
      var content := summary;
      if content == [] && entry.contents != [] {
        content := entry.contents[0];
      }
      var published := if entry.published.Some? then entry.published else entry.updated;
      rows := rows + [Item(sourceId, entry.title, link, PyTake(content, MaxContentChars),
                           PyTake(summary, MaxContentChars), published, now)];
    }
    assert taken[..|taken|] == taken;
  }

  // ----- scrape_source and scrape_project -----

  /** The outside world of a scrape, each call returning its value or the class name of
      the exception it raised: the feed entries at a URL, the posts of a Reddit listing,
      the extracted text of a page, the article text `_fetch_article_text` obtains (never
      raising), the image caption, `html.unescape`, and the `source_items` upsert, which
      returns the number of rows it reports back. */
  datatype Network = Network(feed: string -> Result<seq<FeedEntry>, string>,
                             listing: string -> Result<seq<RedditPost>, string>,
                             page: string -> Result<string, string>,
                             articleText: string -> string,
                             caption: string -> Result<string, string>,
                             unescape: string -> string,
                             upsert: seq<Item> -> Result<nat, string>)

  /** `_upsert_items`: no call for no rows; otherwise the number of rows reported back,
      or the number sent when none are reported. */
  function Upserted(net: Network, rows: seq<Item>): (r: Result<nat, string>)
    ensures rows == [] ==> r == Success(0)
    ensures r.Success? ==> (r.value == 0 <==> rows == [])
    ensures rows != [] ==> (r.Failure? <==> net.upsert(rows).Failure?)
  {
    if rows == [] then Success(0)
    else match net.upsert(rows)
      case Failure(e) => Failure(e)
      case Success(n) => Success(if n > 0 then n else |rows|)
  }

  /** The row of a page source: the page URL as title and URL, the extracted text as
      content and raw, no publication time. */
  function PageItem(sourceId: string, url: string, text: string, now: int): Item {
    Item(sourceId, Some(url), url, PyTake(text, MaxContentChars), PyTake(text, MaxContentChars), None, now)
  }

  method ScrapeRss(net: Network, sourceId: string, url: string, maxItems: int, now: int) returns (r: Result<nat, string>)
    ensures net.feed(url).Failure? ==> r == Failure(net.feed(url).error)
    ensures net.feed(url).Success? ==> r == Upserted(net, RssItems(sourceId, PyTake(net.feed(url).value, maxItems), now))
  {
    var feed := net.feed(url);
    if feed.Failure? {
      return Failure(feed.error);
    }
    var rows := RssRows(sourceId, feed.value, maxItems, now);
    if rows == [] {
      return Success(0);
    }
    r := Upserted(net, rows);
  }

  method ScrapeReddit(net: Network, sourceId: string, url: string, maxItems: int, now: int) returns (r: Result<nat, string>)
    ensures var listing := net.listing(NormalizeRedditListingUrl(url, maxItems));
      if listing.Failure? then r == Failure(listing.error)
      else
        var rows := RedditItems(net, sourceId, PyTake(listing.value, maxItems), now);
        r == if rows.Failure? then Failure(rows.error) else Upserted(net, rows.value)
  {
    var listingUrl := NormalizeRedditListingUrl(url, maxItems);
    var listing := net.listing(listingUrl);
    if listing.Failure? {
      return Failure(listing.error);
    }
    var rows := RedditRows(net, sourceId, listing.value, maxItems, now);
    if rows.Failure? {
      return Failure(rows.error);
    }
    if rows.value == [] {
      return Success(0);
    }
    r := Upserted(net, rows.value);
  }

  method ScrapePage(net: Network, sourceId: string, url: string, now: int) returns (r: Result<nat, string>)
    ensures net.page(url).Failure? ==> r == Failure(net.page(url).error)
    ensures net.page(url).Success? ==> r == Upserted(net, [PageItem(sourceId, url, net.page(url).value, now)])
  {
    var page := net.page(url);
    if page.Failure? {
      return Failure(page.error);
    }
    r := Upserted(net, [PageItem(sourceId, url, page.value, now)]);
  }

  /** What `scrape_source` records as `last_status`. */
  datatype Status = Ok | UnknownType(sourceType: string) | Error(className: string)

  function StatusText(s: Status): string {
    match s
    case Ok => "ok"
    case UnknownType(t) => "unknown source_type: " + t
    case Error(c) => "error: " + c
  }

  /** Reads a recorded status back. */
  function ParseStatus(text: string): Status {
    if StartsWith(text, "unknown source_type: ") then UnknownType(text[21..])
    else if StartsWith(text, "error: ") then Error(text[7..])
    else Ok
  }

  /** The three kinds of status text never collide: each reads back as what was recorded. */
  lemma ParseStatusText(s: Status)
    ensures ParseStatus(StatusText(s)) == s
  {
    match s
    case Ok =>
      assert StatusText(s)[0] == 'o';
    case UnknownType(t) =>
      assert StatusText(s)[..21] == "unknown source_type: ";
      assert StatusText(s)[21..] == t;
    case Error(c) =>
      assert StatusText(s)[..7] == "error: ";
      assert StatusText(s)[7..] == c;
      assert StatusText(s)[0] == 'e';
  }

  /** A `sources` row: `enabled` is absent, null or a flag; a missing type or URL is the
      empty string. */
  datatype Enabled = Absent | Null | Flag(on: bool)
  datatype Source = Source(id: string, sourceType: string, url: string, enabled: Enabled)

  /** `s.get("enabled", True)`: an absent flag counts as enabled, a null one does not. */
  predicate IsEnabled(s: Source) {
    s.enabled.Absent? || (s.enabled.Flag? && s.enabled.on)
  }

  datatype Kind = RedditKind | RssKind | PageKind | UnknownKind

  /** The scraper chosen by the lowercased source type. */
  function KindOf(sourceType: string): (k: Kind)
    ensures k == RedditKind <==> Lower(sourceType) == "reddit"
    ensures k == RssKind <==> Lower(sourceType) in {"rss", "youtube"}
    ensures k == PageKind <==> Lower(sourceType) in {"page", "website"}
  {
    var t := Lower(sourceType);
    if t == "reddit" then RedditKind
    else if t == "rss" || t == "youtube" then RssKind
    else if t == "page" || t == "website" then PageKind
    else UnknownKind
  }

  /** The count and status `scrape_source` reports for a source. */
  function Outcome(net: Network, src: Source, maxItems: int, now: int): (r: (nat, Status))
    ensures r.1 != Ok ==> r.0 == 0
    ensures r.1.UnknownType? <==> KindOf(src.sourceType) == UnknownKind
    ensures r.1.UnknownType? ==> r.1.sourceType == Lower(src.sourceType)
  {
    var scraped: Option<Result<nat, string>> := match KindOf(src.sourceType)
      case RedditKind => Some(RedditScrape(net, src.id, src.url, maxItems, now))
      case RssKind => Some(RssScrape(net, src.id, src.url, maxItems, now))
      case PageKind => Some(PageScrape(net, src.id, src.url, now))
      case UnknownKind => None;
    match scraped
    case None => (0, UnknownType(Lower(src.sourceType)))
    case Some(Failure(e)) => (0, Error(e))
    case Some(Success(n)) => (n, Ok)
  }

  function RssScrape(net: Network, sourceId: string, url: string, maxItems: int, now: int): Result<nat, string> {
    var feed := net.feed(url);
    if feed.Failure? then Failure(feed.error)
    else Upserted(net, RssItems(sourceId, PyTake(feed.value, maxItems), now))
  }

  function RedditScrape(net: Network, sourceId: string, url: string, maxItems: int, now: int): Result<nat, string> {
    var listing := net.listing(NormalizeRedditListingUrl(url, maxItems));
    if listing.Failure? then Failure(listing.error)
    else
      var rows := RedditItems(net, sourceId, PyTake(listing.value, maxItems), now);
      if rows.Failure? then Failure(rows.error) else Upserted(net, rows.value)
  }

  function PageScrape(net: Network, sourceId: string, url: string, now: int): Result<nat, string> {
    var page := net.page(url);
    if page.Failure? then Failure(page.error) else Upserted(net, [PageItem(sourceId, url, page.value, now)])
  }

  /** What `scrape_source` returns. */
  datatype ScrapeResult = ScrapeResult(sourceId: string, count: nat, status: Status)

  function ResultOf(net: Network, src: Source, maxItems: int, now: int): ScrapeResult {
    var o := Outcome(net, src, maxItems, now);
    ScrapeResult(src.id, o.0, o.1)
  }

  /** The results of a run of sources, one per source, in order. */
  function ResultsOf(net: Network, srcs: seq<Source>, maxItems: int, now: int): seq<ScrapeResult> {
    Map(srcs, (src: Source) => ResultOf(net, src, maxItems, now))
  }

  /** The scrape bookkeeping columns of a `sources` row. */
  datatype SourceRow = SourceRow(lastScrapedAt: Option<int>, lastStatus: Option<string>, updatedAt: Option<int>)

  /** The update `scrape_source` makes after every attempt: the row with that id, if any,
      gets the time and the status text. */
  function Recorded(rows: map<string, SourceRow>, res: ScrapeResult, now: int): map<string, SourceRow> {
    if res.sourceId in rows
    then rows[res.sourceId := rows[res.sourceId].(lastScrapedAt := Some(now), lastStatus := Some(StatusText(res.status)),
                                                   updatedAt := Some(now))]
    else rows
  }

  function RecordedAll(rows: map<string, SourceRow>, results: seq<ScrapeResult>, now: int): (r: map<string, SourceRow>)
    ensures r.Keys == rows.Keys
    decreases |results|
  {
    if results == [] then rows
    else Recorded(RecordedAll(rows, results[..|results| - 1], now), results[|results| - 1], now)
  }

  /** A run of scrapes leaves the rows of sources it did not scrape as they were. */
  lemma {:induction false} RecordedAllKeeps(rows: map<string, SourceRow>, results: seq<ScrapeResult>, now: int, id: string)
    ensures id in rows && (forall i :: 0 <= i < |results| ==> results[i].sourceId != id) ==>
      RecordedAll(rows, results, now)[id] == rows[id]
    decreases |results|
  {
    if results != [] {
      var init := results[..|results| - 1];
      RecordedAllKeeps(rows, init, now, id);
      assert forall i :: 0 <= i < |init| ==> init[i] == results[i];
    }
  }

  /** After a run, a scraped source's row carries the time and the status of its last
      attempt. */
  lemma {:induction false} RecordedAllLast(rows: map<string, SourceRow>, results: seq<ScrapeResult>, now: int, i: nat)
    requires i < |results| && results[i].sourceId in rows
    requires forall j :: i < j < |results| ==> results[j].sourceId != results[i].sourceId
    ensures var row := RecordedAll(rows, results, now)[results[i].sourceId];
      row.lastStatus == Some(StatusText(results[i].status)) && row.lastScrapedAt == Some(now) && row.updatedAt == Some(now)
    decreases |results|
  {
    var init := results[..|results| - 1];
    RecordedAllKeeps(rows, init, now, results[i].sourceId);
    if i < |results| - 1 {
      RecordedAllLast(rows, init, now, i);
    }
  }

  /** The `sources` table, keyed by id. */
  class SourceTable {
    var rows: map<string, SourceRow>

    constructor (rows0: map<string, SourceRow>)
      ensures rows == rows0
    {
      rows := rows0;
    }

    /** `scrape_source`: dispatch on the lowercased type, turn any exception into an
        `error: <class>` status with count 0, and record the attempt in every case. */
    method ScrapeSource(net: Network, src: Source, maxItems: int, now: int) returns (res: ScrapeResult)
      modifies this
      ensures res == ResultOf(net, src, maxItems, now)
      ensures rows == Recorded(old(rows), res, now)
    {
      var sourceType := Lower(src.sourceType);
      var status := Ok;
      var count: nat := 0;
      var scraped: Result<nat, string> := Success(0);
      if sourceType == "reddit" {
        scraped := ScrapeReddit(net, src.id, src.url, maxItems, now);
      } else if sourceType == "rss" || sourceType == "youtube" {
        scraped := ScrapeRss(net, src.id, src.url, maxItems, now);
      } else if sourceType == "page" || sourceType == "website" {
        scraped := ScrapePage(net, src.id, src.url, now);
      } else {
        status := UnknownType(sourceType);
      }
      if scraped.Failure? {
        status := Error(scraped.error);
      } else if status == Ok {
        count := scraped.value;
      }
      res := ScrapeResult(src.id, count, status);
      rows := Recorded(rows, res, now);
    }

    /** `scrape_project`: scrape the enabled sources in order, one result each. */
    method ScrapeProject(net: Network, sources: seq<Source>, maxItems: int, now: int) returns (results: seq<ScrapeResult>)
      modifies this
      ensures results == ResultsOf(net, Filter(sources, IsEnabled), maxItems, now)
      ensures rows == RecordedAll(old(rows), results, now)
    {
      var enabled := Filter(sources, IsEnabled);
      results := [];
      for i := 0 to |enabled|
        invariant results == ResultsOf(net, enabled[..i], maxItems, now)
        invariant rows == RecordedAll(old(rows), results, now)
      {
        assert enabled[..i + 1][..i] == enabled[..i];
        var res := ScrapeSource(net, enabled[i], maxItems, now);
        results := results + [res];
        assert results[..|results| - 1] == results[..i];
      }
      assert enabled[..|enabled|] == enabled;
    }
  }
}
