/** The parts of Python's `urllib.parse` that the scrapers use: `urlsplit`/`urlparse`, the
    re-assembly `urlunparse` performs for a URL with a network location, `parse_qs` with its
    default flags, and `urlencode` of one value per key. Percent-decoding and -encoding are
    not modelled: keys and values are taken as written. */
module Url {
  import opened Wrappers
  import opened Text

  predicate AsciiAlpha(c: char) {
    'a' <= c <= 'z' || 'A' <= c <= 'Z'
  }

  predicate SchemeChar(c: char) {
    AsciiAlpha(c) || '0' <= c <= '9' || c == '+' || c == '-' || c == '.'
  }

  /** What `urlsplit` accepts as a scheme: an ASCII letter, then scheme characters. */
  predicate IsScheme(s: string) {
    |s| > 0 && AsciiAlpha(s[0]) && forall i :: 0 <= i < |s| ==> SchemeChar(s[i])
  }

  datatype Parts = Parts(scheme: string, netloc: string, path: string, query: string, fragment: string)

  /** The index of the first character of `s` in `stops`, or `|s|`. */
  function Stop(s: string, stops: set<char>): (r: nat)
    ensures r <= |s|
    ensures forall i :: 0 <= i < r ==> s[i] !in stops
    ensures r < |s| ==> s[r] in stops
  {
    if s == [] then 0 else if s[0] in stops then 0 else 1 + Stop(s[1..], stops)
  }

  const NetlocStops: set<char> := {'/', '?', '#'}

  /** The scheme (lowercased) and the rest, split at the first `:` when what precedes it
      is a scheme. */
  function SplitScheme(u: string): (string, string) {
    var i := FindChar(u, ':');
    if i > 0 && IsScheme(u[..i]) then (Lower(u[..i]), u[i + 1..]) else ([], u)
  }

  /** The network location after a leading `//`, up to the first `/`, `?` or `#`. */
  function SplitNetloc(rest: string): (string, string) {
    if StartsWith(rest, "//") then
      var j := Stop(rest[2..], NetlocStops);
      (rest[2..2 + j], rest[2 + j..])
    else ([], rest)
  }

  /** The fragment after the first `#`, then the query after the first `?`; the path is
      what remains. */
  function SplitRest(scheme: string, netloc: string, r2: string): Parts {
    var f := CutAt(r2, '#');
    var q := CutAt(f.0, '?');
    Parts(scheme, netloc, q.0, q.1, f.1)
  }

  /** `s.split(c, 1)` read as the part before the first `c` and the part after it (empty
      when there is no `c`). */
  function CutAt(s: string, c: char): (r: (string, string))
    ensures |r.0| <= |s| && r.0 == s[..|r.0|] && c !in r.0
  {
    var k := FindChar(s, c);
    if k >= 0 then (s[..k], s[k + 1..]) else (s, [])
  }

  lemma CutAtAfter(s: string, c: char, x: char)
    ensures x in CutAt(s, c).1 ==> x in s
  {
    var k := FindChar(s, c);
    if k >= 0 && x in s[k + 1..] {
      var i :| 0 <= i < |s[k + 1..]| && s[k + 1..][i] == x;
      assert s[k + 1 + i] == x;
    }
  }

  /** `urlsplit(u)`. */
  function SplitUrl(u: string): Parts {
    var s := SplitScheme(u);
    var n := SplitNetloc(s.1);
    SplitRest(s.0, n.0, n.1)
  }

  /** `urlunsplit` for parts with a network location. */
  function Unsplit(p: Parts): string {
    SchemePrefix(p.scheme) + ("//" + p.netloc + Tail(p))
  }

  function SchemePrefix(scheme: string): string {
    if scheme != [] then scheme + ":" else []
  }

  /** The path, query and fragment as assembled. */
  function Tail(p: Parts): string {
    p.path + (QueryPart(p.query) + FragmentPart(p.fragment))
  }

  function QueryPart(query: string): string {
    if query != [] then "?" + query else []
  }

  function FragmentPart(fragment: string): string {
    if fragment != [] then "#" + fragment else []
  }

  /** Parts that `urlsplit` can produce together with a network location. */
  predicate Canonical(p: Parts) {
    (p.scheme == [] || (IsScheme(p.scheme) && Lower(p.scheme) == p.scheme))
    && p.netloc != [] && (forall i :: 0 <= i < |p.netloc| ==> p.netloc[i] !in NetlocStops)
    && (p.path == [] || p.path[0] == '/')
    && '?' !in p.path && '#' !in p.path && '#' !in p.query
  }

  lemma {:induction false} FindCharConcat(a: string, b: string, c: char)
    ensures c in a ==> FindChar(a + b, c) == FindChar(a, c)
    ensures c !in a ==> FindChar(a + b, c) == (if c in b then |a| + FindChar(b, c) else -1)
    decreases |a|
  {
    if a == [] {
      assert a + b == b;
    } else {
      assert (a + b)[0] == a[0];
      assert (a + b)[1..] == a[1..] + b;
      FindCharConcat(a[1..], b, c);
      assert c in a <==> c == a[0] || c in a[1..];
    }
  }

  /** The first `sep` of `a + [sep] + rest` is the one after `a`. */
  lemma FirstSep(a: string, rest: string, sep: char)
    requires sep !in a
    ensures FindChar(a + [sep] + rest, sep) == |a|
    ensures (a + [sep] + rest)[..|a|] == a && (a + [sep] + rest)[|a| + 1..] == rest
  {
    FirstSepIndex(a, [sep] + rest, sep);
    SepSlices(a, rest, sep);
  }

  lemma FirstSepIndex(a: string, b: string, sep: char)
    requires sep !in a && b != [] && b[0] == sep
    ensures FindChar(a + b, sep) == |a|
  {
    FindCharConcat(a, b, sep);
  }

  lemma SepSlices(a: string, rest: string, sep: char)
    ensures a + [sep] + rest == a + ([sep] + rest)
    ensures (a + [sep] + rest)[..|a|] == a && (a + [sep] + rest)[|a| + 1..] == rest
  {
  }

  lemma FindCharAbsent(s: string, c: char)
    requires c !in s
    ensures FindChar(s, c) == -1
  {
  }

  lemma {:induction false} StopAt(s: string, stops: set<char>, k: nat)
    requires k <= |s| && (forall i :: 0 <= i < k ==> s[i] !in stops) && (k < |s| ==> s[k] in stops)
    ensures Stop(s, stops) == k
    decreases k
  {
    if k > 0 {
      StopAt(s[1..], stops, k - 1);
    }
  }

  lemma LowerIdempotent(s: string)
    ensures Lower(Lower(s)) == Lower(s)
  {
  }

  lemma LowerScheme(s: string)
    requires IsScheme(s)
    ensures IsScheme(Lower(s)) && Lower(Lower(s)) == Lower(s)
  {
    LowerIdempotent(s);
  }

  lemma SplitSchemeUnsplit(p: Parts)
    requires Canonical(p)
    ensures SplitScheme(Unsplit(p)) == (p.scheme, "//" + p.netloc + Tail(p))
  {
    var rest := "//" + p.netloc + Tail(p);
    if p.scheme != [] {
      assert ':' !in p.scheme;
      FirstSep(p.scheme, rest, ':');
      assert Unsplit(p) == p.scheme + [':'] + rest;
    } else {
      assert Unsplit(p) == rest;
      assert rest[0] == '/';
    }
  }

  lemma SplitNetlocUnsplit(p: Parts)
    requires Canonical(p)
    ensures SplitNetloc("//" + p.netloc + Tail(p)) == (p.netloc, Tail(p))
  {
    var rest := "//" + p.netloc + Tail(p);
    var s := p.netloc + Tail(p);
    assert rest[2..] == s;
    assert forall i :: 0 <= i < |p.netloc| ==> s[i] == p.netloc[i];
    if |Tail(p)| > 0 {
      TailStarts(p);
      assert s[|p.netloc|] == Tail(p)[0];
    }
    StopAt(s, NetlocStops, |p.netloc|);
    assert rest[2..2 + |p.netloc|] == p.netloc;
    assert rest[2 + |p.netloc|..] == Tail(p);
  }

  /** The assembled tail is empty or starts with `/`, `?` or `#`. */
  lemma TailStarts(p: Parts)
    requires Canonical(p)
    ensures Tail(p) != [] ==> Tail(p)[0] in NetlocStops
  {
  }

  /** Cutting `a`, then `c` and `b` when `b` is not empty, at the first `c` gives `a` and `b`. */
  lemma CutJoin(a: string, b: string, c: char)
    requires c !in a
    ensures CutAt(a + (if b != [] then [c] + b else []), c) == (a, b)
  {
    if b != [] {
      FirstSep(a, b, c);
      assert a + ([c] + b) == a + [c] + b;
    } else {
      assert a + [] == a;
      FindCharAbsent(a, c);
    }
  }

  lemma SplitTail(p: Parts)
    requires Canonical(p)
    ensures SplitRest(p.scheme, p.netloc, Tail(p)) == p
  {
    var pq := p.path + QueryPart(p.query);
    assert Tail(p) == pq + FragmentPart(p.fragment);
    assert '#' !in pq;
    CutJoin(pq, p.fragment, '#');
    CutJoin(p.path, p.query, '?');
  }

  /** Splitting an assembled URL gives back its parts. */
  lemma SplitUnsplit(p: Parts)
    requires Canonical(p)
    ensures SplitUrl(Unsplit(p)) == p
  {
    SplitSchemeUnsplit(p);
    SplitNetlocUnsplit(p);
    SplitTail(p);
  }

  /** The tail after a network location splits into a path that is empty or starts with
      `/` and contains neither `?` nor `#`, and a query without `#`. */
  lemma RestCanonical(scheme: string, netloc: string, r2: string)
    requires r2 == [] || r2[0] in NetlocStops
    ensures var p := SplitRest(scheme, netloc, r2);
      (p.path == [] || p.path[0] == '/') && '?' !in p.path && '#' !in p.path && '#' !in p.query
  {
    var f := CutAt(r2, '#');
    var q := CutAt(f.0, '?');
    if q.0 != [] {
      assert q.0[0] == f.0[0] == r2[0];
    }
    assert forall x :: x in q.0 ==> x in f.0;
    CutAtAfter(f.0, '?', '#');
  }

  /** Every URL with a network location splits into canonical parts, so assembling them
      and splitting again gives the same parts. */
  lemma SplitIsCanonical(u: string)
    requires SplitUrl(u).netloc != []
    ensures Canonical(SplitUrl(u))
  {
    var s := SplitScheme(u);
    if s.0 != [] {
      LowerScheme(u[..FindChar(u, ':')]);
    }
    var n := SplitNetloc(s.1);
    var j := Stop(s.1[2..], NetlocStops);
    assert n.1 == s.1[2..][j..];
    RestCanonical(s.0, n.0, n.1);
  }

  // ----- query strings -----

  /** `parse_qsl` with the default flags on the pieces between `&`: a piece without `=`
      and a piece with an empty value are dropped; the key is what precedes the first `=`. */
  function Pairs(pieces: seq<string>): (r: seq<(string, string)>)
    ensures forall i :: 0 <= i < |r| ==> r[i].1 != []
  {
    if pieces == [] then []
    else
      var rest := Pairs(pieces[1..]);
      var i := FindChar(pieces[0], '=');
      if i < 0 || pieces[0][i + 1..] == [] then rest
      else [(pieces[0][..i], pieces[0][i + 1..])] + rest
  }

  /** The first value of `key`, if any. */
  function Lookup(pairs: seq<(string, string)>, key: string): (r: Option<string>)
    ensures r.Some? <==> exists i :: 0 <= i < |pairs| && pairs[i].0 == key
    ensures r.Some? ==> exists i :: 0 <= i < |pairs| && pairs[i] == (key, r.value)
  {
    if pairs == [] then None
    else if pairs[0].0 == key then Some(pairs[0].1)
    else
      var r := Lookup(pairs[1..], key);
      assert r.Some? ==> exists i :: 0 <= i < |pairs[1..]| && pairs[1..][i] == (key, r.value);
      r
  }

  /** The keys in order of first appearance, each with its first value: the dictionary
      `{k: v[0] for k, v in parse_qs(q).items()}`. */
  function FirstValues(pairs: seq<(string, string)>): (r: seq<(string, string)>)
    decreases |pairs|
  {
    if pairs == [] then []
    else
      var rest := FirstValues(pairs[..|pairs| - 1]);
      var last := pairs[|pairs| - 1];
      if Lookup(rest, last.0).Some? then rest else rest + [last]
  }

  /** `parse_qs(q)` reduced to the first value of each key. */
  function ParseQuery(q: string): seq<(string, string)> {
    FirstValues(Pairs(Split(q, '&')))
  }

  /** `urlencode` of a dictionary of one value per key. */
  function EncodeQuery(pairs: seq<(string, string)>): string {
    Join(Pieces(pairs), "&")
  }

  function Pieces(pairs: seq<(string, string)>): (r: seq<string>)
    ensures |r| == |pairs| && forall i :: 0 <= i < |pairs| ==> r[i] == pairs[i].0 + "=" + pairs[i].1
  {
    if pairs == [] then [] else [pairs[0].0 + "=" + pairs[0].1] + Pieces(pairs[1..])
  }

  /** `d.setdefault(key, value)`: appends the pair when the key is absent. */
  function SetDefault(pairs: seq<(string, string)>, key: string, value: string): (r: seq<(string, string)>)
    ensures Lookup(r, key) == Some(Lookup(pairs, key).GetOr(value))
    ensures forall k :: k != key ==> Lookup(r, k) == Lookup(pairs, k)
  {
    LookupAppend(pairs, key, value);
    if Lookup(pairs, key).Some? then pairs else pairs + [(key, value)]
  }

  lemma {:induction false} LookupAppend(pairs: seq<(string, string)>, key: string, value: string)
    ensures forall k :: (Lookup(pairs + [(key, value)], k)
                         == if Lookup(pairs, k).Some? then Lookup(pairs, k) else if k == key then Some(value) else None)
    decreases |pairs|
  {
    if pairs != [] {
      LookupAppend(pairs[1..], key, value);
      assert (pairs + [(key, value)])[1..] == pairs[1..] + [(key, value)];
    }
  }

  /** A query dictionary `urlencode` writes and `parse_qs` reads back unchanged: distinct
      keys with neither `&` nor `=`, and non-empty values without `&`. */
  predicate WellFormed(pairs: seq<(string, string)>) {
    (forall i, j :: 0 <= i < j < |pairs| ==> pairs[i].0 != pairs[j].0)
    && forall i :: 0 <= i < |pairs| ==>
         '&' !in pairs[i].0 && '=' !in pairs[i].0 && pairs[i].1 != [] && '&' !in pairs[i].1
  }

  lemma {:induction false} SplitJoin(xs: seq<string>, sep: char)
    requires |xs| >= 1 && forall i :: 0 <= i < |xs| ==> sep !in xs[i]
    ensures Split(Join(xs, [sep]), sep) == xs
    decreases |xs|
  {
    if |xs| > 1 {
      SplitJoin(xs[1..], sep);
      var rest := Join(xs[1..], [sep]);
      assert Join(xs, [sep]) == xs[0] + [sep] + rest;
      FirstSep(xs[0], rest, sep);
      assert [xs[0]] + xs[1..] == xs;
    } else {
      FindCharAbsent(xs[0], sep);
    }
  }

  lemma {:induction false} PairsPieces(pairs: seq<(string, string)>)
    requires WellFormed(pairs)
    ensures Pairs(Pieces(pairs)) == pairs
    decreases |pairs|
  {
    if pairs != [] {
      PairsPieces(pairs[1..]);
      PieceSplits(pairs[0].0, pairs[0].1);
      assert Pieces(pairs)[1..] == Pieces(pairs[1..]);
    }
  }

  /** `k=v` splits at its first `=` back into `k` and `v` when `k` holds no `=`. */
  lemma PieceSplits(k: string, v: string)
    requires '=' !in k
    ensures var piece := k + "=" + v;
      FindChar(piece, '=') == |k| && piece[..|k|] == k && piece[|k| + 1..] == v
  {
    FindCharConcat(k, "=" + v, '=');
    PieceSlices(k, v);
  }

  lemma PieceSlices(k: string, v: string)
    ensures var piece := k + "=" + v;
      |piece| == |k| + 1 + |v| && piece[..|k|] == k && piece[|k| + 1..] == v
  {
    var piece := k + "=" + v;
    assert piece[..|k|] == k;
    assert piece[|k| + 1..] == v;
  }

  lemma {:induction false} FirstValuesDistinct(pairs: seq<(string, string)>)
    requires forall i, j :: 0 <= i < j < |pairs| ==> pairs[i].0 != pairs[j].0
    ensures FirstValues(pairs) == pairs
    decreases |pairs|
  {
    if pairs != [] {
      var init := pairs[..|pairs| - 1];
      FirstValuesDistinct(init);
      assert init + [pairs[|pairs| - 1]] == pairs;
    }
  }

  /** `parse_qs` reads back what `urlencode` wrote. */
  lemma ParseEncode(pairs: seq<(string, string)>)
    requires WellFormed(pairs)
    ensures ParseQuery(EncodeQuery(pairs)) == pairs
  {
    if pairs == [] {
      assert Split([], '&') == [[]];
    } else {
      SplitJoin(Pieces(pairs), '&');
    }
    PairsPieces(pairs);
    FirstValuesDistinct(pairs);
  }

  lemma {:induction false} PairsShape(pieces: seq<string>)
    requires forall i :: 0 <= i < |pieces| ==> '&' !in pieces[i]
    ensures forall i :: 0 <= i < |Pairs(pieces)| ==>
      '&' !in Pairs(pieces)[i].0 && '=' !in Pairs(pieces)[i].0 && Pairs(pieces)[i].1 != [] && '&' !in Pairs(pieces)[i].1
    decreases |pieces|
  {
    if pieces != [] {
      PairsShape(pieces[1..]);
    }
  }

  lemma {:induction false} FirstValuesShape(pairs: seq<(string, string)>)
    ensures forall i, j :: 0 <= i < j < |FirstValues(pairs)| ==> FirstValues(pairs)[i].0 != FirstValues(pairs)[j].0
    ensures forall x :: x in FirstValues(pairs) ==> x in pairs
    ensures forall k :: Lookup(FirstValues(pairs), k) == Lookup(pairs, k)
    decreases |pairs|
  {
    if pairs != [] {
      var init := pairs[..|pairs| - 1];
      var last := pairs[|pairs| - 1];
      FirstValuesShape(init);
      LookupAppend(init, last.0, last.1);
      LookupAppend(FirstValues(init), last.0, last.1);
      assert init + [last] == pairs;
    }
  }

  /** A parsed query is well formed, and each key reads its first value. */
  lemma ParsedWellFormed(q: string)
    ensures WellFormed(ParseQuery(q))
    ensures forall k :: Lookup(ParseQuery(q), k) == Lookup(Pairs(Split(q, '&')), k)
  {
    var pairs := Pairs(Split(q, '&'));
    PairsShape(Split(q, '&'));
    FirstValuesShape(pairs);
    var r := FirstValues(pairs);
    forall i | 0 <= i < |r|
      ensures '&' !in r[i].0 && '=' !in r[i].0 && r[i].1 != [] && '&' !in r[i].1
    {
      assert r[i] in pairs;
    }
  }
}
