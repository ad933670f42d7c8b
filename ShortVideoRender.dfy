/** The decisions `render_short_video` in app/media/short_video.py takes around its
    external calls: which speech-recognition words become captions, the evenly spaced
    fallback captions, the all-or-nothing scene images with their placeholders, the
    duration read from the content and the seconds each image is shown. */
module ShortVideoRender {
  import opened Wrappers
  import opened Json
  import opened Seqs
  import opened Text
  import ContentHash
  import ShortVideo

  // ---------------------------------------------------------------------------------
  // Speech-recognition words

  /** `for x in j`: a list yields its items, a string its characters and a dict its keys;
      `None`, a bool or an int raises `TypeError` (modelled as `None`). */
  function Iterate(j: Json): (r: Option<seq<Json>>)
    ensures j.JArr? ==> r == Some(j.items)
    ensures r.None? <==> j.JNull? || j.JBool? || j.JInt?
    ensures r.Some? && !j.JArr? ==> forall i :: 0 <= i < |r.value| ==> r.value[i].JStr?
  {
    match j
    case JArr(items) => Some(items)
    case JStr(s) => Some(Map(s, (c: char) => JStr([c])))
    case JObj(fields) => Some(Map(fields, (p: (string, Json)) => JStr(p.0)))
    case _ => None
  }

  /** A word the karaoke writer accepts: a dict with the keys "start", "end" and "word". */
  predicate IsTimedWord(w: Json) {
    w.JObj? && HasKey(w.fields, "start") && HasKey(w.fields, "end") && HasKey(w.fields, "word")
  }

  /** One segment of the fallback loop: `for w in seg.get("words") or []: words.append(w)`.
      A segment that is not a dict (no `.get`) or whose words cannot be iterated raises. */
  function SegmentStep(acc: Option<seq<Json>>, seg: Json): (r: Option<seq<Json>>)
    ensures r.Some? ==> acc.Some? && acc.value <= r.value
  {
    if acc.None? || !seg.JObj? then None
    else
      var sw := Get(seg, "words");
      if !Truthy(sw) then acc
      else
        match Iterate(sw)
        case None => None
        case Some(xs) => Some(acc.value + xs)
  }

  /** The words of all segments, in segment order, or `None` when a segment raises. */
  function SegmentWords(segs: seq<Json>): Option<seq<Json>>
    decreases |segs|
  {
    if segs == [] then Some([])
    else SegmentStep(SegmentWords(segs[..|segs| - 1]), segs[|segs| - 1])
  }

  /** The list the filter loop iterates: `asr.get("words") or []`, replaced by the segment
      words when it is empty and `asr["segments"]` is a list. */
  function AsrItems(asr: Json): Option<seq<Json>>
    requires asr.JObj?
  {
    var top := Get(asr, "words");
    if Truthy(top) then Iterate(top)
    else
      var segs := Get(asr, "segments");
      if segs.JArr? then SegmentWords(segs.items) else Some([])
  }

  /** `normalized` after the speech-recognition block: empty when recognition is disabled,
      when `transcribe_audio` raises, when it returns something other than a dict, or when
      iterating its words raises; otherwise the timed dict words, in order. */
  function AsrWords(enableAsr: bool, asr: Result<Json, Exc>): (r: seq<Json>)
    ensures forall i :: 0 <= i < |r| ==> IsTimedWord(r[i])
    ensures !enableAsr || asr.Failure? ==> r == []
  {
    if !enableAsr || asr.Failure? || !asr.value.JObj? then []
    else
      match AsrItems(asr.value)
      case None => []
      case Some(items) => Filter(items, IsTimedWord)
  }

  /** The words of segments that are all dicts holding a list of words. */
  function ListedWords(segs: seq<Json>): seq<Json>
    decreases |segs|
  {
    if segs == [] then []
    else
      var last := segs[|segs| - 1];
      var sw := Get(last, "words");
      ListedWords(segs[..|segs| - 1]) + (if sw.JArr? then sw.items else [])
  }

  predicate WellFormedSegments(segs: seq<Json>) {
    forall i :: 0 <= i < |segs| ==> segs[i].JObj? && (Get(segs[i], "words").JArr? || Get(segs[i], "words") == JNull)
  }

  lemma {:induction false} SegmentWordsListed(segs: seq<Json>)
    requires WellFormedSegments(segs)
    ensures SegmentWords(segs) == Some(ListedWords(segs))
    decreases |segs|
  {
    if segs != [] {
      var init := segs[..|segs| - 1];
      assert WellFormedSegments(init) by {
        forall i | 0 <= i < |init| ensures init[i] == segs[i] { }
      }
      SegmentWordsListed(init);
      var acc := ListedWords(init);
      assert acc + [] == acc;
    }
  }

  /** A non-empty top-level word list wins: the segments are not looked at. */
  lemma TopLevelWordsWin(asr: Json, items: seq<Json>)
    requires asr.JObj? && Get(asr, "words") == JArr(items) && items != []
    ensures AsrWords(true, Success(asr)) == Filter(items, IsTimedWord)
  {
  }

  /** With an empty or missing top-level list, the timed words of the segments, in order. */
  lemma SegmentFallback(asr: Json, segs: seq<Json>)
    requires asr.JObj? && !Truthy(Get(asr, "words")) && Get(asr, "segments") == JArr(segs)
    requires WellFormedSegments(segs)
    ensures AsrWords(true, Success(asr)) == Filter(ListedWords(segs), IsTimedWord)
  {
    SegmentWordsListed(segs);
  }

  /** A segment that is not a dict makes the whole block fail: no recognised words. */
  lemma {:induction false} BadSegmentDropsAll(segs: seq<Json>, i: nat)
    requires i < |segs| && !segs[i].JObj?
    ensures SegmentWords(segs).None?
    decreases |segs|
  {
    var init := segs[..|segs| - 1];
    if i < |segs| - 1 {
      assert init[i] == segs[i];
      BadSegmentDropsAll(init, i);
    }
  }

  /** The filter loop: `for w in words: if isinstance(w, dict) and "start" in w and ...`. */
  method KeepTimed(words: seq<Json>) returns (normalized: seq<Json>)
    ensures normalized == Filter(words, IsTimedWord)
  {
    normalized := [];
    var i := 0;
    while i < |words|
      invariant 0 <= i <= |words|
      invariant normalized == Filter(words[..i], IsTimedWord)
    {
      var w := words[i];
      assert words[..i + 1] == words[..i] + [w];
      FilterAppend(words[..i], w, IsTimedWord);
      if w.JObj? && HasKey(w.fields, "start") && HasKey(w.fields, "end") && HasKey(w.fields, "word") {
        normalized := normalized + [w];
      }
      i := i + 1;
    }
    assert words[..i] == words;
  }

  /** `words.append(w)` for each `w` of one segment's iterable. */
  method AppendAll(words: seq<Json>, xs: seq<Json>) returns (r: seq<Json>)
    ensures r == words + xs
  {
    r := words;
    var j := 0;
    while j < |xs|
      invariant 0 <= j <= |xs|
      invariant r == words + xs[..j]
    {
      assert xs[..j + 1] == xs[..j] + [xs[j]];
      r := r + [xs[j]];
      j := j + 1;
    }
    assert xs[..j] == xs;
  }

  /** The segment loop; `None` stands for the exception that ends the block. */
  method CollectSegmentWords(segs: seq<Json>) returns (words: Option<seq<Json>>)
    ensures words == SegmentWords(segs)
  {
    var acc: seq<Json> := [];
    var i := 0;
    while i < |segs|
      invariant 0 <= i <= |segs|
      invariant SegmentWords(segs[..i]) == Some(acc)
    {
      var seg := segs[i];
      assert segs[..i + 1][..i] == segs[..i];
      if !seg.JObj? {
        BadSegmentDropsAll(segs, i);
        return None;
      }
      var sw := Get(seg, "words");
      if Truthy(sw) {
        var xs := Iterate(sw);
        if xs.None? {
          NoneStaysNone(segs, i + 1);
          return None;
        }
        acc := AppendAll(acc, xs.value);
      }
      i := i + 1;
    }
    assert segs[..i] == segs;
    words := Some(acc);
  }

  /** Once a prefix of the segments raised, so do all the segments. */
  lemma {:induction false} NoneStaysNone(segs: seq<Json>, k: nat)
    requires k <= |segs| && SegmentWords(segs[..k]).None?
    ensures SegmentWords(segs).None?
    decreases |segs| - k
  {
    if k < |segs| {
      assert segs[..k + 1][..k] == segs[..k];
      NoneStaysNone(segs, k + 1);
    } else {
      assert segs[..k] == segs;
    }
  }

  /** The speech-recognition block of `render_short_video`. `asr` is the outcome of
      `transcribe_audio`, a failure when it raises. */
  method NormalizeAsr(enableAsr: bool, asr: Result<Json, Exc>) returns (normalized: seq<Json>)
    ensures normalized == AsrWords(enableAsr, asr)
  {
    normalized := [];
    if !enableAsr || asr.Failure? || !asr.value.JObj? {
      return;
    }
    var a := asr.value;
    var words: Option<seq<Json>>;
    var top := Get(a, "words");
    if Truthy(top) {
      words := Iterate(top);
    } else {
      var segs := Get(a, "segments");
      if segs.JArr? {
        words := CollectSegmentWords(segs.items);
      } else {
        words := Some([]);
      }
    }
    if words.Some? {
      normalized := KeepTimed(words.value);
    }
  }

  // ---------------------------------------------------------------------------------
  // Evenly spaced fallback captions

  /** `script.split()`, or the words of the captions joined by spaces when the script has
      none. */
  function FallbackTokens(script: string, captions: seq<string>): (r: seq<string>)
    ensures ContentHash.Words(script) != [] ==> r == ContentHash.Words(script)
  {
    var tokens := ContentHash.Words(script);
    if tokens == [] && captions != [] then ContentHash.Words(Join(captions, " ")) else tokens
  }

  /** The duration the fallback spreads the tokens over, in centiseconds: the probed audio
      length, or `duration_seconds` when probing gave 0. */
  function FallbackDurationCs(probedCs: int, durationSeconds: int): (r: int)
    ensures probedCs != 0 ==> r == probedCs
    ensures probedCs == 0 ==> r == durationSeconds * 100
  {
    if probedCs != 0 then probedCs else durationSeconds * 100
  }

  /** The tokens laid end to end from `t`, each `step` long. */
  function Spaced(tokens: seq<string>, t: int, step: int): (r: seq<ShortVideo.Word>)
    ensures |r| == |tokens|
    decreases |tokens|
  {
    if tokens == [] then []
    else [ShortVideo.Word(t, t + step, tokens[0])] + Spaced(tokens[1..], t + step, step)
  }

  /** The spaced words carry the tokens in order and last `step` each. */
  lemma {:induction false} SpacedTexts(tokens: seq<string>, t: int, step: int)
    ensures var r := Spaced(tokens, t, step);
      forall i :: 0 <= i < |r| ==> r[i].text == tokens[i] && r[i].endCs == r[i].startCs + step
    decreases |tokens|
  {
    if tokens != [] {
      SpacedTexts(tokens[1..], t + step, step);
    }
  }

  /** Each word starts where the one before it ends. */
  predicate Contiguous(r: seq<ShortVideo.Word>) {
    forall i :: 0 < i < |r| ==> r[i].startCs == r[i - 1].endCs
  }

  /** The spaced words follow each other without gaps or overlaps. */
  lemma {:induction false} SpacedContiguous(tokens: seq<string>, t: int, step: int)
    ensures Contiguous(Spaced(tokens, t, step))
    decreases |tokens|
  {
    if |tokens| > 1 {
      SpacedContiguous(tokens[1..], t + step, step);
      var rest := Spaced(tokens[1..], t + step, step);
      var r := Spaced(tokens, t, step);
      assert r == [ShortVideo.Word(t, t + step, tokens[0])] + rest;
      assert rest[0].startCs == t + step;
      forall i | 0 < i < |r|
        ensures r[i].startCs == r[i - 1].endCs
      {
        assert r[i] == rest[i - 1];
        if i > 1 {
          assert r[i - 1] == rest[i - 2];
        }
      }
    }
  }

  /** The first spaced word starts at `t`, the last ends `|tokens| * step` after it. */
  lemma {:induction false} SpacedEnds(tokens: seq<string>, t: int, step: int)
    requires tokens != []
    ensures var r := Spaced(tokens, t, step);
      r[0].startCs == t && r[|r| - 1].endCs == t + |tokens| * step
    decreases |tokens|
  {
    if |tokens| > 1 {
      SpacedEnds(tokens[1..], t + step, step);
      assert (t + step) + (|tokens| - 1) * step == t + |tokens| * step;
    }
  }

  /** The fallback captions: nothing without tokens or a positive duration; otherwise the
      tokens from 0, each `duration / len(tokens)` long (rounded down to a centisecond). */
  function FallbackWords(tokens: seq<string>, durationCs: int): seq<ShortVideo.Word> {
    if tokens == [] || durationCs <= 0 then [] else Spaced(tokens, 0, durationCs / |tokens|)
  }

  /** The fallback captions carry the tokens in order, one after the other from 0, and
      never run past the audio they are spread over. */
  lemma FallbackWithinDuration(tokens: seq<string>, durationCs: int)
    requires tokens != [] && durationCs > 0
    ensures var r := FallbackWords(tokens, durationCs);
      && |r| == |tokens| && (forall i :: 0 <= i < |r| ==> r[i].text == tokens[i])
      && Contiguous(r) && r[0].startCs == 0 && 0 <= r[|r| - 1].endCs <= durationCs
  {
    var step := durationCs / |tokens|;
    SpacedTexts(tokens, 0, step);
    SpacedContiguous(tokens, 0, step);
    SpacedEnds(tokens, 0, step);
    TruncDivBounds(durationCs, |tokens|);
  }

  /** The fallback loop: `t` advances by `step` after every token. */
  method SpreadTokens(tokens: seq<string>, durationCs: int) returns (normalized: seq<ShortVideo.Word>)
    ensures normalized == FallbackWords(tokens, durationCs)
  {
    normalized := [];
    if tokens == [] || durationCs <= 0 {
      return;
    }
    var step := durationCs / |tokens|;
    var t := 0;
    var i := 0;
    while i < |tokens|
      invariant 0 <= i <= |tokens|
      invariant Spaced(tokens, 0, step) == normalized + Spaced(tokens[i..], t, step)
    {
      assert tokens[i..][1..] == tokens[i + 1..];
      normalized := normalized + [ShortVideo.Word(t, t + step, tokens[i])];
      t := t + step;
      i := i + 1;
    }
  }

  /** Where the karaoke writer's words come from. */
  datatype CaptionWords = Recognised(words: seq<Json>) | Evenly(spaced: seq<ShortVideo.Word>)

  /** The captions of `render_short_video`: the recognised words when there are any,
      otherwise the tokens of the script (or captions) spread over the audio. */
  method ChooseCaptions(enableAsr: bool, asr: Result<Json, Exc>, script: string, captions: seq<string>,
                        probedCs: int, durationSeconds: int) returns (c: CaptionWords)
    ensures AsrWords(enableAsr, asr) != [] ==> c == Recognised(AsrWords(enableAsr, asr))
    ensures AsrWords(enableAsr, asr) == [] ==>
      c == Evenly(FallbackWords(FallbackTokens(script, captions), FallbackDurationCs(probedCs, durationSeconds)))
  {
    var normalized := NormalizeAsr(enableAsr, asr);
    if normalized != [] {
      return Recognised(normalized);
    }
    var duration := if probedCs != 0 then probedCs else durationSeconds * 100;
    var tokens := ContentHash.Words(script);
    if tokens == [] && captions != [] {
      tokens := ContentHash.Words(Join(captions, " "));
    }
    var spaced := SpreadTokens(tokens, duration);
    c := Evenly(spaced);
  }

  // ---------------------------------------------------------------------------------
  // Scene images

  /** `f"scene_{idx:02d}.png"`. */
  function SceneName(idx: nat): string {
    "scene_" + ZeroPad(idx, 2) + ".png"
  }

  /** Two scenes never share an image file. */
  lemma SceneNamesDistinct(i: nat, j: nat)
    requires i != j
    ensures SceneName(i) != SceneName(j)
  {
    ZeroPadValue(i, 2);
    ZeroPadValue(j, 2);
    MiddleDiffers("scene_", ZeroPad(i, 2), ZeroPad(j, 2), ".png");
  }

  lemma MiddleDiffers(p: string, a: string, b: string, z: string)
    requires a != b
    ensures p + a + z != p + b + z
  {
    if |a| == |b| {
      var k :| 0 <= k < |a| && a[k] != b[k];
      assert (p + a + z)[|p| + k] == a[k];
      assert (p + b + z)[|p| + k] == b[k];
    } else {
      assert |p + a + z| != |p + b + z|;
    }
  }

  /** Every scene's image was produced; `render(idx, prompt)` stands for generating,
      writing and resizing the image of scene `idx` without an exception. */
  predicate AllRendered(prompts: seq<string>, render: (nat, string) -> bool) {
    forall i :: 0 <= i < |prompts| ==> render(i + 1, prompts[i])
  }

  /** The image loop: one file per scene, in scene order, or none at all as soon as one
      scene fails; nothing when generation is disabled or there are no prompts. */
  method SceneImages(enabled: bool, prompts: seq<string>, render: (nat, string) -> bool)
    returns (images: seq<string>)
    ensures images != [] <==> enabled && prompts != [] && AllRendered(prompts, render)
    ensures images != [] ==> |images| == |prompts| && forall i :: 0 <= i < |images| ==> images[i] == SceneName(i + 1)
  {
    images := [];
    if !enabled || prompts == [] {
      return;
    }
    var i := 0;
    while i < |prompts|
      invariant 0 <= i <= |prompts| && |images| == i
      invariant forall j :: 0 <= j < i ==> images[j] == SceneName(j + 1) && render(j + 1, prompts[j])
    {
      if !render(i + 1, prompts[i]) {
        return [];
      }
      images := images + [SceneName(i + 1)];
      i := i + 1;
    }
  }

  /** The texts of the placeholder images: the scene texts, or eight copies of the first
      120 characters of the script ("Scene" when that is empty). */
  function PlaceholderTexts(sceneTexts: seq<string>, script: string): (r: seq<string>)
    ensures sceneTexts != [] ==> r == sceneTexts
    ensures sceneTexts == [] ==> |r| == 8 && forall i :: 0 <= i < 8 ==> r[i] != [] && (r[i] <= script || r[i] == "Scene")
    ensures sceneTexts == [] ==> forall i :: 0 <= i < 8 ==> r[i] == r[0]
    ensures sceneTexts == [] && script == [] ==> r[0] == "Scene"
    ensures sceneTexts == [] && 0 < |script| <= 120 ==> r[0] == script
    ensures sceneTexts == [] && |script| > 120 ==> r[0] == script[..120]
  {
    if sceneTexts != [] then sceneTexts
    else
      var head := PyTake(script, 120);
      var text := if head != [] then head else "Scene";
      seq(8, _ => text)
  }

  // ---------------------------------------------------------------------------------
  // Durations

  /** `int(content.get("duration_seconds") or 45)`: 45 for a falsy value, the value for an
      int, 1 for `True`, the parsed value for a numeric string; `int` raises `ValueError`
      on other strings and `TypeError` on lists and dicts. */
  function DurationSeconds(v: Json): (r: Result<int, Exc>)
    ensures !Truthy(v) ==> r == Success(45)
    ensures v.JInt? && v.i != 0 ==> r == Success(v.i)
    ensures v.JArr? && v.items != [] ==> r.Failure?
  {
    if !Truthy(v) then Success(45)
    else
      match v
      case JInt(i) => Success(i)
      case JBool(_) => Success(1)
      case JStr(s) =>
        (match ParseInt(s)
         case Some(i) => Success(i)
         case None => Failure(OtherError("ValueError")))
      case _ => Failure(OtherError("TypeError"))
  }

  /** A duration written as a decimal string reads back as that duration. */
  lemma DurationOfDecimal(i: int)
    ensures DurationSeconds(JStr(IntToDecimal(i))) == Success(i)
  {
    ParseIntOfIntDecimal(i);
    assert IntToDecimal(i) != [];
  }

  /** `int(a / n)`: true division truncated toward zero. */
  function TruncDiv(a: int, n: int): int
    requires n > 0
  {
    if a >= 0 then a / n else -((-a) / n)
  }

  /** The truncated quotient is the whole number of `n`s in `a`, rounded toward zero. */
  lemma TruncDivBounds(a: int, n: int)
    requires n > 0
    ensures var q := TruncDiv(a, n);
      && (a >= 0 ==> 0 <= q && q * n <= a < q * n + n)
      && (a < 0 ==> q <= 0 && q * n - n < a <= q * n)
  {
    if a >= 0 {
      NatDivBounds(a, n);
    } else {
      NatDivBounds(-a, n);
      NegMul((-a) / n, n);
    }
  }

  lemma NatDivBounds(b: int, n: int)
    requires b >= 0 && n > 0
    ensures 0 <= b / n && (b / n) * n <= b < (b / n) * n + n
  {
  }

  lemma NegMul(x: int, n: int)
    ensures (-x) * n == -(x * n)
  {
  }

  /** `max(2, int(duration_seconds / max(1, len(images))))`. */
  function SecondsPerImage(durationSeconds: int, imageCount: nat): (r: int)
    ensures r >= 2
  {
    var n := if imageCount < 1 then 1 else imageCount;
    var q := TruncDiv(durationSeconds, n);
    if q > 2 then q else 2
  }

  lemma MulLess(x: int, y: int, n: int)
    requires n > 0
    ensures x * n < y * n ==> x < y
  {
    if x >= y {
      assert x * n - y * n == (x - y) * n;
    }
  }

  /** Each image is shown at least two seconds; above that floor the images together fill
      the duration without running past it. */
  lemma SecondsPerImageFill(durationSeconds: int, imageCount: nat)
    requires imageCount >= 1
    ensures var r := SecondsPerImage(durationSeconds, imageCount);
      && (durationSeconds >= 3 * imageCount ==> r * imageCount <= durationSeconds < (r + 1) * imageCount)
      && (durationSeconds < 3 * imageCount ==> r == 2)
  {
    var n := imageCount;
    var q := TruncDiv(durationSeconds, n);
    TruncDivBounds(durationSeconds, n);
    assert (q + 1) * n == q * n + n;
    MulLess(2, q + 1, n);
    MulLess(q, 3, n);
  }
}
