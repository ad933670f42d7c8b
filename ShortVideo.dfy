/** The text and timing rules of app/media/short_video.py: the voice-over chunker, and the
    escaping, time format and Dialogue events of the Advanced SubStation Alpha
    (ASS v4.00+) karaoke file. Times are whole centiseconds. The decisions of
    `render_short_video` are in module ShortVideoRender. */
module ShortVideo {
  import opened Wrappers
  import opened Text
  import opened Seqs
  import opened Json
  import Url
  import Chunking
  import ContentHash

  // ---------------------------------------------------------------------------------
  // Voice-over chunks

  /** `_chunks(text, max_chars)`: the audio chunker, with `max_chars` falling back to the
      `tts_max_chars` setting when the caller gives none. */
  method VoiceoverChunks(text: string, maxChars: Option<nat>, ttsMaxChars: nat) returns (chunks: seq<string>)
    requires maxChars.GetOr(ttsMaxChars) >= 1
    ensures text == [] ==> chunks == []
    ensures chunks == Chunking.ChunksFrom(text, 0, maxChars.GetOr(ttsMaxChars))
  {
    if text == [] {
      return [];
    }
    var limit := if maxChars.None? then ttsMaxChars else maxChars.value;
    chunks := Chunking.Chunks(text, limit);
  }

  // ---------------------------------------------------------------------------------
  // Escaping

  /** `s.replace(c, r)` for a one-character pattern. */
  function ReplaceChar(s: string, c: char, r: string): string {
    if s == [] then [] else (if s[0] == c then r else [s[0]]) + ReplaceChar(s[1..], c, r)
  }

  /** Replacing distributes over concatenation. */
  lemma {:induction false} ReplaceAppend(a: string, b: string, c: char, r: string)
    ensures ReplaceChar(a + b, c, r) == ReplaceChar(a, c, r) + ReplaceChar(b, c, r)
    decreases |a|
  {
    if a != [] {
      ReplaceAppend(a[1..], b, c, r);
      assert (a + b)[1..] == a[1..] + b;
    } else {
      assert a + b == b;
    }
  }

  /** `_escape_ass`: backslashes first, then the two braces. */
  function EscapeAss(s: string): string {
    ReplaceChar(ReplaceChar(ReplaceChar(s, '\\', "\\\\"), '{', "\\{"), '}', "\\}")
  }

  /** The escape of one character: a backslash in front of `\`, `{` and `}`. */
  function EscapeChar(c: char): string {
    if c == '\\' || c == '{' || c == '}' then ['\\', c] else [c]
  }

  /** Escaping character by character. */
  function EscapeEach(s: string): string {
    if s == [] then [] else EscapeChar(s[0]) + EscapeEach(s[1..])
  }

  lemma {:induction false} ReplaceAbsent(s: string, c: char, r: string)
    requires c !in s
    ensures ReplaceChar(s, c, r) == s
    decreases |s|
  {
    if s != [] {
      ReplaceAbsent(s[1..], c, r);
      assert s == [s[0]] + s[1..];
    }
  }

  lemma ReplaceSingle(x: char, c: char, r: string)
    ensures ReplaceChar([x], c, r) == if x == c then r else [x]
  {
    assert [x][1..] == [];
  }

  lemma EscapeOne(c: char)
    ensures EscapeAss([c]) == EscapeChar(c)
  {
    ReplaceSingle(c, '\\', "\\\\");
    var a := ReplaceChar([c], '\\', "\\\\");
    if c == '\\' {
      ReplaceAbsent(a, '{', "\\{");
      ReplaceAbsent(a, '}', "\\}");
    } else {
      ReplaceSingle(c, '{', "\\{");
      var b := ReplaceChar([c], '{', "\\{");
      if c == '{' {
        ReplaceAbsent(b, '}', "\\}");
      } else {
        ReplaceSingle(c, '}', "\\}");
      }
    }
  }

  /** The three chained replacements escape every character exactly once: the backslashes a
      later replacement introduces are never escaped again. */
  lemma {:induction false} EscapeAssEach(s: string)
    ensures EscapeAss(s) == EscapeEach(s)
    decreases |s|
  {
    if s != [] {
      var head := [s[0]];
      var rest := s[1..];
      assert s == head + rest;
      EscapeAssEach(rest);
      ReplaceAppend(head, rest, '\\', "\\\\");
      var a := ReplaceChar(head, '\\', "\\\\");
      var b := ReplaceChar(rest, '\\', "\\\\");
      ReplaceAppend(a, b, '{', "\\{");
      ReplaceAppend(ReplaceChar(a, '{', "\\{"), ReplaceChar(b, '{', "\\{"), '}', "\\}");
      EscapeOne(s[0]);
    }
  }

  /** Reading an escaped text back: a backslash takes the next character literally. */
  function Unescape(s: string): string {
    if s == [] then []
    else if s[0] == '\\' && |s| >= 2 then [s[1]] + Unescape(s[2..])
    else [s[0]] + Unescape(s[1..])
  }

  lemma {:induction false} UnescapeEach(s: string)
    ensures Unescape(EscapeEach(s)) == s
    decreases |s|
  {
    if s != [] {
      UnescapeEach(s[1..]);
      var e := EscapeChar(s[0]);
      var rest := EscapeEach(s[1..]);
      if e == [s[0]] {
        assert ([s[0]] + rest)[1..] == rest;
      } else {
        assert (e + rest)[2..] == rest;
      }
    }
  }

  /** Escaping loses nothing: the subtitle renderer reads the original text back. */
  lemma UnescapeEscapeAss(s: string)
    ensures Unescape(EscapeAss(s)) == s
  {
    EscapeAssEach(s);
    UnescapeEach(s);
  }

  /** A text without backslashes or braces is left as it is. */
  lemma {:induction false} EscapePlain(s: string)
    requires '\\' !in s && '{' !in s && '}' !in s
    ensures EscapeAss(s) == s
    decreases |s|
  {
    EscapeAssEach(s);
    if s != [] {
      assert s[1..] == s[1..] && s == [s[0]] + s[1..];
      EscapePlain(s[1..]);
      EscapeAssEach(s[1..]);
    }
  }

  // ---------------------------------------------------------------------------------
  // Time format

  /** The fields of `H:MM:SS.cc`. */
  datatype AssTime = AssTime(h: int, m: nat, s: nat, cs: nat)

  /** The centiseconds the fields denote. */
  function Total(t: AssTime): int {
    t.h * 360000 + t.m * 6000 + t.s * 100 + t.cs
  }

  /** The decomposition `_format_ass_time` performs on `total_cs`; Python's `//` and `%`
      with a positive divisor floor, as Dafny's do. */
  function Decompose(totalCs: int): (t: AssTime)
    ensures Total(t) == totalCs
    ensures t.m < 60 && t.s < 60 && t.cs < 100
  {
    var h := totalCs / 360000;
    var m := (totalCs % 360000) / 6000;
    var s := (totalCs % 6000) / 100;
    var cs := totalCs % 100;
    DecomposeFields(totalCs, h, m, s, cs);
    AssTime(h, m, s, cs)
  }

  lemma DecomposeFields(totalCs: int, h: int, m: int, s: int, cs: int)
    requires h == totalCs / 360000 && m == (totalCs % 360000) / 6000
    requires s == (totalCs % 6000) / 100 && cs == totalCs % 100
    ensures 0 <= m < 60 && 0 <= s < 60 && 0 <= cs < 100
    ensures h * 360000 + m * 6000 + s * 100 + cs == totalCs
  {
    var r1 := totalCs % 360000;
    assert totalCs == h * 360000 + r1;
    var r2 := r1 % 6000;
    assert r1 == m * 6000 + r2 && 0 <= r2 < 6000;
    assert totalCs == (h * 60 + m) * 6000 + r2;
    assert totalCs % 6000 == r2;
    var r3 := r2 % 100;
    assert r2 == s * 100 + r3;
    assert totalCs == ((h * 60 + m) * 60 + s) * 100 + r3;
    assert totalCs % 100 == r3;
  }

  /** `_format_ass_time` on `total_cs = round(seconds * 100)`. */
  function FormatAssTime(totalCs: int): string {
    var t := Decompose(totalCs);
    var seconds := ZeroPad(t.s, 2) + "." + ZeroPad(t.cs, 2);
    IntToDecimal(t.h) + ":" + ZeroPad(t.m, 2) + ":" + seconds
  }

  /** Reads the fields of an `H:MM:SS.cc` time back. */
  function ParseAssTime(text: string): Option<AssTime> {
    var p := Split(text, ':');
    if |p| != 3 then None
    else
      var q := Split(p[2], '.');
      if |q| != 2 then None
      else if !(AllDigits(p[1]) && AllDigits(q[0]) && AllDigits(q[1])) then None
      else
        var h := ParseInt(p[0]);
        if h.None? then None
        else Some(AssTime(h.value, DecimalValue(p[1]), DecimalValue(q[0]), DecimalValue(q[1])))
  }

  lemma NoCharInDigits(s: string, c: char)
    requires AllDigits(s) && !('0' <= c <= '9')
    ensures c !in s
  {
  }

  lemma IntDecimalChars(i: int, c: char)
    requires c != '-' && !('0' <= c <= '9')
    ensures c !in IntToDecimal(i)
  {
    if i < 0 {
      NoCharInDigits(NatToDecimal(-i), c);
    } else {
      NoCharInDigits(NatToDecimal(i), c);
    }
  }

  /** `a`, the separator and `rest` split into `a` followed by the pieces of `rest`. */
  lemma SplitCons(a: string, rest: string, sep: char)
    requires sep !in a
    ensures Split(a + [sep] + rest, sep) == [a] + Split(rest, sep)
  {
    Url.FirstSep(a, rest, sep);
  }

  lemma SplitNone(a: string, sep: char)
    requires sep !in a
    ensures Split(a, sep) == [a]
  {
    Url.FindCharAbsent(a, sep);
  }

  /** `SS.cc` splits at its point and holds no colon. */
  lemma SplitSeconds(ss: string, cc: string)
    requires AllDigits(ss) && AllDigits(cc)
    ensures Split(ss + "." + cc, '.') == [ss, cc]
    ensures ':' !in ss + "." + cc
  {
    NoCharInDigits(ss, ':');
    NoCharInDigits(cc, ':');
    NoCharInDigits(ss, '.');
    NoCharInDigits(cc, '.');
    SplitCons(ss, cc, '.');
    SplitNone(cc, '.');
  }

  /** `H:MM:rest` splits at its two colons. */
  lemma SplitColons(hh: string, mm: string, rest: string)
    requires ':' !in hh && ':' !in mm && ':' !in rest
    ensures Split(hh + ":" + mm + ":" + rest, ':') == [hh, mm, rest]
  {
    assert hh + ":" + mm + ":" + rest == hh + [':'] + (mm + [':'] + rest);
    SplitCons(hh, mm + [':'] + rest, ':');
    SplitCons(mm, rest, ':');
    SplitNone(rest, ':');
  }

  /** What the parser reads from a time whose fields split cleanly. */
  lemma ParseFields(hh: string, mm: string, ss: string, cc: string, h: int)
    requires ParseInt(hh) == Some(h) && AllDigits(mm) && AllDigits(ss) && AllDigits(cc)
    requires Split(hh + ":" + mm + ":" + (ss + "." + cc), ':') == [hh, mm, ss + "." + cc]
    requires Split(ss + "." + cc, '.') == [ss, cc]
    ensures ParseAssTime(hh + ":" + mm + ":" + (ss + "." + cc))
         == Some(AssTime(h, DecimalValue(mm), DecimalValue(ss), DecimalValue(cc)))
  {
    var text := hh + ":" + mm + ":" + (ss + "." + cc);
    var p := Split(text, ':');
    assert |p| == 3 && p[0] == hh && p[1] == mm && p[2] == ss + "." + cc;
    var q := Split(p[2], '.');
    assert |q| == 2 && q[0] == ss && q[1] == cc;
  }

  /** The printed fields read back as the fields of the decomposition, which denote the
      same number of centiseconds. */
  lemma ParseFormatAssTime(totalCs: int)
    ensures ParseAssTime(FormatAssTime(totalCs)).Some?
    ensures Total(ParseAssTime(FormatAssTime(totalCs)).value) == totalCs
  {
    var t := Decompose(totalCs);
    var hh, mm, ss, cc := IntToDecimal(t.h), ZeroPad(t.m, 2), ZeroPad(t.s, 2), ZeroPad(t.cs, 2);
    var seconds := ss + "." + cc;
    assert FormatAssTime(totalCs) == hh + ":" + mm + ":" + seconds;
    IntDecimalChars(t.h, ':');
    NoCharInDigits(mm, ':');
    SplitSeconds(ss, cc);
    SplitColons(hh, mm, seconds);
    ParseIntOfIntDecimal(t.h);
    ParseFields(hh, mm, ss, cc, t.h);
    ZeroPadValue(t.m, 2);
    ZeroPadValue(t.s, 2);
    ZeroPadValue(t.cs, 2);
  }

  // ---------------------------------------------------------------------------------
  // Karaoke subtitles

  /** A timed word, its times already in centiseconds. */
  datatype Word = Word(startCs: int, endCs: int, text: string)

  /** The lines of the fixed script header: script info, the default style and the event
      format. */
  datatype HeaderLine =
    | ScriptInfo | ScriptType | PlayResX | PlayResY | Blank
    | StylesSection | StyleFormat | DefaultStyle | EventsSection | EventFormat

  function HeaderText(h: HeaderLine): string {
    match h
    case ScriptInfo => "[Script Info]"
    case ScriptType => "ScriptType: v4.00+"
    case PlayResX => "PlayResX: 1080"
    case PlayResY => "PlayResY: 1920"
    case Blank => ""
    case StylesSection => "[V4+ Styles]"
    case StyleFormat =>
      "Format: Name, Fontname, Fontsize, PrimaryColour, SecondaryColour, OutlineColour, BackColour, Bold, Italic, "
      + "Underline, StrikeOut, ScaleX, ScaleY, Spacing, Angle, BorderStyle, Outline, Shadow, Alignment, MarginL, MarginR, MarginV, Encoding"
    case DefaultStyle => "Style: Default,Arial,64,&H00FFFFFF,&H0000FFFF,&H00000000,&H64000000,0,0,0,0,100,100,0,0,1,3,2,2,40,40,80,1"
    case EventsSection => "[Events]"
    case EventFormat => "Format: Layer, Start, End, Style, Name, MarginL, MarginR, MarginV, Effect, Text"
  }

  const HeaderLines: seq<HeaderLine> := [
    ScriptInfo, ScriptType, PlayResX, PlayResY, Blank,
    StylesSection, StyleFormat, DefaultStyle, Blank,
    EventsSection, EventFormat
  ]

  function AssHeader(): seq<string> {
    Map(HeaderLines, HeaderText)
  }

  /** The `\k` duration of a word: its length in centiseconds, at least 1. */
  function KaraokeDuration(w: Word): (d: int)
    ensures d >= 1 && d >= w.endCs - w.startCs
    ensures d == w.endCs - w.startCs || d == 1
  {
    if w.endCs - w.startCs > 1 then w.endCs - w.startCs else 1
  }

  /** One karaoke syllable: the duration tag, then the stripped and escaped word. */
  function Syllable(w: Word): string {
    "{\\k" + IntToDecimal(KaraokeDuration(w)) + "}" + EscapeAss(Strip(w.text))
  }

  /** A Dialogue event: its start, its end and its syllables. */
  datatype Event = Event(startCs: int, endCs: int, syllables: seq<string>)

  /** The event of one group of words: from the first word's start to the last word's end. */
  function EventOf(group: seq<Word>): (e: Event)
    requires group != []
    ensures |e.syllables| == |group|
  {
    Event(group[0].startCs, group[|group| - 1].endCs, Map(group, Syllable))
  }

  /** The events of consecutive groups of `maxWords` words. */
  function KaraokeEvents(words: seq<Word>, maxWords: nat): (r: seq<Event>)
    requires maxWords >= 1
    ensures |r| == |Batches(words, maxWords)|
    decreases |words|
  {
    if |words| == 0 then []
    else if |words| <= maxWords then [EventOf(words)]
    else [EventOf(words[..maxWords])] + KaraokeEvents(words[maxWords..], maxWords)
  }

  /** Event `i` is the event of batch `i`. */
  lemma {:induction false} KaraokeEventAt(words: seq<Word>, maxWords: nat, i: nat)
    requires maxWords >= 1 && i < |Batches(words, maxWords)|
    ensures Batches(words, maxWords)[i] != []
    ensures KaraokeEvents(words, maxWords)[i] == EventOf(Batches(words, maxWords)[i])
    decreases |words|
  {
    if |words| > maxWords && i > 0 {
      KaraokeEventAt(words[maxWords..], maxWords, i - 1);
    }
  }

  /** The Dialogue line of an event, the syllables separated by spaces. */
  function EventLine(e: Event): string {
    "Dialogue: 0," + FormatAssTime(e.startCs) + "," + FormatAssTime(e.endCs)
      + ",Default,,0,0,0,," + Join(e.syllables, " ")
  }

  /** The lines `_write_ass_karaoke` writes: the header, then one line per event. */
  function AssLines(words: seq<Word>, maxWords: nat): seq<string>
    requires maxWords >= 1
  {
    AssHeader() + Map(KaraokeEvents(words, maxWords), EventLine)
  }

  /** There are ceil(n / maxWords) events, and none without words. */
  lemma KaraokeEventCount(words: seq<Word>, maxWords: nat)
    requires maxWords >= 1
    ensures var n := |KaraokeEvents(words, maxWords)|;
      (n - 1) * maxWords < |words| <= n * maxWords
    ensures words == [] <==> KaraokeEvents(words, maxWords) == []
  {
    var b := |Batches(words, maxWords)|;
    BatchesCount(words, maxWords);
    assert |KaraokeEvents(words, maxWords)| == b;
    assert (b - 1) * maxWords < |words| <= b * maxWords;
  }

  /** Event `i` runs from the start of word `i * maxWords` to the end of the last word before
      the next multiple of `maxWords`, or of the last word, and has one syllable per word. */
  lemma KaraokeEventWords(words: seq<Word>, maxWords: nat, i: nat, lo: nat, hi: nat)
    requires maxWords >= 1 && i < |KaraokeEvents(words, maxWords)|
    requires lo == i * maxWords && hi == if lo + maxWords < |words| then lo + maxWords else |words|
    ensures lo < hi
    ensures var e := KaraokeEvents(words, maxWords)[i];
      e.startCs == words[lo].startCs && e.endCs == words[hi - 1].endCs
      && |e.syllables| == hi - lo
      && forall j :: lo <= j < hi ==> e.syllables[j - lo] == Syllable(words[j])
  {
    KaraokeEventAt(words, maxWords, i);
    BatchSlice(words, maxWords, i, lo, hi);
    EventOfSlice(words, lo, hi);
  }

  lemma EventOfSlice(words: seq<Word>, lo: nat, hi: nat)
    requires lo < hi <= |words|
    ensures var e := EventOf(words[lo..hi]);
      e.startCs == words[lo].startCs && e.endCs == words[hi - 1].endCs
      && |e.syllables| == hi - lo
      && forall j :: lo <= j < hi ==> e.syllables[j - lo] == Syllable(words[j])
  {
    var group := words[lo..hi];
    assert group[0] == words[lo] && group[|group| - 1] == words[hi - 1];
    MapSlice(words, Syllable, lo, hi);
  }

  /** Mapping a slice maps each of its elements in place. */
  lemma MapSlice<A, B>(s: seq<A>, f: A -> B, lo: nat, hi: nat)
    requires lo <= hi <= |s|
    ensures var r := Map(s[lo..hi], f);
      |r| == hi - lo && forall j :: lo <= j < hi ==> r[j - lo] == f(s[j])
  {
    var r := Map(s[lo..hi], f);
    forall j | lo <= j < hi
      ensures r[j - lo] == f(s[j])
    {
      assert s[lo..hi][j - lo] == s[j];
    }
  }

  lemma BatchSlice<T>(s: seq<T>, n: nat, i: nat, lo: nat, hi: nat)
    requires n >= 1 && i < |Batches(s, n)|
    requires lo == i * n && hi == if lo + n < |s| then lo + n else |s|
    ensures lo < hi <= |s| && Batches(s, n)[i] == s[lo..hi]
  {
    BatchAt(s, n, i);
    assert (i + 1) * n == lo + n;
  }

  lemma FormatNoComma(totalCs: int)
    ensures ',' !in FormatAssTime(totalCs)
  {
    var t := Decompose(totalCs);
    IntDecimalChars(t.h, ',');
    NoCharInDigits(ZeroPad(t.m, 2), ',');
    NoCharInDigits(ZeroPad(t.s, 2), ',');
    NoCharInDigits(ZeroPad(t.cs, 2), ',');
  }

  lemma DialogueShape(t1: string, t2: string, text: string)
    ensures "Dialogue: 0," + t1 + "," + t2 + ",Default,,0,0,0,," + text
      == "Dialogue: 0" + [','] + (t1 + [','] + (t2 + [','] + ("Default,,0,0,0,," + text)))
  {
    assert ",Default,,0,0,0,," == [','] + "Default,,0,0,0,,";
    assert "Dialogue: 0," == "Dialogue: 0" + [','];
  }

  lemma LabelNoComma()
    ensures ',' !in "Dialogue: 0"
  {
    var tag := "Dialogue: 0";
    assert forall i :: 0 <= i < |tag| ==> tag[i] != ',';
  }

  /** The second and third comma-separated fields of a Dialogue line are its start and end:
      they read back as the event's times. */
  lemma EventTimes(e: Event)
    ensures var f := Split(EventLine(e), ',');
      |f| >= 3 && ParseAssTime(f[1]).Some? && Total(ParseAssTime(f[1]).value) == e.startCs
      && ParseAssTime(f[2]).Some? && Total(ParseAssTime(f[2]).value) == e.endCs
  {
    var t1 := FormatAssTime(e.startCs);
    var t2 := FormatAssTime(e.endCs);
    var rest := "Default,,0,0,0,," + Join(e.syllables, " ");
    DialogueShape(t1, t2, Join(e.syllables, " "));
    FormatNoComma(e.startCs);
    FormatNoComma(e.endCs);
    LabelNoComma();
    SplitCons("Dialogue: 0", t1 + [','] + (t2 + [','] + rest), ',');
    SplitCons(t1, t2 + [','] + rest, ',');
    SplitCons(t2, rest, ',');
    ParseFormatAssTime(e.startCs);
    ParseFormatAssTime(e.endCs);
  }

  /** One iteration of `_write_ass_karaoke`'s loop: the syllables of a group of words and
      the Dialogue line that spans them. */
  method DialogueOf(chunk: seq<Word>) returns (line: string)
    requires chunk != []
    ensures line == EventLine(EventOf(chunk))
  {
    var start := chunk[0].startCs;
    var end := chunk[|chunk| - 1].endCs;
    var textParts: seq<string> := [];
    for k := 0 to |chunk|
      invariant textParts == Map(chunk[..k], Syllable)
    {
      var w := chunk[k];
      var dur := if w.endCs - w.startCs > 1 then w.endCs - w.startCs else 1;
      textParts := textParts + ["{\\k" + IntToDecimal(dur) + "}" + EscapeAss(Strip(w.text))];
      MapPrefix(chunk, k, Syllable);
    }
    assert chunk[..|chunk|] == chunk;
    line := "Dialogue: 0," + FormatAssTime(start) + "," + FormatAssTime(end)
      + ",Default,,0,0,0,," + Join(textParts, " ");
  }

  lemma ConsSuffix<T>(s: seq<T>, k: nat, x: T, tail: seq<T>)
    requires k <= |s| && s[k..] == [x] + tail
    ensures k < |s| && s[k] == x && s[k + 1..] == tail
  {
    assert s[k..][0] == x;
    assert s[k..][1..] == tail;
  }

  lemma ConsLast<T>(s: seq<T>, k: nat, x: T)
    requires k <= |s| && s[k..] == [x]
    ensures k == |s| - 1 && s[k] == x
  {
    assert s[k..][0] == x;
  }

  lemma MapAppend<A, B>(h: seq<B>, s: seq<A>, k: nat, f: A -> B, x: B)
    requires k < |s| && x == f(s[k])
    ensures h + Map(s[..k], f) + [x] == h + Map(s[..k + 1], f)
  {
    MapPrefix(s, k, f);
  }

  /** The events of the words from `idx` on, when more than `maxWords` remain: the next
      group, then the events of the rest. */
  lemma KaraokeStepMore(words: seq<Word>, maxWords: nat, idx: nat, next: nat)
    requires maxWords >= 1 && next == idx + maxWords && next < |words|
    ensures KaraokeEvents(words[idx..], maxWords) == [EventOf(words[idx..next])] + KaraokeEvents(words[next..], maxWords)
  {
    var rest := words[idx..];
    assert rest[..maxWords] == words[idx..next];
    assert rest[maxWords..] == words[next..];
  }

  /** The events of the last group. */
  lemma KaraokeStepLast(words: seq<Word>, maxWords: nat, idx: nat)
    requires maxWords >= 1 && idx < |words| <= idx + maxWords
    ensures KaraokeEvents(words[idx..], maxWords) == [EventOf(words[idx..])]
  {
  }

  /** One step of the loop below: the `k`-th event is the group starting at `idx`, and the
      events after it are those of the words from `hi` on. */
  lemma KaraokeStep(words: seq<Word>, maxWords: nat, idx: nat, hi: nat, events: seq<Event>, k: nat)
    requires maxWords >= 1 && idx < |words| && k <= |events|
    requires hi == if idx + maxWords < |words| then idx + maxWords else |words|
    requires events[k..] == KaraokeEvents(words[idx..], maxWords)
    ensures k < |events| && idx < hi <= |words| && events[k] == EventOf(words[idx..hi])
    ensures hi < |words| ==> events[k + 1..] == KaraokeEvents(words[hi..], maxWords)
    ensures hi == |words| ==> k + 1 == |events|
  {
    if idx + maxWords < |words| {
      KaraokeStepMore(words, maxWords, idx, hi);
      ConsSuffix(events, k, EventOf(words[idx..hi]), KaraokeEvents(words[hi..], maxWords));
    } else {
      KaraokeStepLast(words, maxWords, idx);
      assert words[idx..hi] == words[idx..];
      ConsLast(events, k, EventOf(words[idx..hi]));
    }
  }

  /** The loop of `_write_ass_karaoke`: one Dialogue line appended to `lines` for every
      `max_words` words. */
  method AppendEvents(header: seq<string>, words: seq<Word>, maxWords: nat) returns (lines: seq<string>)
    requires maxWords >= 1
    ensures lines == header + Map(KaraokeEvents(words, maxWords), EventLine)
  {
    lines := header;
    ghost var events := KaraokeEvents(words, maxWords);
    var idx := 0;
    ghost var k := 0;
    if words == [] {
      assert events == [];
    }
    while idx < |words|
      invariant 0 <= idx && 0 <= k <= |events|
      invariant idx < |words| ==> KaraokeEvents(words[idx..], maxWords) == events[k..]
      invariant idx >= |words| ==> k == |events|
      invariant lines == header + Map(events[..k], EventLine)
      decreases |words| - idx
    {
      var next := idx + maxWords;
      var hi := if next < |words| then next else |words|;
      var chunk := words[idx..hi];
      KaraokeStep(words, maxWords, idx, hi, events, k);
      var line := DialogueOf(chunk);
      MapAppend(header, events, k, EventLine, line);
      lines := lines + [line];
      idx := next;
      k := k + 1;
    }
    assert events[..k] == events;
  }

  /** `_write_ass_karaoke`: the header, then one Dialogue line for every `max_words` words,
      joined by newlines; the header alone when there are no words. */
  method WriteAssKaraoke(words: seq<Word>, maxWords: nat) returns (text: string)
    requires maxWords >= 1
    ensures text == Join(AssLines(words, maxWords), "\n")
  {
    var lines := AssHeader();
    if words == [] {
      assert KaraokeEvents(words, maxWords) == [];
      assert AssLines(words, maxWords) == lines;
      text := Join(lines, "\n");
      return;
    }
    lines := AppendEvents(lines, words, maxWords);
    text := Join(lines, "\n");
  }
}
