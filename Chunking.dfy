/** The sentence-boundary chunker that splits text before text-to-speech
    (`_chunks` in app/media/audio.py and its copy in app/media/short_video.py).

    A cursor `start` walks the text. Each step takes the window of at most
    `maxChars` characters from `start`; when that window stops short of the
    end of the text, the cut moves back to just after the last occurrence of
    the first separator (in the order ". ", "! ", "? ", "\n") that occurs
    strictly after `start`. Each window is yielded stripped. */
module Chunking {
  import opened Text
  import opened Seqs

  const Separators: seq<string> := [". ", "! ", "? ", "\n"]

  /** The cut inside the window `text[start..hard]`: just after the last
      occurrence (strictly after `start`) of the first separator of `seps`
      that has one; `hard` when none has. */
  function SeparatorCut(text: string, start: nat, hard: nat, seps: seq<string>): (cut: nat)
    requires start < hard <= |text|
    ensures start < cut <= hard
  {
    if seps == [] then hard
    else
      var idx := RFind(text, seps[0], start, hard);
      if idx > start then idx + |seps[0]| else SeparatorCut(text, start, hard, seps[1..])
  }

  /** The position in `seps` of the first separator that occurs strictly after
      `start` inside the window, or `|seps|` when none does. */
  function FirstHit(text: string, start: nat, hard: nat, seps: seq<string>): (k: nat)
    requires start < hard <= |text|
    ensures k <= |seps|
    ensures forall j :: 0 <= j < k ==> RFind(text, seps[j], start, hard) <= start
    ensures k < |seps| ==> RFind(text, seps[k], start, hard) > start
  {
    if seps == [] then 0
    else if RFind(text, seps[0], start, hard) > start then 0
    else 1 + FirstHit(text, start, hard, seps[1..])
  }

  /** The separator rule: the cut is the hard one when no separator occurs
      strictly after `start`, and otherwise falls just after the last
      occurrence of the first separator, in the order given, that occurs. */
  lemma {:induction false} SeparatorCutRule(text: string, start: nat, hard: nat, seps: seq<string>)
    requires start < hard <= |text|
    ensures var k := FirstHit(text, start, hard, seps);
            SeparatorCut(text, start, hard, seps) ==
              if k == |seps| then hard else RFind(text, seps[k], start, hard) + |seps[k]|
  {
    if seps != [] && RFind(text, seps[0], start, hard) <= start {
      SeparatorCutRule(text, start, hard, seps[1..]);
      var k := FirstHit(text, start, hard, seps[1..]);
      if k < |seps[1..]| {
        assert seps[1..][k] == seps[k + 1];
      }
    }
  }

  /** Where the window that begins at `start` ends. */
  function ChunkEnd(text: string, start: nat, maxChars: nat): (end: nat)
    requires start < |text| && maxChars >= 1
    ensures start < end <= |text| && end - start <= maxChars
    ensures start + maxChars >= |text| ==> end == |text|
  {
    var hard := if |text| < start + maxChars then |text| else start + maxChars;
    if hard < |text| then SeparatorCut(text, start, hard, Separators) else hard
  }

  /** The raw windows `text[start:end]` the cursor visits from `start` on. */
  function Windows(text: string, start: nat, maxChars: nat): seq<string>
    requires start <= |text| && maxChars >= 1
    decreases |text| - start
  {
    if start == |text| then []
    else
      var end := ChunkEnd(text, start, maxChars);
      [text[start..end]] + Windows(text, end, maxChars)
  }

  /** The chunks yielded from `start` on: each window, stripped. */
  function ChunksFrom(text: string, start: nat, maxChars: nat): seq<string>
    requires start <= |text| && maxChars >= 1
    decreases |text| - start
  {
    if start == |text| then []
    else
      var end := ChunkEnd(text, start, maxChars);
      [Strip(text[start..end])] + ChunksFrom(text, end, maxChars)
  }

  /** The `for sep in [...]` search of one step: the cut for the window `text[start..hard]`. */
  method CutWindow(text: string, start: nat, hard: nat) returns (end: nat)
    requires start < hard <= |text|
    ensures end == SeparatorCut(text, start, hard, Separators)
  {
    end := hard;
    var i := 0;
    while i < |Separators|
      invariant i <= |Separators|
      invariant end == hard
      invariant SeparatorCut(text, start, hard, Separators[i..]) == SeparatorCut(text, start, hard, Separators)
    {
      var sep := Separators[i];
      var idx := RFind(text, sep, start, hard);
      if idx > start {
        end := idx + |sep|;
        return;
      }
      assert Separators[i..][1..] == Separators[i + 1..];
      i := i + 1;
    }
  }

  /** `_chunks(text, max_chars)`: runs the cursor loop and returns what it yields. */
  method Chunks(text: string, maxChars: nat) returns (chunks: seq<string>)
    requires maxChars >= 1
    ensures text == [] ==> chunks == []
    ensures chunks == ChunksFrom(text, 0, maxChars)
  {
    chunks := [];
    if text == [] {
      return;
    }
    var start := 0;
    while start < |text|
      invariant start <= |text|
      invariant chunks + ChunksFrom(text, start, maxChars) == ChunksFrom(text, 0, maxChars)
      decreases |text| - start
    {
      var end := if |text| < start + maxChars then |text| else start + maxChars;
      if end < |text| {
        end := CutWindow(text, start, end);
      }
      assert end == ChunkEnd(text, start, maxChars);
      chunks := chunks + [Strip(text[start..end])];
      start := end;
    }
  }

  /** The windows put back together are exactly the rest of the text: nothing
      is skipped and nothing is repeated. */
  lemma {:induction false} WindowsCover(text: string, start: nat, maxChars: nat)
    requires start <= |text| && maxChars >= 1
    ensures Concat(Windows(text, start, maxChars)) == text[start..]
    decreases |text| - start
  {
    if start < |text| {
      var end := ChunkEnd(text, start, maxChars);
      WindowsCover(text, end, maxChars);
      assert text[start..] == text[start..end] + text[end..];
    }
  }

  /** Every window is non-empty and at most `maxChars` long. */
  lemma {:induction false} WindowsBounded(text: string, start: nat, maxChars: nat)
    requires start <= |text| && maxChars >= 1
    ensures forall i :: 0 <= i < |Windows(text, start, maxChars)| ==>
              1 <= |Windows(text, start, maxChars)[i]| <= maxChars
    decreases |text| - start
  {
    if start < |text| {
      var end := ChunkEnd(text, start, maxChars);
      WindowsBounded(text, end, maxChars);
      var w := Windows(text, start, maxChars);
      assert w[1..] == Windows(text, end, maxChars);
      forall i | 1 <= i < |w| ensures w[i] == Windows(text, end, maxChars)[i - 1] { }
    }
  }

  /** Each string of `ss`, stripped. */
  function StripEach(ss: seq<string>): (r: seq<string>)
    ensures |r| == |ss| && forall i :: 0 <= i < |ss| ==> r[i] == Strip(ss[i])
  {
    if ss == [] then [] else [Strip(ss[0])] + StripEach(ss[1..])
  }

  /** The chunks are the windows, each stripped. */
  lemma {:induction false} ChunksAreStrippedWindows(text: string, start: nat, maxChars: nat)
    requires start <= |text| && maxChars >= 1
    ensures ChunksFrom(text, start, maxChars) == StripEach(Windows(text, start, maxChars))
    decreases |text| - start
  {
    if start < |text| {
      var end := ChunkEnd(text, start, maxChars);
      ChunksAreStrippedWindows(text, end, maxChars);
      var w := Windows(text, start, maxChars);
      assert w[1..] == Windows(text, end, maxChars);
    }
  }

  /** A text that fits in one window is one chunk: the whole text, stripped. */
  lemma ShortTextOneChunk(text: string, maxChars: nat)
    requires maxChars >= 1 && 1 <= |text| <= maxChars
    ensures ChunksFrom(text, 0, maxChars) == [Strip(text)]
  {
    assert text[0..|text|] == text;
  }
}
