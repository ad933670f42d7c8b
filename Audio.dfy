/** The turn, voice and part sequencing of `render_audio_roundup` in app/media/audio.py.
    Each non-blank turn of the dialogue is chunked and every chunk becomes one numbered
    text-to-speech part; the parts are listed, in order, in the ffmpeg concat file. The
    speech synthesis, the file writes and the ffmpeg run are outside the model: a part is
    the request the code makes, whether `generate_voiceover` raises on it is a parameter,
    and `ffmpeg` is the binary the settings or the PATH give. */
module Audio {
  import opened Wrappers
  import opened Text
  import opened Seqs
  import Chunking

  /** The default `max_chars` of the audio chunker. */
  const AudioChunkChars: nat := 3500

  /** A dialogue turn; a missing speaker or text is the empty string. */
  datatype Turn = Turn(speaker: string, text: string)

  /** Voice A for the first host, voice B for anyone else. */
  function VoiceFor(speaker: string, voiceA: string, voiceB: string): string {
    if Lower(speaker) == "host_a" then voiceA else voiceB
  }

  /** One text-to-speech request: a chunk and the voice that reads it. */
  datatype Call = Call(text: string, voice: string)

  function ChunkCalls(chunks: seq<string>, voice: string): (r: seq<Call>)
    ensures |r| == |chunks| && forall i :: 0 <= i < |chunks| ==> r[i] == Call(chunks[i], voice)
    decreases |chunks|
  {
    if chunks == [] then [] else ChunkCalls(chunks[..|chunks| - 1], voice) + [Call(chunks[|chunks| - 1], voice)]
  }

  /** The requests of one turn: none when its stripped text is blank. */
  function TurnCalls(turn: Turn, voiceA: string, voiceB: string): seq<Call> {
    var text := Strip(turn.text);
    if text == [] then [] else ChunkCalls(Chunking.ChunksFrom(text, 0, AudioChunkChars), VoiceFor(turn.speaker, voiceA, voiceB))
  }

  /** The requests of a whole dialogue, turn after turn. */
  function Calls(dialogue: seq<Turn>, voiceA: string, voiceB: string): seq<Call>
    decreases |dialogue|
  {
    if dialogue == [] then []
    else Calls(dialogue[..|dialogue| - 1], voiceA, voiceB) + TurnCalls(dialogue[|dialogue| - 1], voiceA, voiceB)
  }

  /** `f"part_{n:03d}.mp3"`. */
  function PartName(n: nat): string {
    "part_" + ZeroPad(n, 3) + ".mp3"
  }

  /** A generated part: its file name and the request it was made from. */
  datatype Part = Part(name: string, text: string, voice: string)

  /** The requests numbered from 1 in order. */
  function Numbered(calls: seq<Call>): (r: seq<Part>)
    ensures |r| == |calls|
    ensures forall i :: 0 <= i < |calls| ==> r[i] == Part(PartName(i + 1), calls[i].text, calls[i].voice)
    decreases |calls|
  {
    if calls == [] then []
    else
      var last := calls[|calls| - 1];
      Numbered(calls[..|calls| - 1]) + [Part(PartName(|calls|), last.text, last.voice)]
  }

  lemma NumberedAppend(calls: seq<Call>, c: Call)
    ensures Numbered(calls + [c]) == Numbered(calls) + [Part(PartName(|calls| + 1), c.text, c.voice)]
  {
    assert (calls + [c])[..|calls|] == calls;
  }

  /** The concat-file line of a part. */
  function ConcatLine(p: Part): string {
    "file '" + p.name + "'"
  }

  const NoPartsMessage: string := "No audio parts generated"
  const NoFfmpegMessage: string := "ffmpeg not found. Set FFMPEG_PATH or add ffmpeg to PATH."

  /** The index of the first request whose `generate_voiceover` call raises, or `|calls|`
      when none does; `tts(c)` is `Some(e)` when the call for `c` raises `e`. */
  function FirstFailing(calls: seq<Call>, tts: Call -> Option<Exc>): (n: nat)
    ensures n <= |calls|
    ensures forall j :: 0 <= j < n ==> tts(calls[j]).None?
    ensures n < |calls| ==> tts(calls[n]).Some?
  {
    FirstWhere(calls, (c: Call) => tts(c).Some?)
  }

  /** A loop that reached request `i` without a raise stops there exactly when the speech
      synthesis of request `i` raises. */
  lemma FirstFailingStep(calls: seq<Call>, tts: Call -> Option<Exc>, i: nat)
    requires i < |calls| && i <= FirstFailing(calls, tts)
    ensures tts(calls[i]).Some? ==> FirstFailing(calls, tts) == i
    ensures tts(calls[i]).None? ==> i < FirstFailing(calls, tts)
  {
  }

  /** Chunk `k` of a turn is the request at its position among the dialogue's requests. */
  lemma ChunkAt(done: seq<Call>, chunks: seq<string>, voice: string, calls: seq<Call>, k: nat)
    requires done + ChunkCalls(chunks, voice) <= calls && k < |chunks|
    ensures |done| + k < |calls| && calls[|done| + k] == Call(chunks[k], voice)
  {
    assert (done + ChunkCalls(chunks, voice))[|done| + k] == ChunkCalls(chunks, voice)[k];
  }

  /** The loop over one turn's chunks: one part per chunk, numbered on from `parts`; the
      first chunk whose speech synthesis raises ends the loop with that exception. `calls`
      is every request of the dialogue, of which `done` and this turn's are the start. */
  method AppendChunks(parts: seq<Part>, ghost done: seq<Call>, chunks: seq<string>, voice: string,
                      tts: Call -> Option<Exc>, ghost calls: seq<Call>)
    returns (r: Result<seq<Part>, Exc>)
    requires parts == Numbered(done)
    requires done + ChunkCalls(chunks, voice) <= calls
    requires |done| <= FirstFailing(calls, tts)
    ensures r.Success? ==> r.value == Numbered(done + ChunkCalls(chunks, voice))
                           && |done| + |chunks| <= FirstFailing(calls, tts)
    ensures r.Failure? ==> var n := FirstFailing(calls, tts);
              n < |done| + |chunks| && r == Failure(tts(calls[n]).value)
  {
    var ps := parts;
    for k := 0 to |chunks|
      invariant |ps| == |done| + k
      invariant ps == Numbered(done + ChunkCalls(chunks[..k], voice))
      invariant |done| + k <= FirstFailing(calls, tts)
    {
      var step := AppendChunk(ps, done, chunks, k, voice, tts, calls);
      if step.Failure? {
        return step;
      }
      ps := step.value;
    }
    assert chunks[..|chunks|] == chunks;
    r := Success(ps);
  }

  /** One pass of the chunk loop: the part for chunk `k`, numbered after the parts before
      it, or the exception its speech synthesis raises. */
  method AppendChunk(ps: seq<Part>, ghost done: seq<Call>, chunks: seq<string>, k: nat, voice: string,
                     tts: Call -> Option<Exc>, ghost calls: seq<Call>)
    returns (r: Result<seq<Part>, Exc>)
    requires k < |chunks| && |ps| == |done| + k
    requires ps == Numbered(done + ChunkCalls(chunks[..k], voice))
    requires done + ChunkCalls(chunks, voice) <= calls
    requires |done| + k <= FirstFailing(calls, tts)
    ensures r.Failure? ==> FirstFailing(calls, tts) == |done| + k && r == Failure(tts(calls[|done| + k]).value)
    ensures r.Success? ==> r.value == Numbered(done + ChunkCalls(chunks[..k + 1], voice))
                           && |done| + k + 1 <= FirstFailing(calls, tts)
  {
    ChunkAt(done, chunks, voice, calls, k);
    FirstFailingStep(calls, tts, |done| + k);
    var counter := |ps| + 1;
    var raised := tts(Call(chunks[k], voice));
    if raised.Some? {
      return Failure(raised.value);
    }
    NumberedStep(done, chunks, k, voice);
    r := Success(ps + [Part(PartName(counter), chunks[k], voice)]);
  }

  lemma ChunkCallsSnoc(chunks: seq<string>, k: nat, voice: string)
    requires k < |chunks|
    ensures ChunkCalls(chunks[..k + 1], voice) == ChunkCalls(chunks[..k], voice) + [Call(chunks[k], voice)]
  {
    assert chunks[..k + 1][..k] == chunks[..k];
  }

  /** One more chunk adds one part, numbered after the ones before it. */
  lemma NumberedStep(done: seq<Call>, chunks: seq<string>, k: nat, voice: string)
    requires k < |chunks|
    ensures Numbered(done + ChunkCalls(chunks[..k + 1], voice))
         == Numbered(done + ChunkCalls(chunks[..k], voice)) + [Part(PartName(|done| + k + 1), chunks[k], voice)]
  {
    var before := done + ChunkCalls(chunks[..k], voice);
    DoneChunkCallsSnoc(done, chunks, k, voice);
    NumberedAppend(before, Call(chunks[k], voice));
  }

  lemma DoneChunkCallsSnoc(done: seq<Call>, chunks: seq<string>, k: nat, voice: string)
    requires k < |chunks|
    ensures done + ChunkCalls(chunks[..k + 1], voice) == done + ChunkCalls(chunks[..k], voice) + [Call(chunks[k], voice)]
  {
    ChunkCallsSnoc(chunks, k, voice);
  }

  /** `render_audio_roundup` up to the ffmpeg run: the parts, in order, and the text of the
      concat file; the exception of the first request whose speech synthesis raises; a
      `RuntimeError` when no part was produced or no ffmpeg is available. */
  method RenderAudioRoundup(dialogue: seq<Turn>, voiceA: string, voiceB: string,
                            tts: Call -> Option<Exc>, ffmpeg: Option<string>)
    returns (r: Result<(seq<Part>, string), Exc>)
    ensures var calls := Calls(dialogue, voiceA, voiceB);
      var n := FirstFailing(calls, tts);
      (n < |calls| ==> r == Failure(tts(calls[n]).value))
      && (calls == [] ==> r == Failure(RuntimeError(NoPartsMessage)))
      && (calls != [] && n == |calls| && ffmpeg.None? ==> r == Failure(RuntimeError(NoFfmpegMessage)))
      && (calls != [] && n == |calls| && ffmpeg.Some? ==>
            r.Success? && r.value.0 == Numbered(calls) && r.value.1 == Join(Map(r.value.0, ConcatLine), "\n"))
  {
    ghost var calls := Calls(dialogue, voiceA, voiceB);
    var parts: seq<Part> := [];
    for t := 0 to |dialogue|
      invariant parts == Numbered(Calls(dialogue[..t], voiceA, voiceB))
      invariant |Calls(dialogue[..t], voiceA, voiceB)| <= FirstFailing(calls, tts)
    {
      var step := RenderTurn(parts, dialogue, t, voiceA, voiceB, tts);
      if step.Failure? {
        assert calls != [];
        return Failure(step.error);
      }
      parts := step.value;
    }
    assert dialogue[..|dialogue|] == dialogue;
    assert FirstFailing(calls, tts) == |calls|;
    if parts == [] {
      return Failure(RuntimeError(NoPartsMessage));
    }
    var concat := Join(Map(parts, ConcatLine), "\n");
    if ffmpeg.None? {
      return Failure(RuntimeError(NoFfmpegMessage));
    }
    r := Success((parts, concat));
  }

  /** One turn of the dialogue loop: a blank turn adds nothing, any other adds the parts of
      its chunks, numbered after the parts before it, or raises what its first failing
      speech synthesis raises. */
  method RenderTurn(parts: seq<Part>, dialogue: seq<Turn>, t: nat, voiceA: string, voiceB: string,
                    tts: Call -> Option<Exc>)
    returns (r: Result<seq<Part>, Exc>)
    requires t < |dialogue| && parts == Numbered(Calls(dialogue[..t], voiceA, voiceB))
    requires |Calls(dialogue[..t], voiceA, voiceB)| <= FirstFailing(Calls(dialogue, voiceA, voiceB), tts)
    ensures var calls := Calls(dialogue, voiceA, voiceB);
      && (r.Success? ==> r.value == Numbered(Calls(dialogue[..t + 1], voiceA, voiceB))
                         && |Calls(dialogue[..t + 1], voiceA, voiceB)| <= FirstFailing(calls, tts))
      && (r.Failure? ==> var n := FirstFailing(calls, tts);
            n < |calls| && n < |Calls(dialogue[..t + 1], voiceA, voiceB)| && r == Failure(tts(calls[n]).value))
  {
    ghost var done := Calls(dialogue[..t], voiceA, voiceB);
    ghost var calls := Calls(dialogue, voiceA, voiceB);
    CallsSnoc(dialogue, t, voiceA, voiceB);
    CallsPrefix(dialogue, t + 1, voiceA, voiceB);
    var turn := dialogue[t];
    var speaker := Lower(turn.speaker);
    var text := Strip(turn.text);
    if text == [] {
      assert TurnCalls(turn, voiceA, voiceB) == [];
      assert done + [] == done;
      return Success(parts);
    }
    var voice := if speaker == "host_a" then voiceA else voiceB;
    var chunks := Chunking.Chunks(text, AudioChunkChars);
    assert ChunkCalls(chunks, voice) == TurnCalls(turn, voiceA, voiceB);
    r := AppendChunks(parts, done, chunks, voice, tts, calls);
  }

  /** The requests of `t + 1` turns are those of `t` turns and then those of turn `t`. */
  lemma CallsSnoc(dialogue: seq<Turn>, t: nat, voiceA: string, voiceB: string)
    requires t < |dialogue|
    ensures Calls(dialogue[..t + 1], voiceA, voiceB)
         == Calls(dialogue[..t], voiceA, voiceB) + TurnCalls(dialogue[t], voiceA, voiceB)
  {
    assert dialogue[..t + 1][..t] == dialogue[..t];
  }

  /** The requests of the first `t` turns are the start of the dialogue's requests. */
  lemma {:induction false} CallsPrefix(dialogue: seq<Turn>, t: nat, voiceA: string, voiceB: string)
    requires t <= |dialogue|
    ensures Calls(dialogue[..t], voiceA, voiceB) <= Calls(dialogue, voiceA, voiceB)
    decreases |dialogue|
  {
    if t < |dialogue| {
      var init := dialogue[..|dialogue| - 1];
      assert init[..t] == dialogue[..t];
      CallsPrefix(init, t, voiceA, voiceB);
    } else {
      assert dialogue[..t] == dialogue;
    }
  }

  /** The number in a part's name reads back as the part's position. */
  lemma PartNameNumber(n: nat)
    ensures var name := PartName(n);
      |name| >= 9 && AllDigits(name[5..|name| - 4]) && DecimalValue(name[5..|name| - 4]) == n
  {
    var name := PartName(n);
    assert name[5..|name| - 4] == ZeroPad(n, 3);
    ZeroPadValue(n, 3);
  }

  /** Different positions give different file names, so no part overwrites another. */
  lemma PartNamesDistinct(i: nat, j: nat)
    requires i != j
    ensures PartName(i) != PartName(j)
  {
    PartNameNumber(i);
    PartNameNumber(j);
  }

  /** A turn gives no parts exactly when its text is blank. */
  lemma TurnCallsEmpty(turn: Turn, voiceA: string, voiceB: string)
    ensures TurnCalls(turn, voiceA, voiceB) == [] <==> Strip(turn.text) == []
  {
    var text := Strip(turn.text);
    if text != [] {
      assert |Chunking.ChunksFrom(text, 0, AudioChunkChars)| >= 1;
    }
  }

  /** Each part of a turn reads one of the turn's chunks with the speaker's voice. */
  lemma TurnCallsFrom(turn: Turn, voiceA: string, voiceB: string, i: nat)
    requires i < |TurnCalls(turn, voiceA, voiceB)|
    ensures Strip(turn.text) != []
    ensures TurnCalls(turn, voiceA, voiceB)[i].voice == VoiceFor(turn.speaker, voiceA, voiceB)
    ensures TurnCalls(turn, voiceA, voiceB)[i].text in Chunking.ChunksFrom(Strip(turn.text), 0, AudioChunkChars)
  {
  }

  /** Every turn's text is blank. */
  predicate AllBlank(dialogue: seq<Turn>) {
    forall t :: 0 <= t < |dialogue| ==> Strip(dialogue[t].text) == []
  }

  lemma AllBlankSnoc(dialogue: seq<Turn>)
    requires dialogue != []
    ensures AllBlank(dialogue) <==> AllBlank(dialogue[..|dialogue| - 1]) && Strip(dialogue[|dialogue| - 1].text) == []
  {
    var init := dialogue[..|dialogue| - 1];
    if AllBlank(dialogue) {
      forall t | 0 <= t < |init| ensures Strip(init[t].text) == [] {
        assert init[t] == dialogue[t];
      }
    }
    if AllBlank(init) && Strip(dialogue[|dialogue| - 1].text) == [] {
      forall t | 0 <= t < |dialogue| ensures Strip(dialogue[t].text) == [] {
        if t < |init| {
          assert init[t] == dialogue[t];
        }
      }
    }
  }

  /** A dialogue gives no parts exactly when every turn's text is blank. */
  lemma {:induction false} CallsEmpty(dialogue: seq<Turn>, voiceA: string, voiceB: string)
    ensures Calls(dialogue, voiceA, voiceB) == [] <==> AllBlank(dialogue)
    decreases |dialogue|
  {
    if dialogue != [] {
      var init := dialogue[..|dialogue| - 1];
      var last := dialogue[|dialogue| - 1];
      CallsEmpty(init, voiceA, voiceB);
      TurnCallsEmpty(last, voiceA, voiceB);
      var a := Calls(init, voiceA, voiceB);
      var b := TurnCalls(last, voiceA, voiceB);
      assert Calls(dialogue, voiceA, voiceB) == a + b;
      AllBlankSnoc(dialogue);
      assert a + b == [] <==> a == [] && b == [] by {
        assert |a + b| == |a| + |b|;
      }
    }
  }

  /** The request `c` reads one chunk of a non-blank turn with that turn's voice. */
  predicate FromTurn(c: Call, turn: Turn, voiceA: string, voiceB: string) {
    Strip(turn.text) != []
    && c.voice == VoiceFor(turn.speaker, voiceA, voiceB)
    && c.text in Chunking.ChunksFrom(Strip(turn.text), 0, AudioChunkChars)
  }

  /** Every part comes from a non-blank turn `t`: its text is one of that turn's chunks and
      its voice is the one the turn's speaker selects. */
  lemma {:induction false} CallFromTurn(dialogue: seq<Turn>, voiceA: string, voiceB: string, i: nat)
    returns (t: nat)
    requires i < |Calls(dialogue, voiceA, voiceB)|
    ensures t < |dialogue| && FromTurn(Calls(dialogue, voiceA, voiceB)[i], dialogue[t], voiceA, voiceB)
    decreases |dialogue|
  {
    var init := dialogue[..|dialogue| - 1];
    var before := Calls(init, voiceA, voiceB);
    var mine := TurnCalls(dialogue[|dialogue| - 1], voiceA, voiceB);
    assert Calls(dialogue, voiceA, voiceB) == before + mine;
    if i < |before| {
      t := CallFromTurn(init, voiceA, voiceB, i);
      assert init[t] == dialogue[t];
    } else {
      t := |dialogue| - 1;
      TurnCallsFrom(dialogue[t], voiceA, voiceB, i - |before|);
    }
  }
}
