/** `_content_hash` (app/pipeline.py): the text an article is de-duplicated on.
    The text is stripped, lower-cased and every whitespace run becomes one
    space; the hash of that normal form is the article's content hash. SHA-256
    itself is a parameter: only the normalisation is modelled. */
module ContentHash {
  import opened Wrappers
  import opened Text
  import opened Seqs

  /** `re.sub(r"\s+", " ", s)`: every maximal whitespace run becomes one space. */
  function CollapseRuns(s: string): (r: string)
    ensures |r| <= |s|
    ensures s != [] ==> r != []
    decreases |s|
  {
    if s == [] then []
    else if IsSpace(s[0]) then
      [' '] + CollapseRuns(LStrip(s))
    else [s[0]] + CollapseRuns(s[1..])
  }

  /** `re.sub(r"\s+", " ", text.strip().lower())`. */
  function Normalize(text: string): string {
    CollapseRuns(Lower(Strip(text)))
  }

  /** `_content_hash(text)`: None for a missing, empty or all-whitespace text,
      otherwise `sha` of the normal form. */
  function Hash(text: Option<string>, sha: string -> string): Option<string> {
    if text.None? || text.value == [] then None
    else
      var n := Normalize(text.value);
      if n == [] then None else Some(sha(n))
  }

  /** The index of the first whitespace character of `s`, or `|s|`. */
  function SpaceIndex(s: string): (k: nat)
    ensures k <= |s|
    ensures forall i :: 0 <= i < k ==> !IsSpace(s[i])
    ensures k < |s| ==> IsSpace(s[k])
  {
    if s == [] || IsSpace(s[0]) then 0 else 1 + SpaceIndex(s[1..])
  }

  /** Python's `s.split()`: the maximal runs of non-whitespace characters, in order. */
  function Words(s: string): seq<string>
    decreases |s|
  {
    var t := LStrip(s);
    if t == [] then []
    else
      var k := SpaceIndex(t);
      [t[..k]] + Words(t[k..])
  }

  predicate NoSpace(s: string) {
    forall i :: 0 <= i < |s| ==> !IsSpace(s[i])
  }

  predicate IsWord(w: string) {
    w != [] && NoSpace(w)
  }

  lemma IsWordCons(w: string, rest: seq<string>)
    requires IsWord(w) && forall i :: 0 <= i < |rest| ==> IsWord(rest[i])
    ensures forall i :: 0 <= i < |[w] + rest| ==> IsWord(([w] + rest)[i])
  {
    forall i | 1 <= i < |[w] + rest| ensures ([w] + rest)[i] == rest[i - 1] { }
  }

  /** The first word of a string that starts with a non-blank character. */
  lemma FirstWordIsWord(t: string)
    requires t != [] && !IsSpace(t[0])
    ensures IsWord(t[..SpaceIndex(t)])
  {
    var w := t[..SpaceIndex(t)];
    forall i | 0 <= i < |w| ensures !IsSpace(w[i]) { assert w[i] == t[i]; }
  }

  /** Every word is non-empty and holds no whitespace. */
  lemma {:induction false} WordsShape(s: string)
    ensures forall i :: 0 <= i < |Words(s)| ==> IsWord(Words(s)[i])
    decreases |s|
  {
    var t := LStrip(s);
    if t != [] {
      var k := SpaceIndex(t);
      FirstWordIsWord(t);
      WordsShape(t[k..]);
      IsWordCons(t[..k], Words(t[k..]));
    }
  }

  lemma LowerCharSpace(c: char)
    ensures IsSpace(LowerChar(c)) <==> IsSpace(c)
    ensures LowerChar(LowerChar(c)) == LowerChar(c)
  {
  }

  lemma LStripOfNonSpace(s: string)
    requires s == [] || !IsSpace(s[0])
    ensures LStrip(s) == s
  {
  }

  /** A word with no whitespace passes through the collapse unchanged. */
  lemma {:induction false} CollapseWordPrefix(w: string, r: string)
    requires NoSpace(w)
    ensures CollapseRuns(w + r) == w + CollapseRuns(r)
  {
    if w == [] {
      assert w + r == r;
    } else {
      var wr := w + r;
      AppendTail(w, r);
      assert !IsSpace(wr[0]);
      assert CollapseRuns(wr) == [w[0]] + CollapseRuns(w[1..] + r);
      CollapseWordPrefix(w[1..], r);
      assert [w[0]] + (w[1..] + CollapseRuns(r)) == w + CollapseRuns(r);
    }
  }

  /** Leading whitespace does not change the words. */
  lemma {:induction false} LeadingSpacesLeading(a: string, x: string)
    requires AllSpace(a)
    ensures LeadingSpaces(a + x) == |a| + LeadingSpaces(x)
    decreases |a|
  {
    if a != [] {
      AppendTail(a, x);
      LeadingSpacesLeading(a[1..], x);
    } else {
      assert a + x == x;
    }
  }

  lemma LStripLeading(a: string, x: string)
    requires AllSpace(a)
    ensures LStrip(a + x) == LStrip(x)
  {
    LeadingSpacesLeading(a, x);
    AppendSlices(a, x, |a|);
    assert (a + x)[|a|..] == x;
    assert (a + x)[|a| + LeadingSpaces(x)..] == x[LeadingSpaces(x)..];
  }

  lemma WordsLeading(a: string, x: string)
    requires AllSpace(a)
    ensures Words(a + x) == Words(x)
  {
    LStripLeading(a, x);
  }

  lemma {:induction false} LStripAppend(y: string, z: string)
    requires !AllSpace(y)
    ensures LeadingSpaces(y + z) == LeadingSpaces(y)
    ensures LStrip(y + z) == LStrip(y) + z
    decreases |y|
  {
    assert y != [];
    AppendTail(y, z);
    if IsSpace(y[0]) {
      assert !AllSpace(y[1..]) by {
        var i :| 0 <= i < |y| && !IsSpace(y[i]);
        assert y[1..][i - 1] == y[i];
      }
      LStripAppend(y[1..], z);
    }
    AppendSlices(y, z, LeadingSpaces(y));
  }

  lemma {:induction false} SpaceIndexAppend(t: string, z: string)
    requires AllSpace(z)
    ensures SpaceIndex(t + z) == SpaceIndex(t)
  {
    if t != [] {
      AppendTail(t, z);
      SpaceIndexAppend(t[1..], z);
    } else {
      assert t + z == z;
    }
  }

  /** Trailing whitespace does not change the words. */
  lemma {:induction false} WordsTrailing(y: string, z: string)
    requires AllSpace(z)
    ensures Words(y + z) == Words(y)
    decreases |y|
  {
    if AllSpace(y) {
      assert AllSpace(y + z);
      assert LStrip(y + z) == [];
      assert LStrip(y) == [];
    } else {
      LStripAppend(y, z);
      var t := LStrip(y);
      var k := SpaceIndex(t);
      SpaceIndexAppend(t, z);
      AppendSlices(t, z, k);
      WordsTrailing(t[k..], z);
    }
  }

  /** A string that starts with a non-blank character begins with its first word. */
  lemma WordsStep(s: string)
    requires s != [] && !IsSpace(s[0])
    ensures Words(s) == [s[..SpaceIndex(s)]] + Words(s[SpaceIndex(s)..])
  {
    LStripOfNonSpace(s);
  }

  lemma WordsSkipLeading(s: string)
    ensures Words(s) == Words(LStrip(s))
  {
    var t := LStrip(s);
    LStripOfNonSpace(t);
  }

  lemma JoinCons(w: string, ws: seq<string>, sep: string)
    requires ws != []
    ensures Join([w] + ws, sep) == w + sep + Join(ws, sep)
  {
    assert ([w] + ws)[1..] == ws;
  }

  /** Stripping the front of a string whose last character is not blank keeps that character last. */
  lemma LStripKeepsLast(s: string)
    requires s != [] && !IsSpace(s[|s| - 1])
    ensures LStrip(s) != [] && LStrip(s)[|LStrip(s)| - 1] == s[|s| - 1]
  {
    assert LeadingSpaces(s) < |s|;
  }

  lemma SliceLast(s: string, k: nat)
    requires k < |s|
    ensures s[k..] != [] && s[k..][|s[k..]| - 1] == s[|s| - 1]
  {
  }

  lemma TakeDrop<T>(s: seq<T>, k: nat)
    requires k <= |s|
    ensures s == s[..k] + s[k..]
  {
  }

  /** A string made of a single word collapses to itself and is that one word. */
  lemma OneWord(s: string)
    requires s != [] && SpaceIndex(s) == |s|
    ensures CollapseRuns(s) == s && Words(s) == [s]
  {
    WordsStep(s);
    TakeDrop(s, |s|);
    CollapseWordPrefix(s, []);
    assert s + [] == s;
  }

  /** What follows the first word, from the next word on. */
  function AfterWord(s: string): string {
    LStrip(s[SpaceIndex(s)..])
  }

  lemma AfterWordShape(s: string)
    requires s != [] && !IsSpace(s[|s| - 1]) && SpaceIndex(s) < |s|
    ensures var u := AfterWord(s); u != [] && !IsSpace(u[0]) && !IsSpace(u[|u| - 1]) && |u| < |s|
  {
    var k := SpaceIndex(s);
    SliceLast(s, k);
    LStripKeepsLast(s[k..]);
  }

  lemma CollapseSpaceRun(rest: string)
    requires rest != [] && IsSpace(rest[0])
    ensures CollapseRuns(rest) == [' '] + CollapseRuns(LStrip(rest))
  {
  }

  /** Collapsing: the first word, one space, then the collapse of the rest. */
  lemma CollapseStep(s: string)
    requires s != [] && SpaceIndex(s) < |s|
    ensures CollapseRuns(s) == s[..SpaceIndex(s)] + " " + CollapseRuns(AfterWord(s))
  {
    var k := SpaceIndex(s);
    var w, rest := s[..k], s[k..];
    TakeDrop(s, k);
    CollapseWordPrefix(w, rest);
    CollapseSpaceRun(rest);
    AppendAssoc(w, " ", CollapseRuns(AfterWord(s)));
  }

  /** Splitting: the first word, then the words of the rest. */
  lemma WordsStepAfter(s: string)
    requires s != [] && !IsSpace(s[0])
    ensures Words(s) == [s[..SpaceIndex(s)]] + Words(AfterWord(s))
  {
    WordsStep(s);
    WordsSkipLeading(s[SpaceIndex(s)..]);
  }

  /** On a string with no whitespace at either end, collapsing the runs is
      joining the words with single spaces. */
  lemma {:induction false} CollapseIsJoinedWords(s: string)
    requires s == [] || (!IsSpace(s[0]) && !IsSpace(s[|s| - 1]))
    ensures CollapseRuns(s) == Join(Words(s), " ")
    decreases |s|
  {
    if s != [] {
      if SpaceIndex(s) == |s| {
        OneWord(s);
      } else {
        var w, u := s[..SpaceIndex(s)], AfterWord(s);
        AfterWordShape(s);
        CollapseStep(s);
        WordsStepAfter(s);
        CollapseIsJoinedWords(u);
        WordsStep(u);
        JoinCons(w, Words(u), " ");
      }
    }
  }

  lemma LowerAppend(x: string, y: string)
    ensures Lower(x + y) == Lower(x) + Lower(y)
  {
  }

  lemma LowerAllSpace(x: string)
    requires AllSpace(x)
    ensures AllSpace(Lower(x))
  {
    forall i | 0 <= i < |x| ensures IsSpace(Lower(x)[i]) { LowerCharSpace(x[i]); }
  }

  /** `text` is its strip with whitespace on either side. */
  lemma StripSplit(text: string) returns (p: nat, q: nat)
    ensures p <= q <= |text| && Strip(text) == text[p..q]
    ensures AllSpace(text[..p]) && AllSpace(text[q..])
    ensures text == text[..p] + (text[p..q] + text[q..])
  {
    p := LeadingSpaces(text);
    var l := text[p..];
    var t := TrailingSpaces(l);
    q := |text| - t;
    assert Strip(text) == l[..|l| - t];
    assert AllSpace(text[q..]) by {
      forall i | 0 <= i < |text| - q ensures IsSpace(text[q..][i]) {
        assert text[q..][i] == l[|l| - t + i];
      }
    }
  }

  /** Python's `" ".join(text.lower().split())`: the normal form is the lower-cased
      words, joined with single spaces. */
  lemma NormalizeIsJoinedWords(text: string)
    ensures Normalize(text) == Join(Words(Lower(text)), " ")
  {
    var m := Strip(text);
    LowerKeepsEnds(m);
    CollapseIsJoinedWords(Lower(m));
    WordsOfLowerStrip(text);
  }

  /** Lower-casing and stripping leave the same words. */
  lemma WordsOfLowerStrip(text: string)
    ensures Words(Lower(text)) == Words(Lower(Strip(text)))
  {
    var p, q := StripSplit(text);
    var m := Strip(text);
    var a, mm, z := Lower(text[..p]), Lower(m), Lower(text[q..]);
    LowerSplit(text[..p], m, text[q..]);
    LowerAllSpace(text[..p]);
    LowerAllSpace(text[q..]);
    WordsLeading(a, mm + z);
    WordsTrailing(mm, z);
  }

  lemma LowerSplit(a: string, m: string, z: string)
    ensures Lower(a + (m + z)) == Lower(a) + (Lower(m) + Lower(z))
  {
    LowerAppend(a, m + z);
    LowerAppend(m, z);
  }

  lemma LowerKeepsEnds(m: string)
    requires m == [] || (!IsSpace(m[0]) && !IsSpace(m[|m| - 1]))
    ensures var mm := Lower(m); mm == [] || (!IsSpace(mm[0]) && !IsSpace(mm[|mm| - 1]))
  {
    if m != [] {
      LowerCharSpace(m[0]);
      LowerCharSpace(m[|m| - 1]);
    }
  }

  /** Inputs that differ only in case or in how their words are spaced hash
      alike. */
  lemma HashIgnoresCaseAndSpacing(a: string, b: string, sha: string -> string)
    requires Words(Lower(a)) == Words(Lower(b))
    ensures Hash(Some(a), sha) == Hash(Some(b), sha)
  {
    NormalizeIsJoinedWords(a);
    NormalizeIsJoinedWords(b);
    if a == [] { assert Normalize(a) == []; }
    if b == [] { assert Normalize(b) == []; }
  }

  /** There is no hash exactly for a missing, empty or all-whitespace text. */
  lemma HashAbsent(text: Option<string>, sha: string -> string)
    ensures Hash(text, sha) == None <==> text.None? || AllSpace(text.value)
    ensures text.Some? && !AllSpace(text.value) ==> Hash(text, sha) == Some(sha(Normalize(text.value)))
  {
    if text.Some? {
      var m := Strip(text.value);
      assert |Lower(m)| == |m|;
    }
  }

  predicate LowerFixed(s: string) {
    forall i :: 0 <= i < |s| ==> LowerChar(s[i]) == s[i]
  }

  lemma LowerIsLowerFixed(s: string)
    ensures LowerFixed(Lower(s))
  {
    forall i | 0 <= i < |s| ensures LowerChar(Lower(s)[i]) == Lower(s)[i] { LowerCharSpace(s[i]); }
  }

  lemma LowerFixedSlice(s: string, i: nat, j: nat)
    requires LowerFixed(s) && i <= j <= |s|
    ensures LowerFixed(s[i..j])
  {
    forall k | 0 <= k < j - i ensures LowerChar(s[i..j][k]) == s[i..j][k] { assert s[i..j][k] == s[i + k]; }
  }

  lemma LowerFixedCons(w: string, rest: seq<string>)
    requires LowerFixed(w) && forall i :: 0 <= i < |rest| ==> LowerFixed(rest[i])
    ensures forall i :: 0 <= i < |[w] + rest| ==> LowerFixed(([w] + rest)[i])
  {
    forall i | 1 <= i < |[w] + rest| ensures ([w] + rest)[i] == rest[i - 1] { }
  }

  /** The words of a lower-case string are lower case. */
  lemma {:induction false} WordsLowerFixed(s: string)
    requires LowerFixed(s)
    ensures forall i :: 0 <= i < |Words(s)| ==> LowerFixed(Words(s)[i])
    decreases |s|
  {
    var t := LStrip(s);
    LowerFixedSlice(s, LeadingSpaces(s), |s|);
    if t != [] {
      var k := SpaceIndex(t);
      LowerFixedSlice(t, 0, k);
      LowerFixedSlice(t, k, |t|);
      WordsLowerFixed(t[k..]);
      LowerFixedCons(t[..k], Words(t[k..]));
    }
  }

  lemma {:induction false} JoinLowerFixed(ws: seq<string>)
    requires forall i :: 0 <= i < |ws| ==> LowerFixed(ws[i])
    ensures LowerFixed(Join(ws, " "))
  {
    if |ws| > 1 {
      JoinLowerFixed(ws[1..]);
      var j := Join(ws[1..], " ");
      var r := ws[0] + " " + j;
      forall i | 0 <= i < |r| ensures LowerChar(r[i]) == r[i] {
        if i < |ws[0]| { assert r[i] == ws[0][i]; }
        else if i > |ws[0]| { assert r[i] == j[i - |ws[0]| - 1]; }
      }
    }
  }

  lemma LowerOfLowerFixed(s: string)
    requires LowerFixed(s)
    ensures Lower(s) == s
  {
  }

  /** After a word with no whitespace, a space ends it. */
  lemma SpaceIndexAfterWord(w: string, r: string)
    requires NoSpace(w)
    ensures SpaceIndex(w + " " + r) == |w|
    decreases |w|
  {
    if w != [] {
      AppendTail(w + " ", r);
      AppendTail(w, " ");
      assert (w + " " + r)[1..] == w[1..] + " " + r;
      SpaceIndexAfterWord(w[1..], r);
    }
  }

  /** Splitting words joined by single spaces gives the words back. */
  lemma {:induction false} WordsOfJoin(ws: seq<string>)
    requires forall i :: 0 <= i < |ws| ==> IsWord(ws[i])
    ensures Words(Join(ws, " ")) == ws
  {
    if |ws| == 1 {
      OneWordWords(ws[0]);
    } else if |ws| > 1 {
      WordsOfJoin(ws[1..]);
      WordsOfJoinStep(ws);
      assert ws == [ws[0]] + ws[1..];
    }
  }

  lemma WordsOfJoinStep(ws: seq<string>)
    requires |ws| > 1 && IsWord(ws[0])
    ensures Words(Join(ws, " ")) == [ws[0]] + Words(Join(ws[1..], " "))
  {
    WordSpaceRest(ws[0], Join(ws[1..], " "));
  }

  lemma OneWordWords(w: string)
    requires IsWord(w)
    ensures Words(w) == [w]
  {
    WordsStep(w);
    assert SpaceIndex(w) == |w|;
    assert w[|w|..] == [] && w[..|w|] == w;
  }

  /** A word followed by a space: the word, then the words of the rest. */
  lemma WordSpaceRest(w: string, j: string)
    requires IsWord(w)
    ensures Words(w + " " + j) == [w] + Words(j)
  {
    var s := w + " " + j;
    AppendAssoc(w, " ", j);
    SpaceIndexAfterWord(w, j);
    WordsStep(s);
    AppendSlices(w, " " + j, |w|);
    WordsLeading(" ", j);
  }

  /** Normalising twice is normalising once. */
  lemma NormalizeIdempotent(text: string)
    ensures Normalize(Normalize(text)) == Normalize(text)
  {
    var ws := Words(Lower(text));
    var n := Normalize(text);
    NormalizeIsJoinedWords(text);
    NormalizeIsJoinedWords(n);
    LowerIsLowerFixed(text);
    WordsLowerFixed(Lower(text));
    JoinLowerFixed(ws);
    LowerOfLowerFixed(n);
    WordsShape(Lower(text));
    WordsOfJoin(ws);
  }
}
