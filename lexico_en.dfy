/**
 * The tokenizer and the lexicon-lookup tagger. The lexicon is passed in instead of
 * being read from a module-level variable.
 */
module LexicoEn {
  import opened Text
  import opened Tags
  import opened LexiconLoader

  /** A character a word token may contain: an ASCII letter or an apostrophe. */
  predicate IsWordChar(c: char) {
    IsAsciiLetter(c) || c == '\''
  }

  /** The half-open range [start, end) of one token in the text. */
  datatype Span = Span(start: nat, end: nat)

  /** A non-empty range of word characters. */
  ghost predicate IsRun(text: string, sp: Span) {
    sp.start < sp.end <= |text| && forall p :: sp.start <= p < sp.end ==> IsWordChar(text[p])
  }

  /** Neither the character before nor the one after the range is a word character. */
  ghost predicate IsMaximal(text: string, sp: Span)
    requires sp.start <= sp.end <= |text|
  {
    (sp.start == 0 || !IsWordChar(text[sp.start - 1])) && (sp.end == |text| || !IsWordChar(text[sp.end]))
  }

  /** Position i does not split a run of word characters. */
  predicate AtBoundary(text: string, i: nat)
    requires i <= |text|
  {
    i == 0 || i == |text| || !IsWordChar(text[i - 1]) || !IsWordChar(text[i])
  }

  /** The end of the run of word characters that starts at i. */
  function RunEnd(text: string, i: nat): (j: nat)
    requires i <= |text|
    ensures i <= j <= |text|
    ensures forall p :: i <= p < j ==> IsWordChar(text[p])
    ensures j == |text| || !IsWordChar(text[j])
    decreases |text| - i
  {
    if i < |text| && IsWordChar(text[i]) then RunEnd(text, i + 1) else i
  }

  /** The left-to-right scan for maximal runs of word characters from position i. */
  function Scan(text: string, i: nat): (spans: seq<Span>)
    requires i <= |text| && AtBoundary(text, i)
    ensures forall k :: 0 <= k < |spans| ==> i <= spans[k].start < spans[k].end <= |text|
    decreases |text| - i
  {
    if i == |text| then []
    else if !IsWordChar(text[i]) then Scan(text, i + 1)
    else
      var j := RunEnd(text, i);
      [Span(i, j)] + Scan(text, j)
  }

  /** The k-th scanned span is a maximal run of word characters. */
  ghost predicate GoodSpan(text: string, spans: seq<Span>, k: int)
    requires 0 <= k < |spans|
  {
    spans[k].start <= spans[k].end <= |text| && IsRun(text, spans[k]) && IsMaximal(text, spans[k])
  }

  /** The scanned spans are maximal runs, in order and without overlap. */
  lemma {:induction false} ScanRuns(text: string, i: nat)
    requires i <= |text| && AtBoundary(text, i)
    ensures forall k :: 0 <= k < |Scan(text, i)| ==> GoodSpan(text, Scan(text, i), k)
    ensures forall k, l :: 0 <= k < l < |Scan(text, i)| ==> Scan(text, i)[k].end < Scan(text, i)[l].start
    decreases |text| - i
  {
    if i < |text| {
      if !IsWordChar(text[i]) {
        ScanRuns(text, i + 1);
      } else {
        var j := RunEnd(text, i);
        var rest := Scan(text, j);
        ScanRuns(text, j);
        forall k | 0 <= k < |rest| ensures j < rest[k].start {
          assert GoodSpan(text, rest, k);
          assert IsWordChar(text[rest[k].start]);
        }
        var spans := Scan(text, i);
        assert spans == [Span(i, j)] + rest;
        forall k | 0 <= k < |spans| ensures GoodSpan(text, spans, k) {
          if k > 0 {
            assert spans[k] == rest[k - 1];
            assert GoodSpan(text, rest, k - 1);
          }
        }
      }
    }
  }

  /** The words of the text: every maximal run of ASCII letters and apostrophes, in order. */
  function Tokenize(text: string): seq<string> {
    var spans := Scan(text, 0);
    seq(|spans|, k requires 0 <= k < |spans| => text[spans[k].start..spans[k].end])
  }

  /** Every token is non-empty and made of ASCII letters and apostrophes. */
  lemma {:induction false} TokensAreWords(text: string)
    ensures forall k :: 0 <= k < |Tokenize(text)| ==>
      Tokenize(text)[k] != [] && forall c :: c in Tokenize(text)[k] ==> IsWordChar(c)
  {
    ScanRuns(text, 0);
    var spans := Scan(text, 0);
    forall k | 0 <= k < |spans|
      ensures forall c :: c in Tokenize(text)[k] ==> IsWordChar(c)
    {
      assert GoodSpan(text, spans, k);
      var w := Tokenize(text)[k];
      forall c | c in w ensures IsWordChar(c) {
        var p :| 0 <= p < |w| && w[p] == c;
        assert c == text[spans[k].start + p];
      }
    }
  }

  /** Each token is the text of a maximal run, and the runs are in order and do not overlap. */
  lemma {:induction false} TokenSpans(text: string)
    ensures |Scan(text, 0)| == |Tokenize(text)|
    ensures forall k :: 0 <= k < |Scan(text, 0)| ==>
      GoodSpan(text, Scan(text, 0), k) && Tokenize(text)[k] == text[Scan(text, 0)[k].start..Scan(text, 0)[k].end]
    ensures forall k, l :: 0 <= k < l < |Scan(text, 0)| ==> Scan(text, 0)[k].end < Scan(text, 0)[l].start
  {
    ScanRuns(text, 0);
  }

  /** Every word character of the text lies inside one of the scanned runs. */
  lemma {:induction false} ScanCovers(text: string, i: nat, p: nat)
    requires i <= p < |text| && AtBoundary(text, i) && IsWordChar(text[p])
    ensures exists k :: 0 <= k < |Scan(text, i)| && Scan(text, i)[k].start <= p < Scan(text, i)[k].end
    decreases |text| - i
  {
    var spans := Scan(text, i);
    if !IsWordChar(text[i]) {
      ScanCovers(text, i + 1, p);
    } else {
      var j := RunEnd(text, i);
      if p < j {
        assert spans[0] == Span(i, j);
      } else {
        ScanCovers(text, j, p);
        var k :| 0 <= k < |Scan(text, j)| && Scan(text, j)[k].start <= p < Scan(text, j)[k].end;
        assert spans[k + 1] == Scan(text, j)[k];
      }
    }
  }

  /** No token is dropped: every word character of the text belongs to some token. */
  lemma {:induction false} EveryWordCharIsTokenized(text: string, p: nat)
    requires p < |text| && IsWordChar(text[p])
    ensures exists k :: 0 <= k < |Scan(text, 0)| && Scan(text, 0)[k].start <= p < Scan(text, 0)[k].end
  {
    ScanCovers(text, 0, p);
  }

  /** Text without letters or apostrophes, the empty text included, has no tokens. */
  lemma {:induction false} NoWordCharsNoTokens(text: string)
    requires forall p :: 0 <= p < |text| ==> !IsWordChar(text[p])
    ensures Tokenize(text) == []
  {
    ScanNone(text, 0);
  }

  lemma {:induction false} ScanNone(text: string, i: nat)
    requires i <= |text| && AtBoundary(text, i)
    requires forall p :: i <= p < |text| ==> !IsWordChar(text[p])
    ensures Scan(text, i) == []
    decreases |text| - i
  {
    if i < |text| {
      ScanNone(text, i + 1);
    }
  }

  /** A scan that starts on a run of word characters reports that run first. */
  lemma {:induction false} ScanAtRun(text: string, i: nat, j: nat)
    requires i < j <= |text| && AtBoundary(text, i)
    requires forall p :: i <= p < j ==> IsWordChar(text[p])
    requires j == |text| || !IsWordChar(text[j])
    ensures Scan(text, i) == [Span(i, j)] + Scan(text, j)
  {
    RunEndAt(text, i, j);
  }

  lemma {:induction false} RunEndAt(text: string, i: nat, j: nat)
    requires i <= j <= |text|
    requires forall p :: i <= p < j ==> IsWordChar(text[p])
    requires j == |text| || !IsWordChar(text[j])
    ensures RunEnd(text, i) == j
    decreases j - i
  {
    if i < j {
      RunEndAt(text, i + 1, j);
    }
  }

  /** A scan passes over characters that are not word characters. */
  lemma {:induction false} ScanSkips(text: string, i: nat, j: nat)
    requires i <= j <= |text| && AtBoundary(text, i)
    requires forall p :: i <= p < j ==> !IsWordChar(text[p])
    ensures AtBoundary(text, j)
    ensures Scan(text, i) == Scan(text, j)
    decreases j - i
  {
    if i < j {
      ScanSkips(text, i + 1, j);
    }
  }

  /** Where the word characters of "The quick, brown fox!" are. */
  ghost predicate FoxShape(t: string) {
    && |t| == 21
    && (forall p :: 0 <= p < 3 || 4 <= p < 9 || 11 <= p < 16 || 17 <= p < 20 ==> IsWordChar(t[p]))
    && (forall p :: p == 3 || p == 9 || p == 10 || p == 16 || p == 20 ==> !IsWordChar(t[p]))
  }

  lemma {:induction false} FoxShapeScan(t: string)
    requires FoxShape(t)
    ensures Scan(t, 0) == [Span(0, 3), Span(4, 9), Span(11, 16), Span(17, 20)]
  {
    ScanSkips(t, 20, 21);
    ScanAtRun(t, 17, 20);
    ScanSkips(t, 16, 17);
    ScanAtRun(t, 11, 16);
    ScanSkips(t, 9, 11);
    ScanAtRun(t, 4, 9);
    ScanSkips(t, 3, 4);
    ScanAtRun(t, 0, 3);
  }

  const Fox: string := "The quick, brown fox!"

  lemma {:induction false} FoxHasShape()
    ensures FoxShape(Fox)
  {
  }

  lemma {:induction false} FoxWords()
    ensures Fox[0..3] == "The" && Fox[4..9] == "quick" && Fox[11..16] == "brown" && Fox[17..20] == "fox"
  {
  }

  /** The scan of a sentence with a comma and an exclamation mark. */
  lemma {:induction false} TokenizeExample()
    ensures Tokenize(Fox) == ["The", "quick", "brown", "fox"]
  {
    FoxHasShape();
    FoxShapeScan(Fox);
    FoxWords();
  }

  /** The coarse tag of a word: that of its lower-cased form in the lexicon, or UNK. */
  function TagWord(lexicon: Lexicon, word: string): (t: Tag)
    ensures Lower(word) in lexicon ==> t == lexicon[Lower(word)].coarsePos
    ensures Lower(word) !in lexicon ==> t == UNK
    ensures WellFormed(lexicon) ==> (t == UNK <==> Lower(word) !in lexicon)
  {
    var key := Lower(word);
    if key in lexicon then lexicon[key].coarsePos else UNK
  }

  /** Tagging ignores letter case. */
  lemma {:induction false} TagWordIgnoresCase(lexicon: Lexicon, word: string)
    ensures TagWord(lexicon, word) == TagWord(lexicon, Lower(word))
  {
    LowerIdempotent(word);
  }

  /** With a lexicon the loader built, a word is never tagged DET or EOF. */
  lemma {:induction false} TagWordRange(lexicon: Lexicon, word: string)
    requires WellFormed(lexicon)
    ensures TagWord(lexicon, word) in LexicalTags
    ensures TagWord(lexicon, word) != DET && TagWord(lexicon, word) != EOF
  {
  }

  /** Each token of the text with its lexicon tag, in order. */
  function TagSentence(lexicon: Lexicon, text: string): (tagged: seq<(string, Tag)>)
    ensures |tagged| == |Tokenize(text)|
    ensures forall i :: 0 <= i < |tagged| ==>
      tagged[i] == (Tokenize(text)[i], TagWord(lexicon, Tokenize(text)[i]))
    ensures WellFormed(lexicon) ==> forall i :: 0 <= i < |tagged| ==>
      tagged[i].1 in LexicalTags - {DET, EOF} && (tagged[i].1 == UNK <==> Lower(tagged[i].0) !in lexicon)
  {
    var words := Tokenize(text);
    seq(|words|, i requires 0 <= i < |words| => (words[i], TagWord(lexicon, words[i])))
  }
}
