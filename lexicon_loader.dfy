/**
 * Building the lexicon from dictionary records: the mapping of a free-form category
 * string to a coarse tag, the validation of a dictionary word, and the record loop
 * that keeps the first entry per lower-case word.
 */
module LexiconLoader {
  import opened Wrappers
  import opened Text
  import opened Tags

  datatype LexiconEntry = LexiconEntry(word: string, rawPos: string, coarsePos: Tag)

  /** Lower-case word to its entry. */
  type Lexicon = map<string, LexiconEntry>

  /** One dictionary row: its "Word" and "POS" fields ("" when a field is missing). */
  type Record = (string, string)

  /** The tags a category string can be mapped to. */
  const LexicalTags: set<Tag> := {ADV, PREP, PRON, CONJ, INTJ, V, ADJ, N, UNK}

  predicate IsQuote(c: char) {
    c == '"'
  }

  /** The category string as it is classified: whitespace, then double quotes stripped, then lower-cased. */
  function Normalize(rawPos: string): string {
    Lower(Strip(Strip(rawPos, IsSpace), IsQuote))
  }

  predicate HasEarlierMarker(s: string) {
    Contains(s, "adv.") || Contains(s, "prep.") || Contains(s, "pron.")
    || Contains(s, "conj.") || Contains(s, "interj.")
  }

  predicate HasVerbMarker(s: string) {
    Contains(s, "v.") || Contains(s, "imp.") || Contains(s, "p. p.") || Contains(s, "p. pr.")
  }

  predicate HasAdjectiveMarker(s: string) {
    Contains(s, "adj.") || StartsWith(s, "a.") || Contains(s, "superl.") || Contains(s, "compar.")
  }

  predicate HasNounMarker(s: string) {
    Contains(s, "n.") || Contains(s, "pl.")
  }

  /**
   * Classifies a normalized category string: the first rule whose marker occurs wins,
   * so the rules of the earlier tags take precedence over those of the later ones.
   */
  function Classify(s: string): (t: Tag)
    ensures t in LexicalTags && t != DET && t != EOF
    ensures s == [] ==> t == UNK
    ensures t == ADV <==> Contains(s, "adv.")
    ensures t == PREP <==> !Contains(s, "adv.") && Contains(s, "prep.")
    ensures t == PRON <==> !Contains(s, "adv.") && !Contains(s, "prep.") && Contains(s, "pron.")
    ensures t == CONJ <==> !Contains(s, "adv.") && !Contains(s, "prep.") && !Contains(s, "pron.") && Contains(s, "conj.")
    ensures t == INTJ <==>
      !Contains(s, "adv.") && !Contains(s, "prep.") && !Contains(s, "pron.") && !Contains(s, "conj.") && Contains(s, "interj.")
    ensures t == V <==> !HasEarlierMarker(s) && HasVerbMarker(s)
    ensures t == ADJ <==> !HasEarlierMarker(s) && !HasVerbMarker(s) && HasAdjectiveMarker(s)
    ensures t == N <==> !HasEarlierMarker(s) && !HasVerbMarker(s) && !HasAdjectiveMarker(s) && HasNounMarker(s)
    ensures t == UNK <==> !HasEarlierMarker(s) && !HasVerbMarker(s) && !HasAdjectiveMarker(s) && !HasNounMarker(s)
  {
    if s == [] then UNK
    else if Contains(s, "adv.") then ADV
    else if Contains(s, "prep.") then PREP
    else if Contains(s, "pron.") then PRON
    else if Contains(s, "conj.") then CONJ
    else if Contains(s, "interj.") then INTJ
    else if HasVerbMarker(s) then V
    else if HasAdjectiveMarker(s) then ADJ
    else if HasNounMarker(s) then N
    else UNK
  }

  /** The coarse tag of a dictionary category string, ignoring case and surrounding whitespace and quotes. */
  function MapRawPos(rawPos: string): (t: Tag)
    ensures t in LexicalTags && t != DET && t != EOF
  {
    Classify(Normalize(rawPos))
  }

  /** Lower-casing the category string does not change its tag. */
  lemma {:induction false} MapRawPosIgnoresCase(rawPos: string)
    ensures MapRawPos(Lower(rawPos)) == MapRawPos(rawPos)
  {
    NormalizeLower(rawPos);
  }

  lemma {:induction false} NormalizeLower(rawPos: string)
    ensures Normalize(Lower(rawPos)) == Normalize(rawPos)
  {
    var trimmed := Strip(rawPos, IsSpace);
    var unquoted := Strip(trimmed, IsQuote);
    StripLower(rawPos, IsSpace);
    assert Strip(Lower(rawPos), IsSpace) == Lower(trimmed);
    StripLower(trimmed, IsQuote);
    assert Strip(Lower(trimmed), IsQuote) == Lower(unquoted);
    LowerIdempotent(unquoted);
  }

  lemma {:induction false} StripQuotesAround(s: string)
    ensures Strip("\"" + s + "\"", IsQuote) == Strip(s, IsQuote)
  {
    var q := "\"" + s + "\"";
    assert TrimLeft(q, IsQuote) == TrimLeft(s + "\"", IsQuote) by {
      assert q[1..] == s + "\"";
    }
    TrimLeftQuoteEnd(s);
    TrimRightQuote(TrimLeft(s, IsQuote));
  }

  lemma {:induction false} TrimLeftQuoteEnd(s: string)
    ensures TrimLeft(s + "\"", IsQuote) == if TrimLeft(s, IsQuote) == [] then [] else TrimLeft(s, IsQuote) + "\""
  {
    if s != [] {
      assert (s + "\"")[0] == s[0];
      if IsQuote(s[0]) {
        assert (s + "\"")[1..] == s[1..] + "\"";
        TrimLeftQuoteEnd(s[1..]);
      }
    }
  }

  lemma {:induction false} TrimRightQuote(s: string)
    ensures TrimRight(if s == [] then [] else s + "\"", IsQuote) == TrimRight(s, IsQuote)
  {
    if s != [] {
      assert (s + "\"")[..|s|] == s;
    }
  }

  /** Surrounding double quotes do not change the tag of an already trimmed category string. */
  lemma {:induction false} MapRawPosIgnoresQuotes(rawPos: string)
    requires Strip(rawPos, IsSpace) == rawPos
    ensures MapRawPos("\"" + rawPos + "\"") == MapRawPos(rawPos)
  {
    NormalizeQuoted(rawPos);
  }

  lemma {:induction false} NormalizeQuoted(rawPos: string)
    requires Strip(rawPos, IsSpace) == rawPos
    ensures Normalize("\"" + rawPos + "\"") == Normalize(rawPos)
  {
    var q := "\"" + rawPos + "\"";
    assert TrimLeft(q, IsSpace) == q;
    assert TrimRight(q, IsSpace) == q;
    assert Strip(q, IsSpace) == q;
    StripQuotesAround(rawPos);
  }

  lemma {:induction false} ContainsChar(s: string, sub: string, c: char)
    requires Contains(s, sub) && c in sub
    ensures c in s
    decreases |s|
  {
    if StartsWith(s, sub) {
      assert c in s[..|sub|];
    } else {
      ContainsChar(s[1..], sub, c);
    }
  }

  lemma {:induction false} ContainsAt(s: string, sub: string, i: nat)
    requires i + |sub| <= |s| && s[i..i + |sub|] == sub
    ensures Contains(s, sub)
    decreases i
  {
    if i > 0 {
      ContainsAt(s[1..], sub, i - 1);
      assert s[1..][i - 1..i - 1 + |sub|] == s[i..i + |sub|];
    }
  }

  /** A string in which the k-th character of `sub` never occurs does not contain `sub`. */
  lemma {:induction false} Lacks(s: string, sub: string, k: nat)
    requires k < |sub| && forall i :: 0 <= i < |s| ==> s[i] != sub[k]
    ensures !Contains(s, sub)
  {
    if Contains(s, sub) {
      ContainsChar(s, sub, sub[k]);
    }
  }

  /** A category string whose normal form has a noun marker and no earlier one maps to N. */
  lemma {:induction false} MapsToNoun(rawPos: string, s: string)
    requires Normalize(rawPos) == s
    requires !HasEarlierMarker(s) && !HasVerbMarker(s) && !HasAdjectiveMarker(s) && HasNounMarker(s)
    ensures MapRawPos(rawPos) == N
  {
  }

  /** A category string whose normal form has a verb marker and no earlier one maps to V. */
  lemma {:induction false} MapsToVerb(rawPos: string, s: string)
    requires Normalize(rawPos) == s && !HasEarlierMarker(s) && HasVerbMarker(s)
    ensures MapRawPos(rawPos) == V
  {
  }

  /** A category string that begins and ends with neither whitespace nor a quote is its own normal form, up to case. */
  lemma {:induction false} NormalizeUnchanged(s: string)
    requires s != [] && !IsSpace(s[0]) && !IsSpace(s[|s| - 1]) && !IsQuote(s[0]) && !IsQuote(s[|s| - 1])
    ensures Normalize(s) == Lower(s)
  {
    StripUnchanged(s, IsSpace);
    StripUnchanged(s, IsQuote);
  }

  lemma {:induction false} NounNormal()
    ensures Normalize("n.") == "n."
  {
    NormalizeUnchanged("n.");
    assert Lower("n.") == "n.";
  }

  lemma {:induction false} NounMarkers(s: string)
    requires s == "n."
    ensures !HasEarlierMarker(s) && !HasVerbMarker(s) && !HasAdjectiveMarker(s) && HasNounMarker(s)
  {
    Lacks(s, "adv.", 0);
    Lacks(s, "prep.", 0);
    Lacks(s, "pron.", 0);
    Lacks(s, "conj.", 0);
    Lacks(s, "interj.", 0);
    Lacks(s, "v.", 0);
    Lacks(s, "imp.", 0);
    Lacks(s, "p. p.", 0);
    Lacks(s, "p. pr.", 0);
    Lacks(s, "adj.", 0);
    Lacks(s, "superl.", 0);
    Lacks(s, "compar.", 0);
    assert !StartsWith(s, "a.");
    ContainsAt(s, "n.", 0);
  }

  /** "n." and its quoted upper-case spelling both map to N. */
  lemma {:induction false} NounExamples()
    ensures MapRawPos("n.") == N
    ensures MapRawPos("\"N.\"") == N
  {
    NounNormal();
    NounMarkers("n.");
    MapsToNoun("n.", "n.");
    QuotedNoun();
  }

  lemma {:induction false} QuotedNoun()
    ensures MapRawPos("\"N.\"") == MapRawPos("n.")
  {
    assert Lower("N.") == "n.";
    StripUnchanged("N.", IsSpace);
    MapRawPosIgnoresQuotes("N.");
    MapRawPosIgnoresCase("N.");
    QuotedLiteral();
  }

  lemma {:induction false} QuotedLiteral()
    ensures "\"" + "N." + "\"" == "\"N.\""
  {
  }

  lemma {:induction false} VerbNounNormal()
    ensures Normalize("n. & v.") == "n. & v."
  {
    NormalizeUnchanged("n. & v.");
    VerbNounLower();
  }

  lemma {:induction false} VerbNounLower()
    ensures Lower("n. & v.") == "n. & v."
  {
    LowerUnchanged("n. & v.");
  }

  lemma {:induction false} VerbNounMarkers(s: string)
    requires s == "n. & v."
    ensures !HasEarlierMarker(s) && HasVerbMarker(s)
  {
    Lacks(s, "adv.", 0);
    Lacks(s, "prep.", 0);
    Lacks(s, "pron.", 0);
    Lacks(s, "conj.", 0);
    Lacks(s, "interj.", 0);
    ContainsAt(s, "v.", 5);
  }

  /** A verb marker takes precedence over a noun marker. */
  lemma {:induction false} VerbBeforeNoun()
    ensures MapRawPos("n. & v.") == V
  {
    VerbNounNormal();
    VerbNounMarkers("n. & v.");
    MapsToVerb("n. & v.", "n. & v.");
  }

  /** A category that is empty once whitespace and quotes are stripped maps to UNK. */
  lemma {:induction false} BlankIsUnknown(rawPos: string)
    requires Strip(Strip(rawPos, IsSpace), IsQuote) == []
    ensures MapRawPos(rawPos) == UNK
  {
  }

  /** Whitespace and a pair of quotes with nothing inside map to UNK. */
  lemma {:induction false} BlankExample()
    ensures MapRawPos(" \"\" ") == UNK
  {
    assert Strip(" \"\" ", IsSpace) == "\"\"";
    assert Strip("\"\"", IsQuote) == "";
    BlankIsUnknown(" \"\" ");
  }

  predicate IsSimpleChar(c: char) {
    IsAsciiLetter(c) || c == '\'' || c == '-'
  }

  /** A whole-string match of one or more ASCII letters, apostrophes and hyphens. */
  function IsSimpleWord(text: string): (b: bool)
    ensures b <==> |text| > 0 && forall i :: 0 <= i < |text| ==> IsSimpleChar(text[i])
  {
    |text| > 0 && IsSimpleChar(text[0]) && (|text| == 1 || IsSimpleWord(text[1..]))
  }

  lemma {:induction false} LowerSimpleWord(text: string)
    requires IsSimpleWord(text)
    ensures IsSimpleWord(Lower(text))
  {
    if |text| > 1 {
      LowerSimpleWord(text[1..]);
    }
  }

  /** What the loader guarantees of every stored entry. */
  predicate ValidEntry(e: LexiconEntry) {
    && IsSimpleWord(e.word) && Lower(e.word) == e.word
    && e.coarsePos in LexicalTags - {UNK}
    && MapRawPos(e.rawPos) == e.coarsePos
  }

  /** The entry a record contributes when its key is not yet stored, or None when the record is skipped. */
  function Candidate(rec: Record): (e: Option<LexiconEntry>)
  {
    var rawWord := Strip(rec.0, IsSpace);
    var rawPos := Strip(rec.1, IsSpace);
    if rawWord == [] || !IsSimpleWord(rawWord) then None
    else
      var coarse := MapRawPos(rawPos);
      if coarse == UNK then None
      else Some(LexiconEntry(Lower(rawWord), rawPos, coarse))
  }

  lemma {:induction false} CandidateValid(rec: Record)
    requires Candidate(rec).Some?
    ensures ValidEntry(Candidate(rec).value)
  {
    var rawWord := Strip(rec.0, IsSpace);
    LowerSimpleWord(rawWord);
    LowerIdempotent(rawWord);
  }

  /** One step of the record loop. */
  function Insert(lexicon: Lexicon, rec: Record): Lexicon {
    match Candidate(rec)
    case None => lexicon
    case Some(e) => if e.word in lexicon then lexicon else lexicon[e.word := e]
  }

  /** The lexicon the record loop leaves after the given records, in order. */
  function Build(records: seq<Record>): Lexicon
    decreases |records|
  {
    if records == [] then map[]
    else Insert(Build(records[..|records| - 1]), records[|records| - 1])
  }

  /** The record loop of the CSV loader, over records already read. */
  method LoadLexicon(records: seq<Record>) returns (lexicon: Lexicon)
    ensures lexicon == Build(records)
  {
    lexicon := map[];
    for i := 0 to |records|
      invariant lexicon == Build(records[..i])
    {
      assert records[..i + 1][..i] == records[..i];
      assert Build(records[..i + 1]) == Insert(lexicon, records[i]);
      var rawWord := Strip(records[i].0, IsSpace);
      var rawPos := Strip(records[i].1, IsSpace);
      if rawWord == [] {
        continue;
      }
      if !IsSimpleWord(rawWord) {
        continue;
      }
      var coarse := MapRawPos(rawPos);
      if coarse == UNK {
        continue;
      }
      var key := Lower(rawWord);
      if key in lexicon {
        continue;
      }
      lexicon := lexicon[key := LexiconEntry(key, rawPos, coarse)];
    }
    assert records[..|records|] == records;
  }

  /** What every lexicon built by the loader satisfies: each key is its entry's word, and the entry is valid. */
  predicate WellFormed(lexicon: Lexicon) {
    forall key | key in lexicon :: lexicon[key].word == key && ValidEntry(lexicon[key])
  }

  lemma {:induction false} InsertWellFormed(lexicon: Lexicon, rec: Record)
    requires WellFormed(lexicon)
    ensures WellFormed(Insert(lexicon, rec))
  {
    if Candidate(rec).Some? {
      CandidateValid(rec);
    }
  }

  lemma {:induction false} BuildWellFormed(records: seq<Record>)
    ensures WellFormed(Build(records))
    decreases |records|
  {
    if records != [] {
      BuildWellFormed(records[..|records| - 1]);
      InsertWellFormed(Build(records[..|records| - 1]), records[|records| - 1]);
    }
  }

  lemma {:induction false} InsertKeeps(lexicon: Lexicon, rec: Record, key: string)
    requires key in lexicon
    ensures key in Insert(lexicon, rec) && Insert(lexicon, rec)[key] == lexicon[key]
  {
  }

  /** Once a key is stored, later records leave its entry as it is. */
  lemma {:induction false} BuildKeepsEntries(records: seq<Record>, more: seq<Record>, key: string)
    requires key in Build(records)
    ensures key in Build(records + more) && Build(records + more)[key] == Build(records)[key]
    decreases |more|
  {
    if more == [] {
      assert records + more == records;
    } else {
      var init := more[..|more| - 1];
      BuildKeepsEntries(records, init, key);
      assert (records + more)[..|records + more| - 1] == records + init;
      InsertKeeps(Build(records + init), more[|more| - 1], key);
    }
  }

  /** A record whose key is already stored, in any letter case, changes nothing. */
  lemma {:induction false} LaterDuplicateIgnored(records: seq<Record>, rec: Record)
    requires Candidate(rec).Some? && Candidate(rec).value.word in Build(records)
    ensures Build(records + [rec]) == Build(records)
  {
    assert (records + [rec])[..|records|] == records;
  }

  /** Every stored entry is the candidate of some record. */
  lemma {:induction false} BuildFromRecords(records: seq<Record>, key: string)
    requires key in Build(records)
    ensures exists j :: 0 <= j < |records| && Candidate(records[j]) == Some(Build(records)[key])
    decreases |records|
  {
    var prefix := records[..|records| - 1];
    var last := records[|records| - 1];
    assert Build(records) == Insert(Build(prefix), last);
    if key in Build(prefix) {
      InsertKeeps(Build(prefix), last, key);
      BuildFromRecords(prefix, key);
      var j :| 0 <= j < |prefix| && Candidate(prefix[j]) == Some(Build(prefix)[key]);
      assert records[j] == prefix[j];
    } else {
      assert Candidate(records[|records| - 1]) == Some(Build(records)[key]);
    }
  }

  /** No record before position i has the key, so the lexicon built from them lacks it. */
  lemma {:induction false} KeyAbsent(records: seq<Record>, i: nat, key: string)
    requires i <= |records|
    requires forall j :: 0 <= j < i && Candidate(records[j]).Some? ==> Candidate(records[j]).value.word != key
    ensures key !in Build(records[..i])
    decreases i
  {
    if i > 0 {
      KeyAbsent(records, i - 1, key);
      assert records[..i][..i - 1] == records[..i - 1];
      assert Build(records[..i]) == Insert(Build(records[..i - 1]), records[i - 1]);
    }
  }

  /** The entry of each key is that of the first accepted record with that key. */
  lemma {:induction false} FirstOccurrenceWins(records: seq<Record>, i: nat)
    requires i < |records| && Candidate(records[i]).Some?
    requires forall j :: 0 <= j < i && Candidate(records[j]).Some? ==>
               Candidate(records[j]).value.word != Candidate(records[i]).value.word
    ensures Candidate(records[i]).value.word in Build(records)
    ensures Build(records)[Candidate(records[i]).value.word] == Candidate(records[i]).value
  {
    var e := Candidate(records[i]).value;
    KeyAbsent(records, i, e.word);
    StoredAtFirst(records, i, e);
    BuildKeepsPrefix(records, i + 1, e.word);
  }

  /** What the records up to position n store for a key, the whole sequence stores too. */
  lemma {:induction false} BuildKeepsPrefix(records: seq<Record>, n: nat, key: string)
    requires n <= |records| && key in Build(records[..n])
    ensures key in Build(records) && Build(records)[key] == Build(records[..n])[key]
  {
    BuildKeepsEntries(records[..n], records[n..], key);
    assert records[..n] + records[n..] == records;
  }

  lemma {:induction false} StoredAtFirst(records: seq<Record>, i: nat, e: LexiconEntry)
    requires i < |records| && Candidate(records[i]) == Some(e)
    requires e.word !in Build(records[..i])
    ensures e.word in Build(records[..i + 1]) && Build(records[..i + 1])[e.word] == e
  {
    assert records[..i + 1][..i] == records[..i];
    assert records[..i + 1][i] == records[i];
    assert Build(records[..i + 1]) == Insert(Build(records[..i]), records[i]);
  }

  /** A key is stored exactly when some accepted record has it. */
  lemma {:induction false} BuildKeys(records: seq<Record>, key: string)
    ensures key in Build(records) <==>
      exists j :: 0 <= j < |records| && Candidate(records[j]).Some? && Candidate(records[j]).value.word == key
  {
    if key in Build(records) {
      BuildFromRecords(records, key);
      BuildWellFormed(records);
    } else if j :| 0 <= j < |records| && Candidate(records[j]).Some? && Candidate(records[j]).value.word == key {
      FirstWithKey(records, key, j);
    }
  }

  /** Moves a witness back to the first accepted record with the key, where FirstOccurrenceWins applies. */
  lemma {:induction false} FirstWithKey(records: seq<Record>, key: string, j: nat)
    requires j < |records| && Candidate(records[j]).Some? && Candidate(records[j]).value.word == key
    ensures key in Build(records)
    decreases j
  {
    if i :| 0 <= i < j && Candidate(records[i]).Some? && Candidate(records[i]).value.word == key {
      FirstWithKey(records, key, i);
    } else {
      FirstOccurrenceWins(records, j);
    }
  }
}
