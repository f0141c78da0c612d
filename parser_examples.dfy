/**
 * Two sentences taken through tokenizing, tagging and parsing: one the grammar accepts
 * and one it rejects. The lexicon is any lexicon that tags "dog" and "bread" as nouns
 * and "eats" as a verb.
 */
module ParserExamples {
  import opened Wrappers
  import opened Text
  import opened Tags
  import opened LexiconLoader
  import opened LexicoEn
  import opened ParserEn
  import opened ParserProperties

  predicate KnowsDogEatsBread(lexicon: Lexicon) {
    && "dog" in lexicon && lexicon["dog"].coarsePos == N
    && "eats" in lexicon && lexicon["eats"].coarsePos == V
    && "bread" in lexicon && lexicon["bread"].coarsePos == N
  }

  /** A closed-class word keeps its class whatever its case and whatever the lexicon says. */
  lemma {:induction false} TheIsDeterminer(lexicon: Lexicon)
    ensures ResolveTag(Lower("The"), TagWord(lexicon, "The")) == DET
    ensures ResolveTag(Lower("the"), TagWord(lexicon, "the")) == DET
  {
    assert Lower("The") == "the";
    assert Lower("the") == "the";
  }

  /** An open-class word the lexicon classifies keeps the lexicon's tag. */
  lemma {:induction false} OpenWordTag(lexicon: Lexicon, w: string, lw: string)
    requires Lower(w) == lw && lw in lexicon && lexicon[lw].coarsePos != UNK
    requires lw !in Determiners && lw !in Pronouns && lw !in Prepositions
    ensures ResolveTag(Lower(w), TagWord(lexicon, w)) == lexicon[lw].coarsePos
  {
  }

  lemma {:induction false} DogIsOpen()
    ensures Lower("dog") == "dog" && Lower("Dog") == "dog"
    ensures "dog" !in Determiners && "dog" !in Pronouns && "dog" !in Prepositions
  {
    assert Lower("dog") == "dog";
    assert Lower("Dog") == "dog";
  }

  lemma {:induction false} DogIsNoun(lexicon: Lexicon)
    requires KnowsDogEatsBread(lexicon)
    ensures ResolveTag(Lower("dog"), TagWord(lexicon, "dog")) == N
    ensures ResolveTag(Lower("Dog"), TagWord(lexicon, "Dog")) == N
  {
    DogIsOpen();
    OpenWordTag(lexicon, "dog", "dog");
    OpenWordTag(lexicon, "Dog", "dog");
  }

  lemma {:induction false} EatsIsOpen()
    ensures Lower("eats") == "eats"
    ensures "eats" !in Determiners && "eats" !in Pronouns && "eats" !in Prepositions
  {
    assert Lower("eats") == "eats";
  }

  lemma {:induction false} EatsIsVerb(lexicon: Lexicon)
    requires KnowsDogEatsBread(lexicon)
    ensures ResolveTag(Lower("eats"), TagWord(lexicon, "eats")) == V
  {
    EatsIsOpen();
    OpenWordTag(lexicon, "eats", "eats");
  }

  lemma {:induction false} BreadIsOpen()
    ensures Lower("bread") == "bread"
    ensures "bread" !in Determiners && "bread" !in Pronouns && "bread" !in Prepositions
  {
    assert Lower("bread") == "bread";
  }

  lemma {:induction false} BreadIsNoun(lexicon: Lexicon)
    requires KnowsDogEatsBread(lexicon)
    ensures ResolveTag(Lower("bread"), TagWord(lexicon, "bread")) == N
  {
    BreadIsOpen();
    OpenWordTag(lexicon, "bread", "bread");
  }

  /** The token the parser-side tagger makes of the i-th word. */
  lemma {:induction false} TokenOf(lexicon: Lexicon, text: string, i: nat, word: string, tag: Tag)
    requires i < |Tokenize(text)| && Tokenize(text)[i] == word
    requires ResolveTag(Lower(word), TagWord(lexicon, word)) == tag
    ensures ParserTokens(lexicon, text)[i] == Tok(word, tag, i)
  {
    ParserTokenAt(lexicon, text, i);
  }

  // ---------------------------------------------------------------------------
  // "The dog eats the bread."

  const Accepted: string := "The dog eats the bread."

  /** Where the word characters of "The dog eats the bread." are. */
  ghost predicate AcceptedShape(t: string) {
    && |t| == 23
    && (forall p :: 0 <= p < 3 || 4 <= p < 7 || 8 <= p < 12 || 13 <= p < 16 || 17 <= p < 22 ==> IsWordChar(t[p]))
    && (forall p :: p == 3 || p == 7 || p == 12 || p == 16 || p == 22 ==> !IsWordChar(t[p]))
  }

  lemma {:induction false} AcceptedHasShape()
    ensures AcceptedShape(Accepted)
  {
  }

  lemma {:induction false} AcceptedShapeScan(t: string)
    requires AcceptedShape(t)
    ensures Scan(t, 0) == [Span(0, 3), Span(4, 7), Span(8, 12), Span(13, 16), Span(17, 22)]
  {
    ScanSkips(t, 22, 23);
    ScanAtRun(t, 17, 22);
    ScanSkips(t, 16, 17);
    ScanAtRun(t, 13, 16);
    ScanSkips(t, 12, 13);
    ScanAtRun(t, 8, 12);
    ScanSkips(t, 7, 8);
    ScanAtRun(t, 4, 7);
    ScanSkips(t, 3, 4);
    ScanAtRun(t, 0, 3);
  }

  lemma {:induction false} AcceptedWords()
    ensures Accepted[0..3] == "The" && Accepted[4..7] == "dog" && Accepted[8..12] == "eats"
    ensures Accepted[13..16] == "the" && Accepted[17..22] == "bread"
  {
  }

  lemma {:induction false} AcceptedTokenize()
    ensures Tokenize(Accepted) == ["The", "dog", "eats", "the", "bread"]
  {
    AcceptedHasShape();
    AcceptedShapeScan(Accepted);
    AcceptedWords();
  }

  /** The closed classes and the lexicon tag the five words DET N V DET N. */
  lemma {:induction false} AcceptedTags(lexicon: Lexicon, text: string)
    requires KnowsDogEatsBread(lexicon) && Tokenize(text) == ["The", "dog", "eats", "the", "bread"]
    ensures ParserTokens(lexicon, text)
      == [Tok("The", DET, 0), Tok("dog", N, 1), Tok("eats", V, 2), Tok("the", DET, 3), Tok("bread", N, 4),
          Tok("<EOF>", EOF, 5)]
  {
    AcceptedTag0(lexicon, text);
    AcceptedTag1(lexicon, text);
    AcceptedTag2(lexicon, text);
    AcceptedTag3(lexicon, text);
    AcceptedTag4(lexicon, text);
    SixTokens(ParserTokens(lexicon, text), Tok("The", DET, 0), Tok("dog", N, 1), Tok("eats", V, 2),
              Tok("the", DET, 3), Tok("bread", N, 4), Tok("<EOF>", EOF, 5));
  }

  /** A six-token list is the display of its elements. */
  lemma {:induction false} SixTokens(s: seq<Tok>, a: Tok, b: Tok, c: Tok, d: Tok, e: Tok, f: Tok)
    requires |s| == 6 && s[0] == a && s[1] == b && s[2] == c && s[3] == d && s[4] == e && s[5] == f
    ensures s == [a, b, c, d, e, f]
  {
  }

  lemma {:induction false} AcceptedTag0(lexicon: Lexicon, text: string)
    requires Tokenize(text) == ["The", "dog", "eats", "the", "bread"]
    ensures ParserTokens(lexicon, text)[0] == Tok("The", DET, 0)
  {
    TheIsDeterminer(lexicon);
    TokenOf(lexicon, text, 0, "The", DET);
  }

  lemma {:induction false} AcceptedTag1(lexicon: Lexicon, text: string)
    requires KnowsDogEatsBread(lexicon) && Tokenize(text) == ["The", "dog", "eats", "the", "bread"]
    ensures ParserTokens(lexicon, text)[1] == Tok("dog", N, 1)
  {
    DogIsNoun(lexicon);
    TokenOf(lexicon, text, 1, "dog", N);
  }

  lemma {:induction false} AcceptedTag2(lexicon: Lexicon, text: string)
    requires KnowsDogEatsBread(lexicon) && Tokenize(text) == ["The", "dog", "eats", "the", "bread"]
    ensures ParserTokens(lexicon, text)[2] == Tok("eats", V, 2)
  {
    EatsIsVerb(lexicon);
    TokenOf(lexicon, text, 2, "eats", V);
  }

  lemma {:induction false} AcceptedTag3(lexicon: Lexicon, text: string)
    requires Tokenize(text) == ["The", "dog", "eats", "the", "bread"]
    ensures ParserTokens(lexicon, text)[3] == Tok("the", DET, 3)
  {
    TheIsDeterminer(lexicon);
    TokenOf(lexicon, text, 3, "the", DET);
  }

  lemma {:induction false} AcceptedTag4(lexicon: Lexicon, text: string)
    requires KnowsDogEatsBread(lexicon) && Tokenize(text) == ["The", "dog", "eats", "the", "bread"]
    ensures ParserTokens(lexicon, text)[4] == Tok("bread", N, 4)
  {
    BreadIsNoun(lexicon);
    TokenOf(lexicon, text, 4, "bread", N);
  }

  /** The tokens of the accepted sentence parse to S(NP(DET N) VP(V NP(DET N))). */
  lemma {:induction false} AcceptedTokensParse(tokens: seq<Tok>)
    requires tokens == [Tok("The", DET, 0), Tok("dog", N, 1), Tok("eats", V, 2), Tok("the", DET, 3),
                        Tok("bread", N, 4), Tok("<EOF>", EOF, 5)]
    ensures ParseFrom(tokens, 0) == Ok(Node("S", [
      Node("NP", [Leaf(tokens[0]), Leaf(tokens[1])]),
      Node("VP", [Leaf(tokens[2]), Node("NP", [Leaf(tokens[3]), Leaf(tokens[4])])])]))
  {
    assert Terminated(tokens);
    assert [Leaf(tokens[0])] + [Leaf(tokens[1])] == [Leaf(tokens[0]), Leaf(tokens[1])];
    assert NounRest(tokens, 1, [Leaf(tokens[0])]) == Ok(Parsed(Node("NP", [Leaf(tokens[0]), Leaf(tokens[1])]), 2));
    assert NounPhrase(tokens, 0) == Ok(Parsed(Node("NP", [Leaf(tokens[0]), Leaf(tokens[1])]), 2));
    assert [Leaf(tokens[3])] + [Leaf(tokens[4])] == [Leaf(tokens[3]), Leaf(tokens[4])];
    assert NounRest(tokens, 4, [Leaf(tokens[3])]) == Ok(Parsed(Node("NP", [Leaf(tokens[3]), Leaf(tokens[4])]), 5));
    assert NounPhrase(tokens, 3) == Ok(Parsed(Node("NP", [Leaf(tokens[3]), Leaf(tokens[4])]), 5));
    assert Object(tokens, 3) == Ok(([Node("NP", [Leaf(tokens[3]), Leaf(tokens[4])])], 5));
    assert [Leaf(tokens[2])] + [Node("NP", [Leaf(tokens[3]), Leaf(tokens[4])])]
      == [Leaf(tokens[2]), Node("NP", [Leaf(tokens[3]), Leaf(tokens[4])])];
    assert PrepRest(tokens, 5, [Leaf(tokens[2]), Node("NP", [Leaf(tokens[3]), Leaf(tokens[4])])])
      == Ok(Parsed(Node("VP", [Leaf(tokens[2]), Node("NP", [Leaf(tokens[3]), Leaf(tokens[4])])]), 5));
  }

  lemma {:induction false} AcceptedLabels()
    ensures Leaf(Tok("The", DET, 0)).name == "The/DET" && Leaf(Tok("dog", N, 1)).name == "dog/N"
    ensures Leaf(Tok("eats", V, 2)).name == "eats/V"
    ensures Leaf(Tok("the", DET, 3)).name == "the/DET" && Leaf(Tok("bread", N, 4)).name == "bread/N"
  {
  }

  /** "The dog eats the bread." is accepted. */
  lemma {:induction false} AcceptedParse(lexicon: Lexicon)
    requires KnowsDogEatsBread(lexicon)
    ensures ParseText(lexicon, Accepted) == Ok(Node("S", [
      Node("NP", [Node("The/DET", []), Node("dog/N", [])]),
      Node("VP", [Node("eats/V", []), Node("NP", [Node("the/DET", []), Node("bread/N", [])])])]))
  {
    AcceptedTokenize();
    AcceptedTags(lexicon, Accepted);
    AcceptedTokensParse(ParserTokens(lexicon, Accepted));
    AcceptedLabels();
  }

  // ---------------------------------------------------------------------------
  // "Dog the eats."

  const Rejected: string := "Dog the eats."

  ghost predicate RejectedShape(t: string) {
    && |t| == 13
    && (forall p :: 0 <= p < 3 || 4 <= p < 7 || 8 <= p < 12 ==> IsWordChar(t[p]))
    && (forall p :: p == 3 || p == 7 || p == 12 ==> !IsWordChar(t[p]))
  }

  lemma {:induction false} RejectedHasShape()
    ensures RejectedShape(Rejected)
  {
  }

  lemma {:induction false} RejectedShapeScan(t: string)
    requires RejectedShape(t)
    ensures Scan(t, 0) == [Span(0, 3), Span(4, 7), Span(8, 12)]
  {
    ScanSkips(t, 12, 13);
    ScanAtRun(t, 8, 12);
    ScanSkips(t, 7, 8);
    ScanAtRun(t, 4, 7);
    ScanSkips(t, 3, 4);
    ScanAtRun(t, 0, 3);
  }

  lemma {:induction false} RejectedWords()
    ensures Rejected[0..3] == "Dog" && Rejected[4..7] == "the" && Rejected[8..12] == "eats"
  {
  }

  lemma {:induction false} RejectedTokenize()
    ensures Tokenize(Rejected) == ["Dog", "the", "eats"]
  {
    RejectedHasShape();
    RejectedShapeScan(Rejected);
    RejectedWords();
  }

  lemma {:induction false} RejectedTags(lexicon: Lexicon, text: string)
    requires KnowsDogEatsBread(lexicon) && Tokenize(text) == ["Dog", "the", "eats"]
    ensures ParserTokens(lexicon, text) == [Tok("Dog", N, 0), Tok("the", DET, 1), Tok("eats", V, 2), Tok("<EOF>", EOF, 3)]
  {
    RejectedTag0(lexicon, text);
    RejectedTag1(lexicon, text);
    RejectedTag2(lexicon, text);
    FourTokens(ParserTokens(lexicon, text), Tok("Dog", N, 0), Tok("the", DET, 1), Tok("eats", V, 2),
               Tok("<EOF>", EOF, 3));
  }

  lemma {:induction false} RejectedTag0(lexicon: Lexicon, text: string)
    requires KnowsDogEatsBread(lexicon) && Tokenize(text) == ["Dog", "the", "eats"]
    ensures ParserTokens(lexicon, text)[0] == Tok("Dog", N, 0)
  {
    DogIsNoun(lexicon);
    TokenOf(lexicon, text, 0, "Dog", N);
  }

  lemma {:induction false} RejectedTag1(lexicon: Lexicon, text: string)
    requires Tokenize(text) == ["Dog", "the", "eats"]
    ensures ParserTokens(lexicon, text)[1] == Tok("the", DET, 1)
  {
    TheIsDeterminer(lexicon);
    TokenOf(lexicon, text, 1, "the", DET);
  }

  lemma {:induction false} RejectedTag2(lexicon: Lexicon, text: string)
    requires KnowsDogEatsBread(lexicon) && Tokenize(text) == ["Dog", "the", "eats"]
    ensures ParserTokens(lexicon, text)[2] == Tok("eats", V, 2)
  {
    EatsIsVerb(lexicon);
    TokenOf(lexicon, text, 2, "eats", V);
  }

  /** A four-token list is the display of its elements. */
  lemma {:induction false} FourTokens(s: seq<Tok>, a: Tok, b: Tok, c: Tok, d: Tok)
    requires |s| == 4 && s[0] == a && s[1] == b && s[2] == c && s[3] == d
    ensures s == [a, b, c, d]
  {
  }

  /**
   * "Dog the eats." is rejected: "Dog" is read as a whole NP, and the VP then expects a
   * verb but meets the determiner "the" at position 1.
   */
  lemma {:induction false} RejectedParse(lexicon: Lexicon)
    requires KnowsDogEatsBread(lexicon)
    ensures ParseText(lexicon, Rejected) == Err(Unexpected([V], DET, "the", 1))
  {
    RejectedTokenize();
    RejectedTags(lexicon, Rejected);
  }
}
