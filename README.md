# A verified model of an English part-of-speech tagger and sentence parser

The system reads a dictionary of English words, tags the words of a sentence with
coarse parts of speech, and parses the sentence with a small recursive-descent grammar:

    S  -> NP VP
    NP -> PRON | [DET] ADJ* N
    VP -> V [NP] PP*
    PP -> PREP NP

This project models the three stages and proves properties of each model.

- **Lexicon loading** (`lexicon_loader.dfy`, module `LexiconLoader`).
  - `MapRawPos` turns a dictionary category such as `n.`, `v. t.` or `"a."` into a coarse tag.
    The category is trimmed of whitespace, trimmed of double quotes and lower-cased.
    Then the first listed marker found in it decides the tag.
  - `IsSimpleWord` accepts a non-empty word made only of ASCII letters, apostrophes and hyphens.
  - `LoadLexicon` is the loop over the dictionary records. It skips:
    - empty words;
    - words that are not simple;
    - records whose category maps to `UNK`;
    - words already stored. The first record for a key wins.

  The CSV reading itself is replaced by a parameter: the records as (Word, POS) pairs, in file order.
- **Tokenizing and tagging** (`lexico_en.dfy`, module `LexicoEn`).
  - `Tokenize` finds the maximal runs of ASCII letters and apostrophes, left to right.
    It uses an explicit scan (`Scan`, `RunEnd`) in place of the regular expression engine.
  - `TagWord` looks up the lower-cased word in the lexicon, with `UNK` as the fallback.
  - `TagSentence` pairs each token with its tag.
  - The lexicon is a parameter rather than a table loaded when the module starts.
- **Parsing** (`parser_en.dfy`, module `ParserEn`).
  - `TagForParser` applies the closed word classes (determiners, then pronouns, then prepositions).
    Otherwise it keeps the lexicon tag, and an unknown word becomes `ADV` when it ends in `ly` and `N` otherwise.
    It then appends the `<EOF>` sentinel.
  - `RecursiveDescentParser` is a class whose token list and cursor are fields, as in the source.
    Its methods `Current`, `Accept`, `ParseNP`, `ParseVP`, `ParsePP`, `ParseS` and `Parse` work on the cursor.
    Each method is proved equal to a pure function of the tokens and the starting cursor:
    `NounPhrase`, `VerbPhrase`, `PrepPhrase`, `Sentence` and `ParseFrom`.
    Those functions carry the grammar's properties, proved in `parser_props.dfy`.
  - A raised `ParseError` becomes the `Err` case of a `Result`.
    The error records the expected tags and the offending token, or the first leftover token.
  - `Pretty` renders a tree with two spaces of indentation per level.
  - The grammar is also written as predicates on token ranges (`NounRange`, `PrepRange`, `PrepRuns`, `VerbRange`, `SentenceRange`).
    `ParseAccepted` proves that the parser accepts a token list exactly when `S` derives every token before the sentinel.

Tags are a datatype (`tags.dfy`). `Name` gives the short code used in the leaf labels `word/TAG`.
`text.dfy` holds the ASCII string helpers: lower-casing, stripping and substring search.

`parser_examples.dfy` proves the outcome of two sentences for any lexicon that knows `dog` and `bread` as nouns and `eats` as a verb:

- "The dog eats the bread." parses to `S(NP(The/DET dog/N) VP(eats/V NP(the/DET bread/N)))`.
- "Dog the eats." is rejected when the verb is expected: the error is expected `[V]`, found `DET` (`the`) at position 1.

The error comes at the verb: `parse_VP` calls `accept(["V"])` right after the noun phrase `Dog`.

## Model

| member | source | states |
|---|---|---|
| `LexiconLoader.Classify` | src/lexicon_loader.py:22-40 | The first-match order of the rules, in both directions for every tag. The result is one of the lexical tags, never DET or EOF, and an empty category is UNK. ADV is returned exactly when `adv.` occurs. PREP, PRON, CONJ, INTJ, V, ADJ and N are each returned exactly when their marker occurs and no marker of an earlier rule does. UNK is returned exactly when no marker occurs. |
| `LexiconLoader.MapRawPos` | src/lexicon_loader.py:20-40 | Every category maps to one of the lexical tags, never DET or EOF. |
| `LexiconLoader.MapRawPosIgnoresCase` | src/lexicon_loader.py:21 | Lower-casing a category first does not change its tag. |
| `LexiconLoader.MapRawPosIgnoresQuotes` | src/lexicon_loader.py:21 | Wrapping an already space-trimmed category in double quotes does not change its tag. |
| `LexiconLoader.NormalizeQuoted` | src/lexicon_loader.py:21 | The normalized form of a quoted, space-trimmed category equals that of the bare category. |
| `LexiconLoader.NounExamples` | src/lexicon_loader.py:20-39 | `n.` maps to N, and so does `"N."` (quotes and case are ignored). |
| `LexiconLoader.VerbBeforeNoun` | src/lexicon_loader.py:34-39 | `n. & v.` maps to V: the verb rule is tried before the noun rule. |
| `LexiconLoader.BlankIsUnknown` | src/lexicon_loader.py:21-23 | Every category that is empty after stripping spaces and then quotes maps to UNK. |
| `LexiconLoader.BlankExample` | src/lexicon_loader.py:21-23 | The category ` "" ` maps to UNK. |
| `LexiconLoader.IsSimpleWord` | src/lexicon_loader.py:17-44 | True exactly when the word is non-empty and each character is an ASCII letter, an apostrophe or a hyphen. |
| `LexiconLoader.LowerSimpleWord` | src/lexicon_loader.py:57-62 | The lower-cased key of a simple word is still a simple word. |
| `LexiconLoader.CandidateValid` | src/lexicon_loader.py:53-65 | A record that passes the filters yields a valid entry. Its word is simple and lower-case, its tag is not UNK, and the tag is the mapping of its stored category. |
| `LexiconLoader.LoadLexicon` | src/lexicon_loader.py:47-66 | The record loop, with its four skip conditions, produces the lexicon `Build` defines from the records in order. |
| `LexiconLoader.InsertWellFormed` | src/lexicon_loader.py:62-65 | One loop step keeps every key equal to its entry's word and every entry valid. |
| `LexiconLoader.BuildWellFormed` | src/lexicon_loader.py:47-66 | Every loaded lexicon is well formed: each key is its entry's word, and the entry is valid. |
| `LexiconLoader.InsertKeeps` | src/lexicon_loader.py:63-64 | One loop step never removes or replaces a stored entry. |
| `LexiconLoader.BuildKeepsEntries` | src/lexicon_loader.py:62-65 | Reading more records never removes or replaces an entry already stored. |
| `LexiconLoader.LaterDuplicateIgnored` | src/lexicon_loader.py:63-64 | A later accepted record whose key is already stored leaves the lexicon unchanged. |
| `LexiconLoader.BuildFromRecords` | src/lexicon_loader.py:52-65 | Every stored entry is exactly the entry of some record. |
| `LexiconLoader.KeyAbsent` | src/lexicon_loader.py:62-65 | A key that no accepted record of a prefix has is absent after that prefix. |
| `LexiconLoader.FirstOccurrenceWins` | src/lexicon_loader.py:62-65 | The first accepted record with a given key is the one stored under that key. |
| `LexiconLoader.BuildKeys` | src/lexicon_loader.py:52-65 | A key is stored if and only if some accepted record has it. |
| `LexicoEn.RunEnd` | src/lexico_en.py:19 | The end of the run of word characters starting at a position: every character up to it is a word character, and the next one is not. |
| `LexicoEn.ScanRuns` | src/lexico_en.py:19-26 | Every span found is a non-empty, maximal run of word characters, and the spans are in strictly increasing order and disjoint. |
| `LexicoEn.TokensAreWords` | src/lexico_en.py:25-26 | Every token is non-empty and made only of ASCII letters and apostrophes. |
| `LexicoEn.TokenSpans` | src/lexico_en.py:25-26 | The tokens are the texts of the maximal runs, one per run, left to right, and the runs do not overlap. |
| `LexicoEn.ScanCovers` | src/lexico_en.py:19-26 | From a boundary, every later word character lies inside some span of the scan. |
| `LexicoEn.EveryWordCharIsTokenized` | src/lexico_en.py:25-26 | Every word character of the text lies inside some token's run. |
| `LexicoEn.NoWordCharsNoTokens` | src/lexico_en.py:25-26 | A text without word characters has no tokens. |
| `LexicoEn.TokenizeExample` | src/lexico_en.py:25-26 | "The quick, brown fox!" tokenizes to `The`, `quick`, `brown`, `fox`. |
| `LexicoEn.TagWord` | src/lexico_en.py:29-33 | The tag of the entry under the lower-cased word, or UNK when there is none. With a loaded lexicon, the tag is UNK exactly when the lower-cased word is not in the lexicon. |
| `LexicoEn.TagWordIgnoresCase` | src/lexico_en.py:30 | A word and its lower-cased form get the same tag. |
| `LexicoEn.TagWordRange` | src/lexico_en.py:29-33 | With a loaded lexicon, a word's tag is a lexical tag and never DET or EOF. |
| `LexicoEn.TagSentence` | src/lexico_en.py:36-38 | One pair per token, in order, each token with its own tag. With a loaded lexicon, each tag is a lexical tag other than DET and EOF, and it is UNK exactly when the lower-cased word is absent. |
| `ParserEn.Pad` | src/parser_en.py:73 | Exactly two spaces per indentation level. |
| `ParserEn.ParserTokens` | src/parser_en.py:84-108 | One token per word plus one, and the last is the `<EOF>` sentinel, numbered with the word count. |
| `ParserEn.TagForParser` | src/parser_en.py:84-108 | The loop builds exactly the token list `ParserTokens` describes. |
| `ParserEn.RecursiveDescentParser.constructor` | src/parser_en.py:112-114 | The parser holds the given tokens with the cursor at 0. On an EOF-terminated list it starts in a valid state. |
| `ParserEn.RecursiveDescentParser.Current` | src/parser_en.py:116-117 | The token under the cursor. Unless it is EOF, there is a token after it. |
| `ParserEn.RecursiveDescentParser.Accept` | src/parser_en.py:119-128 | When the current tag is expected, the method returns the token and advances by one. Otherwise it returns the mismatch naming the expected tags and the token, and the cursor stays put. |
| `ParserEn.RecursiveDescentParser.ParseNP` | src/parser_en.py:135-155 | The method's result and new cursor are those of `NounPhrase` from the old cursor. A failure cites the token under the cursor. |
| `ParserEn.RecursiveDescentParser.ParsePP` | src/parser_en.py:173-176 | The method's result and new cursor are those of `PrepPhrase`. A failure cites the token under the cursor. |
| `ParserEn.RecursiveDescentParser.ParseVP` | src/parser_en.py:157-171 | The method's result and new cursor are those of `VerbPhrase`. A failure cites the token under the cursor. |
| `ParserEn.RecursiveDescentParser.ParseS` | src/parser_en.py:130-133 | The method's result and new cursor are those of `Sentence`. A failure cites the token under the cursor. |
| `ParserEn.RecursiveDescentParser.Parse` | src/parser_en.py:178-186 | The method's result is `ParseFrom` of the old cursor. On success the cursor is on EOF. A failure cites the token under the cursor. |
| `ParserEn.ParseSentence` | src/parser_en.py:189-192 | Tagging, then parsing from position 0, gives `ParseText` of the lexicon and text. |
| `ParserProperties.ParserTokenAt` | src/parser_en.py:88-105 | The i-th token carries the i-th word, its resolved tag and index i. |
| `ParserProperties.SentinelInvariant` | src/parser_en.py:84-108 | For any lexicon, there is one token per word, carrying that word, and each token's index is its position. The sentinel is last. With a lexicon the loader built, no word token is tagged EOF or UNK. |
| `ParserProperties.ClosedClassPrecedence` | src/parser_en.py:91-96 | Determiners become DET, then pronouns PRON, then prepositions PREP, in that order of precedence. |
| `ParserProperties.ClosedClassIgnoresLexicon` | src/parser_en.py:91-96 | A closed-class word gets the same token whatever the lexicon says. |
| `ParserProperties.UnknownFallback` | src/parser_en.py:97-103 | An open-class word keeps its lexicon tag. An unknown one becomes ADV when it ends in `ly` and N otherwise. |
| `ParserProperties.EmptyInput` | src/parser_en.py:107-155 | An empty text gives only the sentinel and fails expecting N at `<EOF>`, position 0. |
| `ParserProperties.NounRestShape` | src/parser_en.py:148-155 | The rest of a noun phrase reads ADJ tokens and then one N token, giving one leaf each. |
| `ParserProperties.NounPhraseShape` | src/parser_en.py:135-155 | An accepted NP is either a lone PRON leaf or an optional DET, then ADJs, then N, with one leaf per token in order. |
| `ParserProperties.NounRestAccepts` | src/parser_en.py:148-155 | Conversely, a run of ADJ tokens closed by an N token is accepted as the rest of an NP with exactly those leaves. |
| `ParserProperties.NounPhraseAccepts` | src/parser_en.py:135-155 | Conversely, a lone PRON token, or tokens tagged DET? ADJ* N, are accepted as one NP that ends right after them. Its leaves are exactly those tokens. |
| `ParserProperties.PrepPhraseShape` | src/parser_en.py:173-176 | An accepted PP is a PREP leaf followed by an NP. |
| `ParserProperties.PrepRestShape` | src/parser_en.py:167-169 | The PP loop appends only PP nodes and stops at the first token that is not PREP. |
| `ParserProperties.VerbPhraseShape` | src/parser_en.py:157-171 | An accepted VP is a V leaf, then an NP exactly when an NP-start tag follows, then PPs. |
| `ParserProperties.SentenceShape` | src/parser_en.py:130-133 | An accepted S has exactly an NP child followed by a VP child. |
| `ParserProperties.YieldLeaves` | src/parser_en.py:140-153 | The leaf labels of a range of leaves are the labels of its tokens. |
| `ParserProperties.NounPhraseYield` | src/parser_en.py:135-155 | The leaves of an accepted NP are the labels of exactly the tokens it consumed, each with a grammar tag. |
| `ParserProperties.PrepPhraseYield` | src/parser_en.py:173-176 | The leaves of an accepted PP are the labels of exactly the tokens it consumed. |
| `ParserProperties.PrepRestYield` | src/parser_en.py:167-169 | The PP loop appends subtrees whose leaves are exactly the tokens consumed. |
| `ParserProperties.ObjectYield` | src/parser_en.py:163-165 | The optional object NP covers exactly the tokens consumed. |
| `ParserProperties.VerbPhraseYield` | src/parser_en.py:157-171 | The leaves of an accepted VP are the labels of exactly the tokens it consumed. |
| `ParserProperties.SentenceYield` | src/parser_en.py:130-133 | The leaves of an accepted S are the labels of exactly the tokens it consumed. |
| `ParserProperties.ParseYield` | src/parser_en.py:178-186 | An accepted parse of a sentinel-terminated list has as its leaves every token before the sentinel, in order. |
| `ParserProperties.ParseTextYield` | src/parser_en.py:189-192 | The leaves of an accepted sentence's tree are its words, in order, each labelled with its parser tag. |
| `ParserProperties.LeftoverRejected` | src/parser_en.py:178-186 | A parse succeeds if and only if a sentence is read and EOF follows it. Otherwise the error names the first leftover token. |
| `ParserProperties.NounPhraseDerives` | src/parser_en.py:135-155 | The tokens an accepted NP consumed are a lone PRON or DET? ADJ* N. |
| `ParserProperties.PrepPhraseAccepts` | src/parser_en.py:173-176 | A PREP token followed by the tokens of an NP is accepted as the PP [PREP leaf, NP], ending where the NP ends. |
| `ParserProperties.PrepPhraseDerives` | src/parser_en.py:173-176 | The tokens an accepted PP consumed are a PREP followed by the tokens of an NP. |
| `ParserProperties.PrepRestAccepts` | src/parser_en.py:167-169 | A sequence of PPs that is not followed by a PREP is read by the PP loop up to exactly its end. |
| `ParserProperties.PrepRestDerives` | src/parser_en.py:167-169 | The tokens the PP loop consumed are a sequence of PPs. |
| `ParserProperties.VerbPhraseAccepts` | src/parser_en.py:157-171 | V NP? PP*, not followed by a PREP, is accepted as one VP that ends right after it. The object is present exactly when an NP-start tag follows the verb. The VP's leaves are those tokens. |
| `ParserProperties.VerbPhraseDerives` | src/parser_en.py:157-171 | The tokens an accepted VP consumed are V NP? PP*, with the object present exactly when an NP-start tag follows the verb. |
| `ParserProperties.SentenceAccepts` | src/parser_en.py:130-133 | NP VP, not followed by a PREP, is accepted as one S that ends right after it. Its leaves are those tokens. |
| `ParserProperties.SentenceDerives` | src/parser_en.py:130-133 | The tokens an accepted S consumed are NP VP. |
| `ParserProperties.ParseAccepted` | src/parser_en.py:130-186 | A token list whose only EOF is last is accepted if and only if the grammar derives S from every token before EOF. The accepted tree's leaves are then those tokens. |
| `ParserProperties.ParseTextAccepted` | src/parser_en.py:189-192 | With a lexicon the loader built, a text is accepted if and only if the grammar derives S from its parser tokens before the sentinel. |
| `ParserProperties.PrettyIsOutline` | src/parser_en.py:72-77 | The rendering of a tree is its outline joined with newlines: one line per node, preorder, each indented two spaces per level. |
| `ParserProperties.PrettyAllIsOutline` | src/parser_en.py:76 | The children's block is the newline join of their outlines, with one line per node. |
| `ParserExamples.OpenWordTag` | src/parser_en.py:88-103 | A word outside the closed classes that the lexicon knows keeps its lexicon tag. |
| `ParserExamples.TokenOf` | src/parser_en.py:88-105 | A word's parser token is the word, its resolved tag and its position. |
| `ParserExamples.AcceptedTokenize` | src/lexico_en.py:25-26 | "The dog eats the bread." tokenizes to five words. |
| `ParserExamples.AcceptedTags` | src/parser_en.py:84-108 | Its parser tokens are DET N V DET N and the sentinel. |
| `ParserExamples.AcceptedTokensParse` | src/parser_en.py:130-186 | Those tokens parse to S(NP(DET N) VP(V NP(DET N))). |
| `ParserExamples.AcceptedParse` | src/parser_en.py:189-192 | With a lexicon that knows `dog`, `eats` and `bread`, the sentence parses to that tree. |
| `ParserExamples.RejectedTokenize` | src/lexico_en.py:25-26 | "Dog the eats." tokenizes to three words. |
| `ParserExamples.RejectedTags` | src/parser_en.py:84-108 | Its parser tokens are N DET V and the sentinel. |
| `ParserExamples.RejectedParse` | src/parser_en.py:157-161 | Parsing fails where the verb is expected: expected `[V]`, found DET `the` at position 1. |

## Left out

- Reading the CSV file, the `csv.DictReader` parsing and `save_reduced_lexicon_csv` are file I/O. `LoadLexicon` takes the records as (Word, POS) pairs, with a missing field as the empty string.
- The module-level `LEXICON` table loaded from `data/OPTED-Dictionary.csv` when `lexico_en` starts is file I/O. The lexicon is a parameter of every tagging function.
- The `typer` command-line demo and the `rich` table output in `lexico_en.py` are I/O; `run_tests.py` is outside this model.
- The regular expressions are replaced by character predicates and an explicit scan. `IsSimpleWord` and `Tokenize` state what the patterns match.
- Text is modelled as ASCII. Python's Unicode `str.lower()` and `str.strip()` map or strip only ASCII characters here: upper-case ASCII letters and the ASCII whitespace characters (space, 9 to 13, 28 to 31).
- The Spanish error message text is not modelled. A `ParseError` is a datatype that carries the message's data: the expected tags, the found tag, the word and the index.
- `Tok.index` is a `nat`, and tags are an enumerated datatype rather than strings.
- `RecursiveDescentParser.Accept`: its ensures keeps `Valid()` only when EOF is not among the expected tags. Every call in the source expects a tag other than EOF.
- `RecursiveDescentParser.Current`: like every parser method, it requires a token list ending in an EOF token, as `tag_for_parser` builds it. On any other list the source can fail with an index error, which is not modelled.
- `ParserEn.ParseFrom`: its own contract states only that an accepted parse is the tree of the sentence read from the cursor. When it accepts and which leftover token it reports are proved by `ParserProperties.LeftoverRejected`, the leaves of an accepted tree by `ParserProperties.ParseYield`, and acceptance exactly of the sentences the grammar derives by `ParserProperties.ParseAccepted`.
- `ParserEn.ParseText` has no contract of its own. Its properties are `ParserProperties.ParseTextYield`, `ParserProperties.EmptyInput`, `ParserExamples.AcceptedParse` and `ParserExamples.RejectedParse`.
- `ParserEn.NounRest` and `ParserEn.NounPhrase`: their own contracts state only that an accepted phrase moves the cursor forward and stays inside the tokens. The shape of the phrase is proved by `ParserProperties.NounRestShape`, `NounPhraseShape`, `NounRestAccepts`, `NounPhraseAccepts` and `NounPhraseDerives`, and its leaves by `ParserProperties.NounPhraseYield`.
- `ParserEn.PrepPhrase` and `ParserEn.PrepRest`: their own contracts state only the cursor bounds (and that the loop stops at a token that is not PREP). Their shape is proved by `ParserProperties.PrepPhraseShape` and `PrepRestShape`, acceptance in both directions by `PrepPhraseAccepts`, `PrepPhraseDerives`, `PrepRestAccepts` and `PrepRestDerives`, and their leaves by `PrepPhraseYield` and `PrepRestYield`.
- `ParserEn.Object`: its own contract states only the cursor bounds and that at most one noun phrase is read. Its leaves are proved by `ParserProperties.ObjectYield`.
- `ParserEn.VerbPhrase` and `ParserEn.Sentence`: their own contracts state only the cursor bounds. Their shape is proved by `ParserProperties.VerbPhraseShape` and `SentenceShape`, acceptance in both directions by `VerbPhraseAccepts`, `VerbPhraseDerives`, `SentenceAccepts` and `SentenceDerives`, and their leaves by `VerbPhraseYield` and `SentenceYield`.
- `ParserEn.Pretty` and `ParserEn.PrettyAll` have no contract of their own. The rendering is described by `ParserProperties.PrettyIsOutline` and `PrettyAllIsOutline`: one line per node, in preorder, indented two spaces per level. The `indent=0` default of `pretty` becomes an explicit argument.
- `LexiconLoader.Candidate`, `LexiconLoader.Insert` and `LexiconLoader.Build` have no contracts of their own. They are the loop body and the fold that `LoadLexicon` is proved against. Their properties are `CandidateValid`, `BuildWellFormed`, `BuildKeepsEntries`, `LaterDuplicateIgnored`, `BuildFromRecords`, `FirstOccurrenceWins` and `BuildKeys`.
- `LexicoEn.Scan`: its own contract states only that each span is non-empty and lies inside the text after the start. Maximality, order and coverage are proved by `ScanRuns` and `ScanCovers`.
- `LexicoEn.Tokenize` has no contract of its own. Its properties are `TokensAreWords`, `TokenSpans`, `EveryWordCharIsTokenized` and `NoWordCharsNoTokens`.
- `ParserEn.ParserToken` has no contract of its own. It builds the `Tok` for one word, as `tag_for_parser` does; `ParserProperties.ParserTokenAt` states the result.
- `ParserEn.Leaf` has no contract of its own. It builds the `word/TAG` leaf label; `ParserProperties.ParseTextYield` and the `*Yield` lemmas state the labels an accepted tree carries.
- `ParserEn.Mismatch` has no contract of its own. It builds the error that `accept` raises; `RecursiveDescentParser.Accept` states when it comes back and what it cites.
- `LexiconLoader.Normalize` has no contract of its own. It strips whitespace, then double quotes, then lower-cases; `NormalizeQuoted`, `MapRawPosIgnoresCase`, `MapRawPosIgnoresQuotes` and `BlankIsUnknown` state its effect on the tag.
- The `TAG_DESCRIPTIONS` table of Spanish tag descriptions in `parser_en.py` is display text and is not used by the parser.
- `ParserEn.ResolveTag` has no contract of its own. Its behaviour is stated by `ParserProperties.ClosedClassPrecedence`, `ClosedClassIgnoresLexicon` and `UnknownFallback`.
