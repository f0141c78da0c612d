/**
 * The parser-side tagger and the recursive-descent parser for the grammar
 *
 *   S  -> NP VP
 *   NP -> PRON | DET? ADJ* N
 *   VP -> V NP? PP*
 *   PP -> PREP NP
 *
 * The grammar is first written as functions over the token sequence and a cursor
 * (`NounPhrase`, `VerbPhrase`, ...); the parser class, whose cursor moves in place,
 * is proved to compute exactly what those functions describe.
 */
module ParserEn {
  import opened Wrappers
  import opened Text
  import opened Tags
  import opened LexiconLoader
  import opened LexicoEn

  /** Closed word classes, which override the lexicon. */
  const Determiners: set<string> := {"a", "an", "the", "this", "that", "my", "your", "his", "her", "our", "their"}
  const Pronouns: set<string> := {"i", "you", "he", "she", "it", "we", "they"}
  const Prepositions: set<string> := {"in", "on", "at", "for", "to", "with", "from", "between", "before", "after"}

  /** A token as the parser sees it: the word, its tag and its position in the sentence. */
  datatype Tok = Tok(word: string, pos: Tag, index: nat)

  /** A parse-tree node; leaves carry the label `word/TAG` and no children. The label field is `name` because `label` is a reserved word. */
  datatype Node = Node(name: string, children: seq<Node>)

  /** Why a parse failed: the tags that were expected and the token met instead, or a token left over. */
  datatype ParseError =
    | Unexpected(expected: seq<Tag>, found: Tag, word: string, index: nat)
    | Leftover(found: Tag, word: string, index: nat)

  /** The indentation of a line at the given depth: two spaces per level. */
  function Pad(indent: nat): (s: string)
    ensures |s| == 2 * indent && forall i :: 0 <= i < |s| ==> s[i] == ' '
  {
    if indent == 0 then "" else "  " + Pad(indent - 1)
  }

  /** The node's label on its own line, then its children one level deeper, one line each. */
  function Pretty(n: Node, indent: nat): string
    decreases n
  {
    if n.children == [] then Pad(indent) + n.name
    else Pad(indent) + n.name + "\n" + PrettyAll(n.children, indent + 1)
  }

  /** The renderings of the nodes joined by newlines. */
  function PrettyAll(ns: seq<Node>, indent: nat): string
    decreases ns
  {
    if ns == [] then ""
    else if |ns| == 1 then Pretty(ns[0], indent)
    else Pretty(ns[0], indent) + "\n" + PrettyAll(ns[1..], indent)
  }

  // ---------------------------------------------------------------------------
  // Tagging for the parser

  /** The parser tag of a word, given its lower-cased form and its lexicon tag. */
  function ResolveTag(lw: string, coarse: Tag): Tag {
    if lw in Determiners then DET
    else if lw in Pronouns then PRON
    else if lw in Prepositions then PREP
    else if coarse != UNK then coarse
    else if EndsWith(lw, "ly") then ADV
    else N
  }

  /** The i-th tagged word as a parser token. */
  function ParserToken(base: seq<(string, Tag)>, i: nat): Tok
    requires i < |base|
  {
    Tok(base[i].0, ResolveTag(Lower(base[i].0), base[i].1), i)
  }

  /** The tokens of the text, tagged for the parser and numbered, followed by the EOF sentinel. */
  function ParserTokens(lexicon: Lexicon, text: string): (tokens: seq<Tok>)
    ensures |tokens| == |Tokenize(text)| + 1
    ensures tokens[|tokens| - 1] == Tok("<EOF>", EOF, |Tokenize(text)|)
  {
    var base := TagSentence(lexicon, text);
    seq(|base|, i requires 0 <= i < |base| => ParserToken(base, i)) + [Tok("<EOF>", EOF, |base|)]
  }

  /** Tags the sentence word by word, then appends the sentinel. */
  method TagForParser(lexicon: Lexicon, text: string) returns (tokens: seq<Tok>)
    ensures tokens == ParserTokens(lexicon, text)
  {
    var base := TagSentence(lexicon, text);
    tokens := [];
    for idx := 0 to |base|
      invariant tokens == seq(idx, i requires 0 <= i < idx => ParserToken(base, i))
    {
      var word := base[idx].0;
      var tag := ResolveTag(Lower(word), base[idx].1);
      tokens := tokens + [Tok(word, tag, idx)];
    }
    tokens := tokens + [Tok("<EOF>", EOF, |tokens|)];
  }

  // ---------------------------------------------------------------------------
  // The grammar, as functions of the tokens and a cursor

  /** The token sequence ends with an EOF token, so a cursor on any other token can advance. */
  predicate Terminated(tokens: seq<Tok>) {
    |tokens| > 0 && tokens[|tokens| - 1].pos == EOF
  }

  /** A leaf node labelled `word/TAG`. */
  function Leaf(t: Tok): Node {
    Node(t.word + "/" + Name(t.pos), [])
  }

  /** The failure of expecting one of `expected` and meeting `t`. */
  function Mismatch(expected: seq<Tag>, t: Tok): ParseError {
    Unexpected(expected, t.pos, t.word, t.index)
  }

  /** A subtree together with the cursor after it. */
  datatype Parsed = Parsed(node: Node, next: nat)

  /**
   * The rest of a noun phrase from position p, where `acc` holds the leaves read so
   * far: further ADJ leaves, then the N leaf that closes the phrase.
   */
  function NounRest(tokens: seq<Tok>, p: nat, acc: seq<Node>): (r: Result<Parsed, ParseError>)
    requires Terminated(tokens) && p < |tokens|
    ensures r.Ok? ==> p < r.value.next < |tokens|
    decreases |tokens| - p
  {
    var t := tokens[p];
    if t.pos == ADJ then NounRest(tokens, p + 1, acc + [Leaf(t)])
    else if t.pos == N then Ok(Parsed(Node("NP", acc + [Leaf(t)]), p + 1))
    else Err(Mismatch([N], t))
  }

  /** NP -> PRON | DET? ADJ* N, from position p. */
  function NounPhrase(tokens: seq<Tok>, p: nat): (r: Result<Parsed, ParseError>)
    requires Terminated(tokens) && p < |tokens|
    ensures r.Ok? ==> p < r.value.next < |tokens|
  {
    var t := tokens[p];
    if t.pos == PRON then Ok(Parsed(Node("NP", [Leaf(t)]), p + 1))
    else if t.pos == DET then NounRest(tokens, p + 1, [Leaf(t)])
    else NounRest(tokens, p, [])
  }

  /** PP -> PREP NP, from position p. */
  function PrepPhrase(tokens: seq<Tok>, p: nat): (r: Result<Parsed, ParseError>)
    requires Terminated(tokens) && p < |tokens|
    ensures r.Ok? ==> p < r.value.next < |tokens|
  {
    var t := tokens[p];
    if t.pos != PREP then Err(Mismatch([PREP], t))
    else
      match NounPhrase(tokens, p + 1)
      case Err(e) => Err(e)
      case Ok(np) => Ok(Parsed(Node("PP", [Leaf(t), np.node]), np.next))
  }

  /**
   * The rest of a verb phrase from position p, where `acc` holds the children read so
   * far: prepositional phrases for as long as the next tag is PREP.
   */
  function PrepRest(tokens: seq<Tok>, p: nat, acc: seq<Node>): (r: Result<Parsed, ParseError>)
    requires Terminated(tokens) && p < |tokens|
    ensures r.Ok? ==> p <= r.value.next < |tokens| && tokens[r.value.next].pos != PREP
    decreases |tokens| - p
  {
    if tokens[p].pos != PREP then Ok(Parsed(Node("VP", acc), p))
    else
      match PrepPhrase(tokens, p)
      case Err(e) => Err(e)
      case Ok(pp) => PrepRest(tokens, pp.next, acc + [pp.node])
  }

  /** The tags that open a direct object. */
  const ObjectStart: set<Tag> := {DET, ADJ, N, PRON}

  /** The optional object NP of a verb phrase, from position p. */
  function Object(tokens: seq<Tok>, p: nat): (r: Result<(seq<Node>, nat), ParseError>)
    requires Terminated(tokens) && p < |tokens|
    ensures r.Ok? ==> p <= r.value.1 < |tokens| && |r.value.0| <= 1
  {
    if tokens[p].pos in ObjectStart then
      match NounPhrase(tokens, p)
      case Err(e) => Err(e)
      case Ok(np) => Ok(([np.node], np.next))
    else Ok(([], p))
  }

  /** VP -> V NP? PP*, from position p. */
  function VerbPhrase(tokens: seq<Tok>, p: nat): (r: Result<Parsed, ParseError>)
    requires Terminated(tokens) && p < |tokens|
    ensures r.Ok? ==> p < r.value.next < |tokens|
  {
    var t := tokens[p];
    if t.pos != V then Err(Mismatch([V], t))
    else
      match Object(tokens, p + 1)
      case Err(e) => Err(e)
      case Ok(obj) => PrepRest(tokens, obj.1, [Leaf(t)] + obj.0)
  }

  /** S -> NP VP, from position p. */
  function Sentence(tokens: seq<Tok>, p: nat): (r: Result<Parsed, ParseError>)
    requires Terminated(tokens) && p < |tokens|
    ensures r.Ok? ==> p < r.value.next < |tokens|
  {
    match NounPhrase(tokens, p)
    case Err(e) => Err(e)
    case Ok(np) =>
      match VerbPhrase(tokens, np.next)
      case Err(e) => Err(e)
      case Ok(vp) => Ok(Parsed(Node("S", [np.node, vp.node]), vp.next))
  }

  /** A sentence from position p that must be followed by EOF. */
  function ParseFrom(tokens: seq<Tok>, p: nat): (r: Result<Node, ParseError>)
    requires Terminated(tokens) && p < |tokens|
    ensures r.Ok? ==> Sentence(tokens, p).Ok? && r.value == Sentence(tokens, p).value.node
  {
    match Sentence(tokens, p)
    case Err(e) => Err(e)
    case Ok(s) =>
      var t := tokens[s.next];
      if t.pos != EOF then Err(Leftover(t.pos, t.word, t.index)) else Ok(s.node)
  }

  /** The parse of a whole text against a lexicon. */
  function ParseText(lexicon: Lexicon, text: string): Result<Node, ParseError> {
    ParseFrom(ParserTokens(lexicon, text), 0)
  }

  // ---------------------------------------------------------------------------
  // The parser object

  /** A subtree result of a parser method read together with the cursor it left. */
  function AsParsed(r: Result<Node, ParseError>, next: nat): Result<Parsed, ParseError> {
    match r
    case Ok(n) => Ok(Parsed(n, next))
    case Err(e) => Err(e)
  }

  /** The error names the token t. */
  predicate Cites(e: ParseError, t: Tok) {
    e.found == t.pos && e.word == t.word && e.index == t.index
  }

  class RecursiveDescentParser {
    const tokens: seq<Tok>
    var pos: nat

    constructor(tokens: seq<Tok>)
      ensures this.tokens == tokens && pos == 0
      ensures Terminated(tokens) ==> Valid()
    {
      this.tokens := tokens;
      pos := 0;
    }

    /** The cursor is on a token of an EOF-terminated sequence. */
    predicate Valid()
      reads this
    {
      Terminated(tokens) && pos < |tokens|
    }

    /** The token under the cursor; it is never the last one unless it is EOF. */
    function Current(): (t: Tok)
      reads this
      requires Valid()
      ensures t.pos != EOF ==> pos + 1 < |tokens|
    {
      tokens[pos]
    }

    /** Consumes the current token if its tag is expected; otherwise fails on it, leaving the cursor. */
    method Accept(expected: seq<Tag>) returns (r: Result<Tok, ParseError>)
      requires Valid()
      modifies this
      ensures pos <= |tokens| && (EOF !in expected ==> Valid())
      ensures old(tokens[pos].pos) in expected ==> r == Ok(old(tokens[pos])) && pos == old(pos) + 1
      ensures old(tokens[pos].pos) !in expected ==> r == Err(Mismatch(expected, old(tokens[pos]))) && pos == old(pos)
    {
      var tok := Current();
      if tok.pos in expected {
        pos := pos + 1;
        return Ok(tok);
      }
      return Err(Unexpected(expected, tok.pos, tok.word, tok.index));
    }

    method ParseNP() returns (r: Result<Node, ParseError>)
      requires Valid()
      modifies this
      ensures Valid() && old(pos) <= pos
      ensures AsParsed(r, pos) == NounPhrase(tokens, old(pos))
      ensures r.Err? ==> Cites(r.error, tokens[pos])
    {
      var tok := Current();
      if tok.pos == PRON {
        var t := Accept([PRON]);
        return Ok(Node("NP", [Leaf(t.value)]));
      }
      ghost var p0 := pos;
      var children: seq<Node> := [];
      if Current().pos == DET {
        var d := Accept([DET]);
        children := children + [Leaf(d.value)];
        assert children == [Leaf(tokens[p0])];
      }
      while Current().pos == ADJ
        invariant Valid() && p0 <= pos
        invariant NounRest(tokens, pos, children) == NounPhrase(tokens, p0)
        decreases |tokens| - pos
      {
        var a := Accept([ADJ]);
        children := children + [Leaf(a.value)];
      }
      var n := Accept([N]);
      if n.Err? {
        return Err(n.error);
      }
      children := children + [Leaf(n.value)];
      return Ok(Node("NP", children));
    }

    method ParsePP() returns (r: Result<Node, ParseError>)
      requires Valid()
      modifies this
      ensures Valid() && old(pos) <= pos
      ensures AsParsed(r, pos) == PrepPhrase(tokens, old(pos))
      ensures r.Err? ==> Cites(r.error, tokens[pos])
    {
      var prep := Accept([PREP]);
      if prep.Err? {
        return Err(prep.error);
      }
      var np := ParseNP();
      if np.Err? {
        return Err(np.error);
      }
      return Ok(Node("PP", [Leaf(prep.value), np.value]));
    }

    method ParseVP() returns (r: Result<Node, ParseError>)
      requires Valid()
      modifies this
      ensures Valid() && old(pos) <= pos
      ensures AsParsed(r, pos) == VerbPhrase(tokens, old(pos))
      ensures r.Err? ==> Cites(r.error, tokens[pos])
    {
      ghost var p0 := pos;
      var v := Accept([V]);
      if v.Err? {
        return Err(v.error);
      }
      var children := [Leaf(v.value)];
      ghost var objects: seq<Node> := [];
      if Current().pos in ObjectStart {
        var obj := ParseNP();
        if obj.Err? {
          return Err(obj.error);
        }
        children := children + [obj.value];
        objects := [obj.value];
      }
      assert Object(tokens, p0 + 1) == Ok((objects, pos));
      assert children == [Leaf(tokens[p0])] + objects;
      while Current().pos == PREP
        invariant Valid() && p0 < pos
        invariant PrepRest(tokens, pos, children) == VerbPhrase(tokens, p0)
        decreases |tokens| - pos
      {
        var pp := ParsePP();
        if pp.Err? {
          return Err(pp.error);
        }
        children := children + [pp.value];
      }
      return Ok(Node("VP", children));
    }

    method ParseS() returns (r: Result<Node, ParseError>)
      requires Valid()
      modifies this
      ensures Valid() && old(pos) <= pos
      ensures AsParsed(r, pos) == Sentence(tokens, old(pos))
      ensures r.Err? ==> Cites(r.error, tokens[pos])
    {
      var np := ParseNP();
      if np.Err? {
        return Err(np.error);
      }
      var vp := ParseVP();
      if vp.Err? {
        return Err(vp.error);
      }
      return Ok(Node("S", [np.value, vp.value]));
    }

    /** A sentence from the cursor, which must then be on EOF. */
    method Parse() returns (r: Result<Node, ParseError>)
      requires Valid()
      modifies this
      ensures Valid() && old(pos) <= pos
      ensures r == ParseFrom(tokens, old(pos))
      ensures r.Err? ==> Cites(r.error, tokens[pos])
      ensures r.Ok? ==> tokens[pos].pos == EOF
    {
      r := ParseS();
      if r.Ok? && Current().pos != EOF {
        var tok := Current();
        r := Err(Leftover(tok.pos, tok.word, tok.index));
      }
    }
  }

  /** Tags the text and parses it. */
  method ParseSentence(lexicon: Lexicon, text: string) returns (r: Result<Node, ParseError>)
    ensures r == ParseText(lexicon, text)
  {
    var tokens := TagForParser(lexicon, text);
    var parser := new RecursiveDescentParser(tokens);
    r := parser.Parse();
  }
}
