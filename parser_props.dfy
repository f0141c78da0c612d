/**
 * Properties of the parser-side tagger, of the trees each production builds, of the
 * words an accepted tree spells out, and of the indented rendering of a tree.
 */
module ParserProperties {
  import opened Wrappers
  import opened Text
  import opened Tags
  import opened LexiconLoader
  import opened LexicoEn
  import opened ParserEn

  // ---------------------------------------------------------------------------
  // Tagging for the parser

  /** The i-th parser token is the i-th word with its resolved tag. */
  lemma {:induction false} ParserTokenAt(lexicon: Lexicon, text: string, i: nat)
    requires i < |Tokenize(text)|
    ensures ParserTokens(lexicon, text)[i]
      == Tok(Tokenize(text)[i], ResolveTag(Lower(Tokenize(text)[i]), TagWord(lexicon, Tokenize(text)[i])), i)
  {
  }

  /**
   * One token per word, numbered from 0, then the EOF sentinel numbered with the word
   * count; with a lexicon the loader built, no word is tagged EOF, and none is left UNK.
   */
  lemma {:induction false} SentinelInvariant(lexicon: Lexicon, text: string)
    ensures |ParserTokens(lexicon, text)| == |Tokenize(text)| + 1
    ensures ParserTokens(lexicon, text)[|Tokenize(text)|] == Tok("<EOF>", EOF, |Tokenize(text)|)
    ensures forall i :: 0 <= i < |ParserTokens(lexicon, text)| ==> ParserTokens(lexicon, text)[i].index == i
    ensures forall i :: 0 <= i < |Tokenize(text)| ==> ParserTokens(lexicon, text)[i].word == Tokenize(text)[i]
    ensures WellFormed(lexicon) ==> forall i :: 0 <= i < |Tokenize(text)| ==>
      ParserTokens(lexicon, text)[i].pos != EOF && ParserTokens(lexicon, text)[i].pos != UNK
  {
    var words := Tokenize(text);
    var tokens := ParserTokens(lexicon, text);
    forall i | 0 <= i < |tokens| ensures tokens[i].index == i {
      if i < |words| {
        ParserTokenAt(lexicon, text, i);
      }
    }
    forall i | 0 <= i < |words| ensures tokens[i].word == words[i] {
      ParserTokenAt(lexicon, text, i);
    }
    if WellFormed(lexicon) {
      forall i | 0 <= i < |words| ensures tokens[i].pos != EOF && tokens[i].pos != UNK {
        ParserTokenAt(lexicon, text, i);
        TagWordRange(lexicon, words[i]);
      }
    }
  }

  /** The closed classes are consulted first, determiners before pronouns before prepositions. */
  lemma {:induction false} ClosedClassPrecedence(lexicon: Lexicon, text: string, i: nat)
    requires i < |Tokenize(text)|
    ensures Lower(Tokenize(text)[i]) in Determiners ==> ParserTokens(lexicon, text)[i].pos == DET
    ensures Lower(Tokenize(text)[i]) !in Determiners && Lower(Tokenize(text)[i]) in Pronouns ==>
      ParserTokens(lexicon, text)[i].pos == PRON
    ensures Lower(Tokenize(text)[i]) !in Determiners + Pronouns && Lower(Tokenize(text)[i]) in Prepositions ==>
      ParserTokens(lexicon, text)[i].pos == PREP
  {
  }

  /** Whatever the lexicon says about a closed-class word, its token is the same. */
  lemma {:induction false} ClosedClassIgnoresLexicon(lexicon1: Lexicon, lexicon2: Lexicon, text: string, i: nat)
    requires i < |Tokenize(text)|
    requires Lower(Tokenize(text)[i]) in Determiners + Pronouns + Prepositions
    ensures ParserTokens(lexicon1, text)[i] == ParserTokens(lexicon2, text)[i]
  {
  }

  /**
   * Any other word keeps its lexicon tag; a word the lexicon does not classify becomes
   * ADV when it ends in "ly" and N otherwise.
   */
  lemma {:induction false} UnknownFallback(lexicon: Lexicon, text: string, i: nat)
    requires i < |Tokenize(text)|
    requires Lower(Tokenize(text)[i]) !in Determiners + Pronouns + Prepositions
    ensures TagWord(lexicon, Tokenize(text)[i]) != UNK ==>
      ParserTokens(lexicon, text)[i].pos == TagWord(lexicon, Tokenize(text)[i])
    ensures TagWord(lexicon, Tokenize(text)[i]) == UNK ==>
      (ParserTokens(lexicon, text)[i].pos == ADV <==> EndsWith(Lower(Tokenize(text)[i]), "ly"))
      && (ParserTokens(lexicon, text)[i].pos == ADV || ParserTokens(lexicon, text)[i].pos == N)
  {
  }

  /** The empty text gives the sentinel alone, and its parse fails expecting a noun at the sentinel. */
  lemma {:induction false} EmptyInput(lexicon: Lexicon)
    ensures ParserTokens(lexicon, "") == [Tok("<EOF>", EOF, 0)]
    ensures ParseText(lexicon, "") == Err(Unexpected([N], EOF, "<EOF>", 0))
  {
    NoWordCharsNoTokens("");
  }

  // ---------------------------------------------------------------------------
  // Tree shapes

  /** The leaves of tokens[p..q], in order. */
  function Leaves(tokens: seq<Tok>, p: nat, q: nat): (r: seq<Node>)
    requires p <= q <= |tokens|
    ensures |r| == q - p && forall i :: 0 <= i < q - p ==> r[i] == Leaf(tokens[p + i])
  {
    seq(q - p, i requires 0 <= i < q - p => Leaf(tokens[p + i]))
  }

  lemma {:induction false} LeavesCons(tokens: seq<Tok>, p: nat, q: nat)
    requires p < q <= |tokens|
    ensures Leaves(tokens, p, q) == [Leaf(tokens[p])] + Leaves(tokens, p + 1, q)
  {
    var a := Leaves(tokens, p, q);
    var b := [Leaf(tokens[p])] + Leaves(tokens, p + 1, q);
    forall i | 0 <= i < |a| ensures a[i] == b[i] {
      if i > 0 {
        assert b[i] == Leaves(tokens, p + 1, q)[i - 1];
      }
    }
  }

  /** Tags DET? ADJ* N on tokens[p..q]. */
  ghost predicate NounTags(tokens: seq<Tok>, p: nat, q: nat)
    requires p < q <= |tokens|
  {
    tokens[q - 1].pos == N && forall k :: p <= k < q - 1 ==> tokens[k].pos == ADJ || (k == p && tokens[k].pos == DET)
  }

  lemma {:induction false} NounRestShape(tokens: seq<Tok>, p: nat, acc: seq<Node>)
    requires Terminated(tokens) && p < |tokens|
    ensures NounRest(tokens, p, acc).Ok? ==>
      var r := NounRest(tokens, p, acc).value;
      && r.node == Node("NP", acc + Leaves(tokens, p, r.next))
      && tokens[r.next - 1].pos == N
      && forall k :: p <= k < r.next - 1 ==> tokens[k].pos == ADJ
    decreases |tokens| - p
  {
    if tokens[p].pos == ADJ && NounRest(tokens, p, acc).Ok? {
      var head := [Leaf(tokens[p])];
      assert NounRest(tokens, p, acc) == NounRest(tokens, p + 1, acc + head);
      NounRestShape(tokens, p + 1, acc + head);
      var q := NounRest(tokens, p, acc).value.next;
      LeavesJoin(tokens, p, q, acc);
    } else if tokens[p].pos == N {
      assert Leaves(tokens, p, p + 1) == [Leaf(tokens[p])];
    }
  }

  lemma {:induction false} LeavesJoin(tokens: seq<Tok>, p: nat, q: nat, acc: seq<Node>)
    requires p < q <= |tokens|
    ensures acc + [Leaf(tokens[p])] + Leaves(tokens, p + 1, q) == acc + Leaves(tokens, p, q)
  {
    LeavesCons(tokens, p, q);
    assert acc + [Leaf(tokens[p])] + Leaves(tokens, p + 1, q) == acc + ([Leaf(tokens[p])] + Leaves(tokens, p + 1, q));
  }

  /** NP is a single PRON leaf, or the leaves of DET? ADJ* N in the order they were read. */
  lemma {:induction false} NounPhraseShape(tokens: seq<Tok>, p: nat)
    requires Terminated(tokens) && p < |tokens|
    ensures NounPhrase(tokens, p).Ok? ==>
      var r := NounPhrase(tokens, p).value;
      && r.node == Node("NP", Leaves(tokens, p, r.next))
      && ((tokens[p].pos == PRON && r.next == p + 1) || NounTags(tokens, p, r.next))
  {
    var t := tokens[p];
    if t.pos == PRON {
      assert Leaves(tokens, p, p + 1) == [Leaf(t)];
    } else if t.pos == DET {
      NounRestShape(tokens, p + 1, [Leaf(t)]);
      if NounPhrase(tokens, p).Ok? {
        LeavesCons(tokens, p, NounPhrase(tokens, p).value.next);
      }
    } else {
      NounRestShape(tokens, p, []);
      if NounPhrase(tokens, p).Ok? {
        assert [] + Leaves(tokens, p, NounPhrase(tokens, p).value.next) == Leaves(tokens, p, NounPhrase(tokens, p).value.next);
      }
    }
  }

  lemma {:induction false} NounRestAccepts(tokens: seq<Tok>, p: nat, q: nat, acc: seq<Node>)
    requires Terminated(tokens) && p < q < |tokens|
    requires tokens[q - 1].pos == N && forall k :: p <= k < q - 1 ==> tokens[k].pos == ADJ
    ensures NounRest(tokens, p, acc) == Ok(Parsed(Node("NP", acc + Leaves(tokens, p, q)), q))
    decreases q - p
  {
    if p < q - 1 {
      NounRestAccepts(tokens, p + 1, q, acc + [Leaf(tokens[p])]);
      LeavesCons(tokens, p, q);
      assert acc + [Leaf(tokens[p])] + Leaves(tokens, p + 1, q) == acc + Leaves(tokens, p, q);
    } else {
      assert Leaves(tokens, p, q) == [Leaf(tokens[p])];
    }
  }

  /** NP -> PRON | DET? ADJ* N derives exactly tokens[p..q]. */
  ghost predicate NounRange(tokens: seq<Tok>, p: nat, q: nat)
    requires p <= q <= |tokens|
  {
    p < q && ((q == p + 1 && tokens[p].pos == PRON) || NounTags(tokens, p, q))
  }

  /** Conversely, a lone PRON, or tags DET? ADJ* N, from p are read as one NP that ends there. */
  lemma {:induction false} NounPhraseAccepts(tokens: seq<Tok>, p: nat, q: nat)
    requires Terminated(tokens) && p < q < |tokens| && NounRange(tokens, p, q)
    ensures NounPhrase(tokens, p) == Ok(Parsed(Node("NP", Leaves(tokens, p, q)), q))
  {
    if tokens[p].pos == PRON {
      assert Leaves(tokens, p, p + 1) == [Leaf(tokens[p])];
    } else if tokens[p].pos == DET {
      NounRestAccepts(tokens, p + 1, q, [Leaf(tokens[p])]);
      LeavesCons(tokens, p, q);
    } else {
      NounRestAccepts(tokens, p, q, []);
      assert [] + Leaves(tokens, p, q) == Leaves(tokens, p, q);
    }
  }

  /** PP is the PREP leaf followed by the NP that comes after it. */
  lemma {:induction false} PrepPhraseShape(tokens: seq<Tok>, p: nat)
    requires Terminated(tokens) && p < |tokens|
    ensures PrepPhrase(tokens, p).Ok? ==>
      var r := PrepPhrase(tokens, p).value;
      && tokens[p].pos == PREP
      && r.node.name == "PP" && |r.node.children| == 2 && r.node.children[0] == Leaf(tokens[p])
      && NounPhrase(tokens, p + 1) == Ok(Parsed(r.node.children[1], r.next))
  {
  }

  lemma {:induction false} PrepRestShape(tokens: seq<Tok>, p: nat, acc: seq<Node>)
    requires Terminated(tokens) && p < |tokens|
    ensures PrepRest(tokens, p, acc).Ok? ==>
      var r := PrepRest(tokens, p, acc).value;
      && r.node.name == "VP" && |acc| <= |r.node.children| && r.node.children[..|acc|] == acc
      && forall k :: |acc| <= k < |r.node.children| ==> r.node.children[k].name == "PP"
    decreases |tokens| - p
  {
    if tokens[p].pos == PREP && PrepRest(tokens, p, acc).Ok? {
      var pp := PrepPhrase(tokens, p).value;
      var acc' := acc + [pp.node];
      assert PrepRest(tokens, p, acc) == PrepRest(tokens, pp.next, acc');
      assert pp.node.name == "PP";
      PrepRestShape(tokens, pp.next, acc');
      var cs := PrepRest(tokens, p, acc).value.node.children;
      assert cs[..|acc'|] == acc';
      assert cs[..|acc|] == acc'[..|acc|] == acc;
      assert cs[|acc|] == acc'[|acc|] == pp.node;
    }
  }

  /** VP is the V leaf, then an NP exactly when the next tag opens one, then PP nodes only. */
  lemma {:induction false} VerbPhraseShape(tokens: seq<Tok>, p: nat)
    requires Terminated(tokens) && p < |tokens|
    ensures VerbPhrase(tokens, p).Ok? ==>
      var r := VerbPhrase(tokens, p).value;
      var objects := if tokens[p + 1].pos in ObjectStart then 1 else 0;
      && tokens[p].pos == V
      && r.node.name == "VP" && 1 + objects <= |r.node.children| && r.node.children[0] == Leaf(tokens[p])
      && (objects == 1 ==> r.node.children[1].name == "NP")
      && (forall k :: 1 + objects <= k < |r.node.children| ==> r.node.children[k].name == "PP")
      && tokens[r.next].pos != PREP
  {
    if VerbPhrase(tokens, p).Ok? {
      var obj := Object(tokens, p + 1).value;
      var head := [Leaf(tokens[p])] + obj.0;
      PrepRestShape(tokens, obj.1, head);
      var cs := VerbPhrase(tokens, p).value.node.children;
      assert cs[..|head|] == head;
      assert cs[0] == head[0];
      if tokens[p + 1].pos in ObjectStart {
        NounPhraseShape(tokens, p + 1);
        assert cs[1] == head[1];
      }
    }
  }

  /** S is the NP read from p followed by the VP read after it. */
  lemma {:induction false} SentenceShape(tokens: seq<Tok>, p: nat)
    requires Terminated(tokens) && p < |tokens|
    ensures Sentence(tokens, p).Ok? ==>
      var r := Sentence(tokens, p).value;
      && r.node.name == "S" && |r.node.children| == 2
      && NounPhrase(tokens, p).Ok? && r.node.children[0] == NounPhrase(tokens, p).value.node
      && VerbPhrase(tokens, NounPhrase(tokens, p).value.next) == Ok(Parsed(r.node.children[1], r.next))
      && r.node.children[0].name == "NP" && r.node.children[1].name == "VP"
  {
    NounPhraseShape(tokens, p);
    if NounPhrase(tokens, p).Ok? {
      VerbPhraseShape(tokens, NounPhrase(tokens, p).value.next);
    }
  }

  // ---------------------------------------------------------------------------
  // The words a tree spells out

  /** The label of a token's leaf. */
  function Label(t: Tok): string {
    Leaf(t).name
  }

  /** The leaf labels of tokens[p..q], in order. */
  function Labels(tokens: seq<Tok>, p: nat, q: nat): (r: seq<string>)
    requires p <= q <= |tokens|
    ensures |r| == q - p && forall i :: 0 <= i < q - p ==> r[i] == Label(tokens[p + i])
  {
    seq(q - p, i requires 0 <= i < q - p => Label(tokens[p + i]))
  }

  /** The labels of a tree's leaves, left to right. */
  function Yield(n: Node): seq<string>
    decreases n
  {
    if n.children == [] then [n.name] else YieldAll(n.children)
  }

  function YieldAll(ns: seq<Node>): seq<string>
    decreases ns
  {
    if ns == [] then [] else Yield(ns[0]) + YieldAll(ns[1..])
  }

  /** The tags a tree can contain. */
  const PhraseTags: set<Tag> := {DET, ADJ, N, PRON, V, PREP}

  ghost predicate Covered(tokens: seq<Tok>, p: nat, q: nat)
    requires p <= q <= |tokens|
  {
    forall k :: p <= k < q ==> tokens[k].pos in PhraseTags
  }

  lemma {:induction false} LabelsSplit(tokens: seq<Tok>, p: nat, q: nat, r: nat)
    requires p <= q <= r <= |tokens|
    ensures Labels(tokens, p, q) + Labels(tokens, q, r) == Labels(tokens, p, r)
  {
    var a := Labels(tokens, p, q) + Labels(tokens, q, r);
    forall i | 0 <= i < r - p ensures a[i] == Labels(tokens, p, r)[i] {
      if i >= q - p {
        assert a[i] == Labels(tokens, q, r)[i - (q - p)];
      }
    }
  }

  lemma {:induction false} YieldOne(n: Node)
    ensures YieldAll([n]) == Yield(n)
  {
    assert [n][1..] == [];
  }

  lemma {:induction false} YieldPair(a: Node, b: Node)
    ensures YieldAll([a, b]) == Yield(a) + Yield(b)
  {
    assert [a, b][1..] == [b];
    YieldOne(b);
  }

  lemma {:induction false} YieldLeaf(tokens: seq<Tok>, p: nat)
    requires p < |tokens|
    ensures Yield(Leaf(tokens[p])) == YieldAll([Leaf(tokens[p])]) == Labels(tokens, p, p + 1)
  {
    assert Leaves(tokens, p, p + 1) == [Leaf(tokens[p])];
    YieldLeaves(tokens, p, p + 1);
    YieldOne(Leaf(tokens[p]));
  }

  /** The optional object spells out the labels of the tokens it consumed. */
  lemma {:induction false} ObjectYield(tokens: seq<Tok>, p: nat)
    requires Terminated(tokens) && p < |tokens|
    ensures Object(tokens, p).Ok? ==>
      var o := Object(tokens, p).value;
      YieldAll(o.0) == Labels(tokens, p, o.1) && Covered(tokens, p, o.1)
  {
    if Object(tokens, p).Ok? {
      var o := Object(tokens, p).value;
      if tokens[p].pos in ObjectStart {
        NounPhraseYield(tokens, p);
        var np := NounPhrase(tokens, p).value;
        assert o.0 == [np.node];
        YieldOne(np.node);
      } else {
        assert o.0 == [] && o.1 == p;
        assert Labels(tokens, p, p) == [];
      }
    }
  }

  lemma {:induction false} YieldAllConcat(a: seq<Node>, b: seq<Node>)
    ensures YieldAll(a + b) == YieldAll(a) + YieldAll(b)
    decreases a
  {
    if a == [] {
      assert a + b == b;
    } else {
      assert (a + b)[0] == a[0] && (a + b)[1..] == a[1..] + b;
      YieldAllConcat(a[1..], b);
    }
  }

  /** The names of a list of nodes, in order. */
  function Names(ns: seq<Node>): (r: seq<string>)
    ensures |r| == |ns| && forall i :: 0 <= i < |ns| ==> r[i] == ns[i].name
  {
    seq(|ns|, i requires 0 <= i < |ns| => ns[i].name)
  }

  /** A list of childless nodes spells out its own names. */
  lemma {:induction false} YieldOfLeaves(ns: seq<Node>)
    requires forall i :: 0 <= i < |ns| ==> ns[i].children == []
    ensures YieldAll(ns) == Names(ns)
    decreases ns
  {
    if ns != [] {
      YieldOfLeaves(ns[1..]);
      assert Yield(ns[0]) == [ns[0].name];
      var a := [ns[0].name] + Names(ns[1..]);
      forall i | 0 <= i < |ns| ensures a[i] == Names(ns)[i] {
        if i > 0 {
          assert a[i] == Names(ns[1..])[i - 1];
        }
      }
    }
  }

  lemma {:induction false} YieldLeaves(tokens: seq<Tok>, p: nat, q: nat)
    requires p <= q <= |tokens|
    ensures YieldAll(Leaves(tokens, p, q)) == Labels(tokens, p, q)
  {
    var leaves := Leaves(tokens, p, q);
    YieldOfLeaves(leaves);
    forall i | 0 <= i < q - p ensures Names(leaves)[i] == Labels(tokens, p, q)[i] {
      assert leaves[i] == Leaf(tokens[p + i]);
    }
  }

  /** An NP spells out exactly the labels of the tokens it consumed. */
  lemma {:induction false} NounPhraseYield(tokens: seq<Tok>, p: nat)
    requires Terminated(tokens) && p < |tokens|
    ensures NounPhrase(tokens, p).Ok? ==>
      var r := NounPhrase(tokens, p).value;
      Yield(r.node) == Labels(tokens, p, r.next) && Covered(tokens, p, r.next)
  {
    NounPhraseShape(tokens, p);
    if NounPhrase(tokens, p).Ok? {
      YieldLeaves(tokens, p, NounPhrase(tokens, p).value.next);
    }
  }

  lemma {:induction false} PrepPhraseYield(tokens: seq<Tok>, p: nat)
    requires Terminated(tokens) && p < |tokens|
    ensures PrepPhrase(tokens, p).Ok? ==>
      var r := PrepPhrase(tokens, p).value;
      Yield(r.node) == Labels(tokens, p, r.next) && Covered(tokens, p, r.next)
  {
    if PrepPhrase(tokens, p).Ok? {
      var r := PrepPhrase(tokens, p).value;
      PrepPhraseShape(tokens, p);
      NounPhraseYield(tokens, p + 1);
      var cs := r.node.children;
      assert cs == [cs[0], cs[1]];
      YieldPair(cs[0], cs[1]);
      YieldLeaf(tokens, p);
      LabelsSplit(tokens, p, p + 1, r.next);
    }
  }

  lemma {:induction false} PrepRestYield(tokens: seq<Tok>, p: nat, acc: seq<Node>)
    requires Terminated(tokens) && p < |tokens|
    ensures PrepRest(tokens, p, acc).Ok? ==>
      var r := PrepRest(tokens, p, acc).value;
      YieldAll(r.node.children) == YieldAll(acc) + Labels(tokens, p, r.next) && Covered(tokens, p, r.next)
    decreases |tokens| - p
  {
    if tokens[p].pos == PREP && PrepRest(tokens, p, acc).Ok? {
      var pp := PrepPhrase(tokens, p).value;
      var r := PrepRest(tokens, p, acc).value;
      assert r == PrepRest(tokens, pp.next, acc + [pp.node]).value;
      PrepPhraseYield(tokens, p);
      PrepRestYield(tokens, pp.next, acc + [pp.node]);
      PrepRestJoin(tokens, p, acc, pp, r);
    } else if PrepRest(tokens, p, acc).Ok? {
      assert Labels(tokens, p, p) == [];
    }
  }

  /** The labels of one more PP node, put after those already read. */
  lemma {:induction false} PrepRestJoin(tokens: seq<Tok>, p: nat, acc: seq<Node>, pp: Parsed, r: Parsed)
    requires p < pp.next <= r.next <= |tokens|
    requires Yield(pp.node) == Labels(tokens, p, pp.next) && Covered(tokens, p, pp.next)
    requires YieldAll(r.node.children) == YieldAll(acc + [pp.node]) + Labels(tokens, pp.next, r.next)
    requires Covered(tokens, pp.next, r.next)
    ensures YieldAll(r.node.children) == YieldAll(acc) + Labels(tokens, p, r.next) && Covered(tokens, p, r.next)
  {
    YieldAllConcat(acc, [pp.node]);
    YieldOne(pp.node);
    LabelsSplit(tokens, p, pp.next, r.next);
  }

  lemma {:induction false} VerbPhraseYield(tokens: seq<Tok>, p: nat)
    requires Terminated(tokens) && p < |tokens|
    ensures VerbPhrase(tokens, p).Ok? ==>
      var r := VerbPhrase(tokens, p).value;
      Yield(r.node) == Labels(tokens, p, r.next) && Covered(tokens, p, r.next)
  {
    if VerbPhrase(tokens, p).Ok? {
      var r := VerbPhrase(tokens, p).value;
      var obj := Object(tokens, p + 1).value;
      var head := [Leaf(tokens[p])] + obj.0;
      assert r == PrepRest(tokens, obj.1, head).value;
      PrepRestYield(tokens, obj.1, head);
      PrepRestShape(tokens, obj.1, head);
      ObjectYield(tokens, p + 1);
      VerbPhraseJoin(tokens, p, obj.0, obj.1, r);
    }
  }

  /** The labels of the V leaf, of the object and of the PP nodes, put together. */
  lemma {:induction false} VerbPhraseJoin(tokens: seq<Tok>, p: nat, obj: seq<Node>, q: nat, r: Parsed)
    requires p < q <= r.next <= |tokens|
    requires YieldAll(obj) == Labels(tokens, p + 1, q) && Covered(tokens, p + 1, q) && tokens[p].pos == V
    requires YieldAll(r.node.children) == YieldAll([Leaf(tokens[p])] + obj) + Labels(tokens, q, r.next)
    requires Covered(tokens, q, r.next) && r.node.children != []
    ensures Yield(r.node) == Labels(tokens, p, r.next) && Covered(tokens, p, r.next)
  {
    YieldAllConcat([Leaf(tokens[p])], obj);
    YieldLeaf(tokens, p);
    LabelsSplit(tokens, p, p + 1, q);
    LabelsSplit(tokens, p, q, r.next);
  }

  lemma {:induction false} SentenceYield(tokens: seq<Tok>, p: nat)
    requires Terminated(tokens) && p < |tokens|
    ensures Sentence(tokens, p).Ok? ==>
      var r := Sentence(tokens, p).value;
      Yield(r.node) == Labels(tokens, p, r.next) && Covered(tokens, p, r.next)
  {
    if Sentence(tokens, p).Ok? {
      var np := NounPhrase(tokens, p).value;
      var r := Sentence(tokens, p).value;
      NounPhraseYield(tokens, p);
      VerbPhraseYield(tokens, np.next);
      var cs := r.node.children;
      assert cs == [cs[0], cs[1]];
      YieldPair(cs[0], cs[1]);
      LabelsSplit(tokens, p, np.next, r.next);
    }
  }

  /** The token sequence ends with its only EOF token, as the parser-side tagger builds it. */
  ghost predicate Sentinel(tokens: seq<Tok>) {
    Terminated(tokens) && forall k :: 0 <= k < |tokens| - 1 ==> tokens[k].pos != EOF
  }

  /**
   * An accepted parse consumes every token before the sentinel: its leaves, left to
   * right, are the labels of all those tokens, and each of their tags is one the grammar uses.
   */
  lemma {:induction false} ParseYield(tokens: seq<Tok>)
    requires Sentinel(tokens)
    ensures ParseFrom(tokens, 0).Ok? ==>
      Yield(ParseFrom(tokens, 0).value) == Labels(tokens, 0, |tokens| - 1) && Covered(tokens, 0, |tokens| - 1)
  {
    SentenceYield(tokens, 0);
  }

  /** The same for a text: the leaves are its words, each with its parser tag, in order. */
  lemma {:induction false} ParseTextYield(lexicon: Lexicon, text: string)
    requires WellFormed(lexicon)
    ensures ParseText(lexicon, text).Ok? ==>
      Yield(ParseText(lexicon, text).value) == Labels(ParserTokens(lexicon, text), 0, |Tokenize(text)|)
    ensures ParseText(lexicon, text).Ok? ==>
      forall i :: 0 <= i < |Tokenize(text)| ==>
        Yield(ParseText(lexicon, text).value)[i] == Tokenize(text)[i] + "/" + Name(ParserTokens(lexicon, text)[i].pos)
        && ParserTokens(lexicon, text)[i].pos in PhraseTags
  {
    SentinelInvariant(lexicon, text);
    ParseYield(ParserTokens(lexicon, text));
  }

  /**
   * A parse is accepted exactly when a sentence is read and EOF follows it; when something
   * else follows, the failure names that first leftover token.
   */
  lemma {:induction false} LeftoverRejected(tokens: seq<Tok>, p: nat)
    requires Terminated(tokens) && p < |tokens|
    ensures ParseFrom(tokens, p).Ok? <==> Sentence(tokens, p).Ok? && tokens[Sentence(tokens, p).value.next].pos == EOF
    ensures Sentence(tokens, p).Ok? && tokens[Sentence(tokens, p).value.next].pos != EOF ==>
      var t := tokens[Sentence(tokens, p).value.next];
      ParseFrom(tokens, p) == Err(Leftover(t.pos, t.word, t.index))
  {
  }

  // ---------------------------------------------------------------------------
  // Acceptance: a token list is parsed exactly when the grammar derives it

  /** PP -> PREP NP derives exactly tokens[p..q]. */
  ghost predicate PrepRange(tokens: seq<Tok>, p: nat, q: nat)
    requires p <= q <= |tokens|
  {
    p < q && tokens[p].pos == PREP && NounRange(tokens, p + 1, q)
  }

  /** PP* derives exactly tokens[p..q]. */
  ghost predicate PrepRuns(tokens: seq<Tok>, p: nat, q: nat)
    requires p <= q <= |tokens|
    decreases q - p
  {
    p == q || exists m :: p < m <= q && PrepRange(tokens, p, m) && PrepRuns(tokens, m, q)
  }

  /**
   * VP -> V NP? PP* derives exactly tokens[p..q], the object being taken whenever the
   * tag after the verb opens an NP.
   */
  ghost predicate VerbRange(tokens: seq<Tok>, p: nat, q: nat)
    requires p <= q < |tokens|
  {
    p < q && tokens[p].pos == V
    && (exists m :: p < m <= q
         && ((m == p + 1 && tokens[m].pos !in ObjectStart) || NounRange(tokens, p + 1, m))
         && PrepRuns(tokens, m, q))
  }

  /** S -> NP VP derives exactly tokens[p..q]. */
  ghost predicate SentenceRange(tokens: seq<Tok>, p: nat, q: nat)
    requires p <= q < |tokens|
  {
    exists m :: p < m <= q && NounRange(tokens, p, m) && VerbRange(tokens, m, q)
  }

  /** An accepted NP was derived from the tokens it consumed. */
  lemma {:induction false} NounPhraseDerives(tokens: seq<Tok>, p: nat)
    requires Terminated(tokens) && p < |tokens|
    ensures NounPhrase(tokens, p).Ok? ==> NounRange(tokens, p, NounPhrase(tokens, p).value.next)
  {
    NounPhraseShape(tokens, p);
  }

  /** A PREP followed by the tokens of an NP is read as [PREP leaf, NP] and ends where the NP does. */
  lemma {:induction false} PrepPhraseAccepts(tokens: seq<Tok>, p: nat, q: nat)
    requires Terminated(tokens) && q < |tokens| && p <= q && PrepRange(tokens, p, q)
    ensures PrepPhrase(tokens, p) == Ok(Parsed(Node("PP", [Leaf(tokens[p]), Node("NP", Leaves(tokens, p + 1, q))]), q))
  {
    NounPhraseAccepts(tokens, p + 1, q);
  }

  /** An accepted PP was derived from the tokens it consumed. */
  lemma {:induction false} PrepPhraseDerives(tokens: seq<Tok>, p: nat)
    requires Terminated(tokens) && p < |tokens|
    ensures PrepPhrase(tokens, p).Ok? ==> PrepRange(tokens, p, PrepPhrase(tokens, p).value.next)
  {
    if tokens[p].pos == PREP {
      NounPhraseDerives(tokens, p + 1);
    }
  }

  /** PP* over tokens[p..q], with no PREP at q, is read by the PP loop up to exactly q. */
  lemma {:induction false} PrepRestAccepts(tokens: seq<Tok>, p: nat, q: nat, acc: seq<Node>)
    requires Terminated(tokens) && p <= q < |tokens| && PrepRuns(tokens, p, q) && tokens[q].pos != PREP
    ensures PrepRest(tokens, p, acc).Ok? && PrepRest(tokens, p, acc).value.next == q
    decreases q - p
  {
    if p < q {
      var m :| p < m <= q && PrepRange(tokens, p, m) && PrepRuns(tokens, m, q);
      PrepPhraseAccepts(tokens, p, m);
      var pp := PrepPhrase(tokens, p).value;
      PrepRestAccepts(tokens, m, q, acc + [pp.node]);
    }
  }

  /** The PP loop consumes tokens that PP* derives. */
  lemma {:induction false} PrepRestDerives(tokens: seq<Tok>, p: nat, acc: seq<Node>)
    requires Terminated(tokens) && p < |tokens|
    ensures PrepRest(tokens, p, acc).Ok? ==> PrepRuns(tokens, p, PrepRest(tokens, p, acc).value.next)
    decreases |tokens| - p
  {
    if tokens[p].pos == PREP && PrepRest(tokens, p, acc).Ok? {
      var pp := PrepPhrase(tokens, p).value;
      var q := PrepRest(tokens, p, acc).value.next;
      assert PrepRest(tokens, p, acc) == PrepRest(tokens, pp.next, acc + [pp.node]);
      PrepPhraseDerives(tokens, p);
      PrepRestDerives(tokens, pp.next, acc + [pp.node]);
      assert PrepRange(tokens, p, pp.next) && PrepRuns(tokens, pp.next, q);
    }
  }

  /**
   * V NP? PP* over tokens[p..q], with no PREP at q, is read as one VP ending at exactly q,
   * whose leaves are those tokens.
   */
  lemma {:induction false} VerbPhraseAccepts(tokens: seq<Tok>, p: nat, q: nat)
    requires Terminated(tokens) && p <= q < |tokens| && VerbRange(tokens, p, q) && tokens[q].pos != PREP
    ensures VerbPhrase(tokens, p).Ok? && VerbPhrase(tokens, p).value.next == q
    ensures Yield(VerbPhrase(tokens, p).value.node) == Labels(tokens, p, q)
  {
    var m :| p < m <= q
      && ((m == p + 1 && tokens[m].pos !in ObjectStart) || NounRange(tokens, p + 1, m))
      && PrepRuns(tokens, m, q);
    var obj: seq<Node> := [];
    if NounRange(tokens, p + 1, m) {
      NounPhraseAccepts(tokens, p + 1, m);
      obj := [Node("NP", Leaves(tokens, p + 1, m))];
    }
    assert Object(tokens, p + 1) == Ok((obj, m));
    PrepRestAccepts(tokens, m, q, [Leaf(tokens[p])] + obj);
    VerbPhraseYield(tokens, p);
  }

  /** An accepted VP was derived from the tokens it consumed. */
  lemma {:induction false} VerbPhraseDerives(tokens: seq<Tok>, p: nat)
    requires Terminated(tokens) && p < |tokens|
    ensures VerbPhrase(tokens, p).Ok? ==> VerbRange(tokens, p, VerbPhrase(tokens, p).value.next)
  {
    if VerbPhrase(tokens, p).Ok? {
      var obj := Object(tokens, p + 1).value;
      var m := obj.1;
      if tokens[p + 1].pos in ObjectStart {
        NounPhraseDerives(tokens, p + 1);
      }
      PrepRestDerives(tokens, m, [Leaf(tokens[p])] + obj.0);
      assert (m == p + 1 && tokens[m].pos !in ObjectStart) || NounRange(tokens, p + 1, m);
    }
  }

  /**
   * NP VP over tokens[p..q], with no PREP at q, is read as one S ending at exactly q,
   * whose leaves are those tokens.
   */
  lemma {:induction false} SentenceAccepts(tokens: seq<Tok>, p: nat, q: nat)
    requires Terminated(tokens) && p <= q < |tokens| && SentenceRange(tokens, p, q) && tokens[q].pos != PREP
    ensures Sentence(tokens, p).Ok? && Sentence(tokens, p).value.next == q
    ensures Yield(Sentence(tokens, p).value.node) == Labels(tokens, p, q)
  {
    var m :| p < m <= q && NounRange(tokens, p, m) && VerbRange(tokens, m, q);
    NounPhraseAccepts(tokens, p, m);
    VerbPhraseAccepts(tokens, m, q);
    SentenceYield(tokens, p);
  }

  /** An accepted S was derived from the tokens it consumed. */
  lemma {:induction false} SentenceDerives(tokens: seq<Tok>, p: nat)
    requires Terminated(tokens) && p < |tokens|
    ensures Sentence(tokens, p).Ok? ==> SentenceRange(tokens, p, Sentence(tokens, p).value.next)
  {
    if Sentence(tokens, p).Ok? {
      var np := NounPhrase(tokens, p).value;
      NounPhraseDerives(tokens, p);
      VerbPhraseDerives(tokens, np.next);
      assert NounRange(tokens, p, np.next) && VerbRange(tokens, np.next, Sentence(tokens, p).value.next);
    }
  }

  /**
   * The parser accepts a list ending in its only EOF exactly when S derives every token
   * before the sentinel; the accepted tree's leaves are then those tokens' labels.
   */
  lemma {:induction false} ParseAccepted(tokens: seq<Tok>)
    requires Sentinel(tokens)
    ensures ParseFrom(tokens, 0).Ok? <==> SentenceRange(tokens, 0, |tokens| - 1)
    ensures ParseFrom(tokens, 0).Ok? ==> Yield(ParseFrom(tokens, 0).value) == Labels(tokens, 0, |tokens| - 1)
  {
    var last := |tokens| - 1;
    if ParseFrom(tokens, 0).Ok? {
      var next := Sentence(tokens, 0).value.next;
      assert tokens[next].pos == EOF;
      assert next == last;
      SentenceDerives(tokens, 0);
      ParseYield(tokens);
    }
    if SentenceRange(tokens, 0, last) {
      SentenceAccepts(tokens, 0, last);
    }
  }

  /** A text is parsed exactly when S derives its parser tokens, the sentinel excepted. */
  lemma {:induction false} ParseTextAccepted(lexicon: Lexicon, text: string)
    requires WellFormed(lexicon)
    ensures ParseText(lexicon, text).Ok? <==> SentenceRange(ParserTokens(lexicon, text), 0, |Tokenize(text)|)
  {
    SentinelInvariant(lexicon, text);
    ParseAccepted(ParserTokens(lexicon, text));
  }

  // ---------------------------------------------------------------------------
  // Rendering

  /** Lines joined by newlines. */
  function Join(lines: seq<string>): string {
    if lines == [] then ""
    else if |lines| == 1 then lines[0]
    else lines[0] + "\n" + Join(lines[1..])
  }

  /** The tree in preorder, one line per node, indented two spaces per level. */
  function Outline(n: Node, indent: nat): (lines: seq<string>)
    ensures lines != [] && lines[0] == Pad(indent) + n.name
    decreases n
  {
    [Pad(indent) + n.name] + OutlineAll(n.children, indent + 1)
  }

  function OutlineAll(ns: seq<Node>, indent: nat): (lines: seq<string>)
    ensures ns != [] ==> lines != []
    decreases ns
  {
    if ns == [] then [] else Outline(ns[0], indent) + OutlineAll(ns[1..], indent)
  }

  /** The number of nodes in a tree. */
  function Size(n: Node): nat
    decreases n
  {
    1 + SizeAll(n.children)
  }

  function SizeAll(ns: seq<Node>): nat
    decreases ns
  {
    if ns == [] then 0 else Size(ns[0]) + SizeAll(ns[1..])
  }

  lemma {:induction false} JoinConcat(a: seq<string>, b: seq<string>)
    requires a != [] && b != []
    ensures Join(a + b) == Join(a) + "\n" + Join(b)
    decreases |a|
  {
    if |a| == 1 {
      assert (a + b)[1..] == b;
    } else {
      assert (a + b)[1..] == a[1..] + b;
      JoinConcat(a[1..], b);
    }
  }

  /** The rendering of a tree is its outline, one node per line. */
  lemma {:induction false} PrettyIsOutline(n: Node, indent: nat)
    ensures Pretty(n, indent) == Join(Outline(n, indent))
    ensures |Outline(n, indent)| == Size(n)
    decreases n
  {
    if n.children == [] {
      assert Outline(n, indent) == [Pad(indent) + n.name];
    } else {
      PrettyAllIsOutline(n.children, indent + 1);
      JoinConcat([Pad(indent) + n.name], OutlineAll(n.children, indent + 1));
    }
  }

  lemma {:induction false} PrettyAllIsOutline(ns: seq<Node>, indent: nat)
    ensures ns != [] ==> PrettyAll(ns, indent) == Join(OutlineAll(ns, indent))
    ensures |OutlineAll(ns, indent)| == SizeAll(ns)
    decreases ns
  {
    if ns != [] {
      PrettyIsOutline(ns[0], indent);
      PrettyAllIsOutline(ns[1..], indent);
      if |ns| == 1 {
        assert ns[1..] == [];
        assert OutlineAll(ns, indent) == Outline(ns[0], indent);
      } else {
        JoinConcat(Outline(ns[0], indent), OutlineAll(ns[1..], indent));
      }
    }
  }
}
