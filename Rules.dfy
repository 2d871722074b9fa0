/**
 * The rules of the simplifier that are modelled on top of the engine: each rewrites the document
 * with `ReplaceSequence` calls from the head and with the merge loops.
 */
module Rules {
  import opened Wrappers
  import opened Text
  import opened Tokens
  import opened Patterns
  import opened LinkedTokens
  import opened Matcher
  import opened Replacer
  import opened Merges

  /** `int.MaxValue`, the default `count` of `ReplaceSequence`. */
  const IntMax: int := 0x7fff_ffff

  /**
   * The document after `ReplaceSequence(DocumentTokens.First, code, replace)`. The call can only
   * fail for an empty code over an empty document, and the document is then empty and stays so.
   */
  function ReplaceEvery(toks: seq<Token>, code: string, replace: string): seq<Token> {
    Rewritten(toks, Compile(code), ReplacementTokens(replace))
  }

  /** The document after every match of the compiled pattern `p` from the head is replaced by `repl`. */
  function Rewritten(toks: seq<Token>, p: Pattern, repl: seq<Token>): seq<Token> {
    match Replaced(toks, p, repl, 0, 0, IntMax)
    case Ok(o) => o.tokens
    case Fail(_) => toks
  }

  /** One rewrite of the document: every match of `pattern` from the head replaced by `replacement`. */
  datatype Step = Step(pattern: Pattern, replacement: seq<Token>)

  /** The rewrite with the one-word code "k:v" and the replacement "rk:". */
  function One(k: string, v: string, rk: string): Step {
    Step(Pattern([Tag(k, v)], 0), Replacement(rk))
  }

  /** The rewrite with the two-word code "k1:v1 k2:v2" and the replacement "rk:". */
  function Two(k1: string, v1: string, k2: string, v2: string, rk: string): Step {
    Step(Pattern([Tag(k1, v1), Tag(k2, v2)], 0), Replacement(rk))
  }

  /** The document after the rewrites `steps`, in order. */
  function Rewrites(toks: seq<Token>, steps: seq<Step>): seq<Token>
    decreases |steps|
  {
    if steps == [] then toks
    else
      var last := steps[|steps| - 1];
      Rewritten(Rewrites(toks, steps[..|steps| - 1]), last.pattern, last.replacement)
  }

  /** One more rewrite of a list. */
  lemma RewritesNext(toks: seq<Token>, steps: seq<Step>, k: nat)
    requires k < |steps|
    ensures Rewrites(toks, steps[..k + 1]) == Rewritten(Rewrites(toks, steps[..k]), steps[k].pattern, steps[k].replacement)
  {
    assert steps[..k + 1][..k] == steps[..k];
  }

  /** An empty replacement text is no tokens: the matches are deleted. */
  lemma EmptyReplacement()
    ensures ReplacementTokens("") == []
  {
    CodePartsOfEmpty();
  }

  /** `ReplaceSequence(DocumentTokens.First, code, replace)`, its count ignored as the rules ignore it. */
  method Rewrite(list: TokenList, code: string, replace: string)
    requires list.Valid()
    modifies list
    ensures list.Valid() && list.tokens == ReplaceEvery(old(list.tokens), code, replace)
  {
    var first := list.First();
    var r := ReplaceSequence(list, first, 0, code, replace, IntMax);
  }

  /** The token a word "k:v" of code parses to. */
  function Tag(k: string, v: string): Token {
    Token(NullIfBlank(Some(k)), NullIfBlank(Some(v)))
  }

  /** A kind and a value without white space make a word of code "k:v". */
  lemma TagWord(k: string, v: string)
    requires Word(k) && forall i :: 0 <= i < |v| ==> !IsWhiteSpace(v[i])
    ensures Word(k + ":" + v)
  {
    var w := k + ":" + v;
    forall i | 0 <= i < |w| ensures !IsWhiteSpace(w[i]) {
      if i < |k| { assert w[i] == k[i]; }
      else if i > |k| { assert w[i] == v[i - |k| - 1]; }
    }
  }

  /** The kinds and values the code of the paragraph and table rules is made of. */
  lemma RuleWord(k: string, v: string)
    requires k in {"S<", "S>", "eop", "para_style", "table", "end_table_col", "end_table_row", "end_table"}
    requires v in {"", "p", "BodyText", "tbl", "tblGrid", "tr", "tc", "*", "\0"}
    ensures ':' !in k && Word(k + ":" + v)
  {
    assert forall i :: 0 <= i < |k| ==> k[i] != ':' && !IsWhiteSpace(k[i]);
    assert forall i :: 0 <= i < |v| ==> !IsWhiteSpace(v[i]);
    TagWord(k, v);
  }

  /** A code of one word "k:v" compiles to the token it parses to, and is replaced by that token. */
  lemma WordCode(k: string, v: string)
    requires ':' !in k && Word(k + ":" + v)
    ensures Compile(k + ":" + v) == Pattern([Tag(k, v)], 0)
    ensures ReplacementTokens(k + ":" + v) == [Tag(k, v)]
  {
    var w := k + ":" + v;
    OneWordParts(w);
    OneWordKept(k, v);
    ParseTagged(k, v);
    ParseOne(w);
  }

  lemma ParseOne(w: string)
    ensures ParseAll([w]) == [Parse(w)]
  {
    assert |ParseAll([w])| == 1;
  }

  /** A single word is its own code. */
  lemma OneWordParts(w: string)
    requires Word(w)
    ensures CodeParts(w) == [w]
  {
    assert Join([w], ' ') == w;
    CodePartsOfWords([w]);
  }

  /** A word with a ':' is kept as it is and carries no mark. */
  lemma OneWordKept(k: string, v: string)
    ensures Kept([k + ":" + v]) == [k + ":" + v] && MarkIndex([k + ":" + v]) == 0
  {
    var w := k + ":" + v;
    assert w[|k|] == ':';
    var none: seq<string> := [];
    assert [w][..0] == none;
  }

  /** The replacement text of the paragraph and table rules: "rk:", or the empty text when `rk` is empty. */
  function ReplacementText(rk: string): string {
    if rk == "" then "" else rk + ":"
  }

  /** The tokens that text stands for: one token of kind `rk` and no value, or none. */
  function Replacement(rk: string): seq<Token> {
    if rk == "" then [] else [Tag(rk, "")]
  }

  lemma ReplacementOf(rk: string)
    requires rk != "" ==> ':' !in rk && Word(rk + ":" + "")
    ensures ReplacementTokens(ReplacementText(rk)) == Replacement(rk)
  {
    if rk == "" {
      EmptyReplacement();
    } else {
      WordCode(rk, "");
      assert rk + ":" + "" == rk + ":";
    }
  }

  /** `ReplaceSequence` from the head with the one-word code "k:v" and the replacement "rk:". */
  method RewriteWord(list: TokenList, k: string, v: string, rk: string)
    requires list.Valid() && ':' !in k && Word(k + ":" + v)
    requires rk != "" ==> ':' !in rk && Word(rk + ":" + "")
    modifies list
    ensures list.Valid() && list.tokens == Rewritten(old(list.tokens), Pattern([Tag(k, v)], 0), Replacement(rk))
  {
    Rewrite(list, k + ":" + v, ReplacementText(rk));
    WordCode(k, v);
    ReplacementOf(rk);
  }

  /** `ReplaceSequence` from the head with the two-word code "k1:v1 k2:v2" and the replacement "rk:". */
  method RewritePair(list: TokenList, k1: string, v1: string, k2: string, v2: string, rk: string)
    requires list.Valid() && ':' !in k1 && ':' !in k2 && Word(k1 + ":" + v1) && Word(k2 + ":" + v2)
    requires rk != "" ==> ':' !in rk && Word(rk + ":" + "")
    modifies list
    ensures list.Valid() && list.tokens == Rewritten(old(list.tokens), Pattern([Tag(k1, v1), Tag(k2, v2)], 0), Replacement(rk))
  {
    Rewrite(list, k1 + ":" + v1 + " " + k2 + ":" + v2, ReplacementText(rk));
    PairWordCode(k1, v1, k2, v2);
    ReplacementOf(rk);
  }

  /** A code of two words "k1:v1 k2:v2" compiles to the tokens they parse to, the mark on the first. */
  lemma PairWordCode(k1: string, v1: string, k2: string, v2: string)
    requires ':' !in k1 && ':' !in k2 && Word(k1 + ":" + v1) && Word(k2 + ":" + v2)
    ensures Compile(k1 + ":" + v1 + " " + k2 + ":" + v2) == Pattern([Tag(k1, v1), Tag(k2, v2)], 0)
  {
    PairCode(k1 + ":" + v1 + " " + k2 + ":" + v2, k1, v1, k2, v2);
  }

  // ---------------------------------------------------------------- empty elements

  /** `string.Format("S<:{0} S>:{0}", elementName)`. */
  function EmptyElementCode(name: string): string {
    "S<:" + name + " S>:" + name
  }

  /** The code of an empty element compiles to its start and end token, the mark on the first. */
  lemma EmptyElementCodeCompiles(name: string)
    requires Word(name) && name != "\0"
    ensures Compile(EmptyElementCode(name)) == Pattern([Open(name), Close(name)], 0)
  {
    assert Word("S<") && Word("S>") && ':' !in "S<" && ':' !in "S>" by {
      assert "S<"[0] == 'S' && "S<"[1] == '<' && "S>"[1] == '>';
    }
    TagWord("S<", name);
    TagWord("S>", name);
    assert EmptyElementCode(name) == "S<" + ":" + name + " " + "S>" + ":" + name;
    PairCode(EmptyElementCode(name), "S<", name, "S>", name);
  }

  /**
   * Deleting adjacent `a`, `b` pairs from `from` on, as an independent definition: at a pair both
   * tokens go and the scan stays where it is; elsewhere it moves one token on.
   */
  function DeletePairs(toks: seq<Token>, a: Token, b: Token, from: nat): seq<Token>
    requires from <= |toks|
    decreases |toks| - from
  {
    if from + 1 >= |toks| then toks
    else if PairAt(toks, a, b, from) then DeletePairs(toks[..from] + toks[from + 2..], a, b, from)
    else DeletePairs(toks, a, b, from + 1)
  }

  /** Positions without a pair are passed over. */
  lemma {:induction false} DeletePairsSkips(toks: seq<Token>, a: Token, b: Token, from: nat, q: nat)
    requires from <= q <= |toks|
    requires forall k :: from <= k < q ==> !PairAt(toks, a, b, k)
    ensures DeletePairs(toks, a, b, from) == DeletePairs(toks, a, b, q)
    decreases q - from
  {
    if from < q && from + 1 < |toks| {
      DeletePairsSkips(toks, a, b, from + 1, q);
    }
  }

  /** A list with no pair at or after `from` is left as it is. */
  lemma DeletePairsNone(toks: seq<Token>, a: Token, b: Token, from: nat)
    requires from <= |toks|
    requires forall k :: from <= k < |toks| ==> !PairAt(toks, a, b, k)
    ensures DeletePairs(toks, a, b, from) == toks
  {
    DeletePairsSkips(toks, a, b, from, |toks|);
  }

  /**
   * The replacement loop with an empty replacement list and a two-element literal pattern is the
   * pair deletion, as long as the count cannot run out.
   */
  lemma {:induction false} ReplacedDeletesPairs(toks: seq<Token>, a: Token, b: Token, from: nat, done: nat)
    requires from <= |toks| && !IsSkip(a) && !IsSkip(b)
    requires done + |toks| <= IntMax
    ensures Replaced(toks, Pattern([a, b], 0), [], from, done, IntMax).Ok?
    ensures Replaced(toks, Pattern([a, b], 0), [], from, done, IntMax).value.tokens == DeletePairs(toks, a, b, from)
    decreases |toks| - from
  {
    var p := Pattern([a, b], 0);
    var f := Search(toks, p, from);
    PairSearch(toks, a, b, from);
    if f.IsMatch() {
      var s := f.start.value;
      var toks' := toks[..s] + [] + toks[s + 2..];
      assert toks' == toks[..s] + toks[s + 2..];
      DeletePairsSkips(toks, a, b, from, s);
      ReplacedDeletesPairs(toks', a, b, s, done + 1);
    } else {
      DeletePairsNone(toks, a, b, from);
    }
  }

  /**
   * `RemoveEmptyElements(name)` deletes every start tag directly followed by its end tag, as the
   * pair deletion does, for any document the count cannot limit.
   */
  lemma EmptyElementsDeleted(toks: seq<Token>, name: string)
    requires |toks| <= IntMax
    ensures Rewritten(toks, EmptyElementPattern(name), []) == DeletePairs(toks, Open(name), Close(name), 0)
  {
    TagsAreNotSkips(name);
    ReplacedDeletesPairs(toks, Open(name), Close(name), 0, 0);
  }

  /** An element's tags are not skip elements. */
  lemma TagsAreNotSkips(name: string)
    ensures !IsSkip(Open(name)) && !IsSkip(Close(name))
  {
    assert "S<"[0] == 'S' && "S>"[0] == 'S';
  }

  /**
   * Nested empty elements are not both removed: once the inner pair is gone the search resumes
   * at the position it was found, past the outer start tag, so the outer pair stays.
   */
  lemma NestedEmptyElementKept(name: string)
    ensures DeletePairs([Open(name), Open(name), Close(name), Close(name)], Open(name), Close(name), 0)
            == [Open(name), Close(name)]
  {
    var o, c := Open(name), Close(name);
    var toks := [o, o, c, c];
    assert "S<" != "S>" by { assert "S<"[1] != "S>"[1]; }
    assert !PairAt(toks, o, c, 0);
    assert PairAt(toks, o, c, 1);
    var toks' := toks[..1] + toks[3..];
    assert toks' == [o, c];
    assert DeletePairs(toks', o, c, 1) == toks';
  }

  /** `RemoveEmptyElements(elementName)`. */
  method RemoveEmptyElements(list: TokenList, name: string)
    requires list.Valid()
    modifies list
    ensures list.Valid()
    ensures Word(name) && name != "\0" ==> list.tokens == Rewritten(old(list.tokens), EmptyElementPattern(name), [])
  {
    Rewrite(list, EmptyElementCode(name), "");
    if Word(name) && name != "\0" {
      EmptyElementCodeCompiles(name);
      EmptyReplacement();
    }
  }

  /** The pattern an element's empty pair of tags compiles to. */
  function EmptyElementPattern(name: string): Pattern {
    Pattern([Open(name), Close(name)], 0)
  }

  /**
   * The code "S<:name ! S>:name": an element's start tag, a bare skip, and its end tag.
   * `RemoveProofingErrors` uses it with the name "proofErr".
   */
  function SkippedElementCode(name: string): string {
    "S<:" + name + " ! S>:" + name
  }

  /** The bare skip element: kind "!\0", no value. */
  const BareSkipElement: Token := Token(Some("!\0"), None)

  /**
   * The code of an element with a bare skip between its tags compiles to the start tag, the
   * bare skip and the end tag: everything between is passed over up to the end tag, and the
   * search gives up at a token with neither kind nor value.
   */
  lemma SkippedElementCodeCompiles(name: string)
    requires Word(name) && name != "\0"
    ensures var p := Compile(SkippedElementCode(name));
      p == Pattern([Open(name), BareSkipElement, Close(name)], 0)
      && IsSkip(p.elements[1]) && AbortTarget(p.elements[1]) == Token(None, None)
  {
    SkippedElementParts(name);
    TagsParse(name);
    BareSkipAbortsOnEmptyToken();
    ThreeItems(Compile(SkippedElementCode(name)).elements, Open(name), BareSkipElement, Close(name));
  }

  /** A sequence of three given items is their display. */
  lemma ThreeItems<T>(s: seq<T>, a: T, b: T, c: T)
    requires |s| == 3 && s[0] == a && s[1] == b && s[2] == c
    ensures s == [a, b, c]
  {
  }

  /** The code compiles to the parsed tag texts around the bare skip. */
  lemma SkippedElementParts(name: string)
    requires Word(name) && name != "\0"
    ensures var p := Compile(SkippedElementCode(name));
      |p.elements| == 3 && p.offset == 0 && p.elements[0] == Parse("S<:" + name)
      && p.elements[1] == BareSkipElement && p.elements[2] == Parse("S>:" + name)
  {
    BareSkipAbortsOnEmptyToken();
    var w1, w2 := "S<:" + name, "S>:" + name;
    SkippedElementWords(name);
    CompileWords([w1, "!", w2]);
  }

  /** The texts of an element's tags parse to its start and end token. */
  lemma TagsParse(name: string)
    requires name != "" && name != "\0"
    ensures Parse("S<:" + name) == Open(name) && Parse("S>:" + name) == Close(name)
  {
    assert ':' !in "S<" && ':' !in "S>" by {
      assert "S<"[0] == 'S' && "S<"[1] == '<' && "S>"[1] == '>';
    }
    assert "S<:" + name == "S<" + ":" + name && "S>:" + name == "S>" + ":" + name;
    ParseTagged("S<", name);
    ParseTagged("S>", name);
  }

  /** The code is three words joined by spaces, none of them a `|`. */
  lemma SkippedElementWords(name: string)
    requires Word(name)
    ensures var ws := ["S<:" + name, "!", "S>:" + name];
      SkippedElementCode(name) == Join(ws, ' ') && "|" !in ws && Expand(ws[0]) == ws[0] && Expand(ws[2]) == ws[2]
      && forall k :: 0 <= k < |ws| ==> Word(ws[k])
  {
    assert Word("S<") && Word("S>") by {
      assert "S<"[0] == 'S' && "S<"[1] == '<' && "S>"[1] == '>';
    }
    TagWord("S<", name);
    TagWord("S>", name);
    var w1, w2 := "S<:" + name, "S>:" + name;
    assert w1 == "S<" + ":" + name && w2 == "S>" + ":" + name;
    assert [w1, "!", w2][1..] == ["!", w2] && ["!", w2][1..] == [w2];
    assert Join([w2], ' ') == w2;
    assert Join(["!", w2], ' ') == "!" + [' '] + w2;
    assert Join([w1, "!", w2], ' ') == w1 + [' '] + Join(["!", w2], ' ');
    assert w1 != "|" && w2 != "|" && w1 != "!" && w2 != "!" by {
      assert w1[2] == ':' && w2[2] == ':';
    }
    assert Word("!") by { assert "!"[0] == '!'; }
  }

  /** "proofErr" is a name the code can carry. */
  lemma ProofErrName()
    ensures Word("proofErr") && "proofErr" != "\0"
  {
    var w := "proofErr";
    assert w[0] == 'p' && w[1] == 'r' && w[2] == 'o' && w[3] == 'o' && w[4] == 'f' && w[5] == 'E' && w[6] == 'r' && w[7] == 'r';
  }

  /** `RemoveProofingErrors`. */
  method RemoveProofingErrors(list: TokenList)
    requires list.Valid()
    modifies list
    ensures list.Valid() && list.tokens == Rewritten(old(list.tokens), SkippedElementPattern("proofErr"), [])
  {
    Rewrite(list, SkippedElementCode("proofErr"), "");
    ProofErrName();
    SkippedElementCodeCompiles("proofErr");
    EmptyReplacement();
  }

  /** The pattern an element with anything between its tags compiles to. */
  function SkippedElementPattern(name: string): Pattern {
    Pattern([Open(name), BareSkipElement, Close(name)], 0)
  }

  // ---------------------------------------------------------------- merge rules

  /** No two adjacent tokens have the kinds `k1` and then `k2`. */
  predicate NoAdjacent(toks: seq<Token>, k1: Option<string>, k2: Option<string>) {
    forall q :: 0 <= q && q + 1 < |toks| ==> !(toks[q].metadata == k1 && toks[q + 1].metadata == k2)
  }

  /** Once a merge loop has run, no pair of its two kinds is left next to each other. */
  lemma MergedNoAdjacent(m: Merge, toks: seq<Token>)
    ensures NoAdjacent(Merged(m, toks, 0), FirstKind(m), SecondKind(m))
  {
    MergedLeavesNoPair(m, toks, 0);
    var r := Merged(m, toks, 0);
    forall q | 0 <= q && q + 1 < |r|
      ensures !(r[q].metadata == FirstKind(m) && r[q + 1].metadata == SecondKind(m))
    {
      assert !PairAt(r, First(m), Second(m), q);
    }
  }

  /** A merge loop over the whole document; afterwards no pair of its kinds is adjacent. */
  method MergeAll(list: TokenList, m: Merge)
    requires list.Valid()
    modifies list
    ensures list.Valid() && list.tokens == Merged(m, old(list.tokens), 0)
    ensures NoAdjacent(list.tokens, FirstKind(m), SecondKind(m))
  {
    ghost var t0 := list.tokens;
    MergePairs(list, m);
    MergedNoAdjacent(m, t0);
  }

  /** The document once paragraph starts and body-text styles are gone and paragraph ends are `eop` tokens. */
  function ParagraphMarks(toks: seq<Token>): seq<Token> {
    Rewrites(toks, ParagraphSteps)
  }

  /** "S<:p" deleted, "S>:p" replaced by "eop:", "para_style:BodyText" deleted. */
  const ParagraphSteps: seq<Step> := [One("S<", "p", ""), One("S>", "p", "eop"), One("para_style", "BodyText", "")]

  /** `SimplifyParagraphs`: the three rewrites, then adjacent text tokens are merged. */
  method SimplifyParagraphs(list: TokenList)
    requires list.Valid()
    modifies list
    ensures list.Valid() && list.tokens == Merged(Paragraphs, ParagraphMarks(old(list.tokens)), 0)
    ensures NoAdjacent(list.tokens, None, None)
    ensures TextOf(list.tokens) == TextOf(ParagraphMarks(old(list.tokens)))
  {
    ghost var t0 := list.tokens;
    RuleWord("eop", "");
    RuleWord("S<", "p");
    RewriteWord(list, "S<", "p", "");
    RewritesNext(t0, ParagraphSteps, 0);
    RuleWord("S>", "p");
    RewriteWord(list, "S>", "p", "eop");
    RewritesNext(t0, ParagraphSteps, 1);
    RuleWord("para_style", "BodyText");
    RewriteWord(list, "para_style", "BodyText", "");
    RewritesNext(t0, ParagraphSteps, 2);
    assert ParagraphSteps[..3] == ParagraphSteps;
    ghost var t3 := list.tokens;
    MergeAll(list, Paragraphs);
    MergedKeepsText(t3, 0);
  }

  /** `CombineCitations`: adjacent citations are joined, their keys separated by ','. */
  method CombineCitations(list: TokenList)
    requires list.Valid()
    modifies list
    ensures list.Valid() && list.tokens == Merged(Citations, old(list.tokens), 0)
    ensures NoAdjacent(list.tokens, Some("citation"), Some("citation"))
  {
    MergeAll(list, Citations);
  }

  /** The first five rewrites of `ConvertTables`: tables open, grids and row starts go. */
  function TableRowMarks(toks: seq<Token>): seq<Token> {
    Rewrites(toks, TableRowSteps)
  }

  const TableRowSteps: seq<Step> :=
    [One("S<", "tbl", "table"), One("S<", "tblGrid", ""), One("S>", "tblGrid", ""),
     Two("S<", "tr", "para_style", "*", ""), One("S<", "tr", "")]

  /** The last five rewrites of `ConvertTables`: cell starts go, cell, row and table ends are marked. */
  function TableCellMarks(toks: seq<Token>): seq<Token> {
    Rewrites(toks, TableCellSteps)
  }

  const TableCellSteps: seq<Step> :=
    [Two("S<", "tc", "para_style", "*", ""), One("S<", "tc", ""), Two("eop", "\0", "S>", "tc", "end_table_col"),
     Two("end_table_col", "*", "S>", "tr", "end_table_row"), One("S>", "tbl", "end_table")]

  method MarkTableRows(list: TokenList)
    requires list.Valid()
    modifies list
    ensures list.Valid() && list.tokens == TableRowMarks(old(list.tokens))
  {
    ghost var t0 := list.tokens;
    RuleWord("table", "");
    RuleWord("S<", "tbl");
    RewriteWord(list, "S<", "tbl", "table");
    RewritesNext(t0, TableRowSteps, 0);
    RuleWord("S<", "tblGrid");
    RewriteWord(list, "S<", "tblGrid", "");
    RewritesNext(t0, TableRowSteps, 1);
    RuleWord("S>", "tblGrid");
    RewriteWord(list, "S>", "tblGrid", "");
    RewritesNext(t0, TableRowSteps, 2);
    RuleWord("S<", "tr");
    RuleWord("para_style", "*");
    RewritePair(list, "S<", "tr", "para_style", "*", "");
    RewritesNext(t0, TableRowSteps, 3);
    RewriteWord(list, "S<", "tr", "");
    RewritesNext(t0, TableRowSteps, 4);
    assert TableRowSteps[..5] == TableRowSteps;
  }

  method MarkTableCells(list: TokenList)
    requires list.Valid()
    modifies list
    ensures list.Valid() && list.tokens == TableCellMarks(old(list.tokens))
  {
    ghost var t0 := list.tokens;
    RuleWord("end_table_col", "");
    RuleWord("end_table_row", "");
    RuleWord("end_table", "");
    RuleWord("S<", "tc");
    RuleWord("para_style", "*");
    RewritePair(list, "S<", "tc", "para_style", "*", "");
    RewritesNext(t0, TableCellSteps, 0);
    RewriteWord(list, "S<", "tc", "");
    RewritesNext(t0, TableCellSteps, 1);
    RuleWord("eop", "\0");
    RuleWord("S>", "tc");
    RewritePair(list, "eop", "\0", "S>", "tc", "end_table_col");
    RewritesNext(t0, TableCellSteps, 2);
    RuleWord("end_table_col", "*");
    RuleWord("S>", "tr");
    RewritePair(list, "end_table_col", "*", "S>", "tr", "end_table_row");
    RewritesNext(t0, TableCellSteps, 3);
    RuleWord("S>", "tbl");
    RewriteWord(list, "S>", "tbl", "end_table");
    RewritesNext(t0, TableCellSteps, 4);
    assert TableCellSteps[..5] == TableCellSteps;
  }

  /** `ConvertTables`: the ten rewrites, then every table token absorbs the column definitions after it. */
  method ConvertTables(list: TokenList)
    requires list.Valid()
    modifies list
    ensures list.Valid() && list.tokens == Merged(Columns, TableCellMarks(TableRowMarks(old(list.tokens))), 0)
    ensures NoAdjacent(list.tokens, FirstKind(Columns), SecondKind(Columns))  // no table before a column definition
  {
    ghost var t0 := list.tokens;
    MarkTableRows(list);
    MarkTableCells(list);
    MergeAll(list, Columns);
  }
}
