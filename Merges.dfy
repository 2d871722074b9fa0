/**
 * The merge loops of the rules: while a pattern of two adjacent kinds matches, the first token
 * of the pair takes a value combined from both and the second token is removed; the next search
 * starts at the surviving token.
 */
module Merges {
  import opened Wrappers
  import opened Text
  import opened Tokens
  import opened Patterns
  import opened LinkedTokens
  import opened Matcher

  /** Two literal elements `a`, `b` match the tokens at `q` and `q + 1`. */
  predicate PairAt(toks: seq<Token>, a: Token, b: Token, q: nat) {
    q + 1 < |toks| && WildcardEquals(toks[q], Some(a)) && WildcardEquals(toks[q + 1], Some(b))
  }

  /** Reading a two-element literal pattern at `q` succeeds exactly on a pair, and ends after it. */
  lemma PairWalk(toks: seq<Token>, a: Token, b: Token, q: nat)
    requires q <= |toks| && !IsSkip(a) && !IsSkip(b)
    ensures Walk(toks, [a, b], q, 0) == if PairAt(toks, a, b, q) then Some(q + 2) else None
  {
    if q < |toks| && WildcardEquals(toks[q], Some(a)) {
      assert Walk(toks, [a, b], q, 0) == Walk(toks, [a, b], q + 1, 1);
      if q + 1 < |toks| && WildcardEquals(toks[q + 1], Some(b)) {
        assert Walk(toks, [a, b], q + 1, 1) == Walk(toks, [a, b], q + 2, 2);
      }
    }
  }

  /**
   * The search for a two-element literal pattern finds the leftmost pair at or after `from`,
   * with End the token right after Start, and finds nothing when there is no such pair.
   */
  lemma PairSearch(toks: seq<Token>, a: Token, b: Token, from: nat)
    requires from <= |toks| && !IsSkip(a) && !IsSkip(b)
    ensures var f := Search(toks, Pattern([a, b], 0), from);
      f.IsMatch() ==> (from <= f.start.value && PairAt(toks, a, b, f.start.value) && f.end == Some(f.start.value + 1))
    ensures var f := Search(toks, Pattern([a, b], 0), from);
      forall q :: from <= q < |toks| && (f.IsMatch() ==> q < f.start.value) ==> !PairAt(toks, a, b, q)
  {
    var p := Pattern([a, b], 0);
    var f := Search(toks, p, from);
    SearchSound(toks, p, from);
    SearchLeftmost(toks, p, from);
    forall q | from <= q < |toks| && (f.IsMatch() ==> q < f.start.value)
      ensures !PairAt(toks, a, b, q)
    {
      PairWalk(toks, a, b, q);
    }
    if f.IsMatch() {
      PairWalk(toks, a, b, f.start.value);
    }
  }

  /** The three merge loops. */
  datatype Merge =
    | Paragraphs   // SimplifyParagraphs: adjacent untagged text tokens, values concatenated
    | Citations    // CombineCitations: adjacent citations, keys joined with ','
    | Columns      // ConvertTables: a table and its next column definition, the column spec grows

  /** The kind of the first token of the pair. */
  function FirstKind(m: Merge): Option<string> {
    match m
    case Paragraphs => None
    case Citations => Some("citation")
    case Columns => Some("table")
  }

  /** The kind of the second token of the pair. */
  function SecondKind(m: Merge): Option<string> {
    match m
    case Paragraphs => None
    case Citations => Some("citation")
    case Columns => Some("table_def_col")
  }

  /** The code each loop searches for. */
  function MergeCode(m: Merge): string {
    match m
    case Paragraphs => "\0:* \0:*"
    case Citations => "citation:* citation:*"
    case Columns => "table:* table_def_col:*"
  }

  /** The elements the code compiles to: the two kinds, any value. */
  function First(m: Merge): Token { Token(FirstKind(m), Some("*")) }
  function Second(m: Merge): Token { Token(SecondKind(m), Some("*")) }

  /** The elements of a merge loop are literal: neither kind starts with '!'. */
  lemma MergeElementsLiteral(m: Merge)
    ensures !IsSkip(First(m)) && !IsSkip(Second(m))
  {
    assert "citation"[0] == 'c' && "table"[0] == 't' && "table_def_col"[0] == 't';
  }

  /** `k` is a kind without ':' and "k:*" is a word of code. */
  lemma KindWord(k: string)
    requires k in {"\0", "citation", "table", "table_def_col"}
    ensures ':' !in k && Word(k + ":*")
  {
    assert forall i :: 0 <= i < |k| ==> k[i] != ':' && !IsWhiteSpace(k[i]);
  }

  lemma ParagraphsCode()
    ensures Compile(MergeCode(Paragraphs)) == Pattern([First(Paragraphs), Second(Paragraphs)], 0)
  {
    KindWord("\0");
    assert MergeCode(Paragraphs) == "\0" + ":" + "*" + " " + "\0" + ":" + "*";
    PairCode(MergeCode(Paragraphs), "\0", "*", "\0", "*");
  }

  lemma CitationsCode()
    ensures Compile(MergeCode(Citations)) == Pattern([First(Citations), Second(Citations)], 0)
  {
    KindWord("citation");
    assert MergeCode(Citations) == "citation" + ":" + "*" + " " + "citation" + ":" + "*";
    PairCode(MergeCode(Citations), "citation", "*", "citation", "*");
  }

  lemma ColumnsCode()
    ensures Compile(MergeCode(Columns)) == Pattern([First(Columns), Second(Columns)], 0)
  {
    KindWord("table");
    KindWord("table_def_col");
    assert MergeCode(Columns) == "table" + ":" + "*" + " " + "table_def_col" + ":" + "*";
    PairCode(MergeCode(Columns), "table", "*", "table_def_col", "*");
  }

  /** Each loop's code compiles to its two elements, the mark on the first. */
  lemma MergeCodeCompiles(m: Merge)
    ensures Compile(MergeCode(m)) == Pattern([First(m), Second(m)], 0)
  {
    match m
    case Paragraphs => ParagraphsCode();
    case Citations => CitationsCode();
    case Columns => ColumnsCode();
  }

  /** The first token of the pair after one merge. */
  function Combine(m: Merge, a: Token, b: Token): (c: Token)
    ensures c.metadata == a.metadata && c.value.Some?
    ensures m == Paragraphs ==> c.value.value == a.value.GetOr("") + b.value.GetOr("")
    ensures m == Citations ==> c.value.value == a.value.GetOr("") + "," + b.value.GetOr("")
    ensures m == Columns ==> c.value.value == Lower(a.value.GetOr("|")) + "L|"
  {
    match m
    case Paragraphs => a.(value := Concat(a.value, b.value))
    case Citations => a.(value := Some(a.value.GetOr("") + "," + b.value.GetOr("")))
    case Columns => a.(value := Some(Lower(a.value.GetOr("|")) + "L|"))
  }

  /** The merge loop with the next search at `from`. */
  function Merged(m: Merge, toks: seq<Token>, from: nat): seq<Token>
    requires from <= |toks|
    decreases |toks|
  {
    var f := Search(toks, Pattern([First(m), Second(m)], 0), from);
    if !f.IsMatch() then toks
    else
      MergeElementsLiteral(m);
      PairSearch(toks, First(m), Second(m), from);
      var s := f.start.value;
      Merged(m, toks[..s] + [Combine(m, toks[s], toks[s + 1])] + toks[s + 2..], s)
  }

  /** An element whose value is "*" looks at the kind of a token only. */
  lemma KindOnly(t: Token, u: Token, k: Option<string>)
    requires t.metadata == u.metadata
    ensures WildcardEquals(t, Some(Token(k, Some("*")))) == WildcardEquals(u, Some(Token(k, Some("*"))))
  {
  }

  /** When the loop ends, no pair is left anywhere in the list. */
  lemma {:induction false} MergedLeavesNoPair(m: Merge, toks: seq<Token>, from: nat)
    requires from <= |toks|
    requires forall q :: 0 <= q < from ==> !PairAt(toks, First(m), Second(m), q)
    ensures forall q :: !PairAt(Merged(m, toks, from), First(m), Second(m), q)
    decreases |toks|
  {
    var a, b := First(m), Second(m);
    MergeElementsLiteral(m);
    PairSearch(toks, a, b, from);
    var f := Search(toks, Pattern([a, b], 0), from);
    if f.IsMatch() {
      var s := f.start.value;
      var toks' := toks[..s] + [Combine(m, toks[s], toks[s + 1])] + toks[s + 2..];
      forall q | 0 <= q < s
        ensures !PairAt(toks', a, b, q)
      {
        if q + 1 < s {
          assert toks'[q] == toks[q] && toks'[q + 1] == toks[q + 1];
          assert !PairAt(toks, a, b, q);
        } else {
          assert q + 1 == s && toks'[q] == toks[q] && toks'[q + 1].metadata == toks[q + 1].metadata;
          assert !PairAt(toks, a, b, q);
          KindOnly(toks'[q + 1], toks[q + 1], SecondKind(m));
        }
      }
      MergedLeavesNoPair(m, toks', s);
    }
  }

  /** The concatenated values of a list, a null value counting as empty. */
  function TextOf(toks: seq<Token>): string {
    if toks == [] then "" else toks[0].value.GetOr("") + TextOf(toks[1..])
  }

  lemma {:induction false} TextOfAppend(xs: seq<Token>, ys: seq<Token>)
    ensures TextOf(xs + ys) == TextOf(xs) + TextOf(ys)
  {
    if xs != [] {
      assert (xs + ys)[0] == xs[0] && (xs + ys)[1..] == xs[1..] + ys;
      TextOfAppend(xs[1..], ys);
      calc {
        TextOf(xs + ys);
        xs[0].value.GetOr("") + TextOf(xs[1..] + ys);
        xs[0].value.GetOr("") + (TextOf(xs[1..]) + TextOf(ys));
      }
    } else {
      assert xs + ys == ys;
    }
  }

  /** Merging adjacent text tokens keeps the document's text: nothing is lost or reordered. */
  lemma {:induction false} MergedKeepsText(toks: seq<Token>, from: nat)
    requires from <= |toks|
    ensures TextOf(Merged(Paragraphs, toks, from)) == TextOf(toks)
    decreases |toks|
  {
    var a, b := First(Paragraphs), Second(Paragraphs);
    MergeElementsLiteral(Paragraphs);
    PairSearch(toks, a, b, from);
    var f := Search(toks, Pattern([a, b], 0), from);
    if f.IsMatch() {
      var s := f.start.value;
      var c := Combine(Paragraphs, toks[s], toks[s + 1]);
      var toks' := toks[..s] + [c] + toks[s + 2..];
      MergedKeepsText(toks', s);
      assert toks == toks[..s] + [toks[s], toks[s + 1]] + toks[s + 2..];
      TextOfAppend(toks[..s] + [c], toks[s + 2..]);
      TextOfAppend(toks[..s], [c]);
      TextOfAppend(toks[..s] + [toks[s], toks[s + 1]], toks[s + 2..]);
      TextOfAppend(toks[..s], [toks[s], toks[s + 1]]);
      assert TextOf([toks[s], toks[s + 1]]) == toks[s].value.GetOr("") + TextOf([toks[s + 1]]);
    }
  }

  /** A run of `t` followed by `rest`, where the loop meets a pair at the head. */
  lemma HeadPairFound(m: Merge, toks: seq<Token>)
    requires PairAt(toks, First(m), Second(m), 0)
    ensures var f := Search(toks, Pattern([First(m), Second(m)], 0), 0);
      f.IsMatch() && f.start == Some(0)
  {
    MergeElementsLiteral(m);
    PairSearch(toks, First(m), Second(m), 0);
  }

  /** A list of one token has no pair: the loop leaves it alone. */
  lemma SingleTokenUnmerged(m: Merge, t: Token)
    ensures Merged(m, [t], 0) == [t]
  {
    MergeElementsLiteral(m);
    PairSearch([t], First(m), Second(m), 0);
  }

  /** The keys of a run of citations after the first, each preceded by ','. */
  function CommaKeys(rest: seq<Token>): string {
    if rest == [] then "" else "," + rest[0].value.GetOr("") + CommaKeys(rest[1..])
  }

  /** A run of citations collapses into one citation whose value is the keys joined with ','. */
  lemma {:induction false} CitationRunJoined(t: Token, rest: seq<Token>)
    requires t.metadata == Some("citation") && |rest| > 0
    requires forall i :: 0 <= i < |rest| ==> rest[i].metadata == Some("citation")
    ensures Merged(Citations, [t] + rest, 0) == [Token(Some("citation"), Some(t.value.GetOr("") + CommaKeys(rest)))]
    decreases |rest|
  {
    var toks := [t] + rest;
    HeadPairFound(Citations, toks);
    var c := Combine(Citations, t, rest[0]);
    assert Merged(Citations, toks, 0) == Merged(Citations, [c] + rest[1..], 0) by {
      assert toks[..0] + [Combine(Citations, toks[0], toks[1])] + toks[2..] == [c] + rest[1..];
    }
    if |rest| == 1 {
      SingleTokenUnmerged(Citations, c);
      assert [c] + rest[1..] == [c];
      assert CommaKeys(rest) == "," + rest[0].value.GetOr("") by {
        assert rest[1..] == [];
      }
      var x, y := t.value.GetOr(""), rest[0].value.GetOr("");
      assert c.value.value == x + "," + y == x + ("," + y);
    } else {
      CitationRunJoined(c, rest[1..]);
      assert c.value.GetOr("") + CommaKeys(rest[1..]) == t.value.GetOr("") + CommaKeys(rest);
    }
  }

  /** `n` copies of the text "l|". */
  function LowerColumns(n: nat): (s: string)
    ensures |s| == 2 * n
  {
    if n == 0 then "" else "l|" + LowerColumns(n - 1)
  }

  lemma {:induction false} LowerAppend(a: string, b: string)
    ensures Lower(a + b) == Lower(a) + Lower(b)
  {
  }

  lemma {:induction false} LowerIdempotent(a: string)
    ensures Lower(Lower(a)) == Lower(a)
  {
  }

  lemma {:induction false} LowerColumnsLower(n: nat)
    ensures Lower(LowerColumns(n)) == LowerColumns(n)
  {
    if n > 0 {
      LowerAppend("l|", LowerColumns(n - 1));
      LowerColumnsLower(n - 1);
    }
  }

  /**
   * A table followed by `k` column definitions collapses into the table token, whose value is
   * the column spec: the lower-cased starting value ("|" for none), then "l|" for every column
   * but the last, then "L|" for the last.
   */
  lemma {:induction false} ColumnSpec(t: Token, cols: seq<Token>)
    requires t.metadata == Some("table") && |cols| > 0
    requires forall i :: 0 <= i < |cols| ==> cols[i].metadata == Some("table_def_col")
    ensures Merged(Columns, [t] + cols, 0)
         == [Token(Some("table"), Some(Lower(t.value.GetOr("|")) + LowerColumns(|cols| - 1) + "L|"))]
    decreases |cols|
  {
    var toks := [t] + cols;
    HeadPairFound(Columns, toks);
    var c := Combine(Columns, t, cols[0]);
    assert Merged(Columns, toks, 0) == Merged(Columns, [c] + cols[1..], 0) by {
      assert toks[..0] + [Combine(Columns, toks[0], toks[1])] + toks[2..] == [c] + cols[1..];
    }
    var v := t.value.GetOr("|");
    assert c.value == Some(Lower(v) + "L|");
    if |cols| == 1 {
      SingleTokenUnmerged(Columns, c);
      assert [c] + cols[1..] == [c];
      assert Lower(v) + LowerColumns(0) + "L|" == Lower(v) + "L|";
    } else {
      ColumnSpec(c, cols[1..]);
      ColumnStep(v, |cols| - 2);
    }
  }

  /** One more column: the spec so far is lower-cased and "L|" appended. */
  lemma ColumnStep(v: string, n: nat)
    ensures Lower(Lower(v) + "L|") + LowerColumns(n) + "L|" == Lower(v) + LowerColumns(n + 1) + "L|"
  {
    var lv, cols := Lower(v), LowerColumns(n);
    LowerAppend(lv, "L|");
    LowerIdempotent(v);
    assert Lower("L|") == "l|";
    assert Lower(lv + "L|") == lv + "l|";
    assert LowerColumns(n + 1) == "l|" + cols;
    assert (lv + "l|") + cols == lv + ("l|" + cols);
  }

  /** A table with no column definitions before the next table: its value is "|L|" after one column. */
  lemma OneColumnTable()
    ensures Merged(Columns, [Token(Some("table"), None), Token(Some("table_def_col"), None)], 0)
         == [Token(Some("table"), Some("|L|"))]
  {
    var t, col := Token(Some("table"), None), Token(Some("table_def_col"), None);
    ColumnSpec(t, [col]);
    assert [t] + [col] == [t, col];
    assert Lower("|") == "|";
    assert Lower("|") + LowerColumns(0) + "L|" == "|L|";
  }

  /** One pass of a merge loop on the list: the first token of the pair at `s` takes the combined value, the second goes. */
  method MergeAt(list: TokenList, m: Merge, start: Node, ghost s: nat, end: Node)
    requires list.Valid() && list.At(start, s) && list.At(end, s + 1)
    modifies list
    ensures list.Valid() && list.At(start, s)
    ensures list.tokens == old(list.tokens)[..s] + [Combine(m, old(list.tokens)[s], old(list.tokens)[s + 1])] + old(list.tokens)[s + 2..]
  {
    var a := list.ValueOf(start, s);
    var b := list.ValueOf(end, s + 1);
    list.SetValue(start, Combine(m, a, b), s);
    list.Remove(end, s + 1);
  }

  /**
   * Searches for the pair from the head, merges each pair found and searches again from the
   * surviving first token, until no pair is left.
   */
  method MergePairs(list: TokenList, m: Merge)
    requires list.Valid()
    modifies list
    ensures list.Valid()
    ensures list.tokens == Merged(m, old(list.tokens), 0)
  {
    var p := CompilePattern(MergeCode(m));
    MergeCodeCompiles(m);
    MergeLoop(list, m, p);
  }

  /** The loop of `MergePairs`, with the code compiled. */
  method MergeLoop(list: TokenList, m: Merge, p: Pattern)
    requires list.Valid() && p == Pattern([First(m), Second(m)], 0)
    modifies list
    ensures list.Valid()
    ensures list.tokens == Merged(m, old(list.tokens), 0)
  {
    MergeElementsLiteral(m);
    ghost var goal := Merged(m, list.tokens, 0);
    ghost var from: nat := 0;
    var first := list.First();
    var c := FindPattern(list, first, 0, p);
    while c.value.IsMatch()
      invariant list.Valid() && from <= |list.nodes|
      invariant c.Ok? && c.value == Nodes(list.nodes, Search(list.tokens, p, from))
      invariant Merged(m, list.tokens, from) == goal
      decreases |list.nodes|
    {
      c, from := MergeTurn(list, m, p, c.value, from);
    }
    MergedStep(m, list.tokens, from);
  }

  /** One turn of `MergeLoop`: merge the pair found and search again from the surviving token. */
  method MergeTurn(list: TokenList, m: Merge, p: Pattern, f: FindResult, ghost from: nat)
      returns (c: Result<FindResult>, ghost next: nat)
    requires list.Valid() && p == Pattern([First(m), Second(m)], 0) && from <= |list.nodes|
    requires f == Nodes(list.nodes, Search(list.tokens, p, from)) && f.IsMatch()
    modifies list
    ensures list.Valid() && next <= |list.nodes| < old(|list.nodes|)
    ensures c.Ok? && c.value == Nodes(list.nodes, Search(list.tokens, p, next))
    ensures Merged(m, list.tokens, next) == Merged(m, old(list.tokens), from)
  {
    MergeElementsLiteral(m);
    MergedStep(m, list.tokens, from);
    ghost var s: nat := Search(list.tokens, p, from).start.value;
    var start := f.start;
    MergeAt(list, m, start, s, f.end);
    next := s;
    c := FindPattern(list, start, s, p);
  }

  /** One turn of the merge loop, as `Merged` takes it. */
  lemma MergedStep(m: Merge, toks: seq<Token>, from: nat)
    requires from <= |toks|
    ensures var f := Search(toks, Pattern([First(m), Second(m)], 0), from);
      if f.IsMatch() then
        var s := f.start.value;
        from <= s && s + 1 < |toks| && f.end == Some(s + 1)
        && Merged(m, toks, from) == Merged(m, toks[..s] + [Combine(m, toks[s], toks[s + 1])] + toks[s + 2..], s)
      else Merged(m, toks, from) == toks && (f.start.None? || f.start.value >= |toks|)
  {
    MergeElementsLiteral(m);
    PairSearch(toks, First(m), Second(m), from);
    SearchBounds(toks, Pattern([First(m), Second(m)], 0), from);
  }
}
