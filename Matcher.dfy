/**
 * `FindSequence`: the forward scan that looks for a compiled pattern in a token list.
 *
 * The scan is specified by `Search`, a state machine over positions of the token sequence that
 * follows the original loop step by step: the element index, the recorded Start and Mark, the
 * skip elements and the restart after a mismatch. `Walk` is the independent meaning of a match:
 * the pattern read left to right from one position, with no restart. The lemmas tie the two
 * together (every match `Search` reports is a `Walk` match; for patterns without skip elements
 * it is the leftmost one), and `FindSequence` is proved to compute `Search` on a `TokenList`.
 */
module Matcher {
  import opened Wrappers
  import opened Tokens
  import opened Patterns
  import opened LinkedTokens

  /** A search result as positions: the first matched token, the marked one and the last one. */
  datatype Found = Found(start: Option<nat>, mark: Option<nat>, end: Option<nat>) {
    /** `FindResult.IsMatch`: a Start was found. */
    predicate IsMatch() {
      start.Some?
    }
  }

  /** `FindResult.Empty`. */
  const NotFound: Found := Found(None, None, None)

  /**
   * Where a skip element stops when it starts at position `c`: the first token wildcard-equal to
   * the abort target or to the element after the skip, or the end of the sequence.
   */
  function SkipTo(toks: seq<Token>, c: nat, abort: Token, next: Option<Token>): (d: nat)
    requires c <= |toks|
    ensures c <= d <= |toks|
    ensures forall k :: c <= k < d ==> !WildcardEquals(toks[k], Some(abort)) && !WildcardEquals(toks[k], next)
    ensures d < |toks| ==> WildcardEquals(toks[d], Some(abort)) || WildcardEquals(toks[d], next)
    decreases |toks| - c
  {
    if c == |toks| || WildcardEquals(toks[c], Some(abort)) || WildcardEquals(toks[c], next) then c
    else SkipTo(toks, c + 1, abort, next)
  }

  /** The position a scan cannot go back beyond: the recorded Start, or the scan position without one. */
  function Origin(c: nat, st: Option<nat>): nat {
    if st.Some? then st.value else c
  }

  /**
   * The loop of `FindSequence` at the top of an iteration: scan position `c` (|toks| stands for a
   * null node), element index `index`, recorded Start `st` and Mark `mk`.
   */
  function Scan(toks: seq<Token>, p: Pattern, c: nat, index: nat, st: Option<nat>, mk: Option<nat>): Found
    requires c <= |toks| && index <= |p.elements| && (st.Some? ==> st.value < c)
    decreases |toks| - Origin(c, st), |toks| - c, 1
  {
    var els := p.elements;
    if c == |toks| then
      // the loop ran off the list: a match whose last element was the last token ends there
      if index >= |els| then Found(st, mk, if |toks| > 0 then Some(|toks| - 1) else None) else NotFound
    else if index >= |els| then
      Found(st, mk, if c > 0 then Some(c - 1) else None)
    else if IsSkip(els[index]) then
      var abort := AbortTarget(els[index]);
      var next := if index + 1 < |els| then Some(els[index + 1]) else None;
      var d := SkipTo(toks, c, abort, next);
      if d == |toks| then NotFound
      else Compare(toks, p, d, if WildcardEquals(toks[d], Some(abort)) then 0 else index + 1, st, mk)
    else
      Compare(toks, p, c, index, st, mk)
  }

  /**
   * The literal comparison that follows in the same iteration. The element index is always
   * below the element count here: a skip element in last place can only stop at its abort
   * target, which resets the index, so the loop's `continue` for an exhausted pattern is never
   * taken.
   */
  function Compare(toks: seq<Token>, p: Pattern, c: nat, index: nat, st: Option<nat>, mk: Option<nat>): Found
    requires c < |toks| && index < |p.elements| && (st.Some? ==> st.value < c)
    decreases |toks| - Origin(c, st), |toks| - c, 0
  {
    if WildcardEquals(toks[c], Some(p.elements[index])) then
      Scan(toks, p, c + 1, index + 1, if index == 0 then Some(c) else st, if index == p.offset then Some(c) else mk)
    else
      // restart after the recorded Start, or after this token
      Scan(toks, p, Origin(c, st) + 1, 0, None, mk)
  }

  /** `FindSequence(start, code)` with `start` at position `from` (|toks| for null). */
  function Search(toks: seq<Token>, p: Pattern, from: nat): Found
    requires from <= |toks|
  {
    Scan(toks, p, from, 0, None, None)
  }

  /**
   * The pattern read from position `i` with `j` elements already consumed, without restarting:
   * a literal element must match the token in front of it; a skip element passes to the first
   * token matching its abort target or the element after it, and that token must be the latter.
   * The result is the position after the last consumed token.
   */
  function Walk(toks: seq<Token>, els: seq<Token>, i: nat, j: nat): (a: Option<nat>)
    requires i <= |toks| && j <= |els|
    ensures a.Some? ==> i <= a.value <= |toks|
    ensures a.Some? && j < |els| ==> i < a.value
    decreases |toks| - i
  {
    if j == |els| then Some(i)
    else if i == |toks| then None
    else if IsSkip(els[j]) then
      var abort := AbortTarget(els[j]);
      var next := if j + 1 < |els| then Some(els[j + 1]) else None;
      var d := SkipTo(toks, i, abort, next);
      if d == |toks| || WildcardEquals(toks[d], Some(abort)) then None
      else Walk(toks, els, d + 1, j + 2)
    else if WildcardEquals(toks[i], Some(els[j])) then Walk(toks, els, i + 1, j + 1)
    else None
  }

  /** `Walk` when element `j` is compared literally with the token at `i`, as `Compare` does. */
  function ReadFrom(toks: seq<Token>, els: seq<Token>, i: nat, j: nat): Option<nat>
    requires i < |toks| && j < |els|
  {
    if WildcardEquals(toks[i], Some(els[j])) then Walk(toks, els, i + 1, j + 1) else None
  }

  /** The pattern can be read at `s`, ending with the token at `e`. */
  ghost predicate MatchesAt(toks: seq<Token>, els: seq<Token>, s: nat, e: nat) {
    s <= e < |toks| && Walk(toks, els, s, 0) == Some(e + 1)
  }

  /** The first element is literal: skip elements as the first element never open a match. */
  predicate StartsLiteral(els: seq<Token>) {
    |els| > 0 && !IsSkip(els[0])
  }

  /** No element is a skip element. */
  predicate AllLiteral(els: seq<Token>) {
    forall j :: 0 <= j < |els| ==> !IsSkip(els[j])
  }

  lemma {:induction false} ScanSound(toks: seq<Token>, p: Pattern, c: nat, index: nat, st: Option<nat>, mk: Option<nat>)
    requires c <= |toks| && index <= |p.elements| && (st.Some? ==> st.value < c)
    requires StartsLiteral(p.elements)
    requires index > 0 ==> st.Some? && Walk(toks, p.elements, st.value, 0) == Walk(toks, p.elements, c, index)
    ensures var r := Scan(toks, p, c, index, st, mk);
      r.start.Some? ==> r.start.value >= Origin(c, st) && r.end.Some? && MatchesAt(toks, p.elements, r.start.value, r.end.value)
    decreases |toks| - Origin(c, st), |toks| - c, 1
  {
    var els := p.elements;
    if c < |toks| && index < |els| {
      if IsSkip(els[index]) {
        var abort := AbortTarget(els[index]);
        var next := if index + 1 < |els| then Some(els[index + 1]) else None;
        var d := SkipTo(toks, c, abort, next);
        if d < |toks| {
          if WildcardEquals(toks[d], Some(abort)) {
            CompareSound(toks, p, d, 0, st, mk);
          } else {
            CompareSound(toks, p, d, index + 1, st, mk);
          }
        }
      } else {
        CompareSound(toks, p, c, index, st, mk);
      }
    }
  }

  lemma {:induction false} CompareSound(toks: seq<Token>, p: Pattern, c: nat, index: nat, st: Option<nat>, mk: Option<nat>)
    requires c < |toks| && index < |p.elements| && (st.Some? ==> st.value < c)
    requires StartsLiteral(p.elements)
    requires index > 0 ==> st.Some? && Walk(toks, p.elements, st.value, 0) == ReadFrom(toks, p.elements, c, index)
    ensures var r := Compare(toks, p, c, index, st, mk);
      r.start.Some? ==> r.start.value >= Origin(c, st) && r.end.Some? && MatchesAt(toks, p.elements, r.start.value, r.end.value)
    decreases |toks| - Origin(c, st), |toks| - c, 0
  {
    if WildcardEquals(toks[c], Some(p.elements[index])) {
      var st' := if index == 0 then Some(c) else st;
      ScanSound(toks, p, c + 1, index + 1, st', if index == p.offset then Some(c) else mk);
    } else {
      ScanSound(toks, p, Origin(c, st) + 1, 0, None, mk);
    }
  }

  /**
   * A match `FindSequence` reports is real: Start lies at or after the search position, its token
   * matches the first element, and the pattern reads from Start to End without a restart.
   */
  lemma SearchSound(toks: seq<Token>, p: Pattern, from: nat)
    requires from <= |toks| && StartsLiteral(p.elements)
    ensures var r := Search(toks, p, from);
      r.IsMatch() ==> (from <= r.start.value && r.end.Some? && MatchesAt(toks, p.elements, r.start.value, r.end.value)
                       && WildcardEquals(toks[r.start.value], Some(p.elements[0])))
  {
    ScanSound(toks, p, from, 0, None, None);
  }

  lemma {:induction false} ScanLeftmost(toks: seq<Token>, p: Pattern, from: nat, c: nat, index: nat, st: Option<nat>, mk: Option<nat>)
    requires c <= |toks| && index <= |p.elements| && (st.Some? ==> st.value < c)
    requires |p.elements| > 0 && AllLiteral(p.elements)
    requires forall q :: from <= q < Origin(c, st) ==> Walk(toks, p.elements, q, 0).None?
    requires index == 0 <==> st.None?
    requires index > 0 ==> st.value + index == c && Walk(toks, p.elements, st.value, 0) == Walk(toks, p.elements, c, index)
    ensures var r := Scan(toks, p, c, index, st, mk);
      forall q :: from <= q < |toks| && (r.IsMatch() ==> q < r.start.value) ==> Walk(toks, p.elements, q, 0).None?
    decreases |toks| - Origin(c, st), |toks| - c, 1
  {
    var els := p.elements;
    if c == |toks| {
      if index < |els| && st.Some? {
        forall q | st.value <= q < |toks| ensures Walk(toks, els, q, 0).None? {
          if q > st.value {
            LiteralWalkLength(toks, els, q, 0);
          }
        }
      }
    } else if index < |els| {
      CompareLeftmost(toks, p, from, c, index, st, mk);
    }
  }

  lemma {:induction false} CompareLeftmost(toks: seq<Token>, p: Pattern, from: nat, c: nat, index: nat, st: Option<nat>, mk: Option<nat>)
    requires c < |toks| && index < |p.elements| && (st.Some? ==> st.value < c)
    requires AllLiteral(p.elements)
    requires forall q :: from <= q < Origin(c, st) ==> Walk(toks, p.elements, q, 0).None?
    requires index == 0 <==> st.None?
    requires index > 0 ==> st.value + index == c && Walk(toks, p.elements, st.value, 0) == ReadFrom(toks, p.elements, c, index)
    ensures var r := Compare(toks, p, c, index, st, mk);
      forall q :: from <= q < |toks| && (r.IsMatch() ==> q < r.start.value) ==> Walk(toks, p.elements, q, 0).None?
    decreases |toks| - Origin(c, st), |toks| - c, 0
  {
    if WildcardEquals(toks[c], Some(p.elements[index])) {
      var st' := if index == 0 then Some(c) else st;
      ScanLeftmost(toks, p, from, c + 1, index + 1, st', if index == p.offset then Some(c) else mk);
    } else {
      ScanLeftmost(toks, p, from, Origin(c, st) + 1, 0, None, mk);
    }
  }

  /** Without skip elements a match is exactly as long as the pattern. */
  lemma {:induction false} LiteralWalkLength(toks: seq<Token>, els: seq<Token>, i: nat, j: nat)
    requires i <= |toks| && j <= |els| && AllLiteral(els)
    ensures Walk(toks, els, i, j).Some? ==> Walk(toks, els, i, j).value == i + |els| - j
    decreases |toks| - i
  {
    if j < |els| && i < |toks| && WildcardEquals(toks[i], Some(els[j])) {
      LiteralWalkLength(toks, els, i + 1, j + 1);
    }
  }

  /**
   * For a pattern without skip elements the search finds the leftmost match: no position between
   * the search position and Start (or the end of the list, when nothing is found) begins one.
   */
  lemma SearchLeftmost(toks: seq<Token>, p: Pattern, from: nat)
    requires from <= |toks| && |p.elements| > 0 && AllLiteral(p.elements)
    ensures var r := Search(toks, p, from);
      forall q :: from <= q < |toks| && (r.IsMatch() ==> q < r.start.value) ==> Walk(toks, p.elements, q, 0).None?
  {
    ScanLeftmost(toks, p, from, from, 0, None, None);
  }

  lemma {:induction false} ScanMarksStart(toks: seq<Token>, p: Pattern, c: nat, index: nat, st: Option<nat>, mk: Option<nat>)
    requires c <= |toks| && index <= |p.elements| && (st.Some? ==> st.value < c)
    requires p.offset == 0 && (st.Some? ==> mk == st)
    ensures var r := Scan(toks, p, c, index, st, mk); r.IsMatch() ==> r.mark == r.start
    decreases |toks| - Origin(c, st), |toks| - c, 1
  {
    var els := p.elements;
    if c < |toks| && index < |els| {
      if IsSkip(els[index]) {
        var abort := AbortTarget(els[index]);
        var next := if index + 1 < |els| then Some(els[index + 1]) else None;
        var d := SkipTo(toks, c, abort, next);
        if d < |toks| {
          CompareMarksStart(toks, p, d, if WildcardEquals(toks[d], Some(abort)) then 0 else index + 1, st, mk);
        }
      } else {
        CompareMarksStart(toks, p, c, index, st, mk);
      }
    }
  }

  lemma {:induction false} CompareMarksStart(toks: seq<Token>, p: Pattern, c: nat, index: nat, st: Option<nat>, mk: Option<nat>)
    requires c < |toks| && index < |p.elements| && (st.Some? ==> st.value < c)
    requires p.offset == 0 && (st.Some? ==> mk == st)
    ensures var r := Compare(toks, p, c, index, st, mk); r.IsMatch() ==> r.mark == r.start
    decreases |toks| - Origin(c, st), |toks| - c, 0
  {
    if WildcardEquals(toks[c], Some(p.elements[index])) {
      ScanMarksStart(toks, p, c + 1, index + 1, if index == 0 then Some(c) else st, if index == 0 then Some(c) else mk);
    } else {
      ScanMarksStart(toks, p, Origin(c, st) + 1, 0, None, mk);
    }
  }

  /** Without a `|` in the code the mark index is 0, so a match's Mark is its Start. */
  lemma SearchMarksStart(toks: seq<Token>, code: string, from: nat)
    requires from <= |toks| && "|" !in CodeParts(code)
    ensures var r := Search(toks, Compile(code), from); r.IsMatch() ==> r.mark == r.start
  {
    NoBarMarksFirst(CodeParts(code));
    ScanMarksStart(toks, Compile(code), from, 0, None, None);
  }

  lemma {:induction false} ScanBounds(toks: seq<Token>, p: Pattern, c: nat, index: nat, st: Option<nat>, mk: Option<nat>)
    requires c <= |toks| && index <= |p.elements| && (st.Some? ==> st.value < c)
    requires mk.Some? ==> mk.value < |toks|
    ensures var r := Scan(toks, p, c, index, st, mk);
      r.IsMatch() ==> (Origin(c, st) <= r.start.value && r.end.Some? && r.start.value <= r.end.value < |toks|
                       && (r.mark.Some? ==> r.mark.value < |toks|))
    decreases |toks| - Origin(c, st), |toks| - c, 1
  {
    var els := p.elements;
    if c < |toks| && index < |els| {
      if IsSkip(els[index]) {
        var abort := AbortTarget(els[index]);
        var next := if index + 1 < |els| then Some(els[index + 1]) else None;
        var d := SkipTo(toks, c, abort, next);
        if d < |toks| {
          CompareBounds(toks, p, d, if WildcardEquals(toks[d], Some(abort)) then 0 else index + 1, st, mk);
        }
      } else {
        CompareBounds(toks, p, c, index, st, mk);
      }
    }
  }

  lemma {:induction false} CompareBounds(toks: seq<Token>, p: Pattern, c: nat, index: nat, st: Option<nat>, mk: Option<nat>)
    requires c < |toks| && index < |p.elements| && (st.Some? ==> st.value < c)
    requires mk.Some? ==> mk.value < |toks|
    ensures var r := Compare(toks, p, c, index, st, mk);
      r.IsMatch() ==> (Origin(c, st) <= r.start.value && r.end.Some? && r.start.value <= r.end.value < |toks|
                       && (r.mark.Some? ==> r.mark.value < |toks|))
    decreases |toks| - Origin(c, st), |toks| - c, 0
  {
    if WildcardEquals(toks[c], Some(p.elements[index])) {
      ScanBounds(toks, p, c + 1, index + 1, if index == 0 then Some(c) else st, if index == p.offset then Some(c) else mk);
    } else {
      ScanBounds(toks, p, Origin(c, st) + 1, 0, None, mk);
    }
  }

  /**
   * Every match has an End at or after its Start, and its nodes lie in the list; Start is never
   * before the search position.
   */
  lemma SearchBounds(toks: seq<Token>, p: Pattern, from: nat)
    requires from <= |toks|
    ensures var r := Search(toks, p, from);
      r.IsMatch() ==> (from <= r.start.value && r.end.Some? && r.start.value <= r.end.value < |toks|
                       && (r.mark.Some? ==> r.mark.value < |toks|))
  {
    ScanBounds(toks, p, from, 0, None, None);
  }

  /** `FindResult`: the Start, Mark and End nodes of a match; all null when there is none. */
  datatype FindResult = FindResult(start: Node?, mark: Node?, end: Node?) {
    predicate IsMatch() {
      start != null
    }
  }

  /** The node at position `p`, null for the position past the tail. */
  function NodeAt(ns: seq<Node>, p: nat): (n: Node?)
    ensures p < |ns| ==> n == ns[p]
    ensures p >= |ns| ==> n == null
  {
    if p < |ns| then ns[p] else null
  }

  /** The node a position names, null for none. */
  function NodeOf(ns: seq<Node>, p: Option<nat>): (n: Node?)
    ensures p.Some? && p.value < |ns| ==> n == ns[p.value]
    ensures p.None? ==> n == null
  {
    if p.Some? then NodeAt(ns, p.value) else null
  }

  /** The nodes of a result given as positions. */
  function Nodes(ns: seq<Node>, f: Found): FindResult {
    FindResult(NodeOf(ns, f.start), NodeOf(ns, f.mark), NodeOf(ns, f.end))
  }

  /** The skip loop: from `c`, walk forward to the first node whose token matches `abort` or `next`. */
  method SkipForward(list: TokenList, c: Node, ghost ci: nat, abort: Token, next: Option<Token>)
    returns (d: Node?, ghost di: nat)
    requires list.Valid() && list.At(c, ci)
    ensures di == SkipTo(list.tokens, ci, abort, next) && d == NodeAt(list.nodes, di)
  {
    d, di := c, ci;
    while d != null
      invariant ci <= di <= |list.nodes| && d == NodeAt(list.nodes, di)
      invariant SkipTo(list.tokens, di, abort, next) == SkipTo(list.tokens, ci, abort, next)
      decreases |list.nodes| - di
    {
      var v := list.ValueOf(d, di);
      if WildcardEquals(v, Some(abort)) || WildcardEquals(v, next) {
        return;
      }
      d := list.Next(d, Some(di));
      di := di + 1;
    }
  }

  /**
   * The skip block of one iteration: when element `index` is a skip element, walk to where it
   * stops; `lost` reports running off the list. Afterwards the literal comparison is due.
   */
  method SkipElement(list: TokenList, p: Pattern, c: Node, ghost ci: nat, index: nat, ghost st: Option<nat>, ghost mk: Option<nat>)
    returns (lost: bool, d: Node?, ghost di: nat, index': nat)
    requires list.Valid() && list.At(c, ci) && index < |p.elements| && (st.Some? ==> st.value < ci)
    ensures ci <= di <= |list.nodes| && d == NodeAt(list.nodes, di)
    ensures lost <==> di == |list.nodes|
    ensures lost ==> Scan(list.tokens, p, ci, index, st, mk) == NotFound
    ensures !lost ==> index' < |p.elements| && Scan(list.tokens, p, ci, index, st, mk) == Compare(list.tokens, p, di, index', st, mk)
  {
    var els := p.elements;
    if !IsSkip(els[index]) {
      return false, c, ci, index;
    }
    var abort := AbortTarget(els[index]);
    index' := index + 1;
    var next := if index' < |els| then Some(els[index']) else None;
    d, di := SkipForward(list, c, ci, abort, next);
    if d == null {
      return true, d, di, index';
    }
    lost := false;
    var v := list.ValueOf(d, di);
    if WildcardEquals(v, Some(abort)) {
      index' := 0;
    }
  }

  /** Lexicographic progress of the scan: the origin moves on, or stays while the position moves on. */
  predicate Progress(c: nat, st: Option<nat>, c': nat, st': Option<nat>) {
    Origin(c, st) < Origin(c', st') || (Origin(c, st) == Origin(c', st') && c < c')
  }

  /**
   * The literal comparison of one iteration and the step to the next node: record Start and Mark
   * on a match, or go back to the recorded Start on a mismatch.
   */
  method CompareElement(list: TokenList, p: Pattern, c: Node, ghost ci: nat, index: nat,
                        rs: Node?, ghost st: Option<nat>, rm: Node?, ghost mk: Option<nat>)
    returns (c': Node?, ghost ci': nat, index': nat, rs': Node?, ghost st': Option<nat>, rm': Node?, ghost mk': Option<nat>)
    requires list.Valid() && list.At(c, ci) && index < |p.elements| && (st.Some? ==> st.value < ci)
    requires rs == NodeOf(list.nodes, st) && rm == NodeOf(list.nodes, mk) && (mk.Some? ==> mk.value < |list.nodes|)
    ensures ci' <= |list.nodes| && c' == NodeAt(list.nodes, ci')
    ensures index' <= |p.elements| && (st'.Some? ==> st'.value < ci') && (mk'.Some? ==> mk'.value < |list.nodes|)
    ensures rs' == NodeOf(list.nodes, st') && rm' == NodeOf(list.nodes, mk')
    ensures Compare(list.tokens, p, ci, index, st, mk) == Scan(list.tokens, p, ci', index', st', mk')
    ensures Progress(ci, st, ci', st')
  {
    var v := list.ValueOf(c, ci);
    var at, at' := c, ci;
    rs', st', rm', mk' := rs, st, rm, mk;
    if WildcardEquals(v, Some(p.elements[index])) {
      if index == 0 {
        rs', st' := c, Some(ci);
      }
      if index == p.offset {
        rm', mk' := c, Some(ci);
      }
      index' := index + 1;
    } else {
      index' := 0;
      if rs != null {
        at, at' := rs, st.value;
      }
      rs', st' := null, None;
    }
    c' := list.Next(at, Some(at'));
    ci' := at' + 1;
  }

  /**
   * The scan loop of `FindSequence`, run until the pattern is exhausted, the list ends, or a skip
   * element runs off the list (`lost`).
   */
  method ScanNodes(list: TokenList, p: Pattern, start: Node?, ghost from: nat)
    returns (lost: bool, c: Node?, ghost ci: nat, index: nat, rs: Node?, ghost st: Option<nat>, rm: Node?, ghost mk: Option<nat>)
    requires list.Valid() && from <= |list.nodes| && start == NodeAt(list.nodes, from)
    ensures lost ==> Search(list.tokens, p, from) == NotFound
    ensures !lost ==> ci <= |list.nodes| && c == NodeAt(list.nodes, ci) && index <= |p.elements|
    ensures !lost ==> (st.Some? ==> st.value < ci) && (mk.Some? ==> mk.value < |list.nodes|)
    ensures !lost ==> rs == NodeOf(list.nodes, st) && rm == NodeOf(list.nodes, mk)
    ensures !lost ==> (c != null ==> index >= |p.elements|) && Scan(list.tokens, p, ci, index, st, mk) == Search(list.tokens, p, from)
    ensures start == null ==> !lost && c == null && index == 0
  {
    lost, index, rs, rm := false, 0, null, null;
    st, mk, ci := None, None, from;
    c := start;
    while c != null && index < |p.elements|
      invariant ci <= |list.nodes| && c == NodeAt(list.nodes, ci)
      invariant start == null ==> ci == from && index == 0
      invariant index <= |p.elements| && (st.Some? ==> st.value < ci) && (mk.Some? ==> mk.value < |list.nodes|)
      invariant rs == NodeOf(list.nodes, st) && rm == NodeOf(list.nodes, mk)
      invariant Scan(list.tokens, p, ci, index, st, mk) == Search(list.tokens, p, from)
      decreases |list.nodes| - Origin(ci, st), |list.nodes| - ci
    {
      var d: Node?, index': nat;
      ghost var di: nat;
      lost, d, di, index' := SkipElement(list, p, c, ci, index, st, mk);
      if lost {
        return;
      }
      c, ci, index, rs, st, rm, mk := CompareElement(list, p, d, di, index', rs, st, rm, mk);
    }
  }

  /** The scan's result once the pattern is exhausted or the list has ended. */
  lemma ScanFinished(toks: seq<Token>, p: Pattern, c: nat, index: nat, st: Option<nat>, mk: Option<nat>)
    requires c <= |toks| && index <= |p.elements| && (st.Some? ==> st.value < c)
    requires c == |toks| || index >= |p.elements|
    ensures index >= |p.elements| && c < |toks| ==> Scan(toks, p, c, index, st, mk) == Found(st, mk, if c > 0 then Some(c - 1) else None)
    ensures index >= |p.elements| && c == |toks| ==> Scan(toks, p, c, index, st, mk) == Found(st, mk, if c > 0 then Some(c - 1) else None)
    ensures index < |p.elements| ==> Scan(toks, p, c, index, st, mk) == NotFound
  {
  }

  /**
   * `FindSequence(start, code)` on the list that holds `start` (at position `from`; past the tail
   * when `start` is null). An empty pattern with a null `start` dereferences `start.List`.
   */
  method FindSequence(list: TokenList, start: Node?, ghost from: nat, code: string) returns (r: Result<FindResult>)
    requires list.Valid() && from <= |list.nodes| && start == NodeAt(list.nodes, from)
    ensures r.Fail? <==> start == null && |Compile(code).elements| == 0
    ensures r.Fail? ==> r.error == NullReference
    ensures r.Ok? ==> r.value == Nodes(list.nodes, Search(list.tokens, Compile(code), from))
  {
    var p := CompilePattern(code);
    r := FindPattern(list, start, from, p);
  }

  /** `FindSequence` after the compilation step. */
  method FindPattern(list: TokenList, start: Node?, ghost from: nat, p: Pattern) returns (r: Result<FindResult>)
    requires list.Valid() && from <= |list.nodes| && start == NodeAt(list.nodes, from)
    ensures r.Fail? <==> start == null && |p.elements| == 0
    ensures r.Fail? ==> r.error == NullReference
    ensures r.Ok? ==> r.value == Nodes(list.nodes, Search(list.tokens, p, from))
  {
    var lost, c, ci, index, rs, st, rm, mk := ScanNodes(list, p, start, from);
    ghost var goal := Search(list.tokens, p, from);
    if !lost {
      ScanFinished(list.tokens, p, ci, index, st, mk);
    }
    if lost {
      r := Ok(FindResult(null, null, null));
    } else if c != null {
      // every element consumed inside the list: End is the node before the scan position
      var prev := list.Previous(c, Some(ci));
      r := Ok(FindResult(rs, rm, prev));
    } else if index >= |p.elements| {
      if start == null {
        r := Fail(NullReference);
      } else {
        r := Ok(FindResult(rs, rm, list.Last()));
      }
    } else {
      r := Ok(FindResult(null, null, null));
    }
    assert r.Ok? ==> r.value == Nodes(list.nodes, goal);
  }
}
