/**
 * `ReplaceSequence(start, code, replace, count)`: replaces matches of `code`, searched from
 * `start` on, by fresh copies of the tokens `replace` lists, at most `count` times. Each
 * search after a replacement starts at the node that followed the match.
 */
module Replacer {
  import opened Wrappers
  import opened Tokens
  import opened Patterns
  import opened LinkedTokens
  import opened ListExtensions
  import opened Matcher

  /** The tokens of a replacement text: its parts, parsed (`|` and `!` mean nothing here). */
  function ReplacementTokens(replace: string): (ts: seq<Token>)
    ensures |ts| == |CodeParts(replace)|
  {
    ParseAll(CodeParts(replace))
  }

  /** What the replacement loop leaves: the tokens and the number of replacements. */
  datatype Outcome = Outcome(tokens: seq<Token>, replacements: nat)

  /**
   * The replacement loop with `done` replacements made and the next search at position `from`
   * (|toks| for a null node). The search runs before the count is compared, so its failure
   * (an empty pattern searched from null) is raised even when the count is used up.
   */
  function Replaced(toks: seq<Token>, p: Pattern, repl: seq<Token>, from: nat, done: nat, count: int): (r: Result<Outcome>)
    requires from <= |toks|
    decreases |toks| - from
  {
    if from == |toks| && |p.elements| == 0 then Fail(NullReference)
    else
      var f := Search(toks, p, from);
      if done >= count || !f.IsMatch() then Ok(Outcome(toks, done))
      else
        SearchBounds(toks, p, from);
        var s, e := f.start.value, f.end.value;
        Replaced(toks[..s] + repl + toks[e + 1..], p, repl, s + |repl|, done + 1, count)
  }

  /** The loop never makes more replacements than `count` allows. */
  lemma {:induction false} ReplacedAtMostCount(toks: seq<Token>, p: Pattern, repl: seq<Token>, from: nat, done: nat, count: int)
    requires from <= |toks|
    ensures var r := Replaced(toks, p, repl, from, done, count);
      r.Ok? ==> done <= r.value.replacements && (r.value.replacements == done || r.value.replacements <= count)
    decreases |toks| - from
  {
    var f := Search(toks, p, from);
    if !(from == |toks| && |p.elements| == 0) && done < count && f.IsMatch() {
      SearchBounds(toks, p, from);
      var s, e := f.start.value, f.end.value;
      ReplacedAtMostCount(toks[..s] + repl + toks[e + 1..], p, repl, s + |repl|, done + 1, count);
    }
  }

  /** Tokens before the position where the searches begin are never touched. */
  lemma {:induction false} ReplacedKeepsPrefix(toks: seq<Token>, p: Pattern, repl: seq<Token>, from: nat, done: nat, count: int)
    requires from <= |toks|
    ensures var r := Replaced(toks, p, repl, from, done, count);
      r.Ok? ==> from <= |r.value.tokens| && r.value.tokens[..from] == toks[..from]
    decreases |toks| - from
  {
    var f := Search(toks, p, from);
    if !(from == |toks| && |p.elements| == 0) && done < count && f.IsMatch() {
      SearchBounds(toks, p, from);
      var s, e := f.start.value, f.end.value;
      var toks' := toks[..s] + repl + toks[e + 1..];
      ReplacedKeepsPrefix(toks', p, repl, s + |repl|, done + 1, count);
      assert toks'[..from] == toks[..from];
    }
  }

  /** With an empty replacement every replacement deletes at least one token. */
  lemma {:induction false} DeletionShrinks(toks: seq<Token>, p: Pattern, from: nat, done: nat, count: int)
    requires from <= |toks|
    ensures var r := Replaced(toks, p, [], from, done, count);
      r.Ok? ==> |r.value.tokens| + (r.value.replacements - done) <= |toks|
    decreases |toks| - from
  {
    var f := Search(toks, p, from);
    if !(from == |toks| && |p.elements| == 0) && done < count && f.IsMatch() {
      SearchBounds(toks, p, from);
      var s, e := f.start.value, f.end.value;
      DeletionShrinks(toks[..s] + toks[e + 1..], p, s, done + 1, count);
      ReplacedAtMostCount(toks[..s] + toks[e + 1..], p, [], s, done + 1, count);
      assert toks[..s] + [] + toks[e + 1..] == toks[..s] + toks[e + 1..];
    }
  }

  /** A single replacement puts the replacement tokens exactly where the match's Start to End was. */
  lemma OneReplacement(toks: seq<Token>, p: Pattern, repl: seq<Token>, from: nat)
    requires from <= |toks| && Search(toks, p, from).IsMatch()
    ensures var f := Search(toks, p, from);
      f.end.Some? && f.start.value <= f.end.value < |toks|
      && Replaced(toks, p, repl, from, 0, 1) == Ok(Outcome(toks[..f.start.value] + repl + toks[f.end.value + 1..], 1))
  {
    SearchBounds(toks, p, from);
  }

  /** Without a match from `from` on, nothing changes. */
  lemma NoMatchNoChange(toks: seq<Token>, p: Pattern, repl: seq<Token>, from: nat, count: int)
    requires from < |toks| && !Search(toks, p, from).IsMatch()
    ensures Replaced(toks, p, repl, from, 0, count) == Ok(Outcome(toks, 0))
  {
  }

  /** `while (list.First != post) list.RemoveFirst()`, with `post` at position `q`. */
  method RemoveHead(list: TokenList, post: Node?, ghost q: nat)
    requires list.Valid() && q <= |list.nodes| && post == NodeAt(list.nodes, q)
    modifies list
    ensures list.Valid()
    ensures list.nodes == old(list.nodes)[q..] && list.tokens == old(list.tokens)[q..]
  {
    ghost var ns, ts := list.nodes, list.tokens;
    ghost var j := 0;
    while list.First() != post
      invariant list.Valid() && j <= q
      invariant list.nodes == ns[j..] && list.tokens == ts[j..]
      decreases q - j
    {
      list.RemoveFirst();
      j := j + 1;
    }
  }

  /** Fresh copies of `ts`, in order, right after `pre` (at position `k`): the copying loop of the splice. */
  method InsertCopies(list: TokenList, pre: Node, ghost k: nat, ts: seq<Token>)
    requires list.Valid() && list.At(pre, k)
    modifies list
    ensures list.Valid()
    ensures list.tokens == old(list.tokens)[..k + 1] + ts + old(list.tokens)[k + 1..]
    ensures |list.nodes| == |old(list.nodes)| + |ts|
    ensures list.nodes[..k + 1] == old(list.nodes)[..k + 1] && list.nodes[k + 1 + |ts|..] == old(list.nodes)[k + 1..]
    ensures forall i :: k + 1 <= i < k + 1 + |ts| ==> fresh(list.nodes[i])
  {
    ghost var before, after := list.tokens[..k + 1], list.tokens[k + 1..];
    ghost var nb, na := list.nodes[..k + 1], list.nodes[k + 1..];
    ghost var n0 := |list.nodes|;
    var last := pre;
    var i := 0;
    while i < |ts|
      invariant i <= |ts| && list.Valid() && list.At(last, k + i)
      invariant list.tokens == before + ts[..i] + after
      invariant |list.nodes| == n0 + i
      invariant list.nodes[..k + 1] == nb && list.nodes[k + 1 + i..] == na
      invariant forall j :: k + 1 <= j < k + 1 + i ==> fresh(list.nodes[j])
    {
      InsertBetween(before, ts[..i], after, Copy(ts[i]));
      last := list.AddAfter(last, Copy(ts[i]), k + i);
      assert ts[..i + 1] == ts[..i] + [ts[i]];
      i := i + 1;
    }
    assert ts[..i] == ts;
  }

  /** The splice when the match begins at the head: drop the head up to `post`, then add the copies first. */
  method SpliceAtHead(list: TokenList, post: Node?, ghost e: nat, repl: seq<Token>)
    requires list.Valid() && e < |list.nodes| && post == NodeAt(list.nodes, e + 1)
    modifies list
    ensures list.Valid()
    ensures list.tokens == repl + old(list.tokens)[e + 1..]
    ensures list.nodes[|repl|..] == old(list.nodes)[e + 1..]
    ensures forall i :: 0 <= i < |repl| ==> fresh(list.nodes[i])
  {
    RemoveHead(list, post, e + 1);
    if |repl| > 0 {
      var head := list.AddFirst(Copy(repl[0]));
      InsertCopies(list, head, 0, repl[1..]);
      assert [repl[0]] + repl[1..] == repl;
    }
  }

  /** The splice after `pre` (at position `k`): drop its successors up to `post`, then add the copies after it. */
  method SpliceAfter(list: TokenList, pre: Node, ghost k: nat, post: Node?, ghost e: nat, repl: seq<Token>)
    requires list.Valid() && list.At(pre, k) && k < e < |list.nodes| && post == NodeAt(list.nodes, e + 1)
    modifies list
    ensures list.Valid()
    ensures list.tokens == old(list.tokens)[..k + 1] + repl + old(list.tokens)[e + 1..]
    ensures list.nodes[..k + 1] == old(list.nodes)[..k + 1] && list.nodes[k + 1 + |repl|..] == old(list.nodes)[e + 1..]
    ensures forall i :: k + 1 <= i < k + 1 + |repl| ==> fresh(list.nodes[i])
  {
    ghost var pk: Option<nat> := if e + 1 < |list.nodes| then Some(e + 1) else None;
    var reached := RemoveSuccessors(list, pre, k, post, pk);
    InsertCopies(list, pre, k, repl);
  }

  /**
   * One replacement: removes the match from `first` (position `s`) to `last` (position `e`) and
   * puts fresh copies of `repl` in its place. Returns the node that followed the match.
   */
  method SpliceMatch(list: TokenList, first: Node, ghost s: nat, last: Node, ghost e: nat, repl: seq<Token>)
    returns (post: Node?)
    requires list.Valid() && list.At(first, s) && list.At(last, e) && s <= e
    modifies list
    ensures list.Valid()
    ensures list.tokens == old(list.tokens)[..s] + repl + old(list.tokens)[e + 1..]
    ensures post == NodeAt(list.nodes, s + |repl|)
    ensures list.nodes[..s] == old(list.nodes)[..s] && list.nodes[s + |repl|..] == old(list.nodes)[e + 1..]
    ensures forall i :: s <= i < s + |repl| ==> fresh(list.nodes[i])
    ensures forall n :: n in list.nodes ==> n in old(list.nodes) || fresh(n)
  {
    ghost var ns := list.nodes;
    var pre := list.Previous(first, Some(s));
    post := list.Next(last, Some(e));
    if pre == null {
      SpliceAtHead(list, post, e, repl);
    } else {
      SpliceAfter(list, pre, s - 1, post, e, repl);
    }
    assert |list.nodes| == s + |repl| + |ns| - (e + 1);
    assert post != null ==> list.nodes[s + |repl|] == ns[e + 1];
  }

  /** Two sequences that agree up to `s` agree up to any `from <= s`. */
  lemma PrefixOfPrefix<T>(a: seq<T>, b: seq<T>, from: nat, s: nat)
    requires from <= s <= |a| && s <= |b| && a[..s] == b[..s]
    ensures a[..from] == b[..from]
  {
    assert a[..from] == a[..s][..from];
    assert b[..from] == b[..s][..from];
  }

  /**
   * `ReplaceSequence(start, code, replace, count)` with `start` at position `from` (|list| for
   * null). Returns the number of replacements.
   */
  method ReplaceSequence(list: TokenList, start: Node?, ghost from: nat, code: string, replace: string, count: int)
    returns (r: Result<nat>)
    requires list.Valid() && from <= |list.nodes| && start == NodeAt(list.nodes, from)
    modifies list
    ensures list.Valid()
    ensures var spec := Replaced(old(list.tokens), Compile(code), ReplacementTokens(replace), from, 0, count);
      match spec
      case Ok(o) => r == Ok(o.replacements) && list.tokens == o.tokens
      case Fail(err) => r == Fail(err) && list.tokens == old(list.tokens)
    ensures from <= |list.nodes| && list.nodes[..from] == old(list.nodes)[..from]
    ensures forall n :: n in list.nodes ==> n in old(list.nodes) || fresh(n)
  {
    var p := CompilePattern(code);
    r := ReplacePattern(list, start, from, p, ParseAll(CodeParts(replace)), count);
  }

  /** `ReplaceSequence` with the pattern compiled and the replacement parsed. */
  method ReplacePattern(list: TokenList, start: Node?, ghost from: nat, p: Pattern, repl: seq<Token>, count: int)
    returns (r: Result<nat>)
    requires list.Valid() && from <= |list.nodes| && start == NodeAt(list.nodes, from)
    modifies list
    ensures list.Valid()
    ensures var spec := Replaced(old(list.tokens), p, repl, from, 0, count);
      match spec
      case Ok(o) => r == Ok(o.replacements) && list.tokens == o.tokens
      case Fail(err) => r == Fail(err) && list.tokens == old(list.tokens)
    ensures from <= |list.nodes| && list.nodes[..from] == old(list.nodes)[..from]
    ensures forall n :: n in list.nodes ==> n in old(list.nodes) || fresh(n)
  {
    ghost var spec := Replaced(list.tokens, p, repl, from, 0, count);
    var next := start;
    ghost var nf: nat := from;
    var index: nat := 0;
    var c := FindPattern(list, next, nf, p);
    if c.Fail? {
      return Fail(c.error);
    }
    SearchBounds(list.tokens, p, nf);
    while index < count && c.value.IsMatch()
      invariant list.Valid() && nf <= |list.nodes| && next == NodeAt(list.nodes, nf)
      invariant c == Ok(Nodes(list.nodes, Search(list.tokens, p, nf)))
      invariant var f := Search(list.tokens, p, nf);
        f.IsMatch() ==> (nf <= f.start.value && f.end.Some? && f.start.value <= f.end.value < |list.nodes|)
      invariant Replaced(list.tokens, p, repl, nf, index, count) == spec
      invariant from <= nf && list.nodes[..from] == old(list.nodes)[..from]
      invariant forall n :: n in list.nodes ==> n in old(list.nodes) || fresh(n)
      decreases |list.nodes| - nf
    {
      ghost var f := Search(list.tokens, p, nf);
      ghost var s: nat, e: nat := f.start.value, f.end.value;
      ghost var before := list.nodes;
      next := SpliceMatch(list, c.value.start, s, c.value.end, e, repl);
      PrefixOfPrefix(list.nodes, before, from, s);
      nf := s + |repl|;
      index := index + 1;
      c := FindPattern(list, next, nf, p);
      // the pattern has just matched, so it is not empty and the search cannot fail
      assert c.Ok?;
      SearchBounds(list.tokens, p, nf);
    }
    r := Ok(index);
  }
}
