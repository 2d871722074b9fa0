/**
 * The three helpers the rules use to splice token lists: copy a range of one list after a node
 * of another, remove a node, and remove an inclusive range. Each models the error a null
 * argument raises in the original as a `Fail` result.
 */
module ListExtensions {
  import opened Wrappers
  import opened Tokens
  import opened LinkedTokens

  /**
   * The tokens the range copy visits when it starts at position `f` and stops at the node after
   * position `t`: `f` to `t` inclusive, or `f` to the end of the list when `t` lies before `f`
   * (the walk then never meets the node after `t`).
   */
  function CopiedRange(ts: seq<Token>, f: nat, t: nat): (c: seq<Token>)
    requires f < |ts| && t < |ts|
    ensures f <= t ==> c == ts[f..t + 1]
    ensures f == t + 1 ==> c == []
    ensures f > t + 1 ==> c == ts[f..]
  {
    if f <= t + 1 then ts[f..t + 1] else ts[f..]
  }

  /** Where a walk from position `f` stops: at the position `stop` names, if that is not before `f`, else at the end. */
  function StopAt(f: nat, stop: Option<nat>, n: nat): (e: nat)
    requires f <= n
    ensures f <= e <= n
  {
    if stop.Some? && f <= stop.value <= n then stop.value else n
  }

  /** Inserting `x` right after the middle part of `a + m + b` extends the middle part. */
  lemma InsertBetween<T>(a: seq<T>, m: seq<T>, b: seq<T>, x: T)
    ensures var s := a + m + b; s[..|a| + |m|] + [x] + s[|a| + |m|..] == a + (m + [x]) + b
  {
    var s := a + m + b;
    assert s[..|a| + |m|] == a + m;
    assert s[|a| + |m|..] == b;
  }

  /**
   * `cur` is `orig` with the `j` elements after position `s` taken out; taking out the element
   * after position `s` once more gives `orig` with `j + 1` taken out.
   */
  lemma DropNext<T>(cur: seq<T>, next: seq<T>, orig: seq<T>, s: nat, j: nat)
    requires s + 1 + j < |orig|
    requires cur == orig[..s + 1] + orig[s + 1 + j..]
    requires next == cur[..s + 1] + cur[s + 2..]
    ensures next == orig[..s + 1] + orig[s + 1 + j + 1..]
    ensures |next| == |orig| - j - 1
    ensures s + 1 < |next| ==> next[s + 1] == orig[s + 1 + j + 1]
    ensures cur[s + 1] == orig[s + 1 + j]
  {
    assert cur[..s + 1] == orig[..s + 1];
    assert cur[s + 2..] == orig[s + 1 + j + 1..];
  }

  /** One pass of the copy loop: a copy of `c`'s token goes right after `last`, and the walk moves to `c.Next`. */
  method CopyOne(list: TokenList, last: Node, ghost lk: nat, src: TokenList, c: Node, ghost i: nat)
      returns (added: Node, next: Node?)
    requires list.Valid() && list.At(last, lk) && src.Valid() && src.At(c, i) && list != src
    modifies list
    ensures list.Valid() && fresh(added)
    ensures list.nodes == old(list.nodes)[..lk + 1] + [added] + old(list.nodes)[lk + 1..]
    ensures list.tokens == old(list.tokens)[..lk + 1] + [src.tokens[i]] + old(list.tokens)[lk + 1..]
    ensures next == if i + 1 < |src.nodes| then src.nodes[i + 1] else null
  {
    var t := src.ValueOf(c, i);
    added := list.AddAfter(last, t, lk);
    next := src.Next(c, Some(i));
  }

  /** A walk from `f` that has not yet met `stop` is still short of where it will stop. */
  lemma WalkBound(sn: seq<Node>, f: nat, stop: Node?, s: Option<nat>, i: nat)
    requires Distinct(sn) && f <= i < |sn| && sn[i] != stop
    requires stop == null ==> s.None?
    requires stop != null ==> s.Some? && s.value < |sn| && sn[s.value] == stop
    requires i <= StopAt(f, s, |sn|)
    ensures i < StopAt(f, s, |sn|)
  {
  }

  /**
   * The loop of the range copy: walks `src` from `from` (at position `f`) until it reaches `stop`
   * or runs off the end, adding a copy of each token after the previous copy, the first one after
   * `at` (at position `k`).
   */
  method CopyWalk(list: TokenList, at: Node, ghost k: nat, src: TokenList, from: Node, ghost f: nat, stop: Node?, ghost s: Option<nat>)
      returns (last: Node, ghost added: seq<Node>)
    requires list.Valid() && list.At(at, k) && src.Valid() && list != src
    requires src.At(from, f)
    requires stop == null ==> s.None?
    requires stop != null ==> s.Some? && src.At(stop, s.value)
    modifies list
    ensures var e := StopAt(f, s, |src.nodes|);
      && list.Valid()
      && |added| == e - f
      && list.tokens == old(list.tokens)[..k + 1] + src.tokens[f..e] + old(list.tokens)[k + 1..]
      && list.nodes == old(list.nodes)[..k + 1] + added + old(list.nodes)[k + 1..]
      && (forall m :: 0 <= m < |added| ==> fresh(added[m]))
      && last == if |added| == 0 then at else added[|added| - 1]
  {
    ghost var pre, post := list.tokens[..k + 1], list.tokens[k + 1..];
    ghost var preNodes, postNodes := list.nodes[..k + 1], list.nodes[k + 1..];
    assert list.tokens == pre + post && list.nodes == preNodes + postNodes;
    ghost var sn, st := src.nodes, src.tokens;
    ghost var e := StopAt(f, s, |sn|);
    last := at;
    var c: Node? := from;
    ghost var i := f;
    added := [];
    while c != null && c != stop
      invariant list.Valid()
      invariant f <= i <= e && |added| == i - f
      invariant c == if i < |sn| then sn[i] else null
      invariant list.tokens == pre + st[f..i] + post
      invariant list.nodes == preNodes + added + postNodes
      invariant forall m :: 0 <= m < |added| ==> fresh(added[m])
      invariant list.At(last, k + |added|)
      invariant last == if |added| == 0 then at else added[|added| - 1]
      decreases |sn| - i
    {
      WalkBound(sn, f, stop, s, i);
      InsertBetween(pre, st[f..i], post, st[i]);
      last, c := CopyOne(list, last, k + |added|, src, c, i);
      InsertBetween(preNodes, added, postNodes, last);
      assert st[f..i + 1] == st[f..i] + [st[i]];
      added := added + [last];
      i := i + 1;
    }
  }

  /**
   * `list.AddAfter(node, from, to)`: inserts copies of the tokens from `from` to `to` after `node`
   * (at the head when `node` is null) and returns the last inserted node. With nothing to copy it
   * returns `node`, or, when `node` is null, the placeholder that was added at the head and
   * removed again, which then belongs to no list. A null `to` with a non-null `from` is a null
   * dereference, and the placeholder is then left at the head.
   */
  method AddAfter(list: TokenList?, node: Node?, ghost nk: nat, src: TokenList, from: Node?, ghost fk: nat, to: Node?, ghost tk: nat)
      returns (r: Result<Node>, ghost added: seq<Node>)
    requires list != null ==> list.Valid() && list != src && (node != null ==> list.At(node, nk))
    requires src.Valid()
    requires from != null ==> src.At(from, fk)
    requires to != null ==> src.At(to, tk)
    modifies list
    ensures list == null ==> r == Fail(ArgumentNull("list"))
    ensures list != null && from != null && to == null ==>
      r == Fail(NullReference) && list.Valid() &&
      list.tokens == (if node == null then [Placeholder] else []) + old(list.tokens)
    ensures list != null && from == null ==>
      r.Ok? && list.Valid() && list.tokens == old(list.tokens) && list.nodes == old(list.nodes) &&
      (node != null ==> r.value == node) &&
      (node == null ==> fresh(r.value) && r.value !in list.nodes)
    ensures list != null && from != null && to != null ==>
      var c := CopiedRange(src.tokens, fk, tk);
      var k := if node == null then 0 else nk + 1;
      && r.Ok? && list.Valid()
      && list.tokens == old(list.tokens)[..k] + c + old(list.tokens)[k..]
      && list.nodes == old(list.nodes)[..k] + added + old(list.nodes)[k..]
      && |added| == |c| && (forall i :: 0 <= i < |added| ==> fresh(added[i]))
      && (|c| > 0 ==> r.value == added[|c| - 1])
      && (|c| == 0 && node != null ==> r.value == node)
      && (|c| == 0 && node == null ==> fresh(r.value) && r.value !in list.nodes)
  {
    added := [];
    if list == null {
      return Fail(ArgumentNull("list")), added;
    }
    var at := node;
    ghost var ak := nk;
    if at == null {
      at := list.AddFirst(Placeholder);
      ak := 0;
    }
    if from != null && to == null {
      return Fail(NullReference), added;
    }
    ghost var mid, midNodes := list.tokens, list.nodes;
    if from != null {
      at, added := Splice(list, at, ak, src, from, fk, to, tk);
    }
    if node == null {
      assert mid[..1] == [Placeholder] && mid[1..] == old(list.tokens);
      assert midNodes[1..] == old(list.nodes);
      list.RemoveFirst();
    }
    return Ok(at), added;
  }

  /** The range copy once `to.Next` can be read: copies `CopiedRange` after `at` (at position `k`). */
  method Splice(list: TokenList, at: Node, ghost k: nat, src: TokenList, from: Node, ghost fk: nat, to: Node, ghost tk: nat)
      returns (last: Node, ghost added: seq<Node>)
    requires list.Valid() && list.At(at, k) && src.Valid() && list != src
    requires src.At(from, fk) && src.At(to, tk)
    modifies list
    ensures var c := CopiedRange(src.tokens, fk, tk);
      && list.Valid()
      && list.tokens == old(list.tokens)[..k + 1] + c + old(list.tokens)[k + 1..]
      && list.nodes == old(list.nodes)[..k + 1] + added + old(list.nodes)[k + 1..]
      && |added| == |c| && (forall i :: 0 <= i < |added| ==> fresh(added[i]))
      && last == if |c| > 0 then added[|c| - 1] else at
  {
    var stop := src.Next(to, Some(tk));
    ghost var s := if tk + 1 < |src.nodes| then Some(tk + 1) else None;
    assert src.tokens[fk..StopAt(fk, s, |src.nodes|)] == CopiedRange(src.tokens, fk, tk);
    last, added := CopyWalk(list, at, k, src, from, fk, stop, s);
  }

  /** `node.Remove()`: `list` stands for `node.List`, and a node in no list has no list to remove it from. */
  method RemoveNode(list: TokenList, node: Node?, ghost k: Option<nat>) returns (r: Result<()>)
    requires list.Valid() && (node != null ==> list.Located(node, k))
    modifies list
    ensures list.Valid()
    ensures node == null ==> r == Fail(ArgumentNull("node")) && unchanged(list)
    ensures node != null && k.None? ==> r == Fail(NullReference) && unchanged(list)
    ensures node != null && k.Some? ==>
      && r == Ok(()) && node !in list.nodes
      && list.nodes == old(list.nodes)[..k.value] + old(list.nodes)[k.value + 1..]
      && list.tokens == old(list.tokens)[..k.value] + old(list.tokens)[k.value + 1..]
  {
    if node == null {
      return Fail(ArgumentNull("node"));
    }
    if node !in list.nodes {
      return Fail(NullReference);
    }
    list.Remove(node, k.value);
    return Ok(());
  }

  /** One pass of the `RemoveTo` loop: `list.Remove(start.Next)`, then a fresh look at `start.Next`. */
  method RemoveNext(list: TokenList, start: Node, ghost s: nat, n: Node) returns (next: Node?)
    requires list.Valid() && list.At(start, s) && list.At(n, s + 1)
    modifies list
    ensures list.Valid() && list.At(start, s)
    ensures list.nodes == old(list.nodes)[..s + 1] + old(list.nodes)[s + 2..]
    ensures list.tokens == old(list.tokens)[..s + 1] + old(list.tokens)[s + 2..]
    ensures next == if s + 1 < |list.nodes| then list.nodes[s + 1] else null
  {
    list.Remove(n, s + 1);
    next := list.Next(start, Some(s));
  }

  /**
   * The loop of `RemoveTo`: removes the successors of `start` (at position `s`) until the node
   * after it is `end`. Returns false when it runs out of successors first, which is where the
   * original then passes a null node to `Remove`.
   */
  method RemoveSuccessors(list: TokenList, start: Node, ghost s: nat, end: Node?, ghost ek: Option<nat>)
      returns (reached: bool)
    requires list.Valid() && list.At(start, s)
    requires end != null ==> list.Located(end, ek)
    modifies list
    ensures list.Valid() && list.At(start, s)
    ensures reached ==> end == null || (ek.Some? && s < ek.value)
    ensures reached && end == null ==> list.nodes == old(list.nodes)[..s + 1] && list.tokens == old(list.tokens)[..s + 1]
    ensures reached && end != null ==>
      && list.nodes == old(list.nodes)[..s + 1] + old(list.nodes)[ek.value..]
      && list.tokens == old(list.tokens)[..s + 1] + old(list.tokens)[ek.value..]
    ensures !reached ==> end != null && !(ek.Some? && s < ek.value)
    ensures !reached ==> list.nodes == old(list.nodes)[..s + 1] && list.tokens == old(list.tokens)[..s + 1]
  {
    ghost var ns, ts := list.nodes, list.tokens;
    ghost var j := 0;
    var n := list.Next(start, Some(s));
    while n != end
      invariant list.Valid() && list.At(start, s)
      invariant s + 1 + j <= |ns|
      invariant list.nodes == ns[..s + 1] + ns[s + 1 + j..]
      invariant list.tokens == ts[..s + 1] + ts[s + 1 + j..]
      invariant n == if s + 1 + j < |ns| then ns[s + 1 + j] else null
      invariant end != null && ek.Some? ==> !(s < ek.value < s + 1 + j)
      decreases |ns| - j
    {
      if n == null {
        return false;
      }
      ghost var cur, curTokens := list.nodes, list.tokens;
      n := RemoveNext(list, start, s, n);
      DropNext(cur, list.nodes, ns, s, j);
      DropNext(curTokens, list.tokens, ts, s, j);
      j := j + 1;
    }
    return true;
  }

  /**
   * `start.RemoveTo(end)`: removes `start` through `end` inclusive, or `start` through the tail when
   * `end` is null. When `end` does not follow `start`, everything after `start` is removed and then
   * the removal of the missing successor fails, leaving `start` as the new tail.
   */
  method RemoveTo(list: TokenList, start: Node?, ghost sk: Option<nat>, end: Node?, ghost ek: Option<nat>)
      returns (r: Result<()>)
    requires list.Valid()
    requires start != null ==> list.Located(start, sk)
    requires end != null ==> list.Located(end, ek)
    modifies list
    ensures list.Valid()
    ensures start == null ==> r == Fail(ArgumentNull("start")) && unchanged(list)
    ensures start != null && sk.None? ==> r == Fail(NullReference) && unchanged(list)
    ensures start != null && sk.Some? && end == null ==>
      r == Ok(()) && list.tokens == old(list.tokens)[..sk.value] && list.nodes == old(list.nodes)[..sk.value]
    ensures start != null && sk.Some? && end != null && ek.Some? && sk.value < ek.value ==>
      && r == Ok(())
      && list.tokens == old(list.tokens)[..sk.value] + old(list.tokens)[ek.value + 1..]
      && list.nodes == old(list.nodes)[..sk.value] + old(list.nodes)[ek.value + 1..]
    ensures start != null && sk.Some? && end != null && !(ek.Some? && sk.value < ek.value) ==>
      && r == Fail(ArgumentNull("node"))
      && list.tokens == old(list.tokens)[..sk.value + 1]
      && list.nodes == old(list.nodes)[..sk.value + 1]
  {
    if start == null {
      return Fail(ArgumentNull("start"));
    }
    if start !in list.nodes {
      return Fail(NullReference);
    }
    var reached := RemoveSuccessors(list, start, sk.value, end, ek);
    if !reached {
      return Fail(ArgumentNull("node"));
    }
    ghost var mid, midNodes := list.tokens, list.nodes;
    list.Remove(start, sk.value);
    if end != null {
      list.Remove(end, sk.value);
    }
    return Ok(());
  }
}
