/**
 * `LinkedList<Token>` and `LinkedListNode<Token>` as the core uses them: a node is a stable handle
 * whose value and neighbours are read through the list that holds it. A node that has been
 * removed belongs to no list, so its `Next` and `Previous` are null.
 *
 * Operations that take a node also take, as a ghost argument, where that node sits: its position
 * in `nodes`, or `None` for a node that is in no list. The argument costs nothing at run time and
 * lets every contract speak of positions.
 */
module LinkedTokens {
  import opened Wrappers
  import opened Tokens

  /** A `LinkedListNode<Token>`: only its identity is modelled. */
  class Node {
    constructor () {}
  }

  /** No node occurs twice. */
  ghost predicate Distinct(ns: seq<Node>) {
    forall i, j :: 0 <= i < j < |ns| ==> ns[i] != ns[j]
  }

  /** The placeholder `default(Token)` that the range copy puts at the head for a moment. */
  const Placeholder: Token := Token(None, None)

  class TokenList {
    /** The nodes, head first. */
    var nodes: seq<Node>
    /** `tokens[i]` is the value of `nodes[i]`. */
    var tokens: seq<Token>

    ghost predicate Valid()
      reads this
    {
      |nodes| == |tokens| && Distinct(nodes)
    }

    /** `n` sits at position `k` of this list. */
    ghost predicate At(n: Node, k: nat)
      reads this
    {
      k < |nodes| && nodes[k] == n
    }

    /** `n` sits where `k` says: at a position, or (for `None`) nowhere in this list. */
    ghost predicate Located(n: Node, k: Option<nat>)
      reads this
    {
      match k
      case Some(p) => At(n, p)
      case None => n !in nodes
    }

    /** `new LinkedList<Token>(source)`: one fresh node per token, in order. */
    constructor (source: seq<Token>)
      ensures Valid() && tokens == source
      ensures forall i :: 0 <= i < |nodes| ==> fresh(nodes[i])
    {
      var ns: seq<Node> := [];
      while |ns| < |source|
        invariant |ns| <= |source| && Distinct(ns)
        invariant forall i :: 0 <= i < |ns| ==> fresh(ns[i])
      {
        var n := new Node();
        ns := ns + [n];
      }
      nodes := ns;
      tokens := source;
    }

    /** Finds the position of a node by walking from the head; in a valid list it is the only one. */
    method IndexOf(n: Node, ghost k: nat) returns (i: nat)
      requires Valid() && At(n, k)
      ensures i == k
    {
      i := 0;
      while nodes[i] != n
        invariant i <= k
        decreases k - i
      {
        i := i + 1;
      }
    }

    /** `list.First`. */
    function First(): (n: Node?)
      reads this
      ensures n == null <==> |nodes| == 0
      ensures n != null ==> At(n, 0)
    {
      if |nodes| == 0 then null else nodes[0]
    }

    /** `list.Last`. */
    function Last(): (n: Node?)
      reads this
      ensures n == null <==> |nodes| == 0
      ensures n != null ==> At(n, |nodes| - 1)
    {
      if |nodes| == 0 then null else nodes[|nodes| - 1]
    }

    /** `node.Next`: the node one position on; null for the tail and for a node in no list. */
    method Next(n: Node, ghost k: Option<nat>) returns (r: Node?)
      requires Valid() && Located(n, k)
      ensures k.None? ==> r == null
      ensures k.Some? ==> r == if k.value + 1 < |nodes| then nodes[k.value + 1] else null
    {
      if n !in nodes {
        return null;
      }
      var i := IndexOf(n, k.value);
      r := if i + 1 < |nodes| then nodes[i + 1] else null;
    }

    /** `node.Previous`: the node one position back; null for the head and for a node in no list. */
    method Previous(n: Node, ghost k: Option<nat>) returns (r: Node?)
      requires Valid() && Located(n, k)
      ensures k.None? ==> r == null
      ensures k.Some? ==> r == if k.value > 0 then nodes[k.value - 1] else null
    {
      if n !in nodes {
        return null;
      }
      var i := IndexOf(n, k.value);
      r := if i > 0 then nodes[i - 1] else null;
    }

    /** `node.Value`. */
    method ValueOf(n: Node, ghost k: nat) returns (t: Token)
      requires Valid() && At(n, k)
      ensures t == tokens[k]
    {
      var i := IndexOf(n, k);
      t := tokens[i];
    }

    /** Overwrite the token held at `n` (the rules' `node.Value = ...`). */
    method SetValue(n: Node, t: Token, ghost k: nat)
      requires Valid() && At(n, k)
      modifies this
      ensures Valid() && nodes == old(nodes)
      ensures tokens == old(tokens)[k := t]
    {
      var i := IndexOf(n, k);
      tokens := tokens[i := t];
    }

    /** `list.AddFirst(t)`. */
    method AddFirst(t: Token) returns (n: Node)
      requires Valid()
      modifies this
      ensures Valid() && fresh(n)
      ensures nodes == [n] + old(nodes) && tokens == [t] + old(tokens)
    {
      n := new Node();
      nodes := [n] + nodes;
      tokens := [t] + tokens;
    }

    /** `list.AddAfter(at, t)`: a fresh node right after `at`. */
    method AddAfter(at: Node, t: Token, ghost k: nat) returns (n: Node)
      requires Valid() && At(at, k)
      modifies this
      ensures Valid() && fresh(n)
      ensures nodes == old(nodes)[..k + 1] + [n] + old(nodes)[k + 1..]
      ensures tokens == old(tokens)[..k + 1] + [t] + old(tokens)[k + 1..]
    {
      var i := IndexOf(at, k);
      n := new Node();
      nodes := nodes[..i + 1] + [n] + nodes[i + 1..];
      tokens := tokens[..i + 1] + [t] + tokens[i + 1..];
    }

    /** `list.AddBefore(at, t)`: a fresh node right before `at`. */
    method AddBefore(at: Node, t: Token, ghost k: nat) returns (n: Node)
      requires Valid() && At(at, k)
      modifies this
      ensures Valid() && fresh(n)
      ensures nodes == old(nodes)[..k] + [n] + old(nodes)[k..]
      ensures tokens == old(tokens)[..k] + [t] + old(tokens)[k..]
    {
      var i := IndexOf(at, k);
      n := new Node();
      nodes := nodes[..i] + [n] + nodes[i..];
      tokens := tokens[..i] + [t] + tokens[i..];
    }

    /** `list.Remove(node)` for a node of this list: it then belongs to no list. */
    method Remove(n: Node, ghost k: nat)
      requires Valid() && At(n, k)
      modifies this
      ensures Valid() && n !in nodes
      ensures nodes == old(nodes)[..k] + old(nodes)[k + 1..]
      ensures tokens == old(tokens)[..k] + old(tokens)[k + 1..]
    {
      var i := IndexOf(n, k);
      nodes := nodes[..i] + nodes[i + 1..];
      tokens := tokens[..i] + tokens[i + 1..];
    }

    /** `list.RemoveFirst()` on a non-empty list. */
    method RemoveFirst()
      requires Valid() && |nodes| > 0
      modifies this
      ensures Valid() && old(nodes)[0] !in nodes
      ensures nodes == old(nodes)[1..] && tokens == old(tokens)[1..]
    {
      nodes := nodes[1..];
      tokens := tokens[1..];
    }
  }
}
