/**
 * `Find(code)`: the lazy enumeration of matches over the document. After each match is handed
 * to the caller, who may edit the list, the enumeration resumes from the match's predecessor
 * as the list then stands: two nodes after it, or at the head's successor when the match began
 * at the head; it stops when the predecessor has no successor.
 *
 * The iterator is modelled as its enumerator object: `MoveNext` runs the body up to the next
 * `yield` and leaves the match in `current`.
 */
module Enumerator {
  import opened Wrappers
  import opened Tokens
  import opened Patterns
  import opened LinkedTokens
  import opened Matcher

  /** Where the predecessor of the last match is when the enumeration resumes. */
  datatype Predecessor =
    | NoPredecessor     // the match began at the head
    | InList(k: nat)    // at position k of the document
    | Unlinked          // the caller removed it from the document

  /**
   * The position `Find` searches from when it resumes on a document of `n` tokens (`n` stands
   * for a null node), or `None` when it stops. A match that began at the head is resumed from
   * `First.Next`, which fails when the caller has emptied the document.
   */
  function ResumeFrom(n: nat, pre: Predecessor): (r: Result<Option<nat>>)
    ensures r.Fail? <==> pre.NoPredecessor? && n == 0
    ensures r.Fail? ==> r.error == NullReference
    ensures r.Ok? && r.value.Some? ==> r.value.value <= n
    ensures pre.Unlinked? ==> r == Ok(None)
    ensures pre.InList? ==> (r == Ok(None) <==> pre.k + 1 >= n)
  {
    match pre
    case NoPredecessor => if n == 0 then Fail(NullReference) else Ok(Some(1))
    case InList(k) => if k + 1 < n then Ok(Some(k + 2)) else Ok(None)
    case Unlinked => Ok(None)
  }

  /** The predecessor of a match that starts at position `s`, as the unedited list has it. */
  function PredecessorOf(s: nat): (pre: Predecessor)
    ensures s == 0 <==> pre.NoPredecessor?
    ensures s > 0 ==> pre == InList(s - 1)
  {
    if s == 0 then NoPredecessor else InList(s - 1)
  }

  /**
   * When the caller leaves the list as it is, the enumeration resumes right after the match's
   * Start, so the next match begins strictly later: matches are reported left to right.
   */
  lemma UneditedResumesAfterStart(toks: seq<Token>, p: Pattern, from: nat)
    requires from <= |toks|
    ensures var r := Search(toks, p, from);
      r.IsMatch() ==> (ResumeFrom(|toks|, PredecessorOf(r.start.value)) == Ok(Some(r.start.value + 1))
                       && var r' := Search(toks, p, r.start.value + 1); r'.IsMatch() ==> r'.start.value > r.start.value)
  {
    var r := Search(toks, p, from);
    SearchBounds(toks, p, from);
    if r.IsMatch() {
      SearchBounds(toks, p, r.start.value + 1);
    }
  }

  /**
   * When the caller deletes the match (positions `s` to `e`) and the match had a predecessor,
   * the enumeration resumes one node after the first node that followed the match: the token
   * that followed the deleted match is never tried as a Start.
   */
  lemma DeletedMatchSkipsFollower(toks: seq<Token>, s: nat, e: nat)
    requires 0 < s <= e < |toks|
    ensures var edited := toks[..s] + toks[e + 1..];
      e + 1 < |toks| ==> (edited[s] == toks[e + 1] && ResumeFrom(|edited|, PredecessorOf(s)) == Ok(Some(s + 1)))
    ensures var edited := toks[..s] + toks[e + 1..];
      e + 1 == |toks| ==> ResumeFrom(|edited|, PredecessorOf(s)) == Ok(None)
  {
  }

  /** `pre` is where `where` says, in `doc`. */
  ghost predicate Locates(doc: TokenList, pre: Node?, where: Predecessor)
    reads doc
  {
    match where
    case NoPredecessor => pre == null
    case InList(k) => pre != null && doc.At(pre, k)
    case Unlinked => pre != null && pre !in doc.nodes
  }

  /**
   * The node `Find` resumes from (as a position `q`, |doc| for null), or `None` when it stops:
   * the successor of the successor of `pre`, or `First.Next` when `pre` is null.
   */
  method ResumeNode(doc: TokenList, pre: Node?, ghost where: Predecessor) returns (r: Result<Option<Node?>>, ghost q: nat)
    requires doc.Valid() && Locates(doc, pre, where)
    ensures r.Fail? ==> ResumeFrom(|doc.nodes|, where) == Fail(r.error)
    ensures r.Ok? && r.value.None? ==> ResumeFrom(|doc.nodes|, where) == Ok(None)
    ensures r.Ok? && r.value.Some? ==> ResumeFrom(|doc.nodes|, where) == Ok(Some(q)) && r.value.value == NodeAt(doc.nodes, q)
  {
    if pre == null {
      var first := doc.First();
      if first == null {
        return Fail(NullReference), 0;
      }
      var from := doc.Next(first, Some(0));
      return Ok(Some(from)), 1;
    }
    ghost var k: Option<nat> := if where.InList? then Some(where.k) else None;
    var next := doc.Next(pre, k);
    if next == null {
      return Ok(None), 0;
    }
    var from := doc.Next(next, Some(k.value + 1));
    return Ok(Some(from)), k.value + 2;
  }

  /** The enumerator of `Find(code)` over `doc`. */
  class FindEnumerator {
    const doc: TokenList
    const code: string
    /** The code compiled; every search of the enumeration compiles the same code to it. */
    const pattern: Pattern
    /** `MoveNext` has run once: the first search has been made. */
    var started: bool
    /** The body has left its loop: no further match will be reported. */
    var finished: bool
    /** `c.Start.Previous`, captured just before the last `yield`. */
    var pre: Node?
    /** The last match handed out. */
    var current: FindResult

    constructor (doc: TokenList, code: string)
      ensures this.doc == doc && this.code == code && pattern == Compile(code) && !started && !finished
    {
      var compiled := CompilePattern(code);
      this.doc := doc;
      this.code := code;
      pattern := compiled;
      started := false;
      finished := false;
      pre := null;
      current := FindResult(null, null, null);
    }

    /**
     * Runs the body to the next `yield` (true) or to its end (false). `where` tells where the
     * predecessor captured at the last `yield` now is.
     */
    method MoveNext(ghost where: Predecessor) returns (r: Result<bool>)
      requires doc.Valid()
      requires started && !finished ==> Locates(doc, pre, where)
      modifies this
      ensures old(finished) ==> r == Ok(false) && finished
      ensures !old(finished) ==>
        var resume := if old(started) then ResumeFrom(|doc.nodes|, where) else Ok(Some(0));
        if resume.Fail? then r == Fail(resume.error)
        else if resume.value.None? then r == Ok(false) && finished
        else
          var f := Search(doc.tokens, pattern, resume.value.value);
          if resume.value.value == |doc.nodes| && |pattern.elements| == 0 then r == Fail(NullReference)
          else if f.IsMatch() then
            r == Ok(true) && started && !finished && current == Nodes(doc.nodes, f)
            && pre == NodeOf(doc.nodes, if f.start.value > 0 then Some(f.start.value - 1) else None)
          else r == Ok(false) && finished
    {
      if finished {
        return Ok(false);
      }
      var from: Node?;
      ghost var q: nat;
      if !started {
        started := true;
        from, q := doc.First(), 0;
      } else {
        var resume;
        resume, q := ResumeNode(doc, pre, where);
        if resume.Fail? {
          return Fail(resume.error);
        }
        if resume.value.None? {
          finished := true;
          return Ok(false);
        }
        from := resume.value.value;
      }
      var c := FindPattern(doc, from, q, pattern);
      if c.Fail? {
        return Fail(c.error);
      }
      SearchBounds(doc.tokens, pattern, q);
      if !c.value.IsMatch() {
        finished := true;
        return Ok(false);
      }
      ghost var s := Search(doc.tokens, pattern, q).start.value;
      pre := doc.Previous(c.value.start, Some(s));
      current := c.value;
      r := Ok(true);
    }
  }
}
