/**
 * The simplifier object: the document as a linked list of tokens, the reference names found so
 * far, and the level `upTo` reached by the five passes. Each pass first brings the document up to
 * the level before it, does nothing if its own level has been reached, and otherwise runs its
 * rules and records its level.
 */
module Pipeline {
  import opened Wrappers
  import opened Text
  import opened Tokens
  import opened LinkedTokens
  import opened Patterns
  import opened Matcher
  import opened Merges
  import opened Rules
  import opened Captions

  /** The last pass. */
  const LastPass: nat := 5

  function Min(a: int, b: int): int { if a <= b then a else b }
  function Max(a: int, b: int): int { if a >= b then a else b }

  /** What the modelled rules of pass `k` do to the document. */
  function PassEffect(k: nat, toks: seq<Token>): seq<Token> {
    if k == 1 then EmptiesRemoved(toks)
    else if k == 3 then Merged(Paragraphs, ParagraphMarks(toks), 0)
    else if k == 4 then Merged(Columns, TableCellMarks(TableRowMarks(toks)), 0)
    else if k == 5 then Merged(Citations, toks, 0)
    else toks
  }

  /** The modelled rules of the first pass: three kinds of empty element and proofing errors go. */
  function EmptiesRemoved(toks: seq<Token>): seq<Token> {
    Rewrites(toks, EmptySteps)
  }

  const EmptySteps: seq<Step> :=
    [Step(EmptyElementPattern("noProof"), []), Step(EmptyElementPattern("lastRenderedPageBreak"), []),
     Step(EmptyElementPattern("rPr"), []), Step(SkippedElementPattern("proofErr"), [])]

  /** The element names of the first pass are words of pattern code. */
  lemma EmptyElementNames()
    ensures Word("noProof") && Word("lastRenderedPageBreak") && Word("rPr")
    ensures "noProof" != "\0" && "lastRenderedPageBreak" != "\0" && "rPr" != "\0"
  {
    var n, l, r := "noProof", "lastRenderedPageBreak", "rPr";
    assert forall i :: 0 <= i < |n| ==> n[i] in "noPrf";
    assert forall i :: 0 <= i < |l| ==> l[i] in "lastRenderdPgBk";
    assert forall i :: 0 <= i < |r| ==> r[i] in "rP";
  }

  /** The document after the bodies of passes `from + 1` to `to`, in order. */
  function Passes(toks: seq<Token>, from: nat, to: nat): seq<Token>
    decreases to
  {
    if to <= from then toks else PassEffect(to, Passes(toks, from, to - 1))
  }

  /** One more pass body. */
  lemma PassesNext(toks: seq<Token>, from: nat, to: nat)
    requires from < to
    ensures Passes(toks, from, to) == PassEffect(to, Passes(toks, from, to - 1))
  {
  }

  /** Proof steps for the pass bodies: what `PassEffect` is at levels 3, 4 and 5. */
  lemma PassEffectIs3(toks: seq<Token>)
    ensures PassEffect(3, toks) == Merged(Paragraphs, ParagraphMarks(toks), 0)
  {
  }

  lemma PassEffectIs4(toks: seq<Token>)
    ensures PassEffect(4, toks) == Merged(Columns, TableCellMarks(TableRowMarks(toks)), 0)
  {
  }

  lemma PassEffectIs5(toks: seq<Token>)
    ensures PassEffect(5, toks) == Merged(Citations, toks, 0)
  {
  }

  /** The pass bodies that have run when the level is `n`: 1 to n, in order. */
  function Levels(n: nat): (ls: seq<nat>)
    ensures |ls| == n && forall i :: 0 <= i < n ==> ls[i] == i + 1
  {
    if n == 0 then [] else Levels(n - 1) + [n]
  }

  /** The bodies run so far are distinct and in increasing order: no body runs twice. */
  lemma LevelsIncrease(n: nat)
    ensures forall i, j :: 0 <= i < j < |Levels(n)| ==> Levels(n)[i] < Levels(n)[j]
  {
  }

  /** Running passes up to `b` and then up to `c` is running them up to `c`. */
  lemma {:induction false} PassesCompose(toks: seq<Token>, a: nat, b: nat, c: nat)
    requires a <= b <= c
    ensures Passes(Passes(toks, a, b), b, c) == Passes(toks, a, c)
    decreases c
  {
    if b < c {
      PassesCompose(toks, a, b, c - 1);
    }
  }

  class Simplifier {
    /** `DocumentTokens`. */
    const document: TokenList
    /** `NiceReferenceNames`: reference label to nice name. */
    var niceReferenceNames: map<string, string>
    /** `UpTo`: the last pass whose body has run. */
    var upTo: nat
    /** The pass bodies that have run, in order. */
    ghost var bodies: seq<nat>

    ghost predicate Valid()
      reads this, document
    {
      document.Valid() && upTo <= LastPass && bodies == Levels(upTo)
    }

    /** `new Simplifier(reader, warnings)`, for the document tokens the reader produced. */
    constructor (documentTokens: seq<Token>)
      ensures Valid() && fresh(document)
      ensures document.tokens == documentTokens && upTo == 0 && niceReferenceNames == map[]
    {
      document := new TokenList(documentTokens);
      niceReferenceNames := map[];
      upTo := 0;
      bodies := [];
    }

    /** `Pass1`: bring the document up to level 0, then run the body unless level 1 is reached. */
    method Pass1()
      requires Valid()
      modifies this, document
      ensures Valid() && niceReferenceNames == old(niceReferenceNames)
      ensures upTo == Max(old(upTo), 1)
      ensures document.tokens == Passes(old(document.tokens), old(upTo), upTo)
    {
      ghost var t0, u0 := document.tokens, upTo;
      if upTo > 0 {
        return;
      }
      Body1();
      PassesNext(t0, u0, 1);
    }

    /** The body of `Pass1` at level 0: the empty elements and the proofing errors go. */
    method Body1()
      requires Valid() && upTo == 0
      modifies this, document
      ensures Valid() && upTo == 1 && niceReferenceNames == old(niceReferenceNames)
      ensures document.tokens == PassEffect(1, old(document.tokens))
    {
      ghost var t0 := document.tokens;
      EmptyElementNames();
      RemoveEmptyElements(document, "noProof");
      RewritesNext(t0, EmptySteps, 0);
      RemoveEmptyElements(document, "lastRenderedPageBreak");
      RewritesNext(t0, EmptySteps, 1);
      RemoveEmptyElements(document, "rPr");
      RewritesNext(t0, EmptySteps, 2);
      RemoveProofingErrors(document);
      RewritesNext(t0, EmptySteps, 3);
      assert EmptySteps[..4] == EmptySteps;
      upTo := 1;
      bodies := bodies + [1];
    }

    /** `Pass2`: bring the document up to level 1, then run the body unless level 2 is reached. */
    method Pass2()
      requires Valid()
      modifies this, document
      ensures Valid() && niceReferenceNames == old(niceReferenceNames)
      ensures upTo == Max(old(upTo), 2)
      ensures document.tokens == Passes(old(document.tokens), old(upTo), upTo)
    {
      ghost var t0, u0 := document.tokens, upTo;
      if upTo < 1 {
        Pass1();
      }
      if upTo > 1 {
        return;
      }
      Body2();
      PassesNext(t0, u0, 2);
    }

    /** The body of `Pass2` at level 1: none of its rules is modelled. */
    method Body2()
      requires Valid() && upTo == 1
      modifies this, document
      ensures Valid() && upTo == 2 && niceReferenceNames == old(niceReferenceNames)
      ensures document.tokens == PassEffect(2, old(document.tokens))
    {
      upTo := 2;
      bodies := bodies + [2];
    }

    /** `Pass3`: bring the document up to level 2, then run the body unless level 3 is reached. */
    method Pass3()
      requires Valid()
      modifies this, document
      ensures Valid() && niceReferenceNames == old(niceReferenceNames)
      ensures upTo == Max(old(upTo), 3)
      ensures document.tokens == Passes(old(document.tokens), old(upTo), upTo)
    {
      ghost var t0, u0 := document.tokens, upTo;
      if upTo < 2 {
        Pass2();
      }
      if upTo > 2 {
        return;
      }
      Body3();
      PassesNext(t0, u0, 3);
    }

    /** The body of `Pass3` at level 2: paragraphs are simplified. */
    method Body3()
      requires Valid() && upTo == 2
      modifies this, document
      ensures Valid() && upTo == 3 && niceReferenceNames == old(niceReferenceNames)
      ensures document.tokens == PassEffect(3, old(document.tokens))
    {
      ghost var t0 := document.tokens;
      SimplifyParagraphs(document);
      PassEffectIs3(t0);
      upTo := 3;
      bodies := bodies + [3];
    }

    /** `Pass4`: bring the document up to level 3, then run the body unless level 4 is reached. */
    method Pass4()
      requires Valid()
      modifies this, document
      ensures Valid() && niceReferenceNames == old(niceReferenceNames)
      ensures upTo == Max(old(upTo), 4)
      ensures document.tokens == Passes(old(document.tokens), old(upTo), upTo)
    {
      ghost var t0, u0 := document.tokens, upTo;
      if upTo < 3 {
        Pass3();
      }
      if upTo > 3 {
        return;
      }
      Body4();
      PassesNext(t0, u0, 4);
    }

    /** The body of `Pass4` at level 3: tables are converted. */
    method Body4()
      requires Valid() && upTo == 3
      modifies this, document
      ensures Valid() && upTo == 4 && niceReferenceNames == old(niceReferenceNames)
      ensures document.tokens == PassEffect(4, old(document.tokens))
    {
      ghost var t0 := document.tokens;
      ConvertTables(document);
      PassEffectIs4(t0);
      upTo := 4;
      bodies := bodies + [4];
    }

    /** `Pass5`: bring the document up to level 4, then run the body unless level 5 is reached. */
    method Pass5()
      requires Valid()
      modifies this, document
      ensures Valid() && niceReferenceNames == old(niceReferenceNames)
      ensures upTo == Max(old(upTo), 5)
      ensures document.tokens == Passes(old(document.tokens), old(upTo), upTo)
    {
      ghost var t0, u0 := document.tokens, upTo;
      if upTo < 4 {
        Pass4();
      }
      if upTo > 4 {
        return;
      }
      Body5();
      PassesNext(t0, u0, 5);
    }

    /** The body of `Pass5` at level 4: citations are combined. */
    method Body5()
      requires Valid() && upTo == 4
      modifies this, document
      ensures Valid() && upTo == 5 && niceReferenceNames == old(niceReferenceNames)
      ensures document.tokens == PassEffect(5, old(document.tokens))
    {
      ghost var t0 := document.tokens;
      CombineCitations(document);
      PassEffectIs5(t0);
      upTo := 5;
      bodies := bodies + [5];
    }

    /** `RunAll(limit)`: the passes in order, stopping as soon as the level reaches `limit`. */
    method RunAll(limit: int)
      requires Valid()
      modifies this, document
      ensures Valid() && niceReferenceNames == old(niceReferenceNames)
      // a level already at `limit` stops it at once; otherwise (a fresh simplifier included) it ends at min(limit, 5)
      ensures upTo == if old(upTo) >= limit then old(upTo) else Min(limit, LastPass)
      ensures document.tokens == Passes(old(document.tokens), old(upTo), upTo)
    {
      ghost var t0, u0 := document.tokens, upTo;
      if upTo >= limit { return; }
      Pass1();
      if upTo >= limit { return; }
      ghost var u1 := upTo;
      Pass2();
      PassesCompose(t0, u0, u1, upTo);
      if upTo >= limit { return; }
      ghost var u2 := upTo;
      Pass3();
      PassesCompose(t0, u0, u2, upTo);
      if upTo >= limit { return; }
      ghost var u3 := upTo;
      Pass4();
      PassesCompose(t0, u0, u3, upTo);
      if upTo >= limit { return; }
      ghost var u4 := upTo;
      Pass5();
      PassesCompose(t0, u0, u4, upTo);
    }

    /**
     * `NiceNameFromCaption(caption, possibility)`: the given name, or when it is blank the name
     * made from the caption from node `caption` on; null when that is blank; otherwise the first
     * free name among the nice names used so far.
     */
    method NiceNameFromCaption(caption: Node?, ghost k: nat, possibility: Option<string>) returns (r: Result<Option<string>>)
      requires document.Valid() && k <= |document.nodes| && caption == NodeAt(document.nodes, k)
      ensures var base := if IsBlankText(possibility) then CaptionName(document.tokens, k) else Ok(possibility.value);
        match base
        case Fail(e) => r == Fail(e)
        case Ok(name) =>
          if IsBlankText(Some(name)) then r == Ok(None)
          else r.Ok? && r.value.Some? && FirstFree(name, niceReferenceNames.Values, r.value.value)
    {
      var name: string;
      if IsBlankText(possibility) {
        var parts := CollectNameParts(document, caption, k);
        if parts.Fail? {
          return Fail(parts.error);
        }
        name := JoinAll(parts.value);
      } else {
        name := possibility.value;
      }
      if IsBlankText(Some(name)) {
        return Ok(None);
      }
      var free := Disambiguate(name, niceReferenceNames.Values);
      return Ok(Some(free));
    }
  }
}
