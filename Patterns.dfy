/**
 * The pattern language of the rewrite engine. A pattern is a space-separated list of token
 * texts ("kind:value", "*" as a wildcard field). A bare `|` marks the element that follows it;
 * an element whose kind starts with `!` is a skip element that passes over tokens until it meets
 * the element after it, or its abort target (the same token without the `!`). A bare `!` is a
 * skip element whose abort target is the token with no kind and no value.
 */
module Patterns {
  import opened Wrappers
  import opened Text
  import opened Tokens

  /** A compiled pattern: the elements, and the index of the element a `|` marked (0 without one). */
  datatype Pattern = Pattern(elements: seq<Token>, offset: nat)

  /** The parts of a space-separated text: split at ' ', each part trimmed, empty parts dropped. */
  function Words(parts: seq<string>): (ws: seq<string>)
    ensures |ws| <= |parts|
    ensures forall i :: 0 <= i < |ws| ==> ws[i] != []
  {
    if parts == [] then []
    else
      var t := Trim(parts[0]);
      (if t == [] then [] else [t]) + Words(parts[1..])
  }

  /** The parts of `code`, as the compiler and the replacer read them. */
  function CodeParts(code: string): seq<string> {
    Words(Split(code, ' '))
  }

  /** The text a bare `!` is rewritten to: kind "!\0", value "\0". */
  const BareSkip: string := "!\0:\0"

  /** A part as the compiler keeps it: a bare `!` is rewritten, every other part is kept as is. */
  function Expand(part: string): string {
    if part == "!" then BareSkip else part
  }

  /** The parts that stay once every `|` is removed, in order. */
  function Kept(parts: seq<string>): (ks: seq<string>)
    ensures |ks| <= |parts|
  {
    if parts == [] then []
    else
      var init, last := parts[..|parts| - 1], parts[|parts| - 1];
      Kept(init) + (if last == "|" then [] else [Expand(last)])
  }

  /** The index the last `|` marks: how many parts stay before it; 0 without a `|`. */
  function MarkIndex(parts: seq<string>): nat {
    if parts == [] then 0
    else
      var init := parts[..|parts| - 1];
      if parts[|parts| - 1] == "|" then |Kept(init)| else MarkIndex(init)
  }

  /** `Token.Parse` applied to every part. */
  function ParseAll(parts: seq<string>): (ts: seq<Token>)
    ensures |ts| == |parts| && forall i :: 0 <= i < |parts| ==> ts[i] == Parse(parts[i])
  {
    seq(|parts|, i requires 0 <= i < |parts| => Parse(parts[i]))
  }

  /** The pattern a code compiles to. */
  function Compile(code: string): Pattern {
    var parts := CodeParts(code);
    Pattern(ParseAll(Kept(parts)), MarkIndex(parts))
  }

  /** A skip element: its kind starts with `!`. */
  predicate IsSkip(t: Token) {
    t.metadata.Some? && StartsWith(t.metadata.value, "!")
  }

  /** The abort target of a skip element: `new Token(kind without the '!', value)`. */
  function AbortTarget(t: Token): (a: Token)
    requires IsSkip(t)
    ensures a == Make(Some(t.metadata.value[1..]), t.value)
  {
    Make(Some(t.metadata.value[1..]), t.value)
  }

  /**
   * The compiler's loop over the parts: a `|` is removed and records how many parts precede it,
   * a bare `!` is rewritten, anything else is kept.
   */
  method MarkParts(parts: seq<string>) returns (kept: seq<string>, offset: nat)
    ensures kept == Kept(parts) && offset == MarkIndex(parts)
  {
    kept := parts;
    offset := 0;
    var i := 0;
    ghost var j := 0;
    while i < |kept|
      invariant j <= |parts| && i == |Kept(parts[..j])|
      invariant kept == Kept(parts[..j]) + parts[j..]
      invariant offset == MarkIndex(parts[..j])
      decreases |parts| - j
    {
      MarkStep(parts, j, kept, i);
      if kept[i] == "|" {
        offset := i;
        kept := kept[..i] + kept[i + 1..];
        i := i - 1;
      } else if kept[i] == "!" {
        kept := kept[i := BareSkip];
      }
      i := i + 1;
      j := j + 1;
    }
    assert parts[..j] == parts;
  }

  /** One pass of the compiler's loop keeps its invariant: part `j` of `parts` sits at index `i` of `kept`. */
  lemma MarkStep(parts: seq<string>, j: nat, kept: seq<string>, i: nat)
    requires j < |parts| && i == |Kept(parts[..j])| && kept == Kept(parts[..j]) + parts[j..]
    ensures i < |kept| && kept[i] == parts[j]
    ensures parts[j] == "|" ==> kept[..i] + kept[i + 1..] == Kept(parts[..j + 1]) + parts[j + 1..]
    ensures parts[j] == "|" ==> MarkIndex(parts[..j + 1]) == i && |Kept(parts[..j + 1])| == i
    ensures parts[j] != "|" ==> kept[i := Expand(parts[j])] == Kept(parts[..j + 1]) + parts[j + 1..]
    ensures parts[j] != "|" ==> MarkIndex(parts[..j + 1]) == MarkIndex(parts[..j])
    ensures parts[j] != "|" ==> |Kept(parts[..j + 1])| == i + 1
  {
    assert parts[..j + 1][..j] == parts[..j];
    assert parts[j..] == [parts[j]] + parts[j + 1..];
  }

  /** `FindSequence`'s compilation step: parse the kept parts. */
  method CompilePattern(code: string) returns (p: Pattern)
    ensures p == Compile(code)
  {
    var kept, offset := MarkParts(CodeParts(code));
    p := Pattern(ParseAll(kept), offset);
  }

  /** No `|` survives compilation, and the mark never lies beyond the last element. */
  lemma {:induction false} KeptHasNoBar(parts: seq<string>)
    ensures "|" !in Kept(parts)
    ensures MarkIndex(parts) <= |Kept(parts)|
    ensures |Kept(parts)| + multiset(parts)["|"] == |parts|
  {
    if parts != [] {
      var init := parts[..|parts| - 1];
      KeptHasNoBar(init);
      assert parts == init + [parts[|parts| - 1]];
      if Expand(parts[|parts| - 1]) == "|" {
        assert parts[|parts| - 1] == "|";
      }
    }
  }

  /** Without a `|` every part is kept (a bare `!` rewritten) and the mark index is 0. */
  lemma {:induction false} NoBarMarksFirst(parts: seq<string>)
    requires "|" !in parts
    ensures MarkIndex(parts) == 0
    ensures |Kept(parts)| == |parts| && forall i :: 0 <= i < |parts| ==> Kept(parts)[i] == Expand(parts[i])
  {
    if parts != [] {
      var init := parts[..|parts| - 1];
      assert forall x :: x in init ==> x in parts;
      NoBarMarksFirst(init);
    }
  }

  /** A bare `!` compiles to a skip element whose abort target has neither kind nor value. */
  lemma BareSkipAbortsOnEmptyToken()
    ensures Parse(Expand("!")) == Token(Some("!\0"), None)
    ensures IsSkip(Parse(Expand("!")))
    ensures AbortTarget(Parse(Expand("!"))) == Token(None, None)
  {
    var t := Parse(BareSkip);
    assert BareSkip[2] == ':' && ':' !in BareSkip[..2];
    assert BareSkip[..2] == "!\0" && BareSkip[3..] == "\0";
    assert t.metadata == Some("!\0");
    assert "!\0"[1..] == "\0";
  }

  /** A word of pattern code: not empty, no white space. */
  predicate Word(w: string) {
    w != [] && forall i :: 0 <= i < |w| ==> !IsWhiteSpace(w[i])
  }

  /** Splitting words joined by single spaces gives the words back. */
  lemma {:induction false} SplitJoinedWords(ws: seq<string>)
    requires |ws| >= 1 && forall k :: 0 <= k < |ws| ==> Word(ws[k])
    ensures Split(Join(ws, ' '), ' ') == ws
  {
    var w := ws[0];
    assert ' ' !in w by {
      forall i | 0 <= i < |w| ensures w[i] != ' ' { assert !IsWhiteSpace(w[i]); }
    }
    if |ws| == 1 {
      assert IndexOfChar(w, ' ') < 0;
    } else {
      var rest := Join(ws[1..], ' ');
      var s := w + [' '] + rest;
      assert Join(ws, ' ') == s;
      assert IndexOfChar(s, ' ') == |w| by {
        assert s[|w|] == ' ';
        forall k | 0 <= k < |w| ensures s[k] != ' ' { assert s[k] == w[k]; }
      }
      assert s[..|w|] == w && s[|w| + 1..] == rest;
      SplitJoinedWords(ws[1..]);
      assert ws == [w] + ws[1..];
    }
  }

  /** The parts of words joined by single spaces are those words. */
  lemma CodePartsOfWords(ws: seq<string>)
    requires |ws| >= 1 && forall k :: 0 <= k < |ws| ==> Word(ws[k])
    ensures CodeParts(Join(ws, ' ')) == ws
  {
    SplitJoinedWords(ws);
    WordsOfWords(ws);
  }

  lemma {:induction false} WordsOfWords(ws: seq<string>)
    requires forall k :: 0 <= k < |ws| ==> Word(ws[k])
    ensures Words(ws) == ws
  {
    if ws != [] {
      assert Trim(ws[0]) == ws[0];
      WordsOfWords(ws[1..]);
      assert ws == [ws[0]] + ws[1..];
    }
  }

  /** The code of the empty text has no parts: an empty replacement deletes. */
  lemma CodePartsOfEmpty()
    ensures CodeParts("") == []
  {
    assert Split("", ' ') == [""];
    assert Trim("") == "";
  }

  /**
   * Words without a `|`, joined by single spaces, compile to the parsed words (a bare `!`
   * rewritten) with the mark on the first element.
   */
  lemma CompileWords(ws: seq<string>)
    requires |ws| >= 1 && forall k :: 0 <= k < |ws| ==> Word(ws[k])
    requires "|" !in ws
    ensures var p := Compile(Join(ws, ' '));
      p.offset == 0 && |p.elements| == |ws| && forall i :: 0 <= i < |ws| ==> p.elements[i] == Parse(Expand(ws[i]))
  {
    CodePartsOfWords(ws);
    NoBarMarksFirst(ws);
    var ks := Kept(ws);
    assert Compile(Join(ws, ' ')) == Pattern(ParseAll(ks), MarkIndex(ws));
  }

  /** The code "k1:v1 k2:v2" compiles to its two parsed tokens, the mark on the first. */
  lemma PairCode(code: string, k1: string, v1: string, k2: string, v2: string)
    requires ':' !in k1 && ':' !in k2 && Word(k1 + ":" + v1) && Word(k2 + ":" + v2)
    requires code == k1 + ":" + v1 + " " + k2 + ":" + v2
    ensures Compile(code) == Pattern([Make(Some(k1), NullIfBlank(Some(v1))), Make(Some(k2), NullIfBlank(Some(v2)))], 0)
  {
    var w1, w2 := k1 + ":" + v1, k2 + ":" + v2;
    assert code == Join([w1, w2], ' ');
    assert w1 != "|" && w2 != "|" && w1 != "!" && w2 != "!" by {
      assert w1[|k1|] == ':' && w2[|k2|] == ':';
    }
    CompileWords([w1, w2]);
    ParseTagged(k1, v1);
    ParseTagged(k2, v2);
  }
}
