/**
 * `NiceNameFromCaption`: a label made from the words of a caption. The untagged tokens up to the
 * `end_caption` token are lower-cased, every character other than a-z and 0-9 becomes a space,
 * and each remaining word that is not a boring word is capitalised; the words are joined with
 * nothing between them. A name already used as a reference name gets the first free number
 * appended.
 */
module Captions {
  import opened Wrappers
  import opened Text
  import opened Tokens
  import opened LinkedTokens
  import opened Matcher

  /** Words a caption name leaves out. */
  const BoringWords: set<string> := {"the", "a", "an", "and", "in", "to", "for", "as", "of", "show", "shows", "shown"}

  /** The characters the pattern `[^a-z0-9]` does not replace. */
  predicate IsNameChar(c: char) {
    'a' <= c <= 'z' || '0' <= c <= '9'
  }

  /** `string.IsNullOrWhiteSpace`. */
  predicate IsBlankText(s: Option<string>) {
    s.None? || forall i :: 0 <= i < |s.value| ==> IsWhiteSpace(s.value[i])
  }

  /** `Regex.Replace(words, "[^a-z0-9]", " ")`. */
  function Scrub(s: string): (r: string)
    ensures |r| == |s|
    ensures forall i :: 0 <= i < |s| ==> (IsNameChar(s[i]) ==> r[i] == s[i]) && (!IsNameChar(s[i]) ==> r[i] == ' ')
  {
    seq(|s|, i requires 0 <= i < |s| => if IsNameChar(s[i]) then s[i] else ' ')
  }

  /** The words of a text token's value: lower-cased, scrubbed, split at spaces. */
  function CaptionWords(text: string): seq<string> {
    Split(Scrub(Lower(text)), ' ')
  }

  /** `word.Substring(0, 1).ToUpper() + word.Substring(1)`. */
  function Capitalized(w: string): string
    requires w != []
  {
    [UpperChar(w[0])] + w[1..]
  }

  /** The name parts the inner loop adds for `words`: blank and boring words skipped, the rest capitalised. */
  function NameParts(words: seq<string>): seq<string> {
    if words == [] then []
    else
      var w := words[0];
      (if IsBlankText(Some(w)) || w in BoringWords then [] else [Capitalized(w)]) + NameParts(words[1..])
  }

  /**
   * The name parts of the caption from position `k`: the walk stops at the end of the document
   * or at an `end_caption` token; tagged tokens are passed over; an untagged token without a
   * value makes `ToLower` throw.
   */
  function CaptionParts(toks: seq<Token>, k: nat): Result<seq<string>>
    decreases |toks| - k
  {
    if k >= |toks| || toks[k].metadata == Some("end_caption") then Ok([])
    else if toks[k].metadata.Some? then CaptionParts(toks, k + 1)
    else if toks[k].value.None? then Fail(NullReference)
    else
      match CaptionParts(toks, k + 1)
      case Ok(rest) => Ok(NameParts(CaptionWords(toks[k].value.value)) + rest)
      case Fail(e) => Fail(e)
  }

  /** `string.Join("", parts)`. */
  function JoinAll(parts: seq<string>): string {
    if parts == [] then [] else parts[0] + JoinAll(parts[1..])
  }

  /** The name made from the caption from position `k`: its parts joined. */
  function CaptionName(toks: seq<Token>, k: nat): Result<string> {
    match CaptionParts(toks, k)
    case Ok(parts) => Ok(JoinAll(parts))
    case Fail(e) => Fail(e)
  }

  // ---------------------------------------------------------------- what a name part looks like

  /** A name part: an upper-case letter or a digit, then letters a-z and digits; not a boring word. */
  predicate IsNamePart(p: string) {
    p != [] && ('A' <= p[0] <= 'Z' || '0' <= p[0] <= '9')
    && (forall j :: 1 <= j < |p| ==> IsNameChar(p[j]))
    && Lower(p) !in BoringWords
  }

  /** Every character of a part of `Split(s, sep)` occurs in `s`. */
  lemma {:induction false} SplitChars(s: string, sep: char)
    ensures forall i, j :: 0 <= i < |Split(s, sep)| && 0 <= j < |Split(s, sep)[i]| ==> Split(s, sep)[i][j] in s
    decreases |s|
  {
    var i := IndexOfChar(s, sep);
    if i >= 0 {
      var tail := s[i + 1..];
      var rest := Split(tail, sep);
      SplitChars(tail, sep);
      var parts := Split(s, sep);
      assert parts == [s[..i]] + rest;
      forall a, b | 0 <= a < |parts| && 0 <= b < |parts[a]| ensures parts[a][b] in s {
        if a == 0 {
          assert parts[a][b] == s[b];
        } else {
          assert parts[a] == rest[a - 1];
          var k :| 0 <= k < |tail| && tail[k] == rest[a - 1][b];
          assert s[i + 1 + k] == tail[k];
        }
      }
    }
  }

  /** The words of a caption are made of letters a-z and digits only. */
  lemma CaptionWordChars(text: string)
    ensures forall i, j :: 0 <= i < |CaptionWords(text)| && 0 <= j < |CaptionWords(text)[i]| ==> IsNameChar(CaptionWords(text)[i][j])
  {
    var s := Scrub(Lower(text));
    SplitChars(s, ' ');
    var ws := Split(s, ' ');
    forall i, j | 0 <= i < |ws| && 0 <= j < |ws[i]| ensures IsNameChar(ws[i][j]) {
      var c := ws[i][j];
      assert c in s && c != ' ';
      var k :| 0 <= k < |s| && s[k] == c;
    }
  }

  /** Lower-casing a capitalised word of name characters gives the word back. */
  lemma LowerCapitalized(w: string)
    requires w != [] && forall j :: 0 <= j < |w| ==> IsNameChar(w[j])
    ensures Lower(Capitalized(w)) == w
  {
    var c := Capitalized(w);
    assert |Lower(c)| == |w|;
    forall j | 0 <= j < |w| ensures Lower(c)[j] == w[j] {
      if j == 0 {
        assert c[0] == UpperChar(w[0]);
      } else {
        assert c[j] == w[j];
      }
    }
  }

  /** The parts made from words of name characters are name parts. */
  lemma {:induction false} NamePartsWellFormed(words: seq<string>)
    requires forall i, j :: 0 <= i < |words| && 0 <= j < |words[i]| ==> IsNameChar(words[i][j])
    ensures forall i :: 0 <= i < |NameParts(words)| ==> IsNamePart(NameParts(words)[i])
  {
    if words != [] {
      var w := words[0];
      NamePartsWellFormed(words[1..]);
      if !(IsBlankText(Some(w)) || w in BoringWords) {
        assert forall j :: 0 <= j < |w| ==> IsNameChar(w[j]) by {
          forall j | 0 <= j < |w| ensures IsNameChar(w[j]) { assert w[j] == words[0][j]; }
        }
        LowerCapitalized(w);
        var c := Capitalized(w);
        assert w != [] by { assert !IsBlankText(Some(w)); }
        assert 'a' <= w[0] <= 'z' || '0' <= w[0] <= '9';
        assert forall j :: 1 <= j < |c| ==> c[j] == w[j];
      }
    }
  }

  /**
   * Every part a caption yields is a name part: it starts with a capital or a digit, goes on with
   * letters a-z and digits, and is not a boring word.
   */
  lemma {:induction false} CaptionPartsWellFormed(toks: seq<Token>, k: nat)
    ensures var r := CaptionParts(toks, k);
      r.Ok? ==> forall i :: 0 <= i < |r.value| ==> IsNamePart(r.value[i])
    decreases |toks| - k
  {
    if k < |toks| && toks[k].metadata != Some("end_caption") {
      CaptionPartsWellFormed(toks, k + 1);
      if toks[k].metadata.None? && toks[k].value.Some? {
        var ws := CaptionWords(toks[k].value.value);
        CaptionWordChars(toks[k].value.value);
        NamePartsWellFormed(ws);
      }
    }
  }

  /** A name joined from name parts is blank exactly when there are no parts. */
  lemma {:induction false} JoinedNameBlank(parts: seq<string>)
    requires forall i :: 0 <= i < |parts| ==> IsNamePart(parts[i])
    ensures IsBlankText(Some(JoinAll(parts))) <==> parts == []
  {
    if parts != [] {
      var p := parts[0];
      assert JoinAll(parts)[0] == p[0];
      assert !IsWhiteSpace(p[0]);
    }
  }

  // ---------------------------------------------------------------- a name not yet used

  /** The names `p1` to `pn`. */
  function Numbered(p: string, n: nat): (s: set<string>)
    ensures forall j :: 1 <= j <= n ==> p + NatToString(j) in s
  {
    if n == 0 then {} else Numbered(p, n - 1) + {p + NatToString(n)}
  }

  /** Only the names `p1` to `pn` are in `Numbered(p, n)`. */
  lemma {:induction false} NumberedOnly(p: string, n: nat, x: string)
    requires x in Numbered(p, n)
    ensures exists j :: 1 <= j <= n && x == p + NatToString(j)
  {
    if x != p + NatToString(n) {
      NumberedOnly(p, n - 1, x);
    }
  }

  /** `p` followed by distinct numbers gives distinct names. */
  lemma SuffixInjective(p: string, a: nat, b: nat)
    requires p + NatToString(a) == p + NatToString(b)
    ensures a == b
  {
    assert (p + NatToString(a))[|p|..] == NatToString(a);
    assert (p + NatToString(b))[|p|..] == NatToString(b);
    NatToStringInjective(a, b);
  }

  /** There are `n` names `p1` to `pn`. */
  lemma {:induction false} NumberedSize(p: string, n: nat)
    ensures |Numbered(p, n)| == n
  {
    if n > 0 {
      NumberedSize(p, n - 1);
      if p + NatToString(n) in Numbered(p, n - 1) {
        NumberedOnly(p, n - 1, p + NatToString(n));
        var j :| 1 <= j <= n - 1 && p + NatToString(n) == p + NatToString(j);
        SuffixInjective(p, n, j);
      }
    }
  }

  /**
   * `r` is the name given for `p` when the names in `taken` are used: `p` itself when it is free,
   * otherwise `p` followed by the least number from 1 on that makes a free name.
   */
  ghost predicate FirstFree(p: string, taken: set<string>, r: string) {
    (p !in taken && r == p)
    || (p in taken && exists i: nat :: i >= 1 && r == p + NatToString(i) && r !in taken && Numbered(p, i - 1) <= taken)
  }

  /** At most one name is the first free one. */
  lemma FirstFreeUnique(p: string, taken: set<string>, r1: string, r2: string)
    requires FirstFree(p, taken, r1) && FirstFree(p, taken, r2)
    ensures r1 == r2
  {
    if p in taken {
      var i1: nat :| i1 >= 1 && r1 == p + NatToString(i1) && r1 !in taken && Numbered(p, i1 - 1) <= taken;
      var i2: nat :| i2 >= 1 && r2 == p + NatToString(i2) && r2 !in taken && Numbered(p, i2 - 1) <= taken;
      // the smaller number's name lies among the names the larger one found taken
    }
  }

  /** The loop that appends 1, 2, … to a used name until the name is free. */
  method Disambiguate(p: string, taken: set<string>) returns (r: string)
    ensures FirstFree(p, taken, r)
  {
    r := p;
    if p in taken {
      var count: nat := 1;
      r := p + NatToString(count);
      while r in taken
        invariant count >= 1 && r == p + NatToString(count)
        invariant Numbered(p, count - 1) <= taken
        decreases |taken| - count
      {
        assert Numbered(p, count) == Numbered(p, count - 1) + {r};
        NumberedSize(p, count);
        SubsetSize(Numbered(p, count), taken);
        count := count + 1;
        r := p + NatToString(count);
      }
    }
  }

  /** A subset is no larger than its superset. */
  lemma SubsetSize<T>(a: set<T>, b: set<T>)
    requires a <= b
    ensures |a| <= |b|
  {
    assert b == a + (b - a);
  }

  // ---------------------------------------------------------------- the walk over the list

  /** The inner loop over the words of one text token. */
  method AddNameParts(parts: seq<string>, words: seq<string>) returns (parts': seq<string>)
    ensures parts' == parts + NameParts(words)
  {
    parts' := parts;
    for j := 0 to |words|
      invariant parts + NameParts(words) == parts' + NameParts(words[j..])
    {
      var w := words[j];
      assert words[j..] == [w] + words[j + 1..];
      if IsBlankText(Some(w)) || w in BoringWords {
        continue;
      }
      parts' := parts' + [Capitalized(w)];
    }
  }

  /** The parts gathered so far, put in front of the rest of the walk's result. */
  function Prepend(parts: seq<string>, r: Result<seq<string>>): Result<seq<string>> {
    match r
    case Ok(rest) => Ok(parts + rest)
    case Fail(e) => Fail(e)
  }

  /** Putting nothing in front changes nothing; two fronts add up. */
  lemma PrependFacts(a: seq<string>, b: seq<string>, r: Result<seq<string>>)
    ensures Prepend([], r) == r
    ensures Prepend(a, Prepend(b, r)) == Prepend(a + b, r)
  {
    if r.Ok? {
      assert [] + r.value == r.value;
      assert a + (b + r.value) == (a + b) + r.value;
    }
  }

  /** One step of the walk, at a token that does not end it. */
  lemma CaptionStep(toks: seq<Token>, i: nat)
    requires i < |toks| && toks[i].metadata != Some("end_caption")
    ensures toks[i].metadata.Some? ==> CaptionParts(toks, i) == CaptionParts(toks, i + 1)
    ensures toks[i].metadata.None? && toks[i].value.Some? ==>
      CaptionParts(toks, i) == Prepend(NameParts(CaptionWords(toks[i].value.value)), CaptionParts(toks, i + 1))
    ensures toks[i].metadata.None? && toks[i].value.None? ==> CaptionParts(toks, i) == Fail(NullReference)
  {
  }

  /** The outer loop of `NiceNameFromCaption`: the caption's name parts, from node `caption` on. */
  method CollectNameParts(list: TokenList, caption: Node?, ghost k: nat) returns (r: Result<seq<string>>)
    requires list.Valid() && k <= |list.nodes| && caption == NodeAt(list.nodes, k)
    ensures r == CaptionParts(list.tokens, k)
  {
    var parts: seq<string> := [];
    var node := caption;
    ghost var i := k;
    PrependFacts([], [], CaptionParts(list.tokens, k));
    while node != null
      invariant k <= i <= |list.nodes| && node == NodeAt(list.nodes, i)
      invariant CaptionParts(list.tokens, k) == Prepend(parts, CaptionParts(list.tokens, i))
      decreases |list.nodes| - i
    {
      var t := list.ValueOf(node, i);
      if t.metadata == Some("end_caption") {
        break;
      }
      CaptionStep(list.tokens, i);
      if t.metadata.None? {
        if t.value.None? {
          return Fail(NullReference);
        }
        var words := CaptionWords(t.value.value);
        PrependFacts(parts, NameParts(words), CaptionParts(list.tokens, i + 1));
        parts := AddNameParts(parts, words);
      }
      node := list.Next(node, Some(i));
      i := i + 1;
    }
    assert CaptionParts(list.tokens, i) == Ok([]);
    assert parts + [] == parts;
    return Ok(parts);
  }
}
