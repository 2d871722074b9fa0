/**
 * The LaTeX converter: the token stream, converted token by token (with the paragraph-style
 * counter and the paragraph-end skipping of `DoConvert`), and routed into output texts by
 * `Run`, which sends each float to a text of its own.
 */
module Converter {
  import opened Wrappers
  import opened Text
  import opened Tokens
  import opened Conversions

  /** The default keys of the output texts. */
  const DocumentKey: string := "document.tex"
  const PreambleKey: string := "preamble.tex"
  const BibliographyKey: string := "bibliography.bib"

  /** What a paragraph style opens, by heading level. */
  const HeadingCommands: seq<string> := ["\\chapter{", "\\section{", "\\subsection{", "\\subsubsection{"]

  /** The largest value `int.TryParse` accepts. */
  const IntMax: nat := 0x7FFF_FFFF

  predicate IsDigit(c: char) {
    '0' <= c <= '9'
  }

  function DecimalValue(s: string): nat
    requires forall i :: 0 <= i < |s| ==> IsDigit(s[i])
  {
    if s == [] then 0 else assert IsDigit(s[|s| - 1]); DecimalValue(s[..|s| - 1]) * 10 + (s[|s| - 1] as int - '0' as int)
  }

  /**
   * The heading level of a paragraph style: the style matches `^Heading([0-9]+)$` (where `$`
   * also matches before a final line feed) and its digits parse as an `int`.
   */
  function HeadingNumber(text: string): (n: Option<nat>)
    ensures n.Some? ==> StartsWith(text, "Heading") && n.value <= IntMax
  {
    if !StartsWith(text, "Heading") then None
    else
      var rest := text[7..];
      var digits := if rest != [] && rest[|rest| - 1] == '\n' then rest[..|rest| - 1] else rest;
      if digits != [] && (forall i :: 0 <= i < |digits| ==> IsDigit(digits[i])) && DecimalValue(digits) <= IntMax
      then Some(DecimalValue(digits))
      else None
  }

  /**
   * The token `ConvertParagraphStyle` returns for style `text` with heading offset `offset`:
   * nothing for body text; for `HeadingN` the command of level N + offset - 1 (a negative level
   * fails, a level past the commands gives the lower-cased style); for an appendix style the
   * appendix opener; nothing otherwise. A null style fails in the regular expression.
   */
  function ParagraphStyle(text: Option<string>, offset: int): Result<Option<Token>>
    requires 0 <= offset <= 1
  {
    if text == Some("BodyText") then Ok(None)
    else if text.None? then Fail(ArgumentNull("input"))
    else match HeadingNumber(text.value)
      case Some(n) =>
        var i := n + offset - 1;
        if i < 0 then Fail(IndexOutOfRange)
        else if i < |HeadingCommands| then Ok(Some(FromText(Some(HeadingCommands[i]))))
        else Ok(Some(FromText(Some(Lower(text.value)))))
      case None =>
        if Lower(text.value) == "appendix" then Ok(Some(Make(Some("appendix"), Some(HeadingCommands[offset]))))
        else Ok(None)
  }

  /** The counter after a paragraph style: raised unless the style gave nothing. */
  function CountAfterStyle(count: int, r: Result<Option<Token>>): int {
    if r == Ok(None) then count else count + 1
  }

  /** `ConvertEndOfParagraph`: a paragraph break, closing the open style group if there is one; and the new counter. */
  function EndOfParagraph(count: int, verbatim: bool): (Token, int) {
    var nl := if verbatim then "\r\n" else "\r\n\r\n";
    if count > 0 then (FromText(Some("}" + nl)), count - 1) else (FromText(Some(nl)), count)
  }

  /** An entry of the conversion table: what a kind makes of a token's value. */
  type Entry = Option<string> -> Result<Option<Token>>

  /** The table the constructor builds: every default kind with its conversion, the chapter variants included. */
  function DefaultTable(asChapter: bool): (m: map<string, Entry>)
    ensures m.Keys == DefaultKinds
  {
    map k | k in DefaultKinds :: (v: Option<string>) => Conversion(k, v, asChapter)
  }

  /** What conversion sees besides the token: the heading offset, the verbatim flag and the tables. */
  datatype Context = Context(offset: int, verbatim: bool, table: map<string, Entry>, text: seq<Substitution>, math: seq<Substitution>)

  /**
   * One token converted (before the no-break check), and the paragraph-style counter after it:
   * untagged text gets the text table unless verbatim, a null text is dropped; a known kind is
   * converted by its entry; an unknown kind becomes an `error` token holding the token's text;
   * a `math` kind's result gets the maths table, and is dropped when it is null or has no value.
   */
  function Translate(t: Token, c: Context, count: int): (Result<Option<Token>>, int)
    requires 0 <= c.offset <= 1
  {
    match t.metadata
    case None =>
      if t.value.None? then (Ok(None), count)
      else if c.verbatim then (Ok(Some(t)), count)
      else (match SubstituteValue(t, c.text)
        case Fail(e) => (Fail(e), count)
        case Ok(tok) => (Ok(Some(tok)), count))
    case Some(kind) =>
      var (r, n) := ConvertTagged(kind, t, c, count);
      if StartsWithLower(kind, "math") then (MathStage(r, c.math), n) else (r, n)
  }

  /** A tagged token through its conversion: the two paragraph conversions, the table, or an error token. */
  function ConvertTagged(kind: string, t: Token, c: Context, count: int): (Result<Option<Token>>, int)
    requires 0 <= c.offset <= 1
  {
    if kind == "para_style" then
      var s := ParagraphStyle(t.value, c.offset); (s, CountAfterStyle(count, s))
    else if kind == "eop" then
      var (tok, m) := EndOfParagraph(count, c.verbatim); (Ok(Some(tok)), m)
    else if kind in c.table then (c.table[kind](t.value), count)
    else (Ok(Some(Make(Some("error"), ToString(t)))), count)
  }

  /** A `math` result: dropped when null or without value, else its value through the maths table. */
  function MathStage(r: Result<Option<Token>>, math: seq<Substitution>): Result<Option<Token>> {
    if r.Fail? then r
    else if r.value.None? || r.value.value.value.None? then Ok(None)
    else match SubstituteValue(r.value.value, math)
      case Fail(e) => Fail(e)
      case Ok(tok) => Ok(Some(tok))
  }

  /** A token whose value has been through a substitution table; the kind is kept. */
  function SubstituteValue(t: Token, table: seq<Substitution>): (r: Result<Token>)
    requires t.value.Some?
    ensures r.Ok? <==> Substituted(t.value.value, table).Ok?
    ensures r.Ok? ==> r.value.metadata == t.metadata && r.value.value == Some(Substituted(t.value.value, table).value)
  {
    match Substituted(t.value.value, table)
    case Fail(e) => Fail(e)
    case Ok(v) => Ok(t.(value := Some(v)))
  }

  /** A converted value that ends with the no-break marker. */
  predicate EndsWithNoBreak(t: Token) {
    t.value.Some? && t.value.value != "" && EndsWith(t.value.value, NoBreak)
  }

  /** The token without its no-break marker. */
  function WithoutNoBreak(t: Token): (r: Token)
    requires EndsWithNoBreak(t)
    ensures r.metadata == t.metadata && r.value.Some? && r.value.value + NoBreak == t.value.value
  {
    var v := t.value.value;
    assert v == v[..|v| - |NoBreak|] + NoBreak;
    t.(value := Some(v[..|v| - |NoBreak|]))
  }

  /** The outcome of one step of `DoConvert`: the token passed on, if any, and the new counters. */
  datatype Stepped = Stepped(out: Option<Token>, count: int, skip: nat, stripped: bool, dropped: bool)

  /**
   * One step of `DoConvert`: a paragraph end while ends are owed is dropped and pays one off;
   * otherwise the token is converted, and a result ending with the no-break marker loses it
   * and owes one paragraph end.
   */
  function Step(t: Token, c: Context, count: int, skip: nat): Result<Stepped>
    requires 0 <= c.offset <= 1
  {
    if t.metadata == Some("eop") && skip > 0 then Ok(Stepped(None, count, skip - 1, false, true))
    else
      var (r, n) := Translate(t, c, count);
      match r
      case Fail(e) => Fail(e)
      case Ok(None) => Ok(Stepped(None, n, skip, false, false))
      case Ok(Some(tok)) =>
        if EndsWithNoBreak(tok) then Ok(Stepped(Some(WithoutNoBreak(tok)), n, skip + 1, true, false))
        else Ok(Stepped(Some(tok), n, skip, false, false))
  }

  /** The whole of `DoConvert` over a stream: the tokens passed on, the counters, and how many values were stripped and ends dropped. */
  datatype Outcome = Outcome(out: seq<Token>, count: int, skip: nat, stripped: nat, dropped: nat)

  function ConvertAll(ts: seq<Token>, c: Context, count: int, skip: nat): Result<Outcome>
    requires 0 <= c.offset <= 1
    decreases |ts|
  {
    if ts == [] then Ok(Outcome([], count, skip, 0, 0))
    else match Step(ts[0], c, count, skip)
      case Fail(e) => Fail(e)
      case Ok(s) =>
        match ConvertAll(ts[1..], c, s.count, s.skip)
        case Fail(e) => Fail(e)
        case Ok(rest) =>
          Ok(Outcome((if s.out.Some? then [s.out.value] else []) + rest.out, rest.count, rest.skip,
                 rest.stripped + (if s.stripped then 1 else 0), rest.dropped + (if s.dropped then 1 else 0)))
  }

  /** Converting a stream is converting its first token, then the rest from the counters that step leaves. */
  lemma ConvertAllCons(ts: seq<Token>, c: Context, count: int, skip: nat, s: Stepped)
    requires 0 <= c.offset <= 1 && ts != [] && Step(ts[0], c, count, skip) == Ok(s)
    ensures var rest := ConvertAll(ts[1..], c, s.count, s.skip);
      (ConvertAll(ts, c, count, skip).Ok? <==> rest.Ok?)
      && (rest.Ok? ==>
            ConvertAll(ts, c, count, skip).value.out == (if s.out.Some? then [s.out.value] else []) + rest.value.out
            && ConvertAll(ts, c, count, skip).value.count == rest.value.count)
  {
  }

  /** `ConvertAllCons` at position `i` of a stream: a failing step fails the rest of the stream. */
  lemma ConvertAllAt(ts: seq<Token>, i: nat, c: Context, count: int, skip: nat)
    requires 0 <= c.offset <= 1 && i < |ts|
    ensures var step := Step(ts[i], c, count, skip);
      var here := ConvertAll(ts[i..], c, count, skip);
      (step.Fail? ==> here.Fail?)
      && (step.Ok? ==>
            var rest := ConvertAll(ts[i + 1..], c, step.value.count, step.value.skip);
            (here.Ok? <==> rest.Ok?)
            && (rest.Ok? ==>
                  here.value.out == (if step.value.out.Some? then [step.value.out.value] else []) + rest.value.out
                  && here.value.count == rest.value.count))
  {
    assert ts[i..][0] == ts[i] && ts[i..][1..] == ts[i + 1..];
    if Step(ts[i], c, count, skip).Ok? {
      ConvertAllCons(ts[i..], c, count, skip, Step(ts[i], c, count, skip).value);
    }
  }

  /** The number of paragraph-end tokens in a stream. */
  function Eops(ts: seq<Token>): nat
    decreases |ts|
  {
    if ts == [] then 0 else (if ts[0].metadata == Some("eop") then 1 else 0) + Eops(ts[1..])
  }

  // ---------------------------------------------------------------- properties of a step

  /** A step keeps the paragraph-style counter non-negative. */
  lemma StepCountNonNegative(t: Token, c: Context, count: int, skip: nat)
    requires 0 <= c.offset <= 1 && count >= 0
    ensures Step(t, c, count, skip).Ok? ==> Step(t, c, count, skip).value.count >= 0
  {
  }

  /** Every no-break marker owes exactly one paragraph end, and only paragraph ends are dropped, one per debt. */
  lemma StepAccounting(t: Token, c: Context, count: int, skip: nat)
    requires 0 <= c.offset <= 1
    ensures Step(t, c, count, skip).Ok? ==> var s := Step(t, c, count, skip).value;
      s.skip + (if s.dropped then 1 else 0) == skip + (if s.stripped then 1 else 0)
      && (s.dropped ==> t.metadata == Some("eop") && skip > 0 && s.out.None?)
      && (t.metadata == Some("eop") && skip > 0 ==> s.dropped)
  {
  }

  /**
   * Over a whole stream, the ends still owed plus the ends dropped equal the ends owed at the
   * start plus the markers stripped; every dropped token was a paragraph end; and a paragraph
   * end is never dropped when none is owed.
   */
  lemma {:induction false} ConvertAllAccounting(ts: seq<Token>, c: Context, count: int, skip: nat)
    requires 0 <= c.offset <= 1
    ensures ConvertAll(ts, c, count, skip).Ok? ==> var r := ConvertAll(ts, c, count, skip).value;
      r.skip + r.dropped == skip + r.stripped && r.dropped <= Eops(ts)
    decreases |ts|
  {
    if ts != [] {
      StepAccounting(ts[0], c, count, skip);
      if Step(ts[0], c, count, skip).Ok? {
        var s := Step(ts[0], c, count, skip).value;
        ConvertAllAccounting(ts[1..], c, s.count, s.skip);
      }
    }
  }

  /** Over a whole stream the paragraph-style counter never goes negative. */
  lemma {:induction false} ConvertAllCountNonNegative(ts: seq<Token>, c: Context, count: int, skip: nat)
    requires 0 <= c.offset <= 1 && count >= 0
    ensures ConvertAll(ts, c, count, skip).Ok? ==> ConvertAll(ts, c, count, skip).value.count >= 0
    decreases |ts|
  {
    if ts != [] {
      StepCountNonNegative(ts[0], c, count, skip);
      if Step(ts[0], c, count, skip).Ok? {
        var s := Step(ts[0], c, count, skip).value;
        ConvertAllCountNonNegative(ts[1..], c, s.count, s.skip);
      }
    }
  }

  /** A value stripped of its marker makes the very next paragraph end disappear. */
  lemma NextEopDropped(t: Token, c: Context, count: int, skip: nat, eop: Token)
    requires 0 <= c.offset <= 1 && eop.metadata == Some("eop")
    requires Step(t, c, count, skip).Ok? && Step(t, c, count, skip).value.stripped
    ensures var s := Step(t, c, count, skip).value;
      s.out.Some? && s.out.value.value.value + NoBreak == Translate(t, c, count).0.value.value.value.value
      && Step(eop, c, s.count, s.skip) == Ok(Stepped(None, s.count, skip, false, true))
  {
  }

  /** A paragraph style raises the counter exactly when it gives a token, and a heading opens one brace group. */
  lemma ParagraphStyleCounts(text: Option<string>, offset: int)
    requires 0 <= offset <= 1
    ensures var r := ParagraphStyle(text, offset);
      (r.Ok? && r.value.Some? <==> CountAfterStyle(0, r) == 1 && r.Ok?)
      && (text == Some("BodyText") ==> r == Ok(None))
      && (text.Some? && HeadingNumber(text.value).Some? && 0 <= HeadingNumber(text.value).value + offset - 1 < |HeadingCommands| ==>
            r.Ok? && r.value.Some? && r.value.value.metadata.None? && EndsWith(r.value.value.value.value, "{"))
  {
    if text.Some? && HeadingNumber(text.value).Some? {
      var n := HeadingNumber(text.value).value;
      if 0 <= n + offset - 1 < |HeadingCommands| {
        assert text.value != "BodyText" by {
          assert StartsWith(text.value, "Heading");
          assert text.value[1] == 'e' && "BodyText"[1] == 'o';
        }
        var cmd := HeadingCommands[n + offset - 1];
        assert cmd[|cmd| - 1] == '{';
      }
    }
  }

  /**
   * A heading style past the four commands (level 5 and up in a document, `Heading5` in a
   * chapter) is still counted, but its text opens no brace group, so the paragraph end closes
   * a group that was never opened.
   */
  lemma HeadingPastCommands(n: nat, offset: int)
    requires 0 <= offset <= 1 && n + offset - 1 >= |HeadingCommands| && n <= 9
    ensures var text := "Heading" + [('0' as int + n) as char];
      ParagraphStyle(Some(text), offset) == Ok(Some(FromText(Some(Lower(text)))))
    ensures var text := "Heading" + [('0' as int + n) as char];
      '{' !in Lower(text)
    ensures var (close, count) := EndOfParagraph(CountAfterStyle(0, ParagraphStyle(Some("Heading" + [('0' as int + n) as char]), offset)), false);
      count == 0 && close.value.Some? && close.value.value[0] == '}'
  {
    var text := "Heading" + [('0' as int + n) as char];
    var digits := [('0' as int + n) as char];
    assert StartsWith(text, "Heading");
    assert text[7..] == digits;
    assert DecimalValue(digits) == n by { assert digits[..0] == []; }
    assert HeadingNumber(text) == Some(n);
    assert text != "BodyText" by { assert text[1] == 'e' && "BodyText"[1] == 'o'; }
    var low := Lower(text);
    forall i | 0 <= i < |low| ensures low[i] != '{' {
      if i < 7 {
        assert text[i] == "Heading"[i];
      } else {
        assert text[i] == digits[0];
      }
    }
  }

  // ---------------------------------------------------------------- the converter

  /** Which of `Run`'s branches a converted token takes; the kind is compared ignoring case, lower-cased against lower-case words. */
  datatype RouteBranch = Text | ErrorReport | PreambleText | FloatStart | Label | FloatEnd | Appendix | Ignored

  function Branch(t: Token): RouteBranch {
    if t.metadata.None? then Text
    else
      var kind := Lower(t.metadata.value);
      if kind == "error" then ErrorReport
      else if kind == "preamble" then PreambleText
      else if StartsWith(kind, "float_") then FloatStart
      else if kind == "label" then Label
      else if kind == "end_float" then FloatEnd
      else if kind == "appendix" then Appendix
      else Ignored
  }

  /** The text written so far under `key`, empty for a text not yet opened. */
  function TextOf(files: map<string, string>, key: string): string {
    if key in files then files[key] else ""
  }

  /** Output texts are only ever added, and the preamble and the bibliography are neither added nor removed. */
  predicate KeysKept(before: map<string, string>, after: map<string, string>) {
    before.Keys <= after.Keys
    && (PreambleKey in after <==> PreambleKey in before)
    && (BibliographyKey in after <==> BibliographyKey in before)
  }

  /** The three default texts are distinct. */
  lemma DefaultKeysDistinct()
    ensures DocumentKey != PreambleKey && DocumentKey != BibliographyKey && PreambleKey != BibliographyKey
  {
    assert DocumentKey[0] == 'd' && PreambleKey[0] == 'p' && BibliographyKey[0] == 'b';
  }

  /** A float's own text is never one of the default texts. */
  lemma FloatKeyNotDefault(kind: string, name: string)
    ensures var key := kind + "_" + name + ".tex";
      key != DocumentKey && key != PreambleKey && key != BibliographyKey
  {
    var key := kind + "_" + name + ".tex";
    assert key[|kind|] == '_';
    assert '_' !in DocumentKey && '_' !in PreambleKey && '_' !in BibliographyKey;
  }

  /** The routing state `Run` keeps in local variables. */
  datatype Routing = Routing(target: string, nextFloat: Option<string>, inFloat: Option<string>, inAppendices: bool, knownFloats: seq<string>)

  /** The float kinds the preamble defines before any document is read. */
  const StandardFloats: seq<string> := ["equation", "figure", "listing"]

  /** The text resources the converter reads: the substitution tables and the preamble. */
  datatype Resources = Resources(textSubstitutions: string, mathSubstitutions: string,
                                 unicodeSubstitutions: string, mathUnicodeSubstitutions: string, preamble: string)

  class TeXConverter {
    const tokens: seq<Token>
    const asChapter: bool
    const forXetex: bool
    const headingOffsetLevel: int
    /** The conversion table, without the two paragraph conversions, which are methods. */
    const conversions: map<string, Entry>
    const textSubstitutions: seq<Substitution>
    const mathSubstitutions: seq<Substitution>
    const latexPreamble: string

    var paragraphStyleCount: int
    var inVerbatim: bool
    /** `DoConvert`'s count of paragraph ends still to drop. */
    var skipEop: nat
    /** The output texts by key; each writer is modelled by the text written to it. */
    var outputFiles: map<string, string>
    /** The lines written to the error writer. */
    var errors: seq<string>

    predicate Valid()
      reads this`paragraphStyleCount
    {
      paragraphStyleCount >= 0 && headingOffsetLevel == (if asChapter then 0 else 1)
    }

    /** The context conversion runs in now. */
    function CurrentContext(): Context
      reads this`inVerbatim
    {
      Context(headingOffsetLevel, inVerbatim, conversions, textSubstitutions, mathSubstitutions)
    }

    /** The constructor, once the substitution tables have been read. */
    constructor (source: seq<Token>, asChapter: bool, forXetex: bool, table: map<string, Entry>,
                 text: seq<Substitution>, math: seq<Substitution>, preamble: string)
      ensures Valid()
      ensures tokens == source && this.asChapter == asChapter && this.forXetex == forXetex
      ensures conversions == table && textSubstitutions == text && mathSubstitutions == math && latexPreamble == preamble
      ensures paragraphStyleCount == 0 && !inVerbatim && skipEop == 0 && outputFiles == map[] && errors == []
    {
      tokens := source;
      this.asChapter := asChapter;
      this.forXetex := forXetex;
      headingOffsetLevel := if asChapter then 0 else 1;
      conversions := table;
      textSubstitutions := text;
      mathSubstitutions := math;
      latexPreamble := preamble;
      paragraphStyleCount := 0;
      inVerbatim := false;
      skipEop := 0;
      outputFiles := map[];
      errors := [];
    }

    /** `ConvertParagraphStyle`: the counter is raised first and lowered again when the style gives nothing. */
    method ConvertParagraphStyle(text: Option<string>) returns (r: Result<Option<Token>>)
      requires Valid()
      modifies this`paragraphStyleCount
      ensures r == ParagraphStyle(text, headingOffsetLevel)
      ensures paragraphStyleCount == CountAfterStyle(old(paragraphStyleCount), r)
      ensures Valid()
    {
      if text == Some("BodyText") {
        return Ok(None);
      }
      paragraphStyleCount := paragraphStyleCount + 1;
      if text.None? {
        return Fail(ArgumentNull("input"));
      }
      var n := HeadingNumber(text.value);
      if n.Some? {
        var i := n.value + headingOffsetLevel - 1;
        if i < 0 {
          return Fail(IndexOutOfRange);
        }
        if i < |HeadingCommands| {
          return Ok(Some(FromText(Some(HeadingCommands[i]))));
        }
        return Ok(Some(FromText(Some(Lower(text.value)))));
      }
      if Lower(text.value) == "appendix" {
        return Ok(Some(Make(Some("appendix"), Some(HeadingCommands[headingOffsetLevel]))));
      }
      paragraphStyleCount := paragraphStyleCount - 1;
      return Ok(None);
    }

    /** `ConvertEndOfParagraph`: closes the open style group, if any, and never lets the counter go negative. */
    method ConvertEndOfParagraph(text: Option<string>) returns (r: Token)
      requires Valid()
      modifies this`paragraphStyleCount
      ensures (r, paragraphStyleCount) == EndOfParagraph(old(paragraphStyleCount), inVerbatim)
      ensures Valid()
    {
      var nl := if inVerbatim then "\r\n" else "\r\n\r\n";
      if paragraphStyleCount > 0 {
        paragraphStyleCount := paragraphStyleCount - 1;
        return FromText(Some("}" + nl));
      }
      return FromText(Some(nl));
    }

    /** Applies the table's rows in order to a token's value, each replacing every occurrence of its find text. */
    static method Substitute(t: Token, table: seq<Substitution>) returns (r: Result<Token>)
      requires t.value.Some?
      ensures r == SubstituteValue(t, table)
    {
      var v := ApplySubstitutions(t.value.value, table);
      if v.Fail? {
        return Fail(v.error);
      }
      return Ok(t.(value := Some(v.value)));
    }

    /** The conversion a tagged token's kind selects. */
    method ConvertTaggedToken(kind: string, t: Token) returns (r: Result<Option<Token>>)
      requires Valid()
      modifies this`paragraphStyleCount
      ensures (r, paragraphStyleCount) == ConvertTagged(kind, t, old(CurrentContext()), old(paragraphStyleCount))
      ensures Valid()
    {
      if kind == "para_style" {
        r := ConvertParagraphStyle(t.value);
      } else if kind == "eop" {
        var e := ConvertEndOfParagraph(t.value);
        r := Ok(Some(e));
      } else if kind in conversions {
        r := conversions[kind](t.value);
      } else {
        r := Ok(Some(Make(Some("error"), ToString(t))));
      }
    }

    /** The body of `DoConvert`'s loop for one token, before the no-break check. */
    method ConvertToken(t: Token) returns (r: Result<Option<Token>>)
      requires Valid()
      modifies this`paragraphStyleCount
      ensures (r, paragraphStyleCount) == Translate(t, old(CurrentContext()), old(paragraphStyleCount))
      ensures Valid()
    {
      if t.metadata.None? {
        if t.value.None? {
          return Ok(None);
        }
        if inVerbatim {
          return Ok(Some(Copy(t)));
        }
        var s := Substitute(t, textSubstitutions);
        if s.Fail? {
          return Fail(s.error);
        }
        return Ok(Some(s.value));
      }
      var kind := t.metadata.value;
      r := ConvertTaggedToken(kind, t);
      if StartsWithLower(kind, "math") && r.Ok? {
        if r.value.None? || r.value.value.value.None? {
          return Ok(None);
        }
        var s := Substitute(r.value.value, mathSubstitutions);
        if s.Fail? {
          return Fail(s.error);
        }
        r := Ok(Some(s.value));
      }
    }

    /** One step of `DoConvert`: skip an owed paragraph end, or convert and strip a no-break marker. */
    method ConvertNext(t: Token) returns (r: Result<Option<Token>>)
      requires Valid()
      modifies this`paragraphStyleCount, this`skipEop
      ensures var s := Step(t, old(CurrentContext()), old(paragraphStyleCount), old(skipEop));
        (r.Ok? <==> s.Ok?) && (s.Ok? ==> r.value == s.value.out && paragraphStyleCount == s.value.count && skipEop == s.value.skip)
      ensures Valid()
    {
      if t.metadata == Some("eop") && skipEop > 0 {
        skipEop := skipEop - 1;
        return Ok(None);
      }
      var c := ConvertToken(t);
      if c.Fail? || c.value.None? {
        return c;
      }
      var result := c.value.value;
      if result.value.Some? && result.value.value != "" && EndsWith(result.value.value, NoBreak) {
        skipEop := skipEop + 1;
        result := WithoutNoBreak(result);
      }
      return Ok(Some(result));
    }

    /** `DoConvert` enumerated to its end with the verbatim flag left as it is: the tokens passed on. */
    method DoConvert(source: seq<Token>) returns (r: Result<seq<Token>>)
      requires Valid()
      modifies this`paragraphStyleCount, this`skipEop
      ensures var all := ConvertAll(source, old(CurrentContext()), old(paragraphStyleCount), 0);
        (r.Ok? <==> all.Ok?) && (r.Ok? ==> r.value == all.value.out && paragraphStyleCount == all.value.count)
      ensures Valid()
    {
      skipEop := 0;
      var out: seq<Token> := [];
      ghost var c := CurrentContext();
      ghost var all := ConvertAll(source, c, old(paragraphStyleCount), 0);
      ghost var remaining := all;
      for i := 0 to |source|
        invariant Valid() && CurrentContext() == c
        invariant remaining == ConvertAll(source[i..], c, paragraphStyleCount, skipEop)
        invariant all.Ok? <==> remaining.Ok?
        invariant all.Ok? ==> all.value.out == out + remaining.value.out && all.value.count == remaining.value.count
      {
        ghost var count, skip := paragraphStyleCount, skipEop;
        ConvertAllAt(source, i, c, count, skip);
        var t := ConvertNext(source[i]);
        if t.Fail? {
          return Fail(t.error);
        }
        out := out + (if t.value.Some? then [t.value.value] else []);
        remaining := ConvertAll(source[i + 1..], c, paragraphStyleCount, skipEop);
      }
      assert source[|source|..] == [];
      return Ok(out);
    }

    // -------------------------------------------------------------- Run

    /** The routing state's invariant: floats buffer only while the target is the document, and the target exists. */
    predicate Routes(rt: Routing)
      reads this`outputFiles
    {
      DocumentKey in outputFiles && rt.target in outputFiles
      && (rt.nextFloat.Some? ==> rt.inFloat.Some? && rt.target == DocumentKey)
      && (rt.inFloat.None? ==> rt.target == DocumentKey)
      && (forall f :: f in StandardFloats ==> f in rt.knownFloats)
      && (!asChapter ==> PreambleKey in outputFiles)
    }

    /** `writer.Write(s)` on the output text `key`. */
    method Write(key: string, s: string)
      requires key in outputFiles
      modifies this`outputFiles
      ensures outputFiles == old(outputFiles)[key := old(outputFiles)[key] + s]
    {
      outputFiles := outputFiles[key := outputFiles[key] + s];
    }

    /** The label written in place, escaped for a verbatim block with the escape character of the engine. */
    static function LabelText(value: string, verbatim: bool, forXetex: bool): string {
      if !verbatim then "\\label{" + value + "}"
      else if forXetex then "¶\\label{" + value + "}¶"
      else "@\\label{" + value + "}@"
    }

    /** The line that inputs another text. */
    static function InputLine(key: string): string {
      "\\input{" + key + "}\r\n"
    }

    /** The text a float's label adds to the document: a comment holding the float's opening, and the input of its own text. */
    static function FloatReference(buffer: string, key: string): string {
      "\r\n% " + ReplaceAll(buffer, "\r\n", "//") + "\r\n" + InputLine(key)
    }

    /** What ends the opening of a float in its own text: a listing starts verbatim on a new line, an equation runs on. */
    static function FloatOpeningEnd(key: string): string {
      if StartsWithLower(key, "listing") then "\r\n"
      else if StartsWithLower(key, "equation") then ""
      else "\r\n\r\n"
    }

    /** The preamble lines that define the commands of a float kind first met in the document. */
    static function FloatCommands(kind: string): string {
      "\r\n"
      + "\\newcommand\\wxbegin" + kind + "[2]{\\begin{" + kind + "}\\caption{#1}\\label{#2}\\centering}\r\n"
      + "\\newcommand\\wxend" + kind + "{\\end{" + kind + "}}\r\n"
    }

    /** The preamble line naming a new float kind for cross-references: singular capitalised, plural with an `s`. */
    static function CrefName(kind: string): string
      requires kind != ""
    {
      "\\crefname{" + kind + "}{" + [UpperChar(kind[0])] + Lower(kind[1..]) + "}{" + kind + "s}\r\n"
    }

    /** Untagged text: into the float buffer while there is one, else to the target. */
    method RouteText(rt: Routing, value: string) returns (r: Routing)
      requires Routes(rt)
      modifies this`outputFiles
      ensures KeysKept(old(outputFiles), outputFiles) && Routes(r)
      ensures rt.nextFloat.Some? ==>
        r == rt.(nextFloat := Some(rt.nextFloat.value + value)) && outputFiles == old(outputFiles)
      ensures rt.nextFloat.None? ==>
        r == rt && outputFiles == old(outputFiles)[rt.target := old(outputFiles)[rt.target] + value]
    {
      if rt.nextFloat.Some? {
        return rt.(nextFloat := Some(rt.nextFloat.value + value));
      }
      Write(rt.target, value);
      return rt;
    }

    /**
     * A float start: reports a float left open, opens a buffer holding the float's value, and
     * defines a new float kind in the preamble; an empty new kind fails when its name is
     * capitalised, after the commands are written.
     */
    method RouteFloatStart(rt: Routing, kind: string, value: string) returns (r: Result<Routing>)
      requires Routes(rt) && |kind| >= 6
      modifies this`outputFiles, this`errors
      ensures KeysKept(old(outputFiles), outputFiles)
      ensures r.Ok? ==>
        Routes(r.value) && r.value.nextFloat == Some(value) && r.value.inFloat == Some(kind[6..])
        && r.value.target == DocumentKey && r.value.inAppendices == rt.inAppendices
        && r.value.knownFloats == (if kind[6..] in rt.knownFloats then rt.knownFloats else rt.knownFloats + [kind[6..]])
      ensures r.Fail? <==> kind[6..] == "" && kind[6..] !in rt.knownFloats && !asChapter
      ensures |errors| == |old(errors)| + (if rt.nextFloat.Some? || rt.inFloat.Some? then 1 else 0)
      ensures kind[6..] in rt.knownFloats || asChapter ==> outputFiles == old(outputFiles)
      ensures kind[6..] !in rt.knownFloats && !asChapter ==>
        outputFiles == old(outputFiles)[PreambleKey := old(outputFiles)[PreambleKey] + FloatCommands(kind[6..])
                                                       + (if r.Ok? then CrefName(kind[6..]) else "")]
    {
      if rt.nextFloat.Some? {
        errors := errors + ["Unexpected float within float: " + value];
      } else if rt.inFloat.Some? {
        errors := errors + ["Unterminated float: " + rt.inFloat.value];
      }
      var inFloat := kind[6..];
      var known := rt.knownFloats;
      if inFloat !in known {
        known := known + [inFloat];
        if !asChapter {
          Write(PreambleKey, FloatCommands(inFloat));
          if inFloat == "" {
            assert outputFiles[PreambleKey] == old(outputFiles)[PreambleKey] + FloatCommands(inFloat) + "";
            return Fail(BadArgument);
          }
          Write(PreambleKey, CrefName(inFloat));
        }
      }
      return Ok(Routing(DocumentKey, Some(value), Some(inFloat), rt.inAppendices, known));
    }

    /**
     * A label: while a float is buffered, the document gets a reference to the float's own text,
     * which gets the buffer and the label and becomes the target; otherwise the label is written
     * where the text goes, escaped for a verbatim block.
     */
    method RouteLabel(rt: Routing, value: string) returns (r: Routing)
      requires Routes(rt)
      modifies this`outputFiles, this`inVerbatim
      ensures KeysKept(old(outputFiles), outputFiles) && Routes(r)
      ensures rt.nextFloat.Some? ==>
        var key := rt.inFloat.value + "_" + value + ".tex";
        var before := if key in old(outputFiles) then old(outputFiles)[key] else "";
        r == rt.(target := key, inFloat := Some(key), nextFloat := None)
        && key != DocumentKey
        && outputFiles == old(outputFiles)
             [DocumentKey := old(outputFiles)[DocumentKey] + FloatReference(rt.nextFloat.value, key)]
             [key := before + rt.nextFloat.value + "{" + value + "}" + FloatOpeningEnd(key)]
        && inVerbatim == (old(inVerbatim) || StartsWithLower(key, "listing"))
      ensures rt.nextFloat.None? ==>
        r == rt && inVerbatim == old(inVerbatim)
        && outputFiles == old(outputFiles)[rt.target := old(outputFiles)[rt.target] + LabelText(value, inVerbatim, forXetex)]
    {
      if rt.nextFloat.Some? {
        var key := rt.inFloat.value + "_" + value + ".tex";
        FloatKeyNotDefault(rt.inFloat.value, value);
        var before := if key in outputFiles then outputFiles[key] else "";
        Write(DocumentKey, FloatReference(rt.nextFloat.value, key));
        outputFiles := outputFiles[key := before + rt.nextFloat.value + "{" + value + "}" + FloatOpeningEnd(key)];
        if StartsWithLower(key, "listing") {
          inVerbatim := true;
        }
        return rt.(target := key, inFloat := Some(key), nextFloat := None);
      }
      Write(rt.target, LabelText(value, inVerbatim, forXetex));
      return rt;
    }

    /** A float end: written to the float's text when one is open, reported otherwise; later text goes to the document, out of verbatim. */
    method RouteFloatEnd(rt: Routing, value: string) returns (r: Routing)
      requires Routes(rt)
      modifies this`outputFiles, this`errors, this`inVerbatim
      ensures KeysKept(old(outputFiles), outputFiles) && Routes(r)
      ensures r == rt.(target := DocumentKey, inFloat := None, nextFloat := None) && !inVerbatim
      ensures rt.nextFloat.None? && rt.inFloat.Some? ==>
        errors == old(errors) && outputFiles == old(outputFiles)[rt.target := old(outputFiles)[rt.target] + value]
      ensures rt.nextFloat.Some? || rt.inFloat.None? ==>
        |errors| == |old(errors)| + 1 && outputFiles == old(outputFiles)
    {
      if rt.nextFloat.Some? {
        errors := errors + ["Float terminated early: " + rt.nextFloat.value];
      } else if rt.inFloat.None? {
        errors := errors + ["Unexpected float terminator"];
      } else {
        Write(rt.target, value);
      }
      inVerbatim := false;
      return rt.(target := DocumentKey, inFloat := None, nextFloat := None);
    }

    /** An appendix: the first one in a document also starts the appendices. */
    method RouteAppendix(rt: Routing, value: string) returns (r: Routing)
      requires Routes(rt)
      modifies this`outputFiles
      ensures KeysKept(old(outputFiles), outputFiles) && Routes(r)
      ensures r == rt.(inAppendices := rt.inAppendices || !asChapter)
      ensures outputFiles == old(outputFiles)[rt.target := old(outputFiles)[rt.target]
                + (if !rt.inAppendices && !asChapter then "\\appendix\r\n" else "") + value]
    {
      var inAppendices := rt.inAppendices;
      if !inAppendices && !asChapter {
        Write(rt.target, "\\appendix\r\n");
        inAppendices := true;
      }
      Write(rt.target, value);
      assert outputFiles[rt.target] == old(outputFiles)[rt.target]
        + (if !rt.inAppendices && !asChapter then "\\appendix\r\n" else "") + value;
      return rt.(inAppendices := inAppendices);
    }

    /** The body of `Run`'s loop for one converted token, by the branch its kind selects. */
    method Route(rt: Routing, t: Token) returns (r: Result<Routing>)
      requires Routes(rt)
      modifies this`outputFiles, this`errors, this`inVerbatim
      ensures KeysKept(old(outputFiles), outputFiles)
      ensures r.Ok? ==> Routes(r.value)
      ensures r.Fail? ==> Branch(t) == FloatStart
      // an error token is reported and nothing else changes
      ensures Branch(t) == ErrorReport ==>
        r == Ok(rt) && errors == old(errors) + ["Unexpected token: " + t.value.GetOr("")]
        && outputFiles == old(outputFiles) && inVerbatim == old(inVerbatim)
      // preamble text goes to the preamble, which a chapter does not have
      ensures Branch(t) == PreambleText ==>
        r == Ok(rt) && errors == old(errors) && inVerbatim == old(inVerbatim)
        && outputFiles == (if asChapter then old(outputFiles)
                           else old(outputFiles)[PreambleKey := old(outputFiles)[PreambleKey] + t.value.GetOr("")])
      // any other kind is passed over
      ensures Branch(t) == Ignored ==>
        r == Ok(rt) && errors == old(errors) && outputFiles == old(outputFiles) && inVerbatim == old(inVerbatim)
    {
      var value := t.value.GetOr("");
      match Branch(t)
      case Text =>
        var next := RouteText(rt, value);
        return Ok(next);
      case ErrorReport =>
        errors := errors + ["Unexpected token: " + value];
        return Ok(rt);
      case PreambleText =>
        if !asChapter {
          Write(PreambleKey, value);
        }
        return Ok(rt);
      case FloatStart =>
        r := RouteFloatStart(rt, t.metadata.value, value);
      case Label =>
        var next := RouteLabel(rt, value);
        return Ok(next);
      case FloatEnd =>
        var next := RouteFloatEnd(rt, value);
        return Ok(next);
      case Appendix =>
        var next := RouteAppendix(rt, value);
        return Ok(next);
      case Ignored =>
        return Ok(rt);
    }

    /**
     * The start of `Run`: the document text exists; a chapter has no preamble or bibliography;
     * a document's preamble gets the standard preamble and the document inputs it.
     */
    method OpenOutputs()
      modifies this`outputFiles
      ensures DocumentKey in outputFiles && old(outputFiles).Keys - {PreambleKey, BibliographyKey} <= outputFiles.Keys
      ensures asChapter ==>
        PreambleKey !in outputFiles && BibliographyKey !in outputFiles
        && outputFiles[DocumentKey] == TextOf(old(outputFiles), DocumentKey)
      ensures !asChapter ==>
        PreambleKey in outputFiles && BibliographyKey in outputFiles
        && outputFiles[PreambleKey] == TextOf(old(outputFiles), PreambleKey) + latexPreamble
        && outputFiles[BibliographyKey] == TextOf(old(outputFiles), BibliographyKey)
        && outputFiles[DocumentKey] == TextOf(old(outputFiles), DocumentKey) + InputLine(PreambleKey) + "\r\n"
    {
      DefaultKeysDistinct();
      if DocumentKey !in outputFiles {
        outputFiles := outputFiles[DocumentKey := ""];
      }
      if asChapter {
        outputFiles := outputFiles - {PreambleKey, BibliographyKey};
      } else {
        if PreambleKey !in outputFiles {
          outputFiles := outputFiles[PreambleKey := ""];
        }
        if BibliographyKey !in outputFiles {
          outputFiles := outputFiles[BibliographyKey := ""];
        }
        Write(PreambleKey, latexPreamble);
        Write(DocumentKey, InputLine(PreambleKey));
        Write(DocumentKey, "\r\n");
      }
    }

    /**
     * `Run`: set up the output texts (a chapter has no preamble or bibliography), then convert
     * the tokens one at a time and route each result.
     */
    method Run() returns (r: Result<()>)
      requires Valid()
      modifies this
      ensures Valid()
      ensures r.Ok? ==> DocumentKey in outputFiles
      ensures r.Ok? && asChapter ==> PreambleKey !in outputFiles && BibliographyKey !in outputFiles
      ensures r.Ok? && !asChapter ==> PreambleKey in outputFiles && BibliographyKey in outputFiles
    {
      OpenOutputs();
      var rt := Routing(DocumentKey, None, None, false, StandardFloats);
      inVerbatim := false;
      skipEop := 0;
      for i := 0 to |tokens|
        invariant Valid() && Routes(rt)
        invariant asChapter ==> PreambleKey !in outputFiles && BibliographyKey !in outputFiles
        invariant !asChapter ==> BibliographyKey in outputFiles
      {
        var t := ConvertNext(tokens[i]);
        if t.Fail? {
          return Fail(t.error);
        }
        if t.value.Some? {
          var next := Route(rt, t.value.value);
          if next.Fail? {
            return Fail(next.error);
          }
          rt := next.value;
        }
      }
      return Ok(());
    }
  }

  /**
   * The constructor as a whole: the tables read from the resources (the Unicode rows added
   * unless the output is for XeTeX), then the converter built over the tokens.
   */
  method Create(source: seq<Token>, asChapter: bool, forXetex: bool, res: Resources) returns (r: Result<TeXConverter>)
    ensures r.Ok? ==>
      fresh(r.value) && r.value.Valid()
      && SubstitutionTable(res.textSubstitutions, res.unicodeSubstitutions, forXetex) == Ok(r.value.textSubstitutions)
      && SubstitutionTable(res.mathSubstitutions, res.mathUnicodeSubstitutions, forXetex) == Ok(r.value.mathSubstitutions)
      && r.value.tokens == source && r.value.asChapter == asChapter && r.value.forXetex == forXetex
      && r.value.conversions == DefaultTable(asChapter) && r.value.latexPreamble == res.preamble
      && r.value.paragraphStyleCount == 0 && !r.value.inVerbatim && r.value.skipEop == 0
      && r.value.outputFiles == map[] && r.value.errors == []
    ensures r.Fail? <==>
      (SubstitutionTable(res.textSubstitutions, res.unicodeSubstitutions, forXetex).Fail?
       || SubstitutionTable(res.mathSubstitutions, res.mathUnicodeSubstitutions, forXetex).Fail?)
  {
    var text := ReadSubstitutions(res.textSubstitutions);
    if text.Fail? {
      return Fail(text.error);
    }
    var math := ReadSubstitutions(res.mathSubstitutions);
    if math.Fail? {
      return Fail(math.error);
    }
    var textTable, mathTable := text.value, math.value;
    if !forXetex {
      var extra := ReadSubstitutions(res.unicodeSubstitutions);
      if extra.Fail? {
        return Fail(extra.error);
      }
      textTable := textTable + extra.value;
      var mathExtra := ReadSubstitutions(res.mathUnicodeSubstitutions);
      if mathExtra.Fail? {
        return Fail(mathExtra.error);
      }
      mathTable := mathTable + mathExtra.value;
    }
    var converter := new TeXConverter(source, asChapter, forXetex, DefaultTable(asChapter), textTable, mathTable, res.preamble);
    return Ok(converter);
  }
}
