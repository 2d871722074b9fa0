/**
 * The converter's per-kind conversions: each tagged token kind maps its value to the LaTeX
 * text (an untagged token) or to a token the router acts on. Also the substitution tables:
 * reading them from their tab-separated text, and applying them in order.
 */
module Conversions {
  import opened Wrappers
  import opened Text
  import opened Tokens

  // ---------------------------------------------------------------- run styles

  /** The run-style keywords, in the order their openers are emitted. */
  const RunStyleKeywords: seq<string> := ["monospace", "strong", "emphasis", "small", "superscript", "subscript", "notes"]

  /** The LaTeX command each keyword opens, position for position. */
  const RunStyleCommands: seq<string> := ["texttt", "textbf", "textit", "textsc", "textsuperscript", "textsubscript", "wxnotes"]

  function RunStyleOpener(k: nat): string
    requires k < |RunStyleCommands|
  {
    "\\" + RunStyleCommands[k] + "{"
  }

  /** The openers of the keywords from the `k`-th on that `text` contains, in keyword order. */
  function Openers(text: string, k: nat): string
    requires k <= |RunStyleKeywords|
    decreases |RunStyleKeywords| - k
  {
    if k == |RunStyleKeywords| then ""
    else (if ContainsIgnoreCase(text, RunStyleKeywords[k]) then RunStyleOpener(k) else "") + Openers(text, k + 1)
  }

  /** How many of the keywords from the `k`-th on `text` contains. */
  function Found(text: string, k: nat): nat
    requires k <= |RunStyleKeywords|
    decreases |RunStyleKeywords| - k
  {
    if k == |RunStyleKeywords| then 0
    else (if ContainsIgnoreCase(text, RunStyleKeywords[k]) then 1 else 0) + Found(text, k + 1)
  }

  /** `ConvertRunStyle`: one opener per keyword found, in fixed order; null when none is found. */
  function ConvertRunStyle(text: string): (r: Option<Token>)
    ensures r.Some? ==> r.value.metadata.None?
  {
    var style := Openers(text, 0);
    if style == "" then None else Some(FromText(Some(style)))
  }

  /** The number of times `c` occurs in `s`. */
  function Count(s: string, c: char): nat
  {
    if s == [] then 0 else (if s[0] == c then 1 else 0) + Count(s[1..], c)
  }

  /** `new String(c, n)`. */
  function Repeat(c: char, n: nat): (r: string)
    ensures |r| == n && forall i :: 0 <= i < n ==> r[i] == c
  {
    if n == 0 then "" else [c] + Repeat(c, n - 1)
  }

  /** `ConvertEndRunStyle`: as many closing braces as the opener has opening ones; null when it is null. */
  function ConvertEndRunStyle(text: string): (r: Option<Token>)
    ensures r.Some? ==> r.value.metadata.None?
  {
    match ConvertRunStyle(text)
    case None => None
    case Some(style) => Some(FromText(Some(Repeat('}', Count(style.value.GetOr(""), '{')))))
  }

  lemma {:induction false} CountAppend(a: string, b: string, c: char)
    ensures Count(a + b, c) == Count(a, c) + Count(b, c)
    decreases |a|
  {
    if a == [] {
      assert a + b == b;
    } else {
      assert (a + b)[1..] == a[1..] + b;
      CountAppend(a[1..], b, c);
    }
  }

  lemma {:induction false} CountAbsent(s: string, c: char)
    requires c !in s
    ensures Count(s, c) == 0
    decreases |s|
  {
    if s != [] {
      CountAbsent(s[1..], c);
    }
  }

  lemma {:induction false} CountRepeat(c: char, n: nat)
    ensures Count(Repeat(c, n), c) == n
    decreases n
  {
    if n > 0 {
      CountRepeat(c, n - 1);
    }
  }

  /** Each opener is a backslash, a command name without braces, and one `{`. */
  lemma OpenerBraces(k: nat)
    requires k < |RunStyleCommands|
    ensures Count(RunStyleOpener(k), '{') == 1 && Count(RunStyleOpener(k), '}') == 0
  {
    CommandsPlain(k);
    BracesAround(RunStyleCommands[k]);
  }

  lemma CommandsPlain(k: nat)
    requires k < |RunStyleCommands|
    ensures '{' !in RunStyleCommands[k] && '}' !in RunStyleCommands[k]
  {
  }

  lemma BracesAround(cmd: string)
    requires '{' !in cmd && '}' !in cmd
    ensures Count("\\" + cmd + "{", '{') == 1 && Count("\\" + cmd + "{", '}') == 0
  {
    CountAbsent(cmd, '{');
    CountAbsent(cmd, '}');
    CountAppend("\\" + cmd, "{", '{');
    CountAppend("\\", cmd, '{');
    CountAppend("\\" + cmd, "{", '}');
    CountAppend("\\", cmd, '}');
  }

  /** The openers carry one `{` per keyword found, and no `}`. */
  lemma {:induction false} OpenersBraces(text: string, k: nat)
    requires k <= |RunStyleKeywords|
    ensures Count(Openers(text, k), '{') == Found(text, k)
    ensures Count(Openers(text, k), '}') == 0
    ensures Openers(text, k) == "" <==> Found(text, k) == 0
    decreases |RunStyleKeywords| - k
  {
    if k < |RunStyleKeywords| {
      OpenersBraces(text, k + 1);
      var head := if ContainsIgnoreCase(text, RunStyleKeywords[k]) then RunStyleOpener(k) else "";
      if head != "" {
        OpenerBraces(k);
      }
      CountAppend(head, Openers(text, k + 1), '{');
      CountAppend(head, Openers(text, k + 1), '}');
    }
  }

  /** The found count is zero exactly when no keyword occurs. */
  lemma {:induction false} FoundNone(text: string, k: nat)
    requires k <= |RunStyleKeywords|
    ensures Found(text, k) == 0 <==> forall j :: k <= j < |RunStyleKeywords| ==> !ContainsIgnoreCase(text, RunStyleKeywords[j])
    decreases |RunStyleKeywords| - k
  {
    if k < |RunStyleKeywords| {
      FoundNone(text, k + 1);
    }
  }

  /**
   * A run style is null exactly when no keyword occurs; otherwise its end has exactly as many
   * `}` as the style has `{`, namely one per keyword found, and nothing else.
   */
  lemma RunStyleBalanced(text: string)
    ensures ConvertRunStyle(text).None? <==> forall j :: 0 <= j < |RunStyleKeywords| ==> !ContainsIgnoreCase(text, RunStyleKeywords[j])
    ensures ConvertEndRunStyle(text).None? <==> ConvertRunStyle(text).None?
    ensures ConvertRunStyle(text).Some? ==>
      var open, close := ConvertRunStyle(text).value.value.value, ConvertEndRunStyle(text).value.value.value;
      Count(open, '{') == Found(text, 0) == Count(close, '}') && Count(open, '}') == 0 && close == Repeat('}', Found(text, 0))
  {
    OpenersBraces(text, 0);
    FoundNone(text, 0);
    CountRepeat('}', Found(text, 0));
  }

  // ---------------------------------------------------------------- lists

  /** The LaTeX text that opens environment `env`. */
  function Begin(env: string): string {
    "\\begin{" + env + "}\r\n"
  }

  /** The LaTeX text that closes environment `env`. */
  function End(env: string): string {
    "\\end{" + env + "}\r\n"
  }

  /** `ConvertList`: a bullet list opens `itemize`, a decimal list `enumerate`; anything else is a null text. */
  function ConvertList(text: string): (r: Token)
    ensures r.metadata.None?
  {
    if ContainsIgnoreCase(text, "bullet") then FromText(Some(Begin("itemize")))
    else if ContainsIgnoreCase(text, "decimal") then FromText(Some(Begin("enumerate")))
    else FromText(None)
  }

  /** `ConvertEndList`: the matching environment end. */
  function ConvertEndList(text: string): (r: Token)
    ensures r.metadata.None?
  {
    if ContainsIgnoreCase(text, "bullet") then FromText(Some(End("itemize")))
    else if ContainsIgnoreCase(text, "decimal") then FromText(Some(End("enumerate")))
    else FromText(None)
  }

  /** The environment a list style names, bullet taking precedence. */
  function ListEnvironment(text: string): Option<string> {
    if ContainsIgnoreCase(text, "bullet") then Some("itemize")
    else if ContainsIgnoreCase(text, "decimal") then Some("enumerate")
    else None
  }

  /** A list start and a list end for the same style open and close the same environment. */
  lemma ListPaired(text: string)
    ensures var env := ListEnvironment(text);
      ConvertList(text) == FromText(if env.Some? then Some(Begin(env.value)) else None)
      && ConvertEndList(text) == FromText(if env.Some? then Some(End(env.value)) else None)
  {
  }

  // ---------------------------------------------------------------- display maths

  /** The marker that asks the converter to drop the next paragraph end. */
  const NoBreak: string := "\\wxnobreak"

  /** `ConvertMathPara`: a display; a trailing full stop moves after it, otherwise the paragraph continues unbroken. */
  function ConvertMathPara(text: string): (r: Token)
    ensures r.metadata.None?
  {
    if EndsWith(text, ".") then FromText(Some("$$" + text[..|text| - 1] + "$$."))
    else FromText(Some("$$" + text + "$$\r\n\\noindent{}\\wxnobreak"))
  }

  /**
   * A trailing full stop leaves the display and follows it; without one the display ends with
   * the no-break marker, and only then.
   */
  lemma MathParaStop(text: string)
    ensures var v := ConvertMathPara(text).value.value;
      (EndsWith(text, ".") ==> v == "$$" + text[..|text| - 1] + "$$" + "." && text[..|text| - 1] + "." == text)
      && (!EndsWith(text, ".") ==> v == "$$" + text + "$$\r\n\\noindent{}" + NoBreak)
      && (EndsWith(v, NoBreak) <==> !EndsWith(text, "."))
  {
    var v := ConvertMathPara(text).value.value;
    assert |NoBreak| == 10;
    if EndsWith(text, ".") {
      assert text == text[..|text| - 1] + ".";
      assert v[|v| - 1] == '.';
      assert NoBreak[9] == 'k';
    } else {
      assert v == ("$$" + text + "$$\r\n\\noindent{}") + NoBreak;
    }
  }

  // ---------------------------------------------------------------- floats

  /** The language of a listing float: the lower-cased text after the first `_`, or all of it. */
  function ListingLanguage(text: string): string {
    Lower(text[IndexOfChar(text, '_') + 1..])
  }

  /** `ConvertFloat`: a listing opens `float_listing` with its language; any other float opens its own kind. */
  function ConvertFloat(text: string): (r: Token)
    ensures r.metadata.Some? && StartsWith(r.metadata.value, "float_")
  {
    if StartsWithIgnoreCase(text, "listing") then
      Make(Some("float_listing"), Some("\\wxbeginlisting{" + ListingLanguage(text) + "}{}{"))
    else
      Make(Some("float_" + text), Some("\\wxbegin" + text + "{"))
  }

  /** `ConvertEndFloat`, with its second branch as written (it cannot be reached). */
  function ConvertEndFloat(text: string): (r: Token)
    ensures r.metadata == Some("end_float")
  {
    if StartsWithIgnoreCase(text, "listing") then
      Make(Some("end_float"), Some("\\end{" + ListingLanguage(text) + "}\\wxendlisting\r\n"))
    else if EqualsIgnoreCase(text, "listing") then
      Make(Some("end_float"), Some("\\end{unknownlanguage}\\wxendlisting\r\n"))
    else
      Make(Some("end_float"), Some("\\wxend" + text + "\r\n"))
  }

  lemma FloatKindsTagged(text: string)
    ensures !IsBlank(Some("float_" + text)) && !IsBlank(Some("float_listing")) && !IsBlank(Some("end_float"))
  {
    assert |"float_" + text| >= 6 && |"end_float"| == 9;
  }

  /**
   * A float start and its end agree: a listing starts `float_listing` with a language and ends
   * that same language's environment; any other float `K` starts kind `float_K` and ends `\wxendK`.
   */
  lemma FloatPaired(text: string)
    ensures StartsWithIgnoreCase(text, "listing") ==>
      ConvertFloat(text) == Token(Some("float_listing"), Some("\\wxbeginlisting{" + ListingLanguage(text) + "}{}{"))
      && ConvertEndFloat(text) == Token(Some("end_float"), Some("\\end{" + ListingLanguage(text) + "}\\wxendlisting\r\n"))
    ensures !StartsWithIgnoreCase(text, "listing") ==>
      ConvertFloat(text) == Token(Some("float_" + text), Some("\\wxbegin" + text + "{"))
      && ConvertEndFloat(text) == Token(Some("end_float"), Some("\\wxend" + text + "\r\n"))
  {
    FloatKindsTagged(text);
    if !StartsWithIgnoreCase(text, "listing") {
      ListingIsPrefix(text);
    }
  }

  /** A text equal to "listing" up to case also starts with it, so the `unknownlanguage` branch is dead. */
  lemma ListingIsPrefix(text: string)
    ensures EqualsIgnoreCase(text, "listing") ==> StartsWithIgnoreCase(text, "listing")
  {
    if EqualsIgnoreCase(text, "listing") {
      assert |Lower(text)| == |Lower("listing")|;
      assert text[..|"listing"|] == text;
    }
  }

  /** Lower-casing neither makes nor removes an underscore. */
  lemma {:induction false} LowerUnderscore(s: string)
    ensures '_' in Lower(s) <==> '_' in s
    decreases |s|
  {
    if s != [] {
      LowerUnderscore(s[1..]);
      assert Lower(s) == [LowerChar(s[0])] + Lower(s[1..]);
      assert s == [s[0]] + s[1..];
    }
  }

  lemma LowerListing()
    ensures Lower("listing") == "listing" && '_' !in "listing"
  {
    var w := "listing";
    assert forall i :: 0 <= i < |w| ==> LowerChar(w[i]) == w[i];
  }

  /** A bare "listing" float (any case) has language `listing`, and its end closes that language. */
  lemma BareListingEnd(text: string)
    requires EqualsIgnoreCase(text, "listing")
    ensures ListingLanguage(text) == "listing"
    ensures ConvertEndFloat(text) == Token(Some("end_float"), Some("\\end{" + ListingLanguage(text) + "}\\wxendlisting\r\n"))
  {
    ListingIsPrefix(text);
    FloatKindsTagged(text);
    LowerListing();
    LowerUnderscore(text);
    assert IndexOfChar(text, '_') == -1;
    assert text[0..] == text;
  }

  // ---------------------------------------------------------------- labels and references

  predicate IsLabelTrim(c: char) {
    c == '_' || c == ' ' || c == '.'
  }

  function TrimLabelStart(s: string): (r: string)
    ensures |r| <= |s| && r == s[|s| - |r|..]
    ensures forall i :: 0 <= i < |s| - |r| ==> IsLabelTrim(s[i])
    ensures r != [] ==> !IsLabelTrim(r[0])
  {
    if s != [] && IsLabelTrim(s[0]) then
      var rest := s[1..];
      var r := TrimLabelStart(rest);
      assert r == s[|s| - |r|..];
      assert forall i :: 1 <= i < |s| - |r| ==> s[i] == rest[i - 1];
      r
    else s
  }

  function TrimLabelEnd(s: string): (r: string)
    ensures |r| <= |s| && r == s[..|r|]
    ensures forall i :: |r| <= i < |s| ==> IsLabelTrim(s[i])
    ensures r != [] ==> !IsLabelTrim(r[|r| - 1])
  {
    if s != [] && IsLabelTrim(s[|s| - 1]) then
      var rest := s[..|s| - 1];
      var r := TrimLabelEnd(rest);
      assert r == s[..|r|];
      assert forall i :: |r| <= i < |s| - 1 ==> s[i] == rest[i];
      r
    else s
  }

  /** `text.Trim('_', ' ', '.')`: what is left once those characters are stripped from both ends. */
  function TrimLabel(s: string): (r: string)
    ensures |r| <= |s|
    ensures r != [] ==> !IsLabelTrim(r[0]) && !IsLabelTrim(r[|r| - 1])
    ensures (forall k :: 0 <= k < |s| ==> !IsLabelTrim(s[k])) ==> r == s
    ensures (forall k :: 0 <= k < |s| ==> IsLabelTrim(s[k])) ==> r == []
  {
    TrimLabelEnd(TrimLabelStart(s))
  }

  // ---------------------------------------------------------------- the conversion table

  /** The kinds the default conversion table has an entry for. */
  const DefaultKinds: set<string> := {
    "document", "begin", "end", "wxbegin", "wxend", "title", "author",
    "ref", "Ref", "ref_number", "label",
    "pagebreak", "sectionbreak", "oddsectionbreak", "linebreak", "hspace",
    "run_style", "end_run_style", "citation", "hyperlink", "footnote", "end_footnote",
    "float", "end_caption", "end_float", "list", "end_list", "item",
    "math_float", "math", "math_para",
    "table", "end_table", "end_table_col", "end_table_row", "image", "bibliography"
  }

  /** A conversion to LaTeX text. */
  function Latex(s: string): Option<Token> {
    Some(FromText(Some(s)))
  }

  /** The kinds whose entry calls a method on the value, and so fails on a null value. */
  const NullSensitiveKinds: set<string> := {
    "ref", "Ref", "ref_number", "label", "run_style", "end_run_style",
    "float", "end_float", "list", "end_list", "math_para"
  }

  /**
   * The entry of the conversion table for `kind`, applied to the token's value `text`: the
   * entries that call a method on the value fail on null, the others treat null as the empty
   * text (`image` explicitly, the rest through string concatenation).
   */
  function Conversion(kind: string, text: Option<string>, asChapter: bool): (r: Result<Option<Token>>)
    requires kind in DefaultKinds
    ensures r.Fail? <==> kind in NullSensitiveKinds && text.None?
    ensures r.Fail? ==> r.error == NullReference
  {
    if kind in NullSensitiveKinds && text.None? then Fail(NullReference)
    else Ok(Converted(kind, text, asChapter))
  }

  /**
   * The conversion itself, for a value the entry can use. In a chapter, `document` and
   * `bibliography` give nothing, and so does the `end` of the document.
   */
  function Converted(kind: string, text: Option<string>, asChapter: bool): Option<Token>
    requires kind in DefaultKinds
  {
    var s := text.GetOr("");
    if kind == "document" then (if asChapter then None else Latex("\\begin{document}\r\n\\maketitle\r\n\r\n"))
    else if kind == "begin" then Latex(Begin(s))
    else if kind == "end" then (if asChapter && text == Some("document") then None else Latex(End(s)))
    else if kind == "wxbegin" then Latex("\\wxbegin" + s + "\r\n")
    else if kind == "wxend" then Latex("\\wxend" + s + "\r\n")
    else if kind == "title" then Some(Make(Some("preamble"), Some("\\title{" + s + "}\r\n")))
    else if kind == "author" then Some(Make(Some("preamble"), Some("\\author{" + s + "}\r\n")))
    else if kind == "ref" then Latex("\\cref{" + TrimLabel(s) + "}")
    else if kind == "Ref" then Latex("\\Cref{" + TrimLabel(s) + "}")
    else if kind == "ref_number" then Latex("\\ref{" + TrimLabel(s) + "}")
    else if kind == "label" then Some(Make(Some("label"), Some(TrimLabel(s))))
    else if kind == "pagebreak" then Latex("\\pagebreak\r\n")
    else if kind == "sectionbreak" then Latex("\\clearpage\\newpage\r\n")
    else if kind == "oddsectionbreak" then Latex("\\cleardoublepage\\newpage\r\n")
    else if kind == "linebreak" then Latex("\r\n")
    else if kind == "hspace" then Latex("\\hspace{5mm}")
    else if kind == "run_style" then ConvertRunStyle(s)
    else if kind == "end_run_style" then ConvertEndRunStyle(s)
    else if kind == "citation" then Latex("\\cite{" + s + "}")
    else if kind == "hyperlink" then Latex("\\url{" + s + "}")
    else if kind == "footnote" then Latex("\\footnote{")
    else if kind == "end_footnote" then Latex("}")
    else if kind == "float" then Some(ConvertFloat(s))
    else if kind == "end_caption" then Latex("}")
    else if kind == "end_float" then Some(ConvertEndFloat(s))
    else if kind == "list" then Some(ConvertList(s))
    else if kind == "end_list" then Some(ConvertEndList(s))
    else if kind == "item" then Latex("\\item ")
    else if kind == "math_float" then Some(FromText(text))
    else if kind == "math" then Latex("$" + s + "$")
    else if kind == "math_para" then Some(ConvertMathPara(s))
    else if kind == "table" then Latex("\\begin{tabulary}{\\columnwidth}{" + s + "}\r\n\\hline\r\n")
    else if kind == "end_table" then Latex("\\end{tabulary}\r\n")
    else if kind == "end_table_col" then Latex(" & ")
    else if kind == "end_table_row" then Latex(" \\\\ \\hline\r\n")
    else if kind == "image" then Latex("\\includegraphics{" + s + "}")
    else if asChapter then None
    else Latex("\\bibliography{bibliography}\r\n")
  }

  // ---------------------------------------------------------------- substitution tables

  /** One row of a substitution table: the text to find and its replacement. */
  datatype Substitution = Substitution(find: string, replace: string)

  /** `s.Replace(find, replace)`, which refuses an empty text to find. */
  function Replace(s: string, p: Substitution): Result<string> {
    if p.find == "" then Fail(BadArgument) else Ok(ReplaceAll(s, p.find, p.replace))
  }

  /** The substitutions applied to `s` one after the other, in table order. */
  function Substituted(s: string, subs: seq<Substitution>): Result<string>
    decreases |subs|
  {
    if subs == [] then Ok(s)
    else match Replace(s, subs[0])
      case Fail(e) => Fail(e)
      case Ok(s1) => Substituted(s1, subs[1..])
  }

  /** Replaces every occurrence of each row's find text by its replacement, row by row in order. */
  method ApplySubstitutions(s: string, subs: seq<Substitution>) returns (r: Result<string>)
    ensures r == Substituted(s, subs)
  {
    var value := s;
    for i := 0 to |subs|
      invariant Substituted(s, subs) == Substituted(value, subs[i..])
    {
      assert subs[i..][1..] == subs[i + 1..];
      var next := Replace(value, subs[i]);
      if next.Fail? {
        return next;
      }
      value := next.value;
    }
    return Ok(value);
  }

  /** Applying two tables is applying the first, then the second to its result. */
  lemma {:induction false} SubstitutedAppend(s: string, a: seq<Substitution>, b: seq<Substitution>)
    ensures Substituted(s, a + b) == match Substituted(s, a) case Ok(s1) => Substituted(s1, b) case Fail(e) => Fail(e)
    decreases |a|
  {
    if a == [] {
      assert a + b == b;
    } else {
      assert (a + b)[0] == a[0] && (a + b)[1..] == a[1..] + b;
      if Replace(s, a[0]).Ok? {
        SubstitutedAppend(Replace(s, a[0]).value, a[1..], b);
      }
    }
  }

  /** A table whose texts to find all occur nowhere along the way leaves the text as it is. */
  lemma {:induction false} SubstitutedAbsent(s: string, subs: seq<Substitution>)
    requires forall k :: 0 <= k < |subs| ==> subs[k].find != "" && forall i :: !OccursAt(s, subs[k].find, i)
    ensures Substituted(s, subs) == Ok(s)
    decreases |subs|
  {
    if subs != [] {
      SubstitutedAbsent(s, subs[1..]);
    }
  }

  // ---------------------------------------------------------------- reading a table

  /** `StringReader.ReadLine` until null: lines end at "\r\n", "\n" or "\r"; a last empty line is not a line. */
  function Lines(s: string): seq<string>
    decreases |s|
  {
    if s == [] then []
    else
      var i := LineEnd(s, 0);
      if i == |s| then [s]
      else if s[i] == '\r' && i + 1 < |s| && s[i + 1] == '\n' then [s[..i]] + Lines(s[i + 2..])
      else [s[..i]] + Lines(s[i + 1..])
  }

  /** The position of the first line break at or after `i`, or the length. */
  function LineEnd(s: string, i: nat): (j: nat)
    requires i <= |s|
    ensures i <= j <= |s| && (j < |s| ==> s[j] == '\r' || s[j] == '\n')
    ensures forall k :: i <= k < j ==> s[k] != '\r' && s[k] != '\n'
    decreases |s| - i
  {
    if i == |s| || s[i] == '\r' || s[i] == '\n' then i else LineEnd(s, i + 1)
  }

  predicate IsHexDigit(c: char) {
    '0' <= c <= '9' || 'a' <= c <= 'f' || 'A' <= c <= 'F'
  }

  function HexDigitValue(c: char): nat
    requires IsHexDigit(c)
  {
    if '0' <= c <= '9' then c as nat - '0' as nat
    else if 'a' <= c <= 'f' then c as nat - 'a' as nat + 10
    else c as nat - 'A' as nat + 10
  }

  /** The value of a string of hexadecimal digits. */
  function HexValue(s: string): nat
    requires forall i :: 0 <= i < |s| ==> IsHexDigit(s[i])
  {
    if s == [] then 0 else HexValue(s[..|s| - 1]) * 16 + HexDigitValue(s[|s| - 1])
  }

  /** `char.ConvertFromUtf32(Convert.ToInt32(hex, 16))`: the one character with that code point. */
  function CodePoint(hex: string): (r: Result<string>)
    ensures r.Ok? ==> |r.value| == 1
  {
    if hex == [] || exists i :: 0 <= i < |hex| && !IsHexDigit(hex[i]) then Fail(BadArgument)
    else
      var v := HexValue(hex);
      if v < 0xD800 || 0xE000 <= v < 0x11_0000 then Ok([v as char]) else Fail(BadArgument)
  }

  /** One line of a table: the text before the first tab, with a `0x` code point spelled out, and the text after it up to the next tab. */
  function ReadEntry(line: string): Result<Substitution> {
    var parts := Split(line, '\t');
    if |parts| < 2 then Fail(IndexOutOfRange)
    else if StartsWith(parts[0], "0x") then
      match CodePoint(parts[0][2..])
      case Fail(e) => Fail(e)
      case Ok(first) => Ok(Substitution(first, parts[1]))
    else Ok(Substitution(parts[0], parts[1]))
  }

  /** The entries of the lines, in order; the first bad line fails the whole table. */
  function ReadEntries(lines: seq<string>): Result<seq<Substitution>>
    decreases |lines|
  {
    if lines == [] then Ok([])
    else match ReadEntry(lines[0])
      case Fail(e) => Fail(e)
      case Ok(p) =>
        match ReadEntries(lines[1..])
        case Fail(e) => Fail(e)
        case Ok(rest) => Ok([p] + rest)
  }

  lemma ReadEntriesCons(lines: seq<string>)
    requires lines != []
    ensures ReadEntries(lines) == match ReadEntry(lines[0])
      case Fail(e) => Fail(e)
      case Ok(p) => match ReadEntries(lines[1..]) case Fail(e) => Fail(e) case Ok(rest) => Ok([p] + rest)
  {
  }

  /** `ReadSubstitutions`: one entry per line of the table's text. */
  method ReadSubstitutions(source: string) returns (r: Result<seq<Substitution>>)
    ensures r == ReadEntries(Lines(source))
  {
    var lines := Lines(source);
    var result: seq<Substitution> := [];
    assert lines[0..] == lines;
    match ReadEntries(lines) {
      case Ok(rest) => assert result + rest == rest;
      case Fail(_) =>
    }
    for i := 0 to |lines|
      invariant ReadEntries(lines) == match ReadEntries(lines[i..]) case Ok(rest) => Ok(result + rest) case Fail(e) => Fail(e)
    {
      ReadEntriesCons(lines[i..]);
      assert lines[i..][1..] == lines[i + 1..];
      var entry := ReadEntry(lines[i]);
      if entry.Fail? {
        return Fail(entry.error);
      }
      match ReadEntries(lines[i + 1..]) {
        case Ok(rest) => assert result + ([entry.value] + rest) == (result + [entry.value]) + rest;
        case Fail(_) =>
      }
      result := result + [entry.value];
    }
    assert lines[|lines|..] == [];
    assert result + [] == result;
    return Ok(result);
  }

  /** A row written as its text to find, a tab and its replacement. */
  function EntryText(p: Substitution): string {
    p.find + "\t" + p.replace
  }

  /** A table written one row per line, each line ended by "\r\n". */
  function TableText(subs: seq<Substitution>): string
    decreases |subs|
  {
    if subs == [] then "" else EntryText(subs[0]) + "\r\n" + TableText(subs[1..])
  }

  /** A row that reads back as itself: no tab or line break in it, and no `0x` escape. */
  predicate Plain(p: Substitution) {
    '\t' !in p.find && '\t' !in p.replace
    && '\r' !in p.find && '\r' !in p.replace && '\n' !in p.find && '\n' !in p.replace
    && !StartsWith(p.find, "0x")
  }

  lemma SplitTwo(a: string, b: string)
    requires '\t' !in a && '\t' !in b
    ensures Split(a + "\t" + b, '\t') == [a, b]
  {
    var s := a + "\t" + b;
    assert s[|a|] == '\t';
    forall k | 0 <= k < |a| ensures s[k] != '\t' {
      assert s[k] == a[k];
    }
    assert IndexOfChar(s, '\t') == |a|;
    assert s[..|a|] == a && s[|a| + 1..] == b;
    assert IndexOfChar(b, '\t') == -1;
  }

  lemma LinesCons(line: string, rest: string)
    requires '\r' !in line && '\n' !in line
    ensures Lines(line + "\r\n" + rest) == [line] + Lines(rest)
  {
    var s := line + "\r\n" + rest;
    forall k | 0 <= k < |line| ensures s[k] != '\r' && s[k] != '\n' {
      assert s[k] == line[k];
    }
    LineEndAt(s, |line|);
    assert s[|line|] == '\r' && s[|line| + 1] == '\n';
    assert s[..|line|] == line && s[|line| + 2..] == rest;
  }

  lemma LineEndAt(s: string, j: nat)
    requires j < |s| && (s[j] == '\r' || s[j] == '\n')
    requires forall k :: 0 <= k < j ==> s[k] != '\r' && s[k] != '\n'
    ensures LineEnd(s, 0) == j
  {
  }

  /** A table written out reads back as the same rows, in order. */
  lemma {:induction false} ReadTableText(subs: seq<Substitution>)
    requires forall k :: 0 <= k < |subs| ==> Plain(subs[k])
    ensures ReadEntries(Lines(TableText(subs))) == Ok(subs)
    decreases |subs|
  {
    if subs != [] {
      var p := subs[0];
      var line := EntryText(p);
      var rest := TableText(subs[1..]);
      assert Plain(p);
      assert '\r' !in line && '\n' !in line;
      LinesCons(line, rest);
      var lines := Lines(TableText(subs));
      assert lines == [line] + Lines(rest);
      SplitTwo(p.find, p.replace);
      assert ReadEntry(line) == Ok(p);
      ReadTableText(subs[1..]);
      ReadEntriesCons(lines);
      assert lines[1..] == Lines(rest);
      assert [p] + subs[1..] == subs;
    }
  }

  /**
   * The converter's two tables (constructor): each resource read in turn, the Unicode tables
   * appended after the main ones unless the output is for XeTeX.
   */
  function SubstitutionTable(main: string, unicode: string, forXetex: bool): Result<seq<Substitution>> {
    match ReadEntries(Lines(main))
    case Fail(e) => Fail(e)
    case Ok(table) =>
      if forXetex then Ok(table)
      else match ReadEntries(Lines(unicode))
        case Fail(e) => Fail(e)
        case Ok(extra) => Ok(table + extra)
  }

  /** Without XeTeX the Unicode rows apply after the main rows, to the main rows' result. */
  lemma UnicodeAfterMain(s: string, main: string, unicode: string)
    requires SubstitutionTable(main, unicode, false).Ok?
    ensures var m, u := ReadEntries(Lines(main)).value, ReadEntries(Lines(unicode)).value;
      Substituted(s, SubstitutionTable(main, unicode, false).value)
        == match Substituted(s, m) case Ok(s1) => Substituted(s1, u) case Fail(e) => Fail(e)
  {
    SubstitutedAppend(s, ReadEntries(Lines(main)).value, ReadEntries(Lines(unicode)).value);
  }
}
