/**
 * The reader's flattener: an element tree of the document becomes the token stream the
 * simplifier works on. An element is its start token, a kind "Sa" token and a kind "S=" token
 * per attribute, its children (or, for a leaf, its text), and its end token. An `oMath`
 * element is kept whole: one "Smath" token holding its outer XML.
 */
module Flattener {
  import opened Wrappers
  import opened Tokens

  /** An attribute: its local name and its value. */
  datatype Attribute = Attribute(name: string, value: string)

  /**
   * An element: its local name, its attributes in order, its child elements in order, its
   * value (the text of a leaf; the empty text when it has none) and its outer XML text.
   */
  datatype Element = Element(name: string, attributes: seq<Attribute>, children: seq<Element>, value: string, outerXml: string)

  /** The local name of the elements that are kept whole. */
  const MathName: string := "oMath"

  /** The one token of a kept-whole element. */
  function MathToken(e: Element): Token {
    Make(Some("Smath"), Some(e.outerXml))
  }

  /** The "Sa" and "S=" tokens of the attributes, in order. */
  function AttributeTokens(attrs: seq<Attribute>): (ts: seq<Token>)
    ensures |ts| == 2 * |attrs|
    ensures forall i :: 0 <= i < |attrs| ==>
      ts[2 * i] == Token(Some("Sa"), Some(attrs[i].name)) && ts[2 * i + 1] == Token(Some("S="), Some(attrs[i].value))
  {
    if attrs == [] then []
    else [Token(Some("Sa"), Some(attrs[0].name)), Token(Some("S="), Some(attrs[0].value))] + AttributeTokens(attrs[1..])
  }

  /** The kinds the reader gives its tagged tokens are not blank, so `Make` keeps them. */
  lemma MakeTagged(k: string, v: string)
    requires k in {"S<", "S>", "Sa", "S=", "Smath"}
    ensures Make(Some(k), Some(v)) == Token(Some(k), Some(v))
  {
    assert |k| >= 2;
  }

  /** The text token of an element: only a leaf with a value has one, and a bare "*" is escaped. */
  function TextTokens(e: Element): seq<Token> {
    if e.children == [] && e.value != "" then
      if e.value == "*" then [FromText(Some("\\*"))] else [FromText(Some(e.value))]
    else []
  }

  /** The tokens `RecurseFillBuffer` adds for element `e`. */
  function Flatten(e: Element): seq<Token>
    decreases e, 1
  {
    if e.name == MathName then [MathToken(e)]
    else [Open(e.name)] + AttributeTokens(e.attributes) + FlattenAll(e.children) + TextTokens(e) + [Close(e.name)]
  }

  /** The tokens of a sequence of elements, one after the other. */
  function FlattenAll(es: seq<Element>): seq<Token>
    decreases es, 0
  {
    if es == [] then [] else Flatten(es[0]) + FlattenAll(es[1..])
  }

  // ---------------------------------------------------------------- the buffer

  /** The `List<Token>` buffer the reader fills. */
  class Buffer {
    var items: seq<Token>

    constructor ()
      ensures items == []
    {
      items := [];
    }

    /** `List.Add`. */
    method Add(t: Token)
      modifies this
      ensures items == old(items) + [t]
    {
      items := items + [t];
    }
  }

  /** `RecurseFillBuffer(xml, buffer)`: the tokens of `xml` are appended to the buffer. */
  method RecurseFillBuffer(xml: Element, buffer: Buffer)
    modifies buffer
    ensures buffer.items == old(buffer.items) + Flatten(xml)
    decreases xml
  {
    if xml.name == MathName {
      MakeTagged("Smath", xml.outerXml);
      buffer.Add(Make(Some("Smath"), Some(xml.outerXml)));
      return;
    }
    MakeTagged("S<", xml.name);
    buffer.Add(Make(Some("S<"), Some(xml.name)));
    AddAttributes(xml.attributes, buffer);
    ghost var head := buffer.items;
    for i := 0 to |xml.children|
      invariant buffer.items == head + FlattenAll(xml.children[..i])
    {
      FlattenAllSnoc(xml.children, i);
      RecurseFillBuffer(xml.children[i], buffer);
    }
    assert xml.children[..|xml.children|] == xml.children;
    ghost var body := buffer.items;
    if xml.children == [] && xml.value != "" {
      if xml.value == "*" {
        buffer.Add(FromText(Some("\\*")));
      } else {
        buffer.Add(FromText(Some(xml.value)));
      }
    }
    assert buffer.items == body + TextTokens(xml);
    MakeTagged("S>", xml.name);
    buffer.Add(Make(Some("S>"), Some(xml.name)));
    FlattenParts(xml);
    Concatenated(old(buffer.items), [Open(xml.name)], AttributeTokens(xml.attributes), FlattenAll(xml.children), TextTokens(xml), [Close(xml.name)]);
  }

  lemma Concatenated<T>(o: seq<T>, a: seq<T>, b: seq<T>, c: seq<T>, d: seq<T>, e: seq<T>)
    ensures o + a + b + c + d + e == o + (a + b + c + d + e)
  {
  }

  /** The attribute loop of `RecurseFillBuffer`: a "Sa" and a "S=" token per attribute. */
  method AddAttributes(attrs: seq<Attribute>, buffer: Buffer)
    modifies buffer
    ensures buffer.items == old(buffer.items) + AttributeTokens(attrs)
  {
    for i := 0 to |attrs|
      invariant buffer.items == old(buffer.items) + AttributeTokens(attrs[..i])
    {
      var a := attrs[i];
      AttributeTokensSnoc(attrs, i);
      MakeTagged("Sa", a.name);
      MakeTagged("S=", a.value);
      buffer.Add(Make(Some("Sa"), Some(a.name)));
      buffer.Add(Make(Some("S="), Some(a.value)));
    }
    assert attrs[..|attrs|] == attrs;
  }

  /** The parts of a flattened element, in order. */
  lemma FlattenParts(e: Element)
    requires e.name != MathName
    ensures Flatten(e) == [Open(e.name)] + AttributeTokens(e.attributes) + FlattenAll(e.children) + TextTokens(e) + [Close(e.name)]
  {
  }

  /** `Read`, once the part is loaded: a fresh buffer filled from the root element. */
  method Read(xml: Element) returns (result: seq<Token>)
    ensures result == Flatten(xml)
  {
    var buffer := new Buffer();
    RecurseFillBuffer(xml, buffer);
    result := buffer.items;
  }

  lemma {:induction false} AttributeTokensAppend(a: seq<Attribute>, b: seq<Attribute>)
    ensures AttributeTokens(a + b) == AttributeTokens(a) + AttributeTokens(b)
    decreases |a|
  {
    if a == [] {
      assert a + b == b;
    } else {
      assert (a + b)[1..] == a[1..] + b;
      AttributeTokensAppend(a[1..], b);
    }
  }

  lemma AttributeTokensSnoc(attrs: seq<Attribute>, i: nat)
    requires i < |attrs|
    ensures AttributeTokens(attrs[..i + 1])
      == AttributeTokens(attrs[..i]) + [Token(Some("Sa"), Some(attrs[i].name)), Token(Some("S="), Some(attrs[i].value))]
  {
    assert attrs[..i + 1] == attrs[..i] + [attrs[i]];
    AttributeTokensAppend(attrs[..i], [attrs[i]]);
  }

  lemma {:induction false} FlattenAllAppend(a: seq<Element>, b: seq<Element>)
    ensures FlattenAll(a + b) == FlattenAll(a) + FlattenAll(b)
    decreases |a|
  {
    if a == [] {
      assert a + b == b;
    } else {
      assert (a + b)[1..] == a[1..] + b;
      FlattenAllAppend(a[1..], b);
    }
  }

  lemma FlattenAllSnoc(es: seq<Element>, i: nat)
    requires i < |es|
    ensures FlattenAll(es[..i + 1]) == FlattenAll(es[..i]) + Flatten(es[i])
  {
    assert es[..i + 1] == es[..i] + [es[i]];
    FlattenAllAppend(es[..i], [es[i]]);
    assert [es[i]][1..] == [];
  }

  // ---------------------------------------------------------------- properties

  /** An `oMath` element is one "Smath" token holding its outer XML, whatever its children. */
  lemma MathKeptWhole(e: Element, children: seq<Element>)
    requires e.name == MathName
    ensures |Flatten(e)| == 1 && Flatten(e)[0].metadata == Some("Smath") && Flatten(e)[0].value == Some(e.outerXml)
    ensures Flatten(e.(children := children)) == Flatten(e)
  {
    assert "Smath"[0] == 'S';
  }

  /**
   * Any other element starts with its start token and ends with its end token; its attributes
   * come right after the start token as "Sa"/"S=" pairs, in order, before any child token.
   */
  lemma ElementFrame(e: Element)
    requires e.name != MathName
    ensures var ts := Flatten(e);
      |ts| >= 2 + 2 * |e.attributes| && ts[0] == Open(e.name) && ts[|ts| - 1] == Close(e.name)
      && forall i :: 0 <= i < |e.attributes| ==>
           ts[1 + 2 * i] == Token(Some("Sa"), Some(e.attributes[i].name))
           && ts[2 + 2 * i] == Token(Some("S="), Some(e.attributes[i].value))
  {
    var ts := Flatten(e);
    var attrs := AttributeTokens(e.attributes);
    assert ts == [Open(e.name)] + attrs + (FlattenAll(e.children) + TextTokens(e) + [Close(e.name)]);
    assert "Sa"[0] == 'S' && "S="[0] == 'S';
    forall i | 0 <= i < |e.attributes|
      ensures ts[1 + 2 * i] == attrs[2 * i] && ts[2 + 2 * i] == attrs[2 * i + 1]
    {
    }
  }

  /** The children's tokens sit between the attributes and the text, in document order. */
  lemma ChildrenInOrder(e: Element)
    requires e.name != MathName
    ensures var k := 1 + 2 * |e.attributes|;
      var n := |FlattenAll(e.children)|;
      k + n <= |Flatten(e)| && Flatten(e)[k..k + n] == FlattenAll(e.children)
  {
    var pre := [Open(e.name)] + AttributeTokens(e.attributes);
    assert Flatten(e) == pre + FlattenAll(e.children) + (TextTokens(e) + [Close(e.name)]);
  }

  /** Every attribute token is tagged, with kind "Sa" or "S=". */
  lemma {:induction false} AttributesTagged(attrs: seq<Attribute>)
    ensures forall t :: t in AttributeTokens(attrs) ==> t.metadata == Some("Sa") || t.metadata == Some("S=")
    decreases |attrs|
  {
    if attrs != [] {
      AttributesTagged(attrs[1..]);
    }
  }

  /** An untagged token comes only from the text of a leaf, and never holds a bare "*". */
  lemma {:induction false} NoBareWildcard(e: Element)
    ensures forall t :: t in Flatten(e) && t.metadata.None? ==> t.value != Some("*")
    decreases e, 1
  {
    if e.name != MathName {
      NoBareWildcardAll(e.children);
      AttributesTagged(e.attributes);
      assert "\\*" != "*" by { assert |"\\*"| == 2; }
      FlattenParts(e);
    }
  }

  lemma {:induction false} NoBareWildcardAll(es: seq<Element>)
    ensures forall t :: t in FlattenAll(es) && t.metadata.None? ==> t.value != Some("*")
    decreases es, 0
  {
    if es != [] {
      NoBareWildcard(es[0]);
      NoBareWildcardAll(es[1..]);
    }
  }

  /** An element with child elements adds no text token, whatever its value. */
  lemma NoTextBesideChildren(e: Element)
    requires e.name != MathName && e.children != []
    ensures Flatten(e) == [Open(e.name)] + AttributeTokens(e.attributes) + FlattenAll(e.children) + [Close(e.name)]
  {
  }

  // ---------------------------------------------------------------- balance

  /**
   * The names of the elements still open after the tokens `ts`, from the open ones `open`:
   * a start token pushes its name, an end token pops a matching name; None when an end token
   * does not match.
   */
  function Nesting(ts: seq<Token>, open: seq<string>): Option<seq<string>>
    decreases |ts|
  {
    if ts == [] then Some(open)
    else
      var t := ts[0];
      if t.metadata == Some("S<") then Nesting(ts[1..], open + [t.value.GetOr("")])
      else if t.metadata == Some("S>") then
        if open != [] && open[|open| - 1] == t.value.GetOr("") then Nesting(ts[1..], open[..|open| - 1]) else None
      else Nesting(ts[1..], open)
  }

  /** Start and end tokens nest properly with matching names. */
  predicate Balanced(ts: seq<Token>) {
    Nesting(ts, []) == Some([])
  }

  /** Nesting over two parts is nesting over the first, then over the second. */
  lemma {:induction false} NestingAppend(a: seq<Token>, b: seq<Token>, open: seq<string>)
    ensures Nesting(a + b, open) == if Nesting(a, open).Some? then Nesting(b, Nesting(a, open).value) else None
    decreases |a|
  {
    if a == [] {
      assert a + b == b;
    } else {
      assert (a + b)[0] == a[0] && (a + b)[1..] == a[1..] + b;
      var t := a[0];
      if t.metadata == Some("S<") {
        NestingAppend(a[1..], b, open + [t.value.GetOr("")]);
      } else if t.metadata == Some("S>") {
        if open != [] && open[|open| - 1] == t.value.GetOr("") {
          NestingAppend(a[1..], b, open[..|open| - 1]);
        }
      } else {
        NestingAppend(a[1..], b, open);
      }
    }
  }

  /** The attribute tokens leave the open names as they are. */
  lemma {:induction false} AttributesNest(attrs: seq<Attribute>, open: seq<string>)
    ensures Nesting(AttributeTokens(attrs), open) == Some(open)
    decreases |attrs|
  {
    if attrs != [] {
      KindsDistinct();
      AttributesNest(attrs[1..], open);
      var ts := AttributeTokens(attrs);
      assert ts[1..][1..] == AttributeTokens(attrs[1..]);
    }
  }

  lemma KindsDistinct()
    ensures "Sa" != "S<" && "Sa" != "S>" && "S=" != "S<" && "S=" != "S>" && "Smath" != "S<" && "Smath" != "S>"
  {
    assert "Sa"[1] == 'a' && "S="[1] == '=' && "S<"[1] == '<' && "S>"[1] == '>' && "Smath"[1] == 'm';
  }

  /** A text token leaves the open names as they are. */
  lemma TextNests(e: Element, open: seq<string>)
    ensures Nesting(TextTokens(e), open) == Some(open)
  {
  }

  /** An element whose parts each leave the names inside it as they are closes what it opens. */
  lemma ElementNests(e: Element, open: seq<string>)
    requires e.name != MathName
    requires Nesting(AttributeTokens(e.attributes), open + [e.name]) == Some(open + [e.name])
    requires Nesting(FlattenAll(e.children), open + [e.name]) == Some(open + [e.name])
    ensures Nesting(Flatten(e), open) == Some(open)
  {
    var inner := open + [e.name];
    var attrs, kids, text := AttributeTokens(e.attributes), FlattenAll(e.children), TextTokens(e);
    var close := [Close(e.name)];
    TextNests(e, inner);
    NestingAppend(text, close, inner);
    assert inner[..|inner| - 1] == open;
    NestingAppend(kids, text + close, inner);
    NestingAppend(attrs, kids + (text + close), inner);
    NestingAppend([Open(e.name)], attrs + (kids + (text + close)), open);
    FlattenParts(e);
    assert Flatten(e) == [Open(e.name)] + (attrs + (kids + (text + close)));
  }

  /** The tokens of any element leave the open names as they found them. */
  lemma {:induction false} FlattenNests(e: Element, open: seq<string>)
    ensures Nesting(Flatten(e), open) == Some(open)
    decreases e, 1
  {
    if e.name == MathName {
      KindsDistinct();
    } else {
      AttributesNest(e.attributes, open + [e.name]);
      FlattenAllNests(e.children, open + [e.name]);
      ElementNests(e, open);
    }
  }

  lemma {:induction false} FlattenAllNests(es: seq<Element>, open: seq<string>)
    ensures Nesting(FlattenAll(es), open) == Some(open)
    decreases es, 0
  {
    if es != [] {
      FlattenNests(es[0], open);
      FlattenAllNests(es[1..], open);
      NestingAppend(Flatten(es[0]), FlattenAll(es[1..]), open);
    }
  }

  /** The stream of any element is balanced. */
  lemma FlattenBalanced(e: Element)
    ensures Balanced(Flatten(e))
  {
    FlattenNests(e, []);
  }
}
