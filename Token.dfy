/**
 * The token of the stream: an optional kind ("metadata") and an optional value,
 * each of which may be null. Tokens are modelled as values.
 */
module Tokens {
  import opened Wrappers
  import opened Text

  datatype Token = Token(metadata: Option<string>, value: Option<string>)

  /** A field the constructors and the parser store as null: null, empty, or the one-character string "\0". */
  predicate IsBlank(s: Option<string>) {
    s.None? || s.value == "" || s.value == "\0"
  }

  function NullIfBlank(s: Option<string>): (r: Option<string>)
    ensures r.None? <==> IsBlank(s)
    ensures r.Some? ==> r == s
  {
    if IsBlank(s) then None else s
  }

  /** `new Token(Token source)`: a token with the same two fields. */
  function Copy(source: Token): (t: Token)
    ensures t.metadata == source.metadata && t.value == source.value
  {
    Token(source.metadata, source.value)
  }

  /** `new Token(string text)`: an untagged token. */
  function FromText(text: Option<string>): (t: Token)
    ensures t.metadata.None? && t.value == text
  {
    Token(None, text)
  }

  /** `new Token(string metadata, string text)`: a blank kind becomes null, the value is kept as given. */
  function Make(metadata: Option<string>, text: Option<string>): (t: Token)
    ensures t.metadata.None? <==> IsBlank(metadata)
    ensures t.metadata.Some? ==> t.metadata == metadata
    ensures t.value == text
  {
    Token(NullIfBlank(metadata), text)
  }

  /** The start and the end token of an element of the document tree. */
  function Open(name: string): Token { Token(Some("S<"), Some(name)) }
  function Close(name: string): Token { Token(Some("S>"), Some(name)) }

  /** `Token.Parse`: the kind is the text before the first ':', the value the text after it. */
  function Parse(source: string): (t: Token)
    ensures ':' !in source ==> t.metadata.None? && t.value == NullIfBlank(Some(source))
    ensures forall i :: 0 <= i < |source| && source[i] == ':' && ':' !in source[..i] ==>
              t.metadata == NullIfBlank(Some(source[..i])) && t.value == NullIfBlank(Some(source[i + 1..]))
  {
    var i := IndexOfChar(source, ':');
    var m: Option<string> := if i >= 0 then Some(source[..i]) else None;
    var v: Option<string> := if i >= 0 then Some(source[i + 1..]) else Some(source);
    Make(NullIfBlank(m), NullIfBlank(v))
  }

  /** `Token.ToString`: "kind:value" for a tagged token (a null value prints as nothing), else the bare value. */
  function ToString(t: Token): (s: Option<string>)
    ensures t.metadata.Some? ==> s == Some(t.metadata.value + ":" + t.value.GetOr(""))
    ensures t.metadata.None? ==> s == t.value
  {
    match t.metadata
    case Some(m) => Concat(Some(m + ":"), t.value)
    case None => t.value
  }

  /** `Equals(Token other)`: both fields equal; never equal to null. */
  predicate Equals(t: Token, other: Option<Token>)
    ensures Equals(t, other) <==> other == Some(t)
  {
    other.Some? && t.metadata == other.value.metadata && t.value == other.value.value
  }

  /** One field of `WildcardEquals`: a "*" on either side matches anything, null included. */
  predicate FieldMatches(a: Option<string>, b: Option<string>) {
    a == Some("*") || b == Some("*") || a == b
  }

  /** `WildcardEquals(Token other)`: field by field, "*" as a wildcard; never equal to null. */
  predicate WildcardEquals(t: Token, other: Option<Token>) {
    other.Some? && FieldMatches(t.metadata, other.value.metadata) && FieldMatches(t.value, other.value.value)
  }

  /** A text "kind:value" whose kind has no ':' parses into that kind and value, blanks as null. */
  lemma ParseTagged(k: string, v: string)
    requires ':' !in k
    ensures Parse(k + ":" + v) == Token(NullIfBlank(Some(k)), NullIfBlank(Some(v)))
  {
    var s := k + ":" + v;
    assert s[|k|] == ':' && s[..|k|] == k && s[|k| + 1..] == v;
  }

  /** Printing a token and parsing the text back gives the token, when the kind is a plain
      non-blank name without ':' and the value is not blank-but-present. */
  lemma {:induction false} ParseToString(t: Token)
    requires t.metadata.Some? && !IsBlank(t.metadata) && ':' !in t.metadata.value
    requires t.value != Some("") && t.value != Some("\0")
    ensures ToString(t).Some? && Parse(ToString(t).value) == t
  {
    var m := t.metadata.value;
    var s := m + ":" + t.value.GetOr("");
    assert s[|m|] == ':' && s[..|m|] == m && s[|m| + 1..] == t.value.GetOr("");
  }

  /** Without a kind the printed form is the bare value, which parses back when it has no ':' and is not blank. */
  lemma ParseToStringUntagged(t: Token)
    requires t.metadata.None? && !IsBlank(t.value) && ':' !in t.value.value
    ensures ToString(t).Some? && Parse(ToString(t).value) == t
  {
  }

  /** Wildcard equality is symmetric. */
  lemma WildcardSymmetric(a: Token, b: Token)
    ensures WildcardEquals(a, Some(b)) <==> WildcardEquals(b, Some(a))
  {
  }

  /** Exact equality implies wildcard equality. */
  lemma EqualsImpliesWildcard(a: Token, b: Option<Token>)
    ensures Equals(a, b) ==> WildcardEquals(a, b)
  {
  }

  /** A "*" field on either side matches every value of that field, null included. */
  lemma WildcardMatchesAnything(t: Token, k: Option<string>, v: Option<string>)
    ensures WildcardEquals(t, Some(Token(Some("*"), Some("*"))))
    ensures WildcardEquals(Token(k, Some("*")), Some(t)) <==> FieldMatches(k, t.metadata)
    ensures WildcardEquals(Token(Some("*"), v), Some(t)) <==> FieldMatches(v, t.value)
  {
  }
}
