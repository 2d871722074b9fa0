# WordExtractor core, modelled in Dafny

WordExtractor turns a Word `.docx` document into LaTeX in three stages, and this project models
each stage:

1. **Flattening.** `DocxReader` flattens each XML part of the `.docx` package into a list of *tokens*.
   A token is a pair of an optional *kind* (`Metadata`) and an optional *value*.
   Elements become `S<`/`S>` tokens, attributes become `Sa`/`S=` pairs, text becomes untagged
   tokens, and a maths element (`oMath`) is kept whole as one `Smath` token.
2. **Simplifying.** `Simplifier` rewrites the document's token list in place through five
   *passes* of rules. Each rule searches the linked list with a small pattern language
   ("`S<:p !S>:rPr | seq:* ! eop:`"): `:` separates kind and value, `*` is a wildcard, a
   leading `!` starts a *skip element* that passes over tokens until the next element or an
   abort token, `|` marks the element whose node the rule wants back, and a bare `!` skips
   anything. Each rule then replaces, merges or edits the matched tokens.
3. **Converting.** `TeXConverter` maps every simplified token to LaTeX text through a table
   of conversions. It applies the text and maths substitution tables and routes the result to
   output files: the document, the preamble, the bibliography, and one file per labelled float.

The model follows the C# code file by file:

| module | file | models |
|---|---|---|
| `Wrappers` | Wrappers.dfy | `Option`, `Result` and the exceptions the core throws |
| `Text` | Text.dfy | the .NET string operations the core calls (ordinal `Replace`, `Split`, `Trim`, ASCII case folding, `int.ToString`) |
| `Tokens` | Token.dfy | `Token`: constructors, `Parse`, `ToString`, `Equals`, `WildcardEquals` |
| `LinkedTokens` | LinkedTokens.dfy | `LinkedList<Token>` as a class over node and token sequences |
| `ListExtensions` | ListExtensions.dfy | `LinkedListExtensions`: the range copy `AddAfter`, `Remove`, `RemoveTo` |
| `Patterns` | Patterns.dfy | the compilation half of `FindSequence` (code parts, `\|` and `!` handling) |
| `Matcher` | Matcher.dfy | the search half of `FindSequence`, as a specification over positions and as the node-walking method |
| `Enumerator` | Enumerator.dfy | `Find`, the lazy sequence of matches, as a class with `MoveNext` |
| `Replacer` | Replacer.dfy | `ReplaceSequence` |
| `Merges` | Merges.dfy | the merge loops of `SimplifyParagraphs`, `CombineCitations` and `ConvertTables` |
| `Rules` | Rules.dfy | the rules built on `ReplaceSequence` and the merge loops |
| `Captions` | Captions.dfy | `NiceNameFromCaption` and its disambiguation loop |
| `Pipeline` | Pipeline.dfy | `Simplifier`: its state, `RunAll` and the gating of `Pass1`..`Pass5` |
| `Flattener` | Flattener.dfy | `DocxReader.RecurseFillBuffer` and `Read` over an XML tree value |
| `Conversions` | TeXConversions.dfy | the conversion table, the per-kind conversions, `ReadSubstitutions` and the substitution loops |
| `Converter` | TeXConverter.dfy | `TeXConverter`: its construction, `DoConvert`, the paragraph-style state and the routing in `Run` |

Tokens are values: `datatype Token(metadata: Option<string>, value: Option<string>)`, with
`None` standing for C#'s `null`. The linked list that the rules edit in place is a class whose
`nodes` and `tokens` sequences the methods reassign. Node identity is kept, so a method can
return a node and a later call can find it again. The converter's output files are a
`map<string, string>` field that `Run` extends.

## Model

| member | source | states |
|---|---|---|
| Text.Concat | WordExtractor/Simplifier.cs:770 | C# string `+`: a null operand acts as "" and the result is never null |
| Text.IndexOfChar | WordExtractor/Token.cs:31 | `IndexOf(ch)`: -1 exactly when `ch` is absent, otherwise the first position holding `ch` |
| Text.Lower | WordExtractor/Simplifier.cs:920 | `ToLower` keeps the length and lower-cases each character |
| Text.ReplaceAll | WordExtractor/TeXConverter.cs:204 | ordinal `Replace` leaves a text without an occurrence unchanged |
| Text.TrimStart | WordExtractor/Simplifier.cs:176 | the result is a suffix, everything cut is white space, and it does not start with white space |
| Text.TrimEnd | WordExtractor/Simplifier.cs:176 | the result is a prefix, everything cut is white space, and it does not end with white space |
| Text.Trim | WordExtractor/Simplifier.cs:176 | the result neither starts nor ends with white space, and a text with no white space is unchanged |
| Text.Split | WordExtractor/Simplifier.cs:176 | at least one part, and no part contains the separator |
| Text.JoinSplit | WordExtractor/Simplifier.cs:176 | joining the parts of `Split` with the separator gives back the text |
| Text.NatToString | WordExtractor/Simplifier.cs:993 | `int.ToString` of a non-negative number is non-empty, with two or more digits from 10 on |
| Text.NatToStringInjective | WordExtractor/Simplifier.cs:993-996 | distinct counters print as distinct strings |
| Tokens.NullIfBlank | WordExtractor/Token.cs:25 | a field becomes null exactly when it is null, empty or "\0", and is otherwise kept |
| Tokens.Copy | WordExtractor/Token.cs:13-16 | the copy constructor keeps both fields |
| Tokens.FromText | WordExtractor/Token.cs:18-21 | the text constructor gives an untagged token holding the text |
| Tokens.Make | WordExtractor/Token.cs:23-27 | the kind is null exactly when it is blank, and the value is kept as given |
| Tokens.Parse | WordExtractor/Token.cs:29-39 | text without ':' is an untagged token. Otherwise the kind is the text before the first ':' and the value the text after it, blanks as null |
| Tokens.ToString | WordExtractor/Token.cs:41-44 | a tagged token prints as "kind:value", with a null value printing as nothing; an untagged token prints as its value |
| Tokens.Equals | WordExtractor/Token.cs:54-58 | equal exactly when the other token exists and has the same two fields |
| Tokens.ParseTagged | WordExtractor/Token.cs:29-39 | "k:v" with no ':' in `k` parses to kind `k` and value `v`, blanks as null |
| Tokens.ParseToString | WordExtractor/Token.cs:29-44 | parsing the printed form gives back a tagged token whose kind has no ':' and whose value is not blank |
| Tokens.ParseToStringUntagged | WordExtractor/Token.cs:29-44 | parsing gives back an untagged token whose value has no ':' and is not blank |
| Tokens.WildcardSymmetric | WordExtractor/Token.cs:60-72 | `WildcardEquals` is symmetric |
| Tokens.EqualsImpliesWildcard | WordExtractor/Token.cs:54-72 | equal tokens are wildcard-equal |
| Tokens.WildcardMatchesAnything | WordExtractor/Token.cs:60-72 | "*:*" matches every token, and a "*" field matches every value of that field, null included |
| Patterns.Words | WordExtractor/Simplifier.cs:176 | the kept parts are never empty and are no more than the split parts |
| Patterns.Kept | WordExtractor/Simplifier.cs:178-186 | removing the `\|` parts never adds parts |
| Patterns.ParseAll | WordExtractor/Simplifier.cs:188 | element `i` of the pattern is `Token.Parse` of part `i` |
| Patterns.AbortTarget | WordExtractor/Simplifier.cs:199 | the abort token of a skip element is `new Token(kind without '!', value)` |
| Patterns.MarkParts | WordExtractor/Simplifier.cs:178-186 | the loop that removes each `\|` and rewrites each bare `!` computes the kept parts and the index of the last mark |
| Patterns.MarkStep | WordExtractor/Simplifier.cs:178-186 | one pass of that loop keeps part `j` at index `i` of the list being edited |
| Patterns.CompilePattern | WordExtractor/Simplifier.cs:175-188 | the compiled pattern is `Compile(code)` |
| Patterns.KeptHasNoBar | WordExtractor/Simplifier.cs:178-186 | no `\|` survives, the mark lies within the elements, and exactly the `\|` parts are dropped |
| Patterns.NoBarMarksFirst | WordExtractor/Simplifier.cs:175-186 | without a `\|` every part is kept, a bare `!` rewritten, and the mark index is 0 |
| Patterns.BareSkipAbortsOnEmptyToken | WordExtractor/Simplifier.cs:183-185 | a bare `!` becomes a skip element whose abort token has neither kind nor value |
| Patterns.SplitJoinedWords | WordExtractor/Simplifier.cs:176 | splitting words joined by single spaces gives the words back |
| Patterns.CodePartsOfWords | WordExtractor/Simplifier.cs:176 | the parts of a code written as single-space-separated words are those words |
| Patterns.WordsOfWords | WordExtractor/Simplifier.cs:176 | non-empty parts without white space are all kept |
| Patterns.CodePartsOfEmpty | WordExtractor/Simplifier.cs:242 | the empty replacement text has no parts, so it deletes |
| Patterns.CompileWords | WordExtractor/Simplifier.cs:175-188 | a code of words with no `\|` compiles to the parsed words (bare `!` rewritten), marked at 0 |
| Patterns.PairCode | WordExtractor/Simplifier.cs:175-188 | "k1:v1 k2:v2" compiles to its two parsed tokens, marked at the first |
| LinkedTokens.TokenList.constructor | WordExtractor/Simplifier.cs:33 | `new LinkedList<Token>(source)` holds the tokens in order, each in a fresh node |
| LinkedTokens.TokenList.IndexOf | WordExtractor/LinkedListExtensions.cs:16 | walking from the head finds a node at its one position |
| LinkedTokens.TokenList.First | WordExtractor/Simplifier.cs:228 | `First` is null exactly for an empty list, otherwise the node at position 0 |
| LinkedTokens.TokenList.Last | WordExtractor/Simplifier.cs:220 | `Last` is null exactly for an empty list, otherwise the node at the last position |
| LinkedTokens.TokenList.Next | WordExtractor/LinkedListExtensions.cs:16 | `Next` is the node one position on, and null at the tail or for a node in no list |
| LinkedTokens.TokenList.Previous | WordExtractor/Simplifier.cs:229 | `Previous` is the node one position back, and null at the head or for a node in no list |
| LinkedTokens.TokenList.ValueOf | WordExtractor/Simplifier.cs:252 | `Value` is the token at the node's position |
| LinkedTokens.TokenList.SetValue | WordExtractor/Simplifier.cs:770 | overwriting a node's token changes that token only |
| LinkedTokens.TokenList.AddFirst | WordExtractor/LinkedListExtensions.cs:15 | a fresh node holding the token goes in front |
| LinkedTokens.TokenList.AddAfter | WordExtractor/LinkedListExtensions.cs:18 | a fresh node holding the token goes right after the given node |
| LinkedTokens.TokenList.AddBefore | WordExtractor/Simplifier.cs:931 | a fresh node holding the token goes right before the given node |
| LinkedTokens.TokenList.Remove | WordExtractor/LinkedListExtensions.cs:27 | the node and its token leave the list, and nothing else changes |
| LinkedTokens.TokenList.RemoveFirst | WordExtractor/LinkedListExtensions.cs:20 | the head node and its token leave the list |
| ListExtensions.CopiedRange | WordExtractor/LinkedListExtensions.cs:16 | the tokens the copy loop visits: `from` through `to`, nothing when `to` comes right before `from`, and `from` to the tail when `to` is earlier still |
| ListExtensions.StopAt | WordExtractor/LinkedListExtensions.cs:16 | the copy loop stops at or after where it starts and within the list |
| ListExtensions.CopyOne | WordExtractor/LinkedListExtensions.cs:16-19 | one pass of the copy loop puts a copy of the current token after the last copy and moves on to the next node |
| ListExtensions.WalkBound | WordExtractor/LinkedListExtensions.cs:16 | a walk that has not yet met `to.Next` has not passed where it stops |
| ListExtensions.CopyWalk | WordExtractor/LinkedListExtensions.cs:16-19 | the copy loop inserts the tokens from `from` up to where it stops, in order, right after the starting node |
| ListExtensions.AddAfter | WordExtractor/LinkedListExtensions.cs:10-22 | Four outcomes. A null list fails with ArgumentNull. A null `from` copies nothing and returns `node` (or the removed placeholder). A null `to` is a null dereference that leaves the placeholder at the head. Otherwise the copied range goes in after `node`, or at the head when `node` is null. The range must come from a list other than the one receiving the copies, as at the one range-copy call (Simplifier.cs:391), where footnote tokens go into the document |
| ListExtensions.Splice | WordExtractor/LinkedListExtensions.cs:14-21 | with `to` non-null, the copied range goes in after the starting node and the last copy is returned |
| ListExtensions.RemoveNode | WordExtractor/LinkedListExtensions.cs:24-28 | a null node fails with ArgumentNull, a node in no list is a null dereference, and otherwise the node alone is removed |
| ListExtensions.RemoveNext | WordExtractor/LinkedListExtensions.cs:35 | one pass of the loop removes the node right after `start` |
| ListExtensions.RemoveSuccessors | WordExtractor/LinkedListExtensions.cs:35 | the loop removes every node after `start` up to `end`. It stops at `end` when `end` follows `start`; otherwise it clears the tail |
| ListExtensions.RemoveTo | WordExtractor/LinkedListExtensions.cs:30-38 | Three outcomes. A null start fails with ArgumentNull, and a start in no list is a null dereference. With `end` after `start`, `start` through `end` are removed. With a null `end`, `start` through the tail are removed. When `end` does not follow `start`, the tail is cleared and the removal of the missing successor fails |
| Matcher.SkipTo | WordExtractor/Simplifier.cs:202 | the skip loop passes over only tokens matching neither the abort token nor the next element, and stops at one that matches either or at the end |
| Matcher.Walk | WordExtractor/Simplifier.cs:191-217 | a reading of the pattern from position `i` ends within the list, past `i` while elements remain |
| Matcher.ScanSound | WordExtractor/Simplifier.cs:191-222 | every Start the scan reports lies at or after its origin, and the pattern reads from Start to End |
| Matcher.CompareSound | WordExtractor/Simplifier.cs:207-216 | the same for the comparison step |
| Matcher.SearchSound | WordExtractor/Simplifier.cs:174-224 | a reported match starts at or after the search position, its first token matches the first element, and the pattern reads from Start to End |
| Matcher.ScanLeftmost | WordExtractor/Simplifier.cs:191-222 | with no skip elements, no position before the reported Start (or before the end, when nothing is found) begins a match |
| Matcher.CompareLeftmost | WordExtractor/Simplifier.cs:207-216 | the same for the comparison step |
| Matcher.LiteralWalkLength | WordExtractor/Simplifier.cs:207-216 | without skip elements a match is exactly as long as the pattern |
| Matcher.SearchLeftmost | WordExtractor/Simplifier.cs:174-224 | without skip elements `FindSequence` finds the leftmost match from the search position |
| Matcher.ScanMarksStart | WordExtractor/Simplifier.cs:209-210 | with mark index 0 the Mark is the Start |
| Matcher.CompareMarksStart | WordExtractor/Simplifier.cs:209-210 | the same for the comparison step |
| Matcher.SearchMarksStart | WordExtractor/Simplifier.cs:174-224 | for a code without `\|` a match's Mark is its Start |
| Matcher.ScanBounds | WordExtractor/Simplifier.cs:191-222 | a reported Start lies at or after the origin, End lies between Start and the tail, and Mark lies in the list |
| Matcher.CompareBounds | WordExtractor/Simplifier.cs:207-216 | the same for the comparison step |
| Matcher.SearchBounds | WordExtractor/Simplifier.cs:174-224 | a match's End lies between its Start and the tail, Start is not before the search position, and Mark lies in the list |
| Matcher.NodeAt | WordExtractor/Simplifier.cs:191 | the node at a position, and null past the tail |
| Matcher.NodeOf | WordExtractor/Simplifier.cs:167-169 | a position names its node, and no position names null |
| Matcher.SkipForward | WordExtractor/Simplifier.cs:202 | the node-walking skip loop stops where `SkipTo` says |
| Matcher.SkipElement | WordExtractor/Simplifier.cs:197-205 | handling a skip element either loses the list (no match), or continues with a comparison at the position the skip reached, with the index moved on or reset to 0 on an abort |
| Matcher.CompareElement | WordExtractor/Simplifier.cs:207-216 | one comparison step on nodes agrees with the specification, and the scan makes progress |
| Matcher.ScanNodes | WordExtractor/Simplifier.cs:191-217 | the node loop ends in the state from which the specification's scan gives the search result, or it reports that no match exists |
| Matcher.ScanFinished | WordExtractor/Simplifier.cs:192-223 | with the pattern exhausted the match ends at the node before the current one, or at the tail when the list has ended; with elements left there is no match |
| Matcher.FindSequence | WordExtractor/Simplifier.cs:174-224 | `FindSequence(start, code)` returns the nodes of `Search(tokens, Compile(code), start)`. It fails only with a null start and an empty code, where line 220 reads `start.List` |
| Matcher.FindPattern | WordExtractor/Simplifier.cs:189-223 | the search half of `FindSequence` for a compiled pattern |
| Enumerator.ResumeFrom | WordExtractor/Simplifier.cs:229-237 | Where the enumeration resumes. After a match with no predecessor it resumes at `First.Next`, which fails exactly when the document has become empty. After a match with a predecessor it resumes two nodes on, and it stops when that predecessor has no successor or has left the list |
| Enumerator.PredecessorOf | WordExtractor/Simplifier.cs:229 | `Start.Previous` is null exactly for a match at the head, otherwise the node before it |
| Enumerator.UneditedResumesAfterStart | WordExtractor/Simplifier.cs:226-239 | when the caller leaves the list alone, the next search starts right after the match's Start, so matches come strictly left to right |
| Enumerator.DeletedMatchSkipsFollower | WordExtractor/Simplifier.cs:229-237 | when the caller deletes a match that had a predecessor, the token that followed the match is skipped: the search resumes one past it, or stops at the tail |
| Enumerator.ResumeNode | WordExtractor/Simplifier.cs:231-237 | the node-walking resumption agrees with `ResumeFrom` |
| Enumerator.FindEnumerator.constructor | WordExtractor/Simplifier.cs:226 | the enumeration starts over the document and code given, before its first search |
| Enumerator.FindEnumerator.MoveNext | WordExtractor/Simplifier.cs:226-239 | Each call either reports the next match as `Search` defines it from the resumption point, with the match's predecessor captured, or ends the enumeration for good. It fails where the resumption or the search dereferences null |
| Replacer.ReplacementTokens | WordExtractor/Simplifier.cs:242-243 | one parsed token per part of the replacement text |
| Replacer.ReplacedAtMostCount | WordExtractor/Simplifier.cs:248 | the loop makes no more than `count` replacements |
| Replacer.ReplacedKeepsPrefix | WordExtractor/Simplifier.cs:241-280 | tokens before the start node are never touched |
| Replacer.DeletionShrinks | WordExtractor/Simplifier.cs:259-269 | with an empty replacement each replacement removes at least one token, so the list loses at least as many tokens as replacements made |
| Replacer.OneReplacement | WordExtractor/Simplifier.cs:249-276 | a replacement puts the replacement tokens exactly where the match's Start through End were, and the next search starts right after them |
| Replacer.NoMatchNoChange | WordExtractor/Simplifier.cs:248 | with no match from the start node, nothing changes and 0 is returned |
| Replacer.RemoveHead | WordExtractor/Simplifier.cs:260 | `RemoveFirst` until `First` is the node after the match drops exactly the tokens before it |
| Replacer.InsertCopies | WordExtractor/Simplifier.cs:271-274 | the copies go in, in order, right after `pre`, each in a fresh node, and the nodes around them stay |
| Replacer.SpliceAtHead | WordExtractor/Simplifier.cs:259-263 | a match at the head is replaced by the replacement tokens in fresh nodes, and the nodes after the match stay |
| Replacer.SpliceAfter | WordExtractor/Simplifier.cs:264-269 | a match after `pre` is replaced by the replacement tokens in fresh nodes, and the nodes before and after the match stay |
| Replacer.SpliceMatch | WordExtractor/Simplifier.cs:249-274 | a match from Start to End is replaced by the replacement tokens in fresh nodes; the nodes before Start and after End keep their identity and order, and the node that followed the match is returned |
| Replacer.ReplaceSequence | WordExtractor/Simplifier.cs:241-280 | the new list and the returned count are those of the specification `Replaced`. On a failing search (null start, empty code) the exception surfaces with the list as it was before that search. The nodes before the start node are untouched, and every node of the new list is an old node or a fresh copy |
| Replacer.ReplacePattern | WordExtractor/Simplifier.cs:245-279 | the replacement loop for a compiled pattern agrees with `Replaced`, keeps the nodes before the start node, and adds only fresh nodes |
| Merges.PairWalk | WordExtractor/Simplifier.cs:207-216 | a two-element literal pattern reads at `q` exactly on a matching pair, and ends after it |
| Merges.PairSearch | WordExtractor/Simplifier.cs:174-224 | the search for a pair finds the leftmost pair at or after the search position, with End right after Start, and finds nothing when there is no such pair |
| Merges.MergeElementsLiteral | WordExtractor/Simplifier.cs:768 | the merge codes have no skip elements |
| Merges.KindWord | WordExtractor/Simplifier.cs:768 | the merge kinds contain no ':' and their "kind:*" texts are single words |
| Merges.ParagraphsCode | WordExtractor/Simplifier.cs:768 | "\0:* \0:*" compiles to two untagged wildcard elements |
| Merges.CitationsCode | WordExtractor/Simplifier.cs:787 | "citation:* citation:*" compiles to two citation elements |
| Merges.ColumnsCode | WordExtractor/Simplifier.cs:897 | "table:* table_def_col:*" compiles to a table element and a column element |
| Merges.MergeCodeCompiles | WordExtractor/Simplifier.cs:768-897 | each merge code compiles to its two elements, marked at the first |
| Merges.Combine | WordExtractor/Simplifier.cs:770 | Each merge keeps the first token's kind and gives it a non-null value. Text concatenates the two values; citations join them with ','. Columns lower-case the table's value ("\|" when null) and append "L\|" |
| Merges.KindOnly | WordExtractor/Simplifier.cs:768-897 | an element with value "*" looks at the token's kind only |
| Merges.MergedLeavesNoPair | WordExtractor/Simplifier.cs:768-772 | when a merge loop ends, no matching pair is left anywhere in the list (the same loop is at lines 787-791 and 897-901) |
| Merges.TextOfAppend | WordExtractor/Simplifier.cs:770 | the text of a list is the text of its parts, in order |
| Merges.MergedKeepsText | WordExtractor/Simplifier.cs:768-772 | merging adjacent text tokens keeps the document's text: nothing is lost or reordered |
| Merges.HeadPairFound | WordExtractor/Simplifier.cs:769 | a pair at the head is the first match |
| Merges.SingleTokenUnmerged | WordExtractor/Simplifier.cs:769 | a one-token list is left alone |
| Merges.CitationRunJoined | WordExtractor/Simplifier.cs:786-792 | a run of citations becomes one citation whose value is the keys joined with ',' |
| Merges.LowerColumns | WordExtractor/Simplifier.cs:899 | `n` copies of "l\|" take `2n` characters |
| Merges.LowerAppend | WordExtractor/Simplifier.cs:899 | lower-casing distributes over concatenation |
| Merges.LowerIdempotent | WordExtractor/Simplifier.cs:899 | lower-casing twice is lower-casing once |
| Merges.LowerColumnsLower | WordExtractor/Simplifier.cs:899 | "l\|" repeated is already lower case |
| Merges.ColumnSpec | WordExtractor/Simplifier.cs:897-901 | a table followed by `k` column definitions becomes one table token whose value is the lower-cased start ("\|" for null), then "l\|" for every column but the last, then "L\|" |
| Merges.ColumnStep | WordExtractor/Simplifier.cs:899 | one more column lower-cases the spec so far and appends "L\|" |
| Merges.OneColumnTable | WordExtractor/Simplifier.cs:899 | a table with a null value and one column gets the spec "\|L\|" |
| Merges.MergeAt | WordExtractor/Simplifier.cs:770-771 | one merge gives the first token of the pair the combined value and removes the second (the same loop is at lines 787-791 and 897-901) |
| Merges.MergePairs | WordExtractor/Simplifier.cs:768-772 | each merge loop leaves the list the specification `Merged` describes (the same loop is at lines 787-791 and 897-901) |
| Merges.MergeLoop | WordExtractor/Simplifier.cs:769-772 | the loop body with the code compiled agrees with `Merged` |
| Merges.MergedStep | WordExtractor/Simplifier.cs:769 | one turn of a merge loop: the leftmost pair from the search position is merged and the next search starts at the surviving token |
| Rules.RewritesNext | WordExtractor/Simplifier.cs:885-895 | a list of rewrites applies them one after the other, in the order the rule calls them |
| Rules.EmptyReplacement | WordExtractor/Simplifier.cs:292 | the replacement "" is no tokens, so the matches are deleted |
| Rules.Rewrite | WordExtractor/Simplifier.cs:283-305 | `ReplaceSequence(DocumentTokens.First, code, replace)` leaves the document `ReplaceEvery` describes |
| Rules.TagWord | WordExtractor/Simplifier.cs:764-766 | a kind and a value without white space make one word of code |
| Rules.RuleWord | WordExtractor/Simplifier.cs:764-766 | the kinds and values of the paragraph and table rules make single words without ':' in the kind (and of the table rules at lines 886-895) |
| Rules.WordCode | WordExtractor/Simplifier.cs:764-766 | the one-word code "k:v" compiles to the token it parses to, and as a replacement text stands for that token |
| Rules.ParseOne | WordExtractor/Simplifier.cs:188 | parsing one part gives one token |
| Rules.OneWordParts | WordExtractor/Simplifier.cs:176 | a single word is its own code |
| Rules.OneWordKept | WordExtractor/Simplifier.cs:178-186 | a word with ':' is kept as it is and carries no mark |
| Rules.ReplacementOf | WordExtractor/Simplifier.cs:765 | the replacement "rk:" stands for one token of kind `rk` with no value, and "" for none |
| Rules.RewriteWord | WordExtractor/Simplifier.cs:764-766 | a one-word rewrite from the head replaces every match, as `Rewritten` says |
| Rules.RewritePair | WordExtractor/Simplifier.cs:889-894 | a two-word rewrite from the head replaces every match, as `Rewritten` says |
| Rules.PairWordCode | WordExtractor/Simplifier.cs:889-894 | the two-word code "k1:v1 k2:v2" compiles to the tokens the words parse to, marked at the first |
| Rules.EmptyElementCodeCompiles | WordExtractor/Simplifier.cs:412-414 | "S<:name S>:name" compiles to the element's start and end tag |
| Rules.DeletePairsSkips | WordExtractor/Simplifier.cs:412-414 | the pair deletion passes over positions without a pair |
| Rules.DeletePairsNone | WordExtractor/Simplifier.cs:412-414 | a list without a pair is left as it is |
| Rules.ReplacedDeletesPairs | WordExtractor/Simplifier.cs:241-280 | the replacement loop with an empty replacement and a two-element literal pattern never fails. While the count cannot run out it is the independent pair deletion `DeletePairs` |
| Rules.EmptyElementsDeleted | WordExtractor/Simplifier.cs:412-414 | `RemoveEmptyElements(name)` deletes each start tag directly followed by its end tag, as `DeletePairs` does |
| Rules.TagsAreNotSkips | WordExtractor/Simplifier.cs:413 | an element's tags are literal elements |
| Rules.NestedEmptyElementKept | WordExtractor/Simplifier.cs:257 | in `<x><x></x></x>` only the inner pair goes. The next search starts after the outer start tag, so the outer pair is left |
| Rules.RemoveEmptyElements | WordExtractor/Simplifier.cs:412-414 | the document afterwards is the one `Rewritten` gives for the element's pair of tags |
| Rules.SkippedElementCodeCompiles | WordExtractor/Simplifier.cs:305 | "S<:name ! S>:name" compiles to the start tag, a bare skip whose abort token is empty, and the end tag |
| Rules.ThreeItems | WordExtractor/Simplifier.cs:305 | a three-element pattern is the display of its elements |
| Rules.SkippedElementParts | WordExtractor/Simplifier.cs:305 | that code's elements are the parsed tag texts around the rewritten bare `!` |
| Rules.TagsParse | WordExtractor/Simplifier.cs:305 | "S<:name" and "S>:name" parse to the element's start and end tag |
| Rules.SkippedElementWords | WordExtractor/Simplifier.cs:305 | the code is three words, none of them a `\|` |
| Rules.ProofErrName | WordExtractor/Simplifier.cs:305 | "proofErr" can be written as a word of code |
| Rules.RemoveProofingErrors | WordExtractor/Simplifier.cs:304-306 | every `proofErr` element, with whatever lies between its tags, is deleted, as `Rewritten` says |
| Rules.MergedNoAdjacent | WordExtractor/Simplifier.cs:768-772 | after a merge loop no token of the first kind is directly followed by one of the second (the same loop is at lines 787-791 and 897-901) |
| Rules.MergeAll | WordExtractor/Simplifier.cs:768-772 | a merge loop over the document leaves `Merged`, with no adjacent pair of its kinds (the same loop is at lines 787-791 and 897-901) |
| Rules.SimplifyParagraphs | WordExtractor/Simplifier.cs:763-773 | Paragraph starts and body-text styles are deleted and paragraph ends become `eop`. Adjacent text tokens are then merged. No two text tokens stay adjacent, and the text is kept |
| Rules.CombineCitations | WordExtractor/Simplifier.cs:786-792 | adjacent citations are merged, and no two citations stay adjacent |
| Rules.MarkTableRows | WordExtractor/Simplifier.cs:886-890 | the first five rewrites of `ConvertTables`, in order |
| Rules.MarkTableCells | WordExtractor/Simplifier.cs:891-895 | the last five rewrites of `ConvertTables`, in order |
| Rules.ConvertTables | WordExtractor/Simplifier.cs:885-902 | the ten rewrites, then each table token absorbs the column definitions after it, so no table token is followed by one |
| Captions.Scrub | WordExtractor/Simplifier.cs:979 | `[^a-z0-9]` → " " keeps the length, keeps every letter a-z and digit, and turns every other character into a space |
| Captions.SplitChars | WordExtractor/Simplifier.cs:980 | every character of a part of `Split` occurs in the text split |
| Captions.CaptionWordChars | WordExtractor/Simplifier.cs:978-980 | the words of a caption are made of letters a-z and digits only |
| Captions.LowerCapitalized | WordExtractor/Simplifier.cs:982 | lower-casing a capitalised word of letters and digits gives the word back |
| Captions.NamePartsWellFormed | WordExtractor/Simplifier.cs:980-983 | each part added for a word starts with a capital or a digit, goes on with letters a-z and digits, and is not a boring word |
| Captions.CaptionPartsWellFormed | WordExtractor/Simplifier.cs:973-984 | every part the caption walk gathers is such a name part |
| Captions.JoinedNameBlank | WordExtractor/Simplifier.cs:985-989 | the joined name is blank exactly when no part was gathered, so only an empty caption gives null |
| Captions.Numbered | WordExtractor/Simplifier.cs:993-996 | the candidate names `p1` … `pn` are all in the set |
| Captions.NumberedOnly | WordExtractor/Simplifier.cs:993-996 | nothing else is in it |
| Captions.SuffixInjective | WordExtractor/Simplifier.cs:993-996 | different counters give different candidate names |
| Captions.NumberedSize | WordExtractor/Simplifier.cs:993-996 | there are exactly `n` candidates `p1` … `pn` |
| Captions.FirstFreeUnique | WordExtractor/Simplifier.cs:991-999 | at most one name is the first free one, so the disambiguated name is determined by the name and the names in use |
| Captions.Disambiguate | WordExtractor/Simplifier.cs:991-999 | The loop returns the name itself when it is not in use. Otherwise it returns the name followed by the least counter from 1 on that gives an unused name. It terminates because only finitely many names are in use |
| Captions.SubsetSize | WordExtractor/Simplifier.cs:994 | the candidates tried and rejected are no more than the names in use, which bounds the loop |
| Captions.AddNameParts | WordExtractor/Simplifier.cs:980-983 | the inner loop appends the name parts of a token's words, in order |
| Captions.PrependFacts | WordExtractor/Simplifier.cs:973-984 | the parts gathered so far stack in order in front of the rest of the walk |
| Captions.CaptionStep | WordExtractor/Simplifier.cs:975-983 | One step of the walk. A tagged token is passed over. A text token adds its parts. An untagged token with no value makes `ToLower` throw |
| Captions.CollectNameParts | WordExtractor/Simplifier.cs:973-984 | the outer loop's result is the specification `CaptionParts`: the parts up to the `end_caption` token or the end of the document, or the null dereference |
| Pipeline.EmptyElementNames | WordExtractor/Simplifier.cs:77-79 | the element names of the first pass can be written in pattern code |
| Pipeline.PassesNext | WordExtractor/Simplifier.cs:58-160 | running pass bodies `from+1` to `to` is running up to `to-1` and then body `to` |
| Pipeline.Levels | WordExtractor/Simplifier.cs:58-160 | at level `n` the bodies 1 to `n` have run, in order |
| Pipeline.LevelsIncrease | WordExtractor/Simplifier.cs:58-160 | the bodies run in increasing order, so no body runs twice |
| Pipeline.PassesCompose | WordExtractor/Simplifier.cs:91-160 | bringing the document up to one level and then to a higher one is the same as going straight to the higher one |
| Pipeline.Simplifier.constructor | WordExtractor/Simplifier.cs:31-42 | the document list holds the reader's tokens, the level is 0 and no nice names are known |
| Pipeline.Simplifier.Pass1 | WordExtractor/Simplifier.cs:58-89 | the level becomes `max(level, 1)`. The body runs only from level 0, and the document is what the bodies between the two levels make of it |
| Pipeline.Simplifier.Body1 | WordExtractor/Simplifier.cs:77-80 | the empty `noProof`, `lastRenderedPageBreak` and `rPr` elements and the proofing errors are deleted, in that order |
| Pipeline.Simplifier.Pass2 | WordExtractor/Simplifier.cs:91-110 | it first brings the document to level 1, then runs the body unless level 2 is reached. The level becomes `max(level, 2)` |
| Pipeline.Simplifier.Body2 | WordExtractor/Simplifier.cs:95-109 | the body records level 2 (its rules are not modelled) |
| Pipeline.Simplifier.Pass3 | WordExtractor/Simplifier.cs:112-132 | the same gating for level 3 |
| Pipeline.Simplifier.Body3 | WordExtractor/Simplifier.cs:117-131 | the body simplifies paragraphs and records level 3 |
| Pipeline.Simplifier.Pass4 | WordExtractor/Simplifier.cs:134-145 | the same gating for level 4 |
| Pipeline.Simplifier.Body4 | WordExtractor/Simplifier.cs:138-144 | the body converts tables and records level 4 |
| Pipeline.Simplifier.Pass5 | WordExtractor/Simplifier.cs:147-160 | the same gating for level 5 |
| Pipeline.Simplifier.Body5 | WordExtractor/Simplifier.cs:153-159 | the body combines citations and records level 5 |
| Pipeline.Simplifier.RunAll | WordExtractor/Simplifier.cs:44-56 | `RunAll(limit)` stops at once when the level has reached `limit`, and otherwise ends at `min(limit, 5)`; so a fresh simplifier ends at `min(limit, 5)` for every non-negative limit. The document has been through exactly the bodies between the two levels, each once, in order |
| Pipeline.Simplifier.NiceNameFromCaption | WordExtractor/Simplifier.cs:971-1002 | Without a usable `possibility`, the name comes from the caption, and that walk's null dereference surfaces. A blank name gives null. Otherwise the result is the first free name among the nice names in use |
| Flattener.AttributeTokens | WordExtractor/DocxReader.cs:83-86 | two tokens per attribute, in order: "Sa" with its name, then "S=" with its value |
| Flattener.MakeTagged | WordExtractor/DocxReader.cs:78-96 | the reader's kinds are not blank, so its tokens keep their kinds |
| Flattener.Buffer.constructor | WordExtractor/DocxReader.cs:69 | a new buffer is empty |
| Flattener.Buffer.Add | WordExtractor/DocxReader.cs:78 | `Add` appends one token |
| Flattener.RecurseFillBuffer | WordExtractor/DocxReader.cs:74-97 | the buffer gains exactly the tokens of the element, `Flatten(xml)`, after what it held |
| Flattener.Concatenated | WordExtractor/DocxReader.cs:82-96 | the parts the method appends one after the other make up the element's tokens |
| Flattener.AddAttributes | WordExtractor/DocxReader.cs:83-86 | the attribute loop appends the attribute tokens |
| Flattener.FlattenParts | WordExtractor/DocxReader.cs:82-96 | an element other than `oMath` is its start token, its attribute tokens, its children's tokens, its text token and its end token |
| Flattener.Read | WordExtractor/DocxReader.cs:69-71 | `Read` returns the tokens of the root element |
| Flattener.AttributeTokensAppend | WordExtractor/DocxReader.cs:83-86 | the attribute tokens of two runs of attributes follow each other |
| Flattener.AttributeTokensSnoc | WordExtractor/DocxReader.cs:83-86 | one more attribute adds its two tokens at the end |
| Flattener.FlattenAllAppend | WordExtractor/DocxReader.cs:87-89 | the tokens of two runs of children follow each other |
| Flattener.FlattenAllSnoc | WordExtractor/DocxReader.cs:87-89 | one more child adds its tokens at the end |
| Flattener.MathKeptWhole | WordExtractor/DocxReader.cs:75-80 | an `oMath` element is one "Smath" token holding its outer XML, whatever its children |
| Flattener.ElementFrame | WordExtractor/DocxReader.cs:82-96 | any other element starts with its start token and ends with its end token, with the attribute pairs in order right after the start |
| Flattener.ChildrenInOrder | WordExtractor/DocxReader.cs:87-89 | the children's tokens follow the attributes, in document order |
| Flattener.AttributesTagged | WordExtractor/DocxReader.cs:84-85 | every attribute token has kind "Sa" or "S=" |
| Flattener.NoBareWildcard | WordExtractor/DocxReader.cs:90-95 | an untagged token never holds a bare "*", which would match anything in a pattern: it is escaped |
| Flattener.NoBareWildcardAll | WordExtractor/DocxReader.cs:87-95 | the same for a run of elements |
| Flattener.NoTextBesideChildren | WordExtractor/DocxReader.cs:90 | an element with child elements gets no text token, whatever its value |
| Flattener.NestingAppend | WordExtractor/DocxReader.cs:82-96 | nesting over two parts is nesting over the first, then over the second |
| Flattener.AttributesNest | WordExtractor/DocxReader.cs:83-86 | attribute tokens leave the open elements as they are |
| Flattener.KindsDistinct | WordExtractor/DocxReader.cs:78-96 | the attribute and maths kinds differ from the start and end kinds |
| Flattener.TextNests | WordExtractor/DocxReader.cs:90-95 | a text token leaves the open elements as they are |
| Flattener.ElementNests | WordExtractor/DocxReader.cs:82-96 | an element whose parts leave the names inside it alone closes what it opens |
| Flattener.FlattenNests | WordExtractor/DocxReader.cs:74-97 | the tokens of any element leave the open elements as they found them |
| Flattener.FlattenAllNests | WordExtractor/DocxReader.cs:87-89 | the same for a run of elements |
| Flattener.FlattenBalanced | WordExtractor/DocxReader.cs:74-97 | the start and end tokens of any element's stream nest properly, with matching names |
| Conversions.ConvertRunStyle | WordExtractor/TeXConverter.cs:316-327 | a run style converts to plain text (or to null) |
| Conversions.Repeat | WordExtractor/TeXConverter.cs:333 | `new String(c, n)` is `n` copies of `c` |
| Conversions.ConvertEndRunStyle | WordExtractor/TeXConverter.cs:329-334 | an end of run style converts to plain text (or to null) |
| Conversions.CountAppend | WordExtractor/TeXConverter.cs:332 | the count of a character in two texts adds up |
| Conversions.CountAbsent | WordExtractor/TeXConverter.cs:332 | an absent character counts 0 |
| Conversions.CountRepeat | WordExtractor/TeXConverter.cs:332-333 | `n` copies of `c` hold `c` exactly `n` times |
| Conversions.OpenerBraces | WordExtractor/TeXConverter.cs:318-324 | each style opener holds one `{` and no `}` |
| Conversions.CommandsPlain | WordExtractor/TeXConverter.cs:318-324 | the command names hold no braces |
| Conversions.BracesAround | WordExtractor/TeXConverter.cs:318-324 | "\\cmd{" holds one `{` and no `}` for a command without braces |
| Conversions.OpenersBraces | WordExtractor/TeXConverter.cs:318-325 | the openers hold one `{` per keyword found and no `}`, and are empty exactly when none is found |
| Conversions.FoundNone | WordExtractor/TeXConverter.cs:318-325 | no keyword is found exactly when none occurs in the text, case ignored |
| Conversions.RunStyleBalanced | WordExtractor/TeXConverter.cs:316-334 | Both directions hold: a run style is null exactly when no keyword occurs, and its end is null exactly when it is. Otherwise the style has one `{` per keyword found and no `}`, and its end is exactly that many `}` |
| Conversions.ConvertList | WordExtractor/TeXConverter.cs:336-340 | a list start converts to plain text |
| Conversions.ConvertEndList | WordExtractor/TeXConverter.cs:342-346 | a list end converts to plain text |
| Conversions.ListPaired | WordExtractor/TeXConverter.cs:336-346 | a list start and a list end of the same style open and close the same environment (`itemize` before `enumerate`), or both give a null text |
| Conversions.ConvertMathPara | WordExtractor/TeXConverter.cs:348-354 | a maths paragraph converts to plain text |
| Conversions.MathParaStop | WordExtractor/TeXConverter.cs:348-354 | A trailing full stop leaves the display and follows it. Otherwise the display ends with `\wxnobreak`, and it ends so only then |
| Conversions.ConvertFloat | WordExtractor/TeXConverter.cs:356-363 | a float start is tagged with a kind starting "float_" |
| Conversions.ConvertEndFloat | WordExtractor/TeXConverter.cs:365-374 | a float end is tagged `end_float` |
| Conversions.FloatKindsTagged | WordExtractor/TeXConverter.cs:359-372 | the float kinds are not blank, so the tokens keep them |
| Conversions.FloatPaired | WordExtractor/TeXConverter.cs:356-374 | A listing starts `float_listing` with its language, and its end closes that language's environment. Any other float `K` starts kind `float_K` and ends with `\wxendK` |
| Conversions.ListingIsPrefix | WordExtractor/TeXConverter.cs:366-369 | a text equal to "listing" up to case also starts with it, so the `unknownlanguage` branch can never be taken |
| Conversions.LowerUnderscore | WordExtractor/TeXConverter.cs:358 | lower-casing neither makes nor removes an underscore |
| Conversions.LowerListing | WordExtractor/TeXConverter.cs:358 | "listing" is lower case and has no underscore |
| Conversions.BareListingEnd | WordExtractor/TeXConverter.cs:365-370 | a bare "listing" float (any case) has the language `listing`, and its end closes that environment |
| Conversions.TrimLabelStart | WordExtractor/TeXConverter.cs:240-243 | the trimmed text is a suffix, everything cut is `_`, ' ' or '.', and it does not start with one |
| Conversions.TrimLabelEnd | WordExtractor/TeXConverter.cs:240-243 | the trimmed text is a prefix, everything cut is `_`, ' ' or '.', and it does not end with one |
| Conversions.TrimLabel | WordExtractor/TeXConverter.cs:240-243 | `Trim('_', ' ', '.')` neither starts nor ends with those characters. It leaves a text without them unchanged and empties a text made only of them |
| Conversions.Conversion | WordExtractor/TeXConverter.cs:229-280 | a table entry fails exactly when it calls a method on a null value, with a null dereference |
| Conversions.ApplySubstitutions | WordExtractor/TeXConverter.cs:204-210 | the substitution loop gives `Substituted`, the table's rows applied in order |
| Conversions.SubstitutedAppend | WordExtractor/TeXConverter.cs:204-210 | applying two tables is applying the first, then the second to its result |
| Conversions.SubstitutedAbsent | WordExtractor/TeXConverter.cs:204-210 | a table none of whose texts to find occurs leaves the text unchanged |
| Conversions.LineEnd | WordExtractor/TeXConverter.cs:68 | a line ends at the first "\r" or "\n" after its start, or at the end of the text |
| Conversions.CodePoint | WordExtractor/TeXConverter.cs:71 | a `0x` code point that converts gives exactly one character |
| Conversions.ReadEntriesCons | WordExtractor/TeXConverter.cs:68-74 | the table's rows are the first line's row, then the rows of the other lines; the first bad line fails the table |
| Conversions.ReadSubstitutions | WordExtractor/TeXConverter.cs:65-76 | the loop reads one row per line, in order, failing on the first line without a tab or with a bad code point |
| Conversions.SplitTwo | WordExtractor/TeXConverter.cs:69 | "a\tb" splits into `a` and `b` |
| Conversions.LinesCons | WordExtractor/TeXConverter.cs:68 | a line ended by "\r\n" is read as one line, then the rest |
| Conversions.LineEndAt | WordExtractor/TeXConverter.cs:68 | the first line ends at the first line break |
| Conversions.ReadTableText | WordExtractor/TeXConverter.cs:65-76 | a table written out as "find\treplace" lines reads back as the same rows, in order |
| Conversions.UnicodeAfterMain | WordExtractor/TeXConverter.cs:57-62 | without XeTeX the Unicode rows apply after the main rows, to the main rows' result |
| Converter.HeadingNumber | WordExtractor/TeXConverter.cs:292-295 | a heading number is only read from a style starting with `Heading`, and fits an `int` as `int.TryParse` demands |
| Converter.DefaultTable | WordExtractor/TeXConverter.cs:229-280 | the table the constructor builds has an entry for exactly the default kinds |
| Converter.SubstituteValue | WordExtractor/TeXConverter.cs:204-210 | substituting a token's value fails exactly when the table fails on the value; otherwise the kind is kept and the value is the substituted value |
| Converter.WithoutNoBreak | WordExtractor/TeXConverter.cs:220-223 | the stripped value followed by the no-break marker is the original value; the kind is kept |
| Converter.ConvertAllCons | WordExtractor/TeXConverter.cs:192-227 | converting a stream succeeds exactly when converting the rest after the first step succeeds, and passes on the first step's token followed by the rest's tokens |
| Converter.StepCountNonNegative | WordExtractor/TeXConverter.cs:306-312 | one conversion step never takes the paragraph-style counter below zero |
| Converter.StepAccounting | WordExtractor/TeXConverter.cs:195-222 | each stripped no-break marker owes one paragraph end; only a paragraph end is dropped, only while one is owed, and it always is then |
| Converter.ConvertAllAccounting | WordExtractor/TeXConverter.cs:192-227 | over a stream, ends still owed plus ends dropped equal ends owed at the start plus markers stripped, and no more ends are dropped than the stream holds |
| Converter.ConvertAllCountNonNegative | WordExtractor/TeXConverter.cs:287-314 | over a whole stream the paragraph-style counter stays non-negative |
| Converter.NextEopDropped | WordExtractor/TeXConverter.cs:195-223 | after a value loses its no-break marker, the next paragraph end is dropped and pays the debt back |
| Converter.ParagraphStyleCounts | WordExtractor/TeXConverter.cs:287-308 | a paragraph style raises the counter exactly when it gives a token; body text gives none; a heading within the commands gives untagged text opening a brace group |
| Converter.HeadingPastCommands | WordExtractor/TeXConverter.cs:296-314 | a heading level past the commands gives its lower-cased style name, which opens no brace group, yet the paragraph end still closes one |
| Converter.DefaultKeysDistinct | WordExtractor/TeXConverter.cs:90-98 | the document, preamble and bibliography texts have distinct keys |
| Converter.FloatKeyNotDefault | WordExtractor/TeXConverter.cs:148 | a float's own text never overwrites a default text |
| Converter.TeXConverter.constructor | WordExtractor/TeXConverter.cs:32-63 | the converter holds the tokens, options and tables it is given, with zeroed counters and no output |
| Converter.TeXConverter.ConvertParagraphStyle | WordExtractor/TeXConverter.cs:287-308 | the result is the paragraph-style conversion; the counter is raised exactly when the style gives a token or fails |
| Converter.TeXConverter.ConvertEndOfParagraph | WordExtractor/TeXConverter.cs:310-314 | a paragraph break, closing one open style group and lowering the counter when it is positive |
| Converter.TeXConverter.Substitute | WordExtractor/TeXConverter.cs:204-210 | the token's value through the substitution table, failing as the table does |
| Converter.TeXConverter.ConvertTaggedToken | WordExtractor/TeXConverter.cs:205-206 | the conversion a tagged token's kind selects, with the counter after it |
| Converter.TeXConverter.ConvertToken | WordExtractor/TeXConverter.cs:200-218 | one token converted as the conversion function says, including the maths stage and the counter |
| Converter.TeXConverter.ConvertNext | WordExtractor/TeXConverter.cs:194-225 | one step of the conversion: the token passed on and the new counters are those of the step function |
| Converter.TeXConverter.DoConvert | WordExtractor/TeXConverter.cs:192-227 | the loop passes on exactly the tokens of the whole-stream conversion and fails exactly when it does |
| Converter.TeXConverter.Write | WordExtractor/TeXConverter.cs:118-121 | writing appends to one output text and changes no other |
| Converter.TeXConverter.RouteText | WordExtractor/TeXConverter.cs:118-121 | text is buffered while a float is pending, otherwise appended to the target |
| Converter.TeXConverter.RouteFloatStart | WordExtractor/TeXConverter.cs:126-145 | a float start reports a float left open, opens the buffer, and defines a new float kind in a document's preamble; it fails exactly for an empty new kind in a document |
| Converter.TeXConverter.RouteLabel | WordExtractor/TeXConverter.cs:146-172 | a label after a float start references the float's own text from the document and makes it the target; otherwise the escaped label is written in place |
| Converter.TeXConverter.RouteFloatEnd | WordExtractor/TeXConverter.cs:173-181 | a float end is written to an open float's text or reported; later text goes to the document, out of verbatim |
| Converter.TeXConverter.RouteAppendix | WordExtractor/TeXConverter.cs:182-188 | an appendix is written to the target, preceded by `\appendix` the first time in a document |
| Converter.TeXConverter.Route | WordExtractor/TeXConverter.cs:117-189 | routing keeps every output text and the routing invariant; error tokens are reported, preamble text goes to a document's preamble, other kinds are passed over; only a float start can fail |
| Converter.TeXConverter.OpenOutputs | WordExtractor/TeXConverter.cs:89-105 | the document text exists; a chapter has no preamble or bibliography; a document's preamble gets the standard preamble, which the document inputs |
| Converter.TeXConverter.Run | WordExtractor/TeXConverter.cs:86-190 | a successful run leaves the document text, and the preamble and bibliography exactly when converting a whole document |
| Converter.Create | WordExtractor/TeXConverter.cs:32-63 | a converter is built exactly when the substitution tables read; it holds those tables (the Unicode rows added unless for XeTeX), the default conversions and the given preamble text, with the paragraph-style count and the eop debt at zero, out of verbatim, and with no output texts and no errors |

## Left out

- Token identity: tokens are values, so the model cannot express that `AddAfter` copies references (LinkedListExtensions.cs:18). It does not capture that inlined footnote tokens are the same objects as those in `FootnoteTokens`, or that a later in-place edit of one shows through the other.
- Rule bodies other than `RemoveEmptyElements`, `RemoveProofingErrors`, `SimplifyParagraphs`, `CombineCitations` and `ConvertTables`: they are left out. Each pass runs only its modelled rules, so pass 2 records its level and changes nothing. Left out are every other rule of `Pass1`..`Pass5` (for example `ConvertFootnoteCharacters`, `ConvertMath` with its XSLT transform, `ConvertCaptions`, `ConvertFloats` and `DetectCodeListings`), and the commented-out `UseNiceReferenceNames` and `WrapDottedNames`.
- Rules.Rewrite: a failing `ReplaceSequence` is taken to leave the document unchanged rather than to throw. It fails only for an empty pattern over an empty document, and no modelled rule has an empty pattern.
- Rules.RemoveEmptyElements: its result is stated only for element names that are single words of pattern code and not "\0", which covers every name the passes use.
- Captions.CaptionWordChars: the `[^a-z0-9]` regular expression and `ToLower` are modelled on ASCII only. Culture-sensitive case folding and non-ASCII letters are not modelled.
- Culture-sensitive and case-insensitive comparisons (`Equals`/`StartsWith`/`EndsWith` with `CurrentCultureIgnoreCase` or `InvariantCultureIgnoreCase`, `ToLower`, `ToUpper`): these are modelled as ASCII case folding with ordinal comparison. Four culture-sensitive tests of the source are ordinal here: the `StartsWith("!")` of the skip-element test in `FindSequence` (Simplifier.cs:197), the `\wxnobreak` test in `DoConvert` (TeXConverter.cs:220), the `StartsWith("0x")` of `ReadSubstitutions` (TeXConverter.cs:71) and the `EndsWith(".")` of `ConvertMathPara` (TeXConverter.cs:349).
- Converter.HeadingNumber: the regular expression `^Heading([0-9]+)$` is written out by hand, with `$` also matching before a final line feed. `int.TryParse` is modelled as decimal digits up to `int.MaxValue`.
- `ConvertCaptions`' `Guid.NewGuid` fallback label: it is nondeterministic, and `ConvertCaptions` is not part of this model.
- Diagnostics: the `Warnings`, `Debug` and `Console` writes are left out, and so is the "Unhandled token" line of `DoConvert` (TeXConverter.cs:215), which changes no state. `Run`'s error writer is modelled as the list of lines written to it.
- Output writers: each `StringWriter` in `OutputFiles` is modelled by the text written to it. `WriteLine` appends "\r\n", the Windows line ending.
- I/O and resources: opening the `.docx` file (`Package.Open`) and loading XML (`XElement.Load`) in `DocxReader` are not modelled; the flattener starts from an element tree value. `ReadOuterXml` is a field of that value. The `Properties.Resources` tables and the LaTeX preamble are passed to `Converter.Create` as texts. `Program.cs` is not part of this model.
- Converter.Create: `char.ConvertFromUtf32(Convert.ToInt32(hex, 16))` is modelled for plain hexadecimal digits. A code point above U+FFFF is one character here, where .NET makes it a surrogate pair of two UTF-16 units, because strings are modelled as sequences of Unicode scalar values.
- Conversions.CodePoint: it accepts plain hexadecimal digits only. `Convert.ToInt32(s, 16)` also accepts a second `0x` prefix and a leading `+`, and `CodePoint` treats both as failures.
- Exceptions are modelled as `Fail` values carrying the exception's kind. `ArgumentOutOfRangeException` from `Substring` is `BadArgument`. After a failure, the model says nothing more about the object's state than its contract states.
- The settable properties `HeadingOffsetLevel`, `DocumentKey`, `PreambleKey` and `BibliographyKey`, and the `Destination` field: they keep the values the constructor gives them, because no core code sets them afterwards. The program's caller does set `DocumentKey` to the output name plus `.tex` (Program.cs:76), so `Converter.FloatKeyNotDefault` holds only for the default key `document.tex`: with the caller's key, a document named `a_b` has the same key as a float of kind `a` labelled `b`, and the label branch (TeXConverter.cs:150) then takes the document's writer as the float's target.
- Integers are unbounded: `ParagraphStyleCount`, `skipEop` and the disambiguation counter of `NiceNameFromCaption` cannot overflow here.
- Conversions.ConvertRunStyle: its own contract says only that the result is untagged. Its full behaviour is stated by `Conversions.OpenersBraces`, `Conversions.FoundNone` and `Conversions.RunStyleBalanced`.
- Conversions.ConvertEndRunStyle: its own contract says only that the result is untagged. The brace count is stated by `Conversions.RunStyleBalanced`.
- Conversions.ConvertList: its own contract says only that the result is untagged. The environment it opens is stated by `Conversions.ListPaired`.
- Conversions.ConvertEndList: its own contract says only that the result is untagged. The environment it closes is stated by `Conversions.ListPaired`.
- Conversions.ConvertMathPara: its own contract says only that the result is untagged. The full stop and the `\wxnobreak` marker are stated by `Conversions.MathParaStop`.
- Conversions.ConvertFloat: its own contract gives only the kind's prefix. The kind, the language and the value are stated by `Conversions.FloatPaired`.
- Conversions.ConvertEndFloat: its own contract gives only the kind. The value is stated by `Conversions.FloatPaired` and `Conversions.BareListingEnd`.
- Conversions.Conversion: its contract covers only the failure cases of the table entries. The other entries (`Converted`) are plain string conversions, stated only by their definitions.
- Converter.TeXConverter.Run: its contract covers only which output texts exist. The per-token behaviour is stated by `ConvertNext` and by `Route` with its branch methods, which `Run` calls once per token in the source's order. That order matters because routing a label or a float end changes the verbatim flag that the next conversion reads.
- Converter.TeXConverter.DoConvert: it is stated for a fixed verbatim flag. In `Run`, the lazy enumeration is interleaved with routing, and that interleaving is modelled by `Run` calling `ConvertNext` directly.
