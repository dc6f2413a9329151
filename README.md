# LLParser, verified

This project is a Dafny model of `LLParser`, the predictive LL(1) recursive-descent
parser of a small XML-like markup library. The parser reads typed, located tokens
from a scanner and builds a small AST:
- self-closing tags `<name attr* />`;
- blocks `<name attr* > … </name>`, holding text children and nested elements;
- attributes `key="value"`, or a bare `key`.

It stops at the first syntax error.

## Layout

- `tokens.dfy` (module `Tokens`): token kinds, tokens with their location, and the
  scanner cursor. The stream is a `seq<Token>` whose last token, and only that one,
  is END_OF_FILE. The cursor is an index into it. Advancing moves one token on,
  except that it stays on the final END_OF_FILE.
- `ast.dfy` (module `Ast`): attributes, start tags (`OpenTag` / `SingleTag`), end
  tags, element nodes (`Single` / `Block`), one `SyntaxError` constructor per kind
  of error message, and the `Result` type that carries a fatal error.
- `grammar.dfy` (module `Grammar`): each production as a function of the stream and
  the cursor index, following the parser's control flow. Each returns the node and
  the index reached, or the error. These functions are the functional counterpart
  of the parser class. The independent reference for what they accept is the set of
  grammar relations in `derivation.dfy`.
- `parser.dfy` (module `Parser`): class `LLParser`. Its one field, `pos`, is the
  cursor. No method ever moves `pos` backwards. Four methods are proved to compute
  exactly what their `Grammar` function computes, as `Outcome(r, pos) ==
  XSpec(toks, old(pos))`:
  - `ParseAttr` (`AttrSpec`);
  - `ParseTagStart` (`TagStartSpec`);
  - `ParseTagEndStart` (`TagEndStartSpec`);
  - `ParseTagBlock` (`ElementSpec`).

  `ParseChildText` has its own contract. It returns the current token's text and
  moves the cursor to `Next(toks, old(pos))`, which is one token on unless the
  current token is the final END_OF_FILE.
- `derivation.dfy` (module `Derivation`): the accepted language, stated as relations
  between a stretch of tokens and the node it stands for (`AttrAt`, `AttrsAt`,
  `StartTagAt`, `EndTagAt`, `ElementAt`, `ContentAt`). Each production is proved to
  succeed with a given node and end index exactly when its relation holds.
  `ElementAt` requires every block, at every nesting depth, to be closed by an end
  tag carrying its own name.
- `grammar_facts.dfy` (module `GrammarFacts`): the outcome of each production on
  each shape of input, including every error and the location it names.
- `examples.dfy` (module `Examples`): small documents written as token streams, and
  what the parser makes of them.

## Behaviour of the code worth noting

All line numbers refer to `src/com/kamijoucen/xml/parser/impl/LLParser.java`:
- Line 36: inside a block, only IDENTIFIER tokens become text children. Any other
  token that is neither `<` nor `</` is the "unknown child" error, and at line 45
  that error names no location.
- Line 102: `parserAttr` never checks the kind of the key token
  (`GrammarFacts.AttrKeyUnchecked`).
- Lines 89-96: when the attribute loop stops at END_OF_FILE, the parser advances
  once more before raising "expected a tag-end marker". The error names the token
  reached by that advance.
- Lines 112-117: END_OF_FILE directly after a bare attribute key fails inside
  `parserAttr` with "unrecognized token after attribute". It never reaches the
  attribute loop's END_OF_FILE case (`Examples.BareAttrAtEnd`).
- Lines 38 and 42: a block's text children are appended through `addText` and its
  element children through `addChild`. The model keeps two lists, each in document
  order, and claims nothing about how they interleave.

## Model

| member | source | states |
|---|---|---|
| Parser.LLParser.constructor | src/com/kamijoucen/xml/parser/impl/LLParser.java:20-24 | after priming the scanner, parsing starts at the first token of a well-formed stream |
| Parser.LLParser.NextToken | src/com/kamijoucen/xml/parser/impl/LLParser.java:61 | asking for the next token moves the cursor one on (staying on the final END_OF_FILE) and returns the new current token |
| Parser.LLParser.ParseTagBlock | src/com/kamijoucen/xml/parser/impl/LLParser.java:27-53 | the element method's result and final cursor are exactly `ElementSpec`'s; the child loop keeps the invariant that the children collected so far, followed by the rest, make up the whole content; each iteration consumes at least one token |
| Parser.LLParser.ParseTagEndStart | src/com/kamijoucen/xml/parser/impl/LLParser.java:56-70 | result and final cursor are exactly `TagEndStartSpec`'s |
| Parser.LLParser.ParseTagStart | src/com/kamijoucen/xml/parser/impl/LLParser.java:73-98 | result and final cursor are exactly `TagStartSpec`'s; the attribute loop's invariant is that the attributes collected so far, followed by the rest, make up the whole list |
| Parser.LLParser.ParseAttr | src/com/kamijoucen/xml/parser/impl/LLParser.java:101-119 | result and final cursor are exactly `AttrSpec`'s; success or failure, the cursor advances unless it sits on the final END_OF_FILE |
| Parser.LLParser.ParseChildText | src/com/kamijoucen/xml/parser/impl/LLParser.java:122-126 | returns the current token's text and consumes exactly that one token (none when it is the final END_OF_FILE) |
| Tokens.Next | src/com/kamijoucen/xml/parser/impl/LLParser.java:23-124 | the scanner's advance, as used by every `getNextToken()` call (lines 23, 61, 65, 68, 77, 81, 90, 103, 105, 107, 124): it stays inside the stream and stays put only on the last token |
| Grammar.AttrSpec | src/com/kamijoucen/xml/parser/impl/LLParser.java:101-119 | a successful attribute always moves the cursor forward |
| Grammar.AttrsSpec | src/com/kamijoucen/xml/parser/impl/LLParser.java:82-87 | a successful attribute loop stops at `>`, `/>` or END_OF_FILE and yields no more attributes than tokens consumed |
| Grammar.TagStartSpec | src/com/kamijoucen/xml/parser/impl/LLParser.java:73-98 | a successful start tag consumes at least three tokens |
| Grammar.TagEndStartSpec | src/com/kamijoucen/xml/parser/impl/LLParser.java:56-70 | a successful end tag consumes exactly three tokens |
| Grammar.ElementSpec | src/com/kamijoucen/xml/parser/impl/LLParser.java:27-53 | a successful element consumes at least one token and stays inside the stream |
| Grammar.ContentSpec | src/com/kamijoucen/xml/parser/impl/LLParser.java:34-47 | a successful child loop stops at a `</` token |
| Derivation.AttrIff | src/com/kamijoucen/xml/parser/impl/LLParser.java:102-118 | an attribute parses to (a, j) exactly when the tokens spell `key = "value"` (j three on) or a bare key before a name, `>` or `/>` (j one on) |
| Derivation.AttrsSound | src/com/kamijoucen/xml/parser/impl/LLParser.java:82-87 | every attribute list returned is a run of attributes, each one parsed at the end of the previous one, ended by `>`, `/>` or END_OF_FILE |
| Derivation.AttrsComplete | src/com/kamijoucen/xml/parser/impl/LLParser.java:82-87 | every such run is returned in full, in source order, duplicates kept |
| Derivation.TagStartSound | src/com/kamijoucen/xml/parser/impl/LLParser.java:74-97 | a parsed start tag is `<`, IDENTIFIER (the tag name), an attribute run, then `>` or `/>`; it is a `SingleTag` exactly when it ends with `/>` |
| Derivation.TagStartComplete | src/com/kamijoucen/xml/parser/impl/LLParser.java:74-97 | every such token shape parses to that start tag and end index |
| Derivation.TagStartIff | src/com/kamijoucen/xml/parser/impl/LLParser.java:74-97 | both directions together |
| Derivation.TagEndStartIff | src/com/kamijoucen/xml/parser/impl/LLParser.java:57-69 | an end tag parses exactly when the tokens are `</`, IDENTIFIER, `>`; the result has the name's text and the location of `</` |
| Derivation.ElementSound | src/com/kamijoucen/xml/parser/impl/LLParser.java:28-52 | every parsed element is derived by the grammar, in which every block at every depth is closed by an end tag carrying its own name |
| Derivation.ContentSound | src/com/kamijoucen/xml/parser/impl/LLParser.java:34-47 | every parsed block content is derived by the content relation |
| Derivation.ElementComplete | src/com/kamijoucen/xml/parser/impl/LLParser.java:28-52 | every element the grammar derives is exactly what the parser returns (complete and unambiguous) |
| Derivation.ContentComplete | src/com/kamijoucen/xml/parser/impl/LLParser.java:34-47 | every content the grammar derives is exactly what the child loop returns |
| Derivation.ElementIff | src/com/kamijoucen/xml/parser/impl/LLParser.java:28-52 | the parser accepts exactly the elements the grammar derives |
| GrammarFacts.AttrOutcomes | src/com/kamijoucen/xml/parser/impl/LLParser.java:102-118 | the four outcomes of an attribute: key,=,STRING consumes three; = then non-STRING fails at the key; a following name, `>` or `/>` gives value "" and consumes one; anything else fails at the key |
| GrammarFacts.AttrAtEnd | src/com/kamijoucen/xml/parser/impl/LLParser.java:102-117 | an attribute whose key is the final END_OF_FILE fails with "unrecognized token after attribute" at the key |
| GrammarFacts.AttrKeyUnchecked | src/com/kamijoucen/xml/parser/impl/LLParser.java:102-103 | the key token's kind does not affect the outcome |
| GrammarFacts.TagStartErrors | src/com/kamijoucen/xml/parser/impl/LLParser.java:74-96 | no `<` fails at that token; no name fails at the name token; an attribute error aborts with that error; a loop stopped at END_OF_FILE fails at the token after one more advance |
| GrammarFacts.TagEndStartErrors | src/com/kamijoucen/xml/parser/impl/LLParser.java:57-67 | missing `</`, name or `>` each fail at the location of the token found instead |
| GrammarFacts.ElementSelfClosing | src/com/kamijoucen/xml/parser/impl/LLParser.java:28-31 | a self-closing start tag is returned as it is, with no content or end tag consumed |
| GrammarFacts.ElementHeader | src/com/kamijoucen/xml/parser/impl/LLParser.java:28-33 | an element has its start tag's name and attributes, and is a block exactly when the start tag ended with `>` |
| GrammarFacts.BlockClosesOwnName | src/com/kamijoucen/xml/parser/impl/LLParser.java:48-52 | a parsed block's last three tokens are `</`, its own name, `>` |
| GrammarFacts.ContentUnknownChild | src/com/kamijoucen/xml/parser/impl/LLParser.java:34-46 | inside a block, any token other than IDENTIFIER, `<` and `</` (END_OF_FILE included) is the unknown-child error |
| GrammarFacts.ElementMismatch | src/com/kamijoucen/xml/parser/impl/LLParser.java:48-51 | an end tag with another name fails at its `</`, naming the tag that should have been closed |
| GrammarFacts.ElementStartError | src/com/kamijoucen/xml/parser/impl/LLParser.java:28 | a failing start tag aborts the element with that same error |
| GrammarFacts.ElementEndError | src/com/kamijoucen/xml/parser/impl/LLParser.java:48 | a failing end tag after a complete content aborts the block with that same error |
| GrammarFacts.ElementContentError | src/com/kamijoucen/xml/parser/impl/LLParser.java:34-47 | an error inside a block's content aborts the block with that same error |
| GrammarFacts.ContentChildError | src/com/kamijoucen/xml/parser/impl/LLParser.java:40-43 | an error in a nested element aborts the enclosing content with that same error |
| Examples.NestedBlocks | src/com/kamijoucen/xml/parser/impl/LLParser.java:27-53 | `<a><b></b></a>` is block a holding one empty block b |
| Examples.SelfClosing | src/com/kamijoucen/xml/parser/impl/LLParser.java:28-31 | `<a/>` is a self-closing a without attributes |
| Examples.AttributeForms | src/com/kamijoucen/xml/parser/impl/LLParser.java:82-87 | `<a k1="v1" k2></a>` has attributes (k1, v1), (k2, "") in that order |
| Examples.DuplicateAttributes | src/com/kamijoucen/xml/parser/impl/LLParser.java:82-87 | two equal attributes are both kept |
| Examples.Mismatch | src/com/kamijoucen/xml/parser/impl/LLParser.java:48-51 | `<a></b>` fails at the `</` of `</b>`, naming a |
| Examples.Unterminated | src/com/kamijoucen/xml/parser/impl/LLParser.java:48-51 | `<a><b></a>` fails at the `</` of `</a>`, naming b |
| Examples.MixedContent | src/com/kamijoucen/xml/parser/impl/LLParser.java:34-47 | `<a>hello<b/>world</a>` has texts hello, world and one element child b |
| Examples.Unclosed | src/com/kamijoucen/xml/parser/impl/LLParser.java:44-45 | `<a>` followed by END_OF_FILE is the unknown-child error |
| Examples.AttrsRunIntoEnd | src/com/kamijoucen/xml/parser/impl/LLParser.java:89-96 | `<a k="v"` followed by END_OF_FILE fails at the END_OF_FILE token reached by the extra advance |
| Examples.BareAttrAtEnd | src/com/kamijoucen/xml/parser/impl/LLParser.java:112-117 | `<a k` followed by END_OF_FILE fails in the attribute, at the key |
| Examples.ParseSelfClosing | src/com/kamijoucen/xml/parser/impl/LLParser.java:20-31 | a parser created on the tokens of `<a/>` returns the self-closing a |

## Left out

- The scanner's lexing is not modelled. The stream is assumed non-empty, with
  END_OF_FILE as its last token and nowhere else, and asking for a token past the end is assumed to return that
  END_OF_FILE again. Lexer errors are not modelled.
- `Validate.notNull` and `CollecUtils.list()` are library helpers. A null check has
  no counterpart for a Dafny sequence.
- Error messages and location formatting are not modelled. An error is its kind
  plus the location its message names.
- `TagBlockAst`, `TagStartAst`, `TagEndStartAst`, `AttrResult` and `TextResult` are
  modelled only by the fields used here. In particular, `TagBlockAst` is not part of
  this model, so how text and element children interleave is not recorded.
- Java exceptions become a `Failure` result that aborts the parse. Stack depth
  limits are not modelled.
- Parser.LLParser.ParseTagBlock: after a failure, the cursor is only promised not to
  move backwards. The exact token the scanner is left on is not stated, because a
  failure aborts the parse.
- Parser.LLParser.ParseTagStart: same as ParseTagBlock for the cursor after a failure.
- Parser.LLParser.ParseTagEndStart: same as ParseTagBlock for the cursor after a failure.
- Parser.LLParser.ParseAttr: after a failure, the cursor is only promised to have
  advanced (unless it sat on the final END_OF_FILE). Its exact position is not stated.
