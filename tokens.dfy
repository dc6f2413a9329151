/** Tokens delivered by the scanner and the cursor the parser moves over them. */
module Tokens {

  /** The closed set of token kinds the parser inspects. */
  datatype TokenKind =
    | TagStart      // `<`
    | TagEndStart   // `</`
    | TagEnd        // `>`
    | SingleTagEnd  // `/>`
    | Identifier    // a name, or a run of text between tags
    | StringLit     // a quoted attribute value
    | Operate       // `=`
    | EndOfFile

  /** Where a token starts in the document. */
  datatype Location = Location(line: nat, column: nat)

  /** A token: its kind, its payload (empty for punctuation) and its location. */
  datatype Token = Token(kind: TokenKind, text: string, loc: Location)

  /**
   * The whole token stream the scanner yields. The scanner itself is not
   * part of this model. The stream is assumed to be non-empty and to hold
   * END_OF_FILE as its last token and nowhere else.
   */
  predicate WellFormed(toks: seq<Token>)
  {
    |toks| > 0 && toks[|toks| - 1].kind == EndOfFile &&
    forall k | 0 <= k < |toks| - 1 :: toks[k].kind != EndOfFile
  }

  /**
   * The index the cursor moves to when the scanner is asked for the next
   * token: one further, except that the final END_OF_FILE is sticky.
   */
  function Next(toks: seq<Token>, i: nat): (r: nat)
    requires i < |toks|
    ensures i <= r < |toks|
    ensures r == i <==> i == |toks| - 1
  {
    if i + 1 < |toks| then i + 1 else i
  }

  /** A token that is not END_OF_FILE is never the last one, so advancing past it moves on. */
  lemma NextAdvances(toks: seq<Token>, i: nat)
    requires WellFormed(toks) && i < |toks| && toks[i].kind != EndOfFile
    ensures i + 1 < |toks| && Next(toks, i) == i + 1
  {
  }
}
