/** The nodes the parser builds, its syntax errors, and the result type that carries them. */
module Ast {
  import opened Tokens

  /** An attribute; a bare attribute has the empty string as its value. */
  datatype Attr = Attr(key: string, value: string)

  /**
   * What a start tag parses to: an opening tag that expects a matching
   * end tag, or a self-closing tag that does not.
   */
  datatype StartTag =
    | OpenTag(name: string, attrs: seq<Attr>)
    | SingleTag(name: string, attrs: seq<Attr>)

  /** A parsed `</name>`, with the location of its `</` token. */
  datatype EndTag = EndTag(name: string, loc: Location)

  /**
   * A parsed element: a self-closing tag, or a block with its attributes,
   * its text children and its element children. The two kinds of child are
   * kept as two lists, each in document order; how they interleave is not
   * recorded.
   */
  datatype Node =
    | Single(name: string, attrs: seq<Attr>)
    | Block(name: string, attrs: seq<Attr>, texts: seq<string>, children: seq<Node>)

  /**
   * The syntax errors the parser raises, one per kind of message, each
   * with the location its message names. The message for an unknown child
   * token names no location.
   */
  datatype SyntaxError =
    | ExpectedTagStart(at: Location)
    | ExpectedTagName(at: Location)
    | ExpectedTagEnd(at: Location)
    | ExpectedTagEndStart(at: Location)
    | UnknownChild
    | MismatchedClose(at: Location, expected: string)
    | MissingAttrValue(at: Location)
    | UnexpectedAfterAttr(at: Location)

  /** A production either yields a value or aborts the whole parse with one error. */
  datatype Result<+T> = Success(value: T) | Failure(error: SyntaxError)
  {
    predicate IsFailure() { Failure? }

    function PropagateFailure<U>(): Result<U>
      requires Failure?
    {
      Failure(error)
    }

    function Extract(): T
      requires Success?
    {
      value
    }
  }
}
