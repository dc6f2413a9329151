/**
 * What each production does on each shape of input: the successes with
 * how many tokens they consume, and every error with the location it
 * names.
 */
module GrammarFacts {
  import opened Tokens
  import opened Ast
  import opened Grammar
  import opened Derivation

  /**
   * The four outcomes of an attribute: `key = "value"` consumes three
   * tokens, `=` without a string fails at the key, a bare key followed by a
   * name, `>` or `/>` consumes only the key, anything else fails at the key.
   */
  lemma AttrOutcomes(toks: seq<Token>, i: nat)
    requires WellFormed(toks) && i < |toks| && toks[i].kind != EndOfFile
    ensures toks[i + 1].kind == Operate && toks[i + 2].kind == StringLit ==>
              AttrSpec(toks, i) == Success((Attr(toks[i].text, toks[i + 2].text), i + 3))
    ensures toks[i + 1].kind == Operate && toks[i + 2].kind != StringLit ==>
              AttrSpec(toks, i) == Failure(MissingAttrValue(toks[i].loc))
    ensures FollowsBareAttr(toks[i + 1].kind) ==>
              AttrSpec(toks, i) == Success((Attr(toks[i].text, ""), i + 1))
    ensures toks[i + 1].kind != Operate && !FollowsBareAttr(toks[i + 1].kind) ==>
              AttrSpec(toks, i) == Failure(UnexpectedAfterAttr(toks[i].loc))
  {
  }

  /**
   * An attribute parsed with the cursor on the final END_OF_FILE: the
   * advance stays on END_OF_FILE, which is no valid follower of a key, so
   * it fails at the key.
   */
  lemma AttrAtEnd(toks: seq<Token>, i: nat)
    requires WellFormed(toks) && i < |toks| && toks[i].kind == EndOfFile
    ensures AttrSpec(toks, i) == Failure(UnexpectedAfterAttr(toks[i].loc))
  {
  }

  /** The kind of the key token is never looked at: any other non-END_OF_FILE kind gives the same outcome. */
  lemma AttrKeyUnchecked(toks: seq<Token>, i: nat, kind: TokenKind)
    requires WellFormed(toks) && i < |toks| && toks[i].kind != EndOfFile && kind != EndOfFile
    ensures WellFormed(toks[i := toks[i].(kind := kind)])
    ensures AttrSpec(toks[i := toks[i].(kind := kind)], i) == AttrSpec(toks, i)
  {
  }

  /**
   * The three ways a start tag fails besides a failing attribute: no `<`
   * (at that token), no name (at the name token), or the attribute loop
   * reaching END_OF_FILE, reported at the token after one more advance.
   * A failing attribute aborts the start tag with the attribute's error.
   */
  lemma TagStartErrors(toks: seq<Token>, i: nat)
    requires WellFormed(toks) && i < |toks|
    ensures toks[i].kind != TagStart ==>
              TagStartSpec(toks, i) == Failure(ExpectedTagStart(toks[i].loc))
    ensures toks[i].kind == TagStart && toks[i + 1].kind != Identifier ==>
              TagStartSpec(toks, i) == Failure(ExpectedTagName(toks[i + 1].loc))
    ensures toks[i].kind == TagStart && toks[i + 1].kind == Identifier && AttrsSpec(toks, i + 2).Failure? ==>
              TagStartSpec(toks, i) == Failure(AttrsSpec(toks, i + 2).error)
    ensures toks[i].kind == TagStart && toks[i + 1].kind == Identifier && AttrsSpec(toks, i + 2).Success? &&
            toks[AttrsSpec(toks, i + 2).value.1].kind == EndOfFile ==>
              TagStartSpec(toks, i) == Failure(ExpectedTagEnd(toks[Next(toks, AttrsSpec(toks, i + 2).value.1)].loc))
  {
  }

  /** Each missing piece of `</name>` fails at the location of the token found in its place. */
  lemma TagEndStartErrors(toks: seq<Token>, i: nat)
    requires WellFormed(toks) && i < |toks|
    ensures toks[i].kind != TagEndStart ==>
              TagEndStartSpec(toks, i) == Failure(ExpectedTagEndStart(toks[i].loc))
    ensures toks[i].kind == TagEndStart && toks[i + 1].kind != Identifier ==>
              TagEndStartSpec(toks, i) == Failure(ExpectedTagName(toks[i + 1].loc))
    ensures toks[i].kind == TagEndStart && toks[i + 1].kind == Identifier && toks[i + 2].kind != TagEnd ==>
              TagEndStartSpec(toks, i) == Failure(ExpectedTagEnd(toks[i + 2].loc))
  {
  }

  /** A self-closing start tag is the element itself: no content and no end tag are parsed. */
  lemma ElementSelfClosing(toks: seq<Token>, i: nat, name: string, attrs: seq<Attr>, j: nat)
    requires WellFormed(toks) && i < |toks|
    requires TagStartSpec(toks, i) == Success((SingleTag(name, attrs), j))
    ensures ElementSpec(toks, i) == Success((Single(name, attrs), j))
  {
  }

  /**
   * An element carries the name and attributes of its start tag, and is a
   * block exactly when that start tag ended with `>`.
   */
  lemma ElementHeader(toks: seq<Token>, i: nat, n: Node, j: nat)
    requires WellFormed(toks) && i < |toks|
    requires ElementSpec(toks, i) == Success((n, j))
    ensures TagStartSpec(toks, i).Success?
    ensures TagStartSpec(toks, i).value.0.name == n.name && TagStartSpec(toks, i).value.0.attrs == n.attrs
    ensures n.Block? <==> TagStartSpec(toks, i).value.0.OpenTag?
  {
  }

  /** A block returned by the parser ends with `</name>` carrying its own name, as its last three tokens. */
  lemma BlockClosesOwnName(toks: seq<Token>, i: nat, n: Node, j: nat)
    requires WellFormed(toks) && i < |toks|
    requires ElementSpec(toks, i) == Success((n, j)) && n.Block?
    ensures 3 <= j
    ensures toks[j - 3].kind == TagEndStart && toks[j - 1].kind == TagEnd
    ensures toks[j - 2].kind == Identifier && toks[j - 2].text == n.name
  {
  }

  /** Inside a block, a token that is neither a name, `<` nor `</` (END_OF_FILE included) is an error. */
  lemma ContentUnknownChild(toks: seq<Token>, k: nat)
    requires WellFormed(toks) && k < |toks|
    requires toks[k].kind != Identifier && toks[k].kind != TagStart && toks[k].kind != TagEndStart
    ensures ContentSpec(toks, k) == Failure(UnknownChild)
  {
  }

  /**
   * A block whose end tag names something else fails at the location of
   * that end tag's `</`, naming the tag that should have been closed.
   */
  lemma ElementMismatch(toks: seq<Token>, i: nat, name: string, attrs: seq<Attr>, k: nat,
                        texts: seq<string>, children: seq<Node>, m: nat, e: EndTag, j: nat)
    requires WellFormed(toks) && i < |toks|
    requires TagStartSpec(toks, i) == Success((OpenTag(name, attrs), k))
    requires ContentSpec(toks, k) == Success((texts, children, m))
    requires TagEndStartSpec(toks, m) == Success((e, j))
    requires e.name != name
    ensures ElementSpec(toks, i) == Failure(MismatchedClose(toks[m].loc, name))
  {
  }

  /** A failing start tag aborts the element with that same error. */
  lemma ElementStartError(toks: seq<Token>, i: nat)
    requires WellFormed(toks) && i < |toks|
    requires TagStartSpec(toks, i).Failure?
    ensures ElementSpec(toks, i) == Failure(TagStartSpec(toks, i).error)
  {
  }

  /** A failing end tag after a complete content aborts the block with that same error. */
  lemma ElementEndError(toks: seq<Token>, i: nat, name: string, attrs: seq<Attr>, k: nat,
                        texts: seq<string>, children: seq<Node>, m: nat)
    requires WellFormed(toks) && i < |toks|
    requires TagStartSpec(toks, i) == Success((OpenTag(name, attrs), k))
    requires ContentSpec(toks, k) == Success((texts, children, m))
    requires TagEndStartSpec(toks, m).Failure?
    ensures ElementSpec(toks, i) == Failure(TagEndStartSpec(toks, m).error)
  {
  }

  /** An error in a block's content aborts the block with that same error; nothing partial is returned. */
  lemma ElementContentError(toks: seq<Token>, i: nat, name: string, attrs: seq<Attr>, k: nat)
    requires WellFormed(toks) && i < |toks|
    requires TagStartSpec(toks, i) == Success((OpenTag(name, attrs), k))
    requires ContentSpec(toks, k).Failure?
    ensures ElementSpec(toks, i) == Failure(ContentSpec(toks, k).error)
  {
  }

  /** An error in a nested element aborts the enclosing content with that same error. */
  lemma ContentChildError(toks: seq<Token>, k: nat)
    requires WellFormed(toks) && k < |toks| && toks[k].kind == TagStart
    requires ElementSpec(toks, k).Failure?
    ensures ContentSpec(toks, k) == Failure(ElementSpec(toks, k).error)
  {
  }
}
