/**
 * The recursive-descent parser itself. Its only state is the scanner
 * cursor, modelled as an index `pos` into the token stream that every
 * request for the next token moves forward. Each production is proved to
 * compute what the corresponding function of module Grammar computes.
 */
module Parser {
  import opened Tokens
  import opened Ast
  import opened Grammar

  /** Pairs a production's result with the cursor it leaves behind, for comparison with Grammar. */
  function Outcome<T>(r: Result<T>, pos: nat): Result<(T, nat)>
  {
    match r
    case Success(v) => Success((v, pos))
    case Failure(e) => Failure(e)
  }

  /** Prepends already-parsed attributes to the result of the rest of the attribute loop. */
  function PrependAttrs(done: seq<Attr>, r: Result<(seq<Attr>, nat)>): Result<(seq<Attr>, nat)>
  {
    match r
    case Success(v) => Success((done + v.0, v.1))
    case Failure(e) => Failure(e)
  }

  /** Prepends already-parsed children to the result of the rest of the child loop. */
  function PrependContent(texts: seq<string>, children: seq<Node>, r: Result<(seq<string>, seq<Node>, nat)>)
    : Result<(seq<string>, seq<Node>, nat)>
  {
    match r
    case Success(v) => Success((texts + v.0, children + v.1, v.2))
    case Failure(e) => Failure(e)
  }

  lemma PrependAttrsNothing(r: Result<(seq<Attr>, nat)>)
    ensures PrependAttrs([], r) == r
  {
    if r.Success? { assert [] + r.value.0 == r.value.0; }
  }

  lemma PrependAttrsTwice(done: seq<Attr>, more: seq<Attr>, r: Result<(seq<Attr>, nat)>)
    ensures PrependAttrs(done, PrependAttrs(more, r)) == PrependAttrs(done + more, r)
  {
    if r.Success? { assert done + (more + r.value.0) == (done + more) + r.value.0; }
  }

  lemma PrependContentNothing(r: Result<(seq<string>, seq<Node>, nat)>)
    ensures PrependContent([], [], r) == r
  {
    if r.Success? { assert [] + r.value.0 == r.value.0 && [] + r.value.1 == r.value.1; }
  }

  lemma PrependContentTwice(texts: seq<string>, children: seq<Node>, moreTexts: seq<string>, moreChildren: seq<Node>,
                            r: Result<(seq<string>, seq<Node>, nat)>)
    ensures PrependContent(texts, children, PrependContent(moreTexts, moreChildren, r))
         == PrependContent(texts + moreTexts, children + moreChildren, r)
  {
    if r.Success? {
      assert texts + (moreTexts + r.value.0) == (texts + moreTexts) + r.value.0;
      assert children + (moreChildren + r.value.1) == (children + moreChildren) + r.value.1;
    }
  }

  class LLParser {
    const toks: seq<Token>
    var pos: nat

    ghost predicate Valid()
      reads this
    {
      WellFormed(toks) && pos < |toks|
    }

    /** Creating the parser primes the scanner, so parsing starts at the first token. */
    constructor (tokens: seq<Token>)
      requires WellFormed(tokens)
      ensures Valid() && toks == tokens && pos == 0
    {
      toks := tokens;
      pos := 0;
    }

    /** The scanner's current token. */
    function Current(): Token
      reads this
      requires Valid()
    {
      toks[pos]
    }

    /** Asks the scanner for the next token and returns it. */
    method NextToken() returns (t: Token)
      requires Valid()
      modifies this
      ensures Valid() && pos == Next(toks, old(pos)) && t == toks[pos]
    {
      pos := Next(toks, pos);
      t := toks[pos];
    }

    /** Parses one element: a self-closing tag, or a block with its children and matching end tag. */
    method ParseTagBlock() returns (r: Result<Node>)
      requires Valid()
      modifies this
      ensures Valid() && old(pos) <= pos
      ensures Outcome(r, pos) == ElementSpec(toks, old(pos))
      decreases |toks| - pos
    {
      var blockStart :- ParseTagStart();
      if blockStart.SingleTag? {
        return Success(Single(blockStart.name, blockStart.attrs));
      }
      ghost var contentStart := pos;
      var texts: seq<string> := [];
      var children: seq<Node> := [];
      PrependContentNothing(ContentSpec(toks, pos));
      while Current().kind != TagEndStart
        invariant Valid() && contentStart <= pos
        invariant ContentSpec(toks, contentStart) == PrependContent(texts, children, ContentSpec(toks, pos))
        decreases |toks| - pos
      {
        match Current().kind
        case Identifier =>
          var text := ParseChildText();
          PrependContentTwice(texts, children, [text], [], ContentSpec(toks, pos));
          texts := texts + [text];
        case TagStart =>
          var child :- ParseTagBlock();
          PrependContentTwice(texts, children, [], [child], ContentSpec(toks, pos));
          children := children + [child];
        case _ =>
          return Failure(UnknownChild);
      }
      assert texts + [] == texts && children + [] == children;
      var blockEnd :- ParseTagEndStart();
      if blockEnd.name != blockStart.name {
        return Failure(MismatchedClose(blockEnd.loc, blockStart.name));
      }
      return Success(Block(blockStart.name, blockStart.attrs, texts, children));
    }

    /** Parses `</name>`. */
    method ParseTagEndStart() returns (r: Result<EndTag>)
      requires Valid()
      modifies this
      ensures Valid() && old(pos) <= pos
      ensures Outcome(r, pos) == TagEndStartSpec(toks, old(pos))
    {
      if Current().kind != TagEndStart {
        return Failure(ExpectedTagEndStart(Current().loc));
      }
      var startLocation := Current().loc;
      var tag := NextToken();
      if tag.kind != Identifier {
        return Failure(ExpectedTagName(tag.loc));
      }
      var close := NextToken();
      if close.kind != TagEnd {
        return Failure(ExpectedTagEnd(Current().loc));
      }
      var _ := NextToken();
      return Success(EndTag(tag.text, startLocation));
    }

    /** Parses `<name attr* >` or `<name attr* />`. */
    method ParseTagStart() returns (r: Result<StartTag>)
      requires Valid()
      modifies this
      ensures Valid() && old(pos) <= pos
      ensures Outcome(r, pos) == TagStartSpec(toks, old(pos))
    {
      if Current().kind != TagStart {
        return Failure(ExpectedTagStart(Current().loc));
      }
      var tag := NextToken();
      if tag.kind != Identifier {
        return Failure(ExpectedTagName(tag.loc));
      }
      var _ := NextToken();
      ghost var attrsStart := pos;
      var attrs: seq<Attr> := [];
      PrependAttrsNothing(AttrsSpec(toks, pos));
      while Current().kind != TagEnd && Current().kind != SingleTagEnd && Current().kind != EndOfFile
        invariant Valid() && attrsStart <= pos
        invariant AttrsSpec(toks, attrsStart) == PrependAttrs(attrs, AttrsSpec(toks, pos))
        decreases |toks| - pos
      {
        var attr :- ParseAttr();
        PrependAttrsTwice(attrs, [attr], AttrsSpec(toks, pos));
        attrs := attrs + [attr];
      }
      assert attrs + [] == attrs;
      var end := Current().kind;
      var _ := NextToken();
      if end == TagEnd {
        return Success(OpenTag(tag.text, attrs));
      } else if end == SingleTagEnd {
        return Success(SingleTag(tag.text, attrs));
      } else {
        return Failure(ExpectedTagEnd(Current().loc));
      }
    }

    /**
     * Parses one attribute. Whether it succeeds or fails, it consumes at
     * least the key token unless that token is the final END_OF_FILE.
     */
    method ParseAttr() returns (r: Result<Attr>)
      requires Valid()
      modifies this
      ensures Valid() && old(pos) <= pos
      ensures Outcome(r, pos) == AttrSpec(toks, old(pos))
      ensures old(pos) < |toks| - 1 ==> old(pos) < pos
    {
      var key := Current();
      var op := NextToken();
      if op.kind == Operate {
        var val := NextToken();
        if val.kind == StringLit {
          var _ := NextToken();
          return Success(Attr(key.text, val.text));
        } else {
          return Failure(MissingAttrValue(key.loc));
        }
      } else if op.kind == Identifier || op.kind == TagEnd || op.kind == SingleTagEnd {
        return Success(Attr(key.text, ""));
      } else {
        return Failure(UnexpectedAfterAttr(key.loc));
      }
    }

    /** Parses a text child: the current token's payload, consuming that one token. */
    method ParseChildText() returns (text: string)
      requires Valid()
      modifies this
      ensures Valid() && pos == Next(toks, old(pos))
      ensures text == toks[old(pos)].text
      ensures toks[old(pos)].kind != EndOfFile ==> pos == old(pos) + 1
    {
      var token := Current();
      var _ := NextToken();
      return token.text;
    }
  }
}
