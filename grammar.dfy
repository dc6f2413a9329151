/**
 * The productions of the LL(1) parser as functions of the token stream and
 * the cursor index. Each returns the node it builds and the index of the
 * token that is current afterwards, or the error that aborts the parse.
 * These functions follow the parser's own control flow step by step: they
 * are the functional counterpart of the class in module Parser, which is
 * proved to compute exactly what they compute. The independent reference
 * for what they accept is the set of grammar relations in module
 * Derivation, to which each of them is proved equivalent.
 */
module Grammar {
  import opened Tokens
  import opened Ast

  /** Token kinds that may follow an attribute name that has no `=value`. */
  predicate FollowsBareAttr(k: TokenKind)
  {
    k == Identifier || k == TagEnd || k == SingleTagEnd
  }

  /** Token kinds at which the attribute loop of a start tag stops. */
  predicate EndsAttrs(k: TokenKind)
  {
    k == TagEnd || k == SingleTagEnd || k == EndOfFile
  }

  /**
   * One attribute: `key = "value"` or a bare `key`. The key token's kind
   * is not checked. Whatever the outcome, a success always moves the
   * cursor forward.
   */
  function AttrSpec(toks: seq<Token>, i: nat): (r: Result<(Attr, nat)>)
    requires WellFormed(toks) && i < |toks|
    ensures r.Success? ==> i < r.value.1 < |toks|
  {
    var key := toks[i];
    var op := Next(toks, i);
    if toks[op].kind == Operate then
      var val := Next(toks, op);
      if toks[val].kind == StringLit then
        Success((Attr(key.text, toks[val].text), Next(toks, val)))
      else
        Failure(MissingAttrValue(key.loc))
    else if FollowsBareAttr(toks[op].kind) then
      Success((Attr(key.text, ""), op))
    else
      Failure(UnexpectedAfterAttr(key.loc))
  }

  /**
   * The attribute loop of a start tag: attributes one after another until
   * the current token is `>`, `/>` or END_OF_FILE. The list holds every
   * attribute parsed, in order, and is never longer than the number of
   * tokens consumed.
   */
  function AttrsSpec(toks: seq<Token>, i: nat): (r: Result<(seq<Attr>, nat)>)
    requires WellFormed(toks) && i < |toks|
    ensures r.Success? ==> i <= r.value.1 < |toks| && EndsAttrs(toks[r.value.1].kind)
    ensures r.Success? ==> |r.value.0| <= r.value.1 - i
    decreases |toks| - i
  {
    if EndsAttrs(toks[i].kind) then
      Success(([], i))
    else
      var first :- AttrSpec(toks, i);
      var rest :- AttrsSpec(toks, first.1);
      Success(([first.0] + rest.0, rest.1))
  }

  /**
   * A start tag: `<`, a name, the attribute loop, then `>` (an opening
   * tag) or `/>` (a self-closing tag). When the loop stops at END_OF_FILE
   * the cursor is advanced once more before the error is raised, and the
   * error names the location of the token reached by that advance.
   */
  function TagStartSpec(toks: seq<Token>, i: nat): (r: Result<(StartTag, nat)>)
    requires WellFormed(toks) && i < |toks|
    ensures r.Success? ==> i + 2 < r.value.1 < |toks|
  {
    if toks[i].kind != TagStart then
      Failure(ExpectedTagStart(toks[i].loc))
    else
      var name := Next(toks, i);
      if toks[name].kind != Identifier then
        Failure(ExpectedTagName(toks[name].loc))
      else
        var attrs :- AttrsSpec(toks, Next(toks, name));
        var end := attrs.1;
        var after := Next(toks, end);
        if toks[end].kind == TagEnd then
          Success((OpenTag(toks[name].text, attrs.0), after))
        else if toks[end].kind == SingleTagEnd then
          Success((SingleTag(toks[name].text, attrs.0), after))
        else
          Failure(ExpectedTagEnd(toks[after].loc))
  }

  /**
   * An end tag `</name>`: exactly three tokens. The result carries the
   * location of the `</` token, not that of the name.
   */
  function TagEndStartSpec(toks: seq<Token>, i: nat): (r: Result<(EndTag, nat)>)
    requires WellFormed(toks) && i < |toks|
    ensures r.Success? ==> r.value.1 == i + 3 < |toks|
  {
    if toks[i].kind != TagEndStart then
      Failure(ExpectedTagEndStart(toks[i].loc))
    else
      var name := Next(toks, i);
      if toks[name].kind != Identifier then
        Failure(ExpectedTagName(toks[name].loc))
      else
        var close := Next(toks, name);
        if toks[close].kind != TagEnd then
          Failure(ExpectedTagEnd(toks[close].loc))
        else
          Success((EndTag(toks[name].text, toks[i].loc), Next(toks, close)))
  }

  /**
   * An element: a self-closing tag as it is, or an opening tag, its
   * content and an end tag whose name must equal the opening name.
   */
  function ElementSpec(toks: seq<Token>, i: nat): (r: Result<(Node, nat)>)
    requires WellFormed(toks) && i < |toks|
    ensures r.Success? ==> i < r.value.1 < |toks|
    decreases |toks| - i, 0
  {
    var start :- TagStartSpec(toks, i);
    match start.0
    case SingleTag(name, attrs) => Success((Single(name, attrs), start.1))
    case OpenTag(name, attrs) =>
      var content :- ContentSpec(toks, start.1);
      var end :- TagEndStartSpec(toks, content.2);
      if end.0.name != name then
        Failure(MismatchedClose(end.0.loc, name))
      else
        Success((Block(name, attrs, content.0, content.1), end.1))
  }

  /**
   * The child loop of a block, from the given index up to the first `</`
   * at this depth: identifiers become text children, `<` starts a nested
   * element, and any other token (END_OF_FILE included) is an error. The
   * result gives the text children, the element children and the index
   * of the `</` that ends the loop.
   */
  function ContentSpec(toks: seq<Token>, k: nat): (r: Result<(seq<string>, seq<Node>, nat)>)
    requires WellFormed(toks) && k < |toks|
    ensures r.Success? ==> k <= r.value.2 < |toks| && toks[r.value.2].kind == TagEndStart
    decreases |toks| - k, 1
  {
    match toks[k].kind
    case TagEndStart => Success(([], [], k))
    case Identifier =>
      var rest :- ContentSpec(toks, Next(toks, k));
      Success(([toks[k].text] + rest.0, rest.1, rest.2))
    case TagStart =>
      var child :- ElementSpec(toks, k);
      var rest :- ContentSpec(toks, child.1);
      Success((rest.0, [child.0] + rest.1, rest.2))
    case _ => Failure(UnknownChild)
  }
}
