/**
 * The grammar the parser accepts, stated as relations between a stretch
 * of the token stream and the node it stands for. The relations still
 * branch on the same one-token lookahead as the parser, but they quantify
 * over the split points and fix no order of evaluation. `XAt(toks, i, x, j)` says that the tokens from
 * index i up to (not including) index j form x. Each production of module
 * Grammar is proved to succeed with (x, j) exactly when its relation holds.
 */
module Derivation {
  import opened Tokens
  import opened Ast
  import opened Grammar

  /** Number of element nodes in a tree, as a termination measure. */
  function Size(n: Node): (s: nat)
    ensures s >= 1
  {
    match n
    case Single(_, _) => 1
    case Block(_, _, _, children) => 1 + SizeAll(children)
  }

  function SizeAll(nodes: seq<Node>): nat
  {
    if nodes == [] then 0 else Size(nodes[0]) + SizeAll(nodes[1..])
  }

  /** `key = "value"` (three tokens) or a bare `key` followed by a name, `>` or `/>` (one token). */
  ghost predicate AttrAt(toks: seq<Token>, i: nat, a: Attr, j: nat)
  {
    WellFormed(toks) && i + 1 < |toks| &&
    ( (toks[i + 1].kind == Operate && i + 2 < |toks| && toks[i + 2].kind == StringLit &&
       a == Attr(toks[i].text, toks[i + 2].text) && j == i + 3)
    || (FollowsBareAttr(toks[i + 1].kind) && a == Attr(toks[i].text, "") && j == i + 1))
  }

  /** A run of attributes, each starting at a token that does not end the list, up to `>`, `/>` or END_OF_FILE. */
  ghost predicate AttrsAt(toks: seq<Token>, i: nat, attrs: seq<Attr>, j: nat)
    decreases |attrs|
  {
    WellFormed(toks) && i < |toks| &&
    if attrs == [] then
      j == i && EndsAttrs(toks[i].kind)
    else
      !EndsAttrs(toks[i].kind) &&
      exists k: nat :: AttrAt(toks, i, attrs[0], k) && AttrsAt(toks, k, attrs[1..], j)
  }

  /** `<name attrs >`, or `<name attrs />` when selfClosing. */
  ghost predicate StartTagAt(toks: seq<Token>, i: nat, name: string, attrs: seq<Attr>, selfClosing: bool, j: nat)
  {
    WellFormed(toks) && i + 2 < |toks| && 0 < j < |toks| &&
    toks[i].kind == TagStart &&
    toks[i + 1].kind == Identifier && toks[i + 1].text == name &&
    AttrsAt(toks, i + 2, attrs, j - 1) &&
    toks[j - 1].kind == (if selfClosing then SingleTagEnd else TagEnd)
  }

  /** `</name>`. */
  ghost predicate EndTagAt(toks: seq<Token>, i: nat, name: string, j: nat)
  {
    WellFormed(toks) && i + 2 < |toks| &&
    toks[i].kind == TagEndStart &&
    toks[i + 1].kind == Identifier && toks[i + 1].text == name &&
    toks[i + 2].kind == TagEnd &&
    j == i + 3
  }

  /**
   * An element: a self-closing tag, or an opening tag, its content and an
   * end tag carrying the SAME name. The content relation refers back to
   * this one for every nested block, so every block at every depth is
   * closed by an end tag with its own name.
   */
  ghost predicate ElementAt(toks: seq<Token>, i: nat, n: Node, j: nat)
    decreases Size(n), 0, 0
  {
    WellFormed(toks) && i < |toks| &&
    match n
    case Single(name, attrs) => StartTagAt(toks, i, name, attrs, true, j)
    case Block(name, attrs, texts, children) =>
      exists k: nat, m: nat :: StartTagAt(toks, i, name, attrs, false, k) &&
                     ContentAt(toks, k, texts, children, m) &&
                     EndTagAt(toks, m, name, j)
  }

  /**
   * The content of a block up to the `</` at index m: text tokens and
   * nested elements, whose text children and element children appear in
   * `texts` and `children` in document order.
   */
  ghost predicate ContentAt(toks: seq<Token>, k: nat, texts: seq<string>, children: seq<Node>, m: nat)
    decreases SizeAll(children), 1, |texts|
  {
    WellFormed(toks) && k < |toks| &&
    match toks[k].kind
    case TagEndStart => texts == [] && children == [] && m == k
    case Identifier =>
      texts != [] && texts[0] == toks[k].text && ContentAt(toks, k + 1, texts[1..], children, m)
    case TagStart =>
      children != [] &&
      exists e: nat :: ElementAt(toks, k, children[0], e) && ContentAt(toks, e, texts, children[1..], m)
    case _ => false
  }

  /** A single attribute parses exactly when the tokens spell one. */
  lemma AttrIff(toks: seq<Token>, i: nat, a: Attr, j: nat)
    requires WellFormed(toks) && i < |toks|
    ensures AttrSpec(toks, i) == Success((a, j)) <==> AttrAt(toks, i, a, j)
  {
  }

  /** Every attribute list the loop returns is a run of attributes ended by `>`, `/>` or END_OF_FILE. */
  lemma {:induction false} AttrsSound(toks: seq<Token>, i: nat, attrs: seq<Attr>, j: nat)
    requires WellFormed(toks) && i < |toks|
    requires AttrsSpec(toks, i) == Success((attrs, j))
    ensures AttrsAt(toks, i, attrs, j)
    decreases |toks| - i
  {
    if !EndsAttrs(toks[i].kind) {
      var first := AttrSpec(toks, i).value;
      var rest := AttrsSpec(toks, first.1).value;
      AttrIff(toks, i, first.0, first.1);
      AttrsSound(toks, first.1, rest.0, rest.1);
      assert attrs[0] == first.0 && attrs[1..] == rest.0;
    }
  }

  /** Every run of attributes is what the attribute loop returns: nothing dropped, merged or reordered. */
  lemma {:induction false} AttrsComplete(toks: seq<Token>, i: nat, attrs: seq<Attr>, j: nat)
    requires AttrsAt(toks, i, attrs, j)
    ensures AttrsSpec(toks, i) == Success((attrs, j))
    decreases |attrs|
  {
    if attrs != [] {
      var k: nat :| AttrAt(toks, i, attrs[0], k) && AttrsAt(toks, k, attrs[1..], j);
      AttrIff(toks, i, attrs[0], k);
      AttrsComplete(toks, k, attrs[1..], j);
      assert [attrs[0]] + attrs[1..] == attrs;
    }
  }

  /** Every start tag the parser returns is spelled out by the tokens it consumed. */
  lemma TagStartSound(toks: seq<Token>, i: nat, t: StartTag, j: nat)
    requires WellFormed(toks) && i < |toks|
    requires TagStartSpec(toks, i) == Success((t, j))
    ensures StartTagAt(toks, i, t.name, t.attrs, t.SingleTag?, j)
  {
    NextAdvances(toks, i);
    NextAdvances(toks, i + 1);
    var attrs := AttrsSpec(toks, i + 2).value;
    NextAdvances(toks, attrs.1);
    assert j == attrs.1 + 1 && t.attrs == attrs.0;
    AttrsSound(toks, i + 2, attrs.0, attrs.1);
  }

  /** Every start tag the tokens spell out is what the parser returns. */
  lemma TagStartComplete(toks: seq<Token>, i: nat, name: string, attrs: seq<Attr>, selfClosing: bool, j: nat)
    requires StartTagAt(toks, i, name, attrs, selfClosing, j)
    ensures TagStartSpec(toks, i) == Success((if selfClosing then SingleTag(name, attrs) else OpenTag(name, attrs), j))
  {
    NextAdvances(toks, i);
    NextAdvances(toks, i + 1);
    AttrsComplete(toks, i + 2, attrs, j - 1);
    NextAdvances(toks, j - 1);
  }

  /** A start tag parses exactly when the tokens spell one; it is self-closing exactly when it ends with `/>`. */
  lemma TagStartIff(toks: seq<Token>, i: nat, t: StartTag, j: nat)
    requires WellFormed(toks) && i < |toks|
    ensures TagStartSpec(toks, i) == Success((t, j)) <==> StartTagAt(toks, i, t.name, t.attrs, t.SingleTag?, j)
  {
    if TagStartSpec(toks, i) == Success((t, j)) {
      TagStartSound(toks, i, t, j);
    }
    if StartTagAt(toks, i, t.name, t.attrs, t.SingleTag?, j) {
      TagStartComplete(toks, i, t.name, t.attrs, t.SingleTag?, j);
    }
  }

  /** An end tag parses exactly when the tokens spell `</name>`; the result carries the location of `</`. */
  lemma TagEndStartIff(toks: seq<Token>, i: nat, e: EndTag, j: nat)
    requires WellFormed(toks) && i < |toks|
    ensures TagEndStartSpec(toks, i) == Success((e, j)) <==> EndTagAt(toks, i, e.name, j) && e.loc == toks[i].loc
  {
  }

  /** Every element the parser returns is derived by the grammar, closes included. */
  lemma {:induction false} ElementSound(toks: seq<Token>, i: nat, n: Node, j: nat)
    requires WellFormed(toks) && i < |toks|
    requires ElementSpec(toks, i) == Success((n, j))
    ensures ElementAt(toks, i, n, j)
    decreases |toks| - i, 0
  {
    var start := TagStartSpec(toks, i).value;
    TagStartIff(toks, i, start.0, start.1);
    if start.0.OpenTag? {
      var content := ContentSpec(toks, start.1).value;
      ContentSound(toks, start.1, content.0, content.1, content.2);
      var end := TagEndStartSpec(toks, content.2).value;
      TagEndStartIff(toks, content.2, end.0, end.1);
      assert StartTagAt(toks, i, n.name, n.attrs, false, start.1);
      assert ContentAt(toks, start.1, n.texts, n.children, content.2);
      assert EndTagAt(toks, content.2, n.name, j);
    }
  }

  /** Every content the child loop returns is derived by the grammar. */
  lemma {:induction false} ContentSound(toks: seq<Token>, k: nat, texts: seq<string>, children: seq<Node>, m: nat)
    requires WellFormed(toks) && k < |toks|
    requires ContentSpec(toks, k) == Success((texts, children, m))
    ensures ContentAt(toks, k, texts, children, m)
    decreases |toks| - k, 1
  {
    match toks[k].kind
    case TagEndStart =>
    case Identifier =>
      var rest := ContentSpec(toks, k + 1).value;
      ContentSound(toks, k + 1, rest.0, rest.1, rest.2);
      assert texts[1..] == rest.0;
    case TagStart =>
      var child := ElementSpec(toks, k).value;
      ElementSound(toks, k, child.0, child.1);
      var rest := ContentSpec(toks, child.1).value;
      ContentSound(toks, child.1, rest.0, rest.1, rest.2);
      assert children[0] == child.0 && children[1..] == rest.1;
  }

  /** Every element the grammar derives is what the parser returns: the parse is complete and unambiguous. */
  lemma {:induction false} ElementComplete(toks: seq<Token>, i: nat, n: Node, j: nat)
    requires ElementAt(toks, i, n, j)
    ensures ElementSpec(toks, i) == Success((n, j))
    decreases Size(n), 0, 0
  {
    match n
    case Single(name, attrs) =>
      TagStartIff(toks, i, SingleTag(name, attrs), j);
    case Block(name, attrs, texts, children) =>
      var k: nat, m: nat :| StartTagAt(toks, i, name, attrs, false, k) &&
                  ContentAt(toks, k, texts, children, m) &&
                  EndTagAt(toks, m, name, j);
      TagStartIff(toks, i, OpenTag(name, attrs), k);
      ContentComplete(toks, k, texts, children, m);
      TagEndStartIff(toks, m, EndTag(name, toks[m].loc), j);
  }

  /** Every content the grammar derives is what the child loop returns. */
  lemma {:induction false} ContentComplete(toks: seq<Token>, k: nat, texts: seq<string>, children: seq<Node>, m: nat)
    requires ContentAt(toks, k, texts, children, m)
    ensures ContentSpec(toks, k) == Success((texts, children, m))
    decreases SizeAll(children), 1, |texts|
  {
    match toks[k].kind
    case TagEndStart =>
    case Identifier =>
      ContentComplete(toks, k + 1, texts[1..], children, m);
      assert [texts[0]] + texts[1..] == texts;
    case TagStart =>
      var e: nat :| ElementAt(toks, k, children[0], e) && ContentAt(toks, e, texts, children[1..], m);
      ElementComplete(toks, k, children[0], e);
      ContentComplete(toks, e, texts, children[1..], m);
      assert [children[0]] + children[1..] == children;
  }

  /** The parser accepts exactly the elements the grammar derives. */
  lemma ElementIff(toks: seq<Token>, i: nat, n: Node, j: nat)
    requires WellFormed(toks) && i < |toks|
    ensures ElementSpec(toks, i) == Success((n, j)) <==> ElementAt(toks, i, n, j)
  {
    if ElementSpec(toks, i) == Success((n, j)) { ElementSound(toks, i, n, j); }
    if ElementAt(toks, i, n, j) { ElementComplete(toks, i, n, j); }
  }
}
