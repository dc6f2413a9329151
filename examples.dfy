/**
 * Small documents, written out as the token streams the scanner would
 * deliver, and what the parser makes of them. Token i sits at column i of
 * line 1.
 */
module Examples {
  import opened Tokens
  import opened Ast
  import opened Grammar
  import opened Derivation
  import Parser

  function At(kind: TokenKind, text: string, column: nat): Token
  {
    Token(kind, text, Location(1, column))
  }

  /** `<a><b></b></a>` */
  function Nested(): seq<Token>
  {
    [At(TagStart, "", 0), At(Identifier, "a", 1), At(TagEnd, "", 2),
     At(TagStart, "", 3), At(Identifier, "b", 4), At(TagEnd, "", 5),
     At(TagEndStart, "", 6), At(Identifier, "b", 7), At(TagEnd, "", 8),
     At(TagEndStart, "", 9), At(Identifier, "a", 10), At(TagEnd, "", 11),
     At(EndOfFile, "", 12)]
  }

  /** The inner block b of `<a><b></b></a>`, and the content of a that holds it. */
  lemma NestedInner()
    ensures WellFormed(Nested())
    ensures ContentSpec(Nested(), 3) == Success(([], [Block("b", [], [], [])], 9))
  {
    var toks := Nested();
    assert WellFormed(toks);
    assert AttrsSpec(toks, 5) == Success(([], 5));
    assert TagStartSpec(toks, 3) == Success((OpenTag("b", []), 6));
    assert ContentSpec(toks, 6) == Success(([], [], 6));
    assert TagEndStartSpec(toks, 6) == Success((EndTag("b", Location(1, 6)), 9));
    assert ElementSpec(toks, 3) == Success((Block("b", [], [], []), 9));
    assert ContentSpec(toks, 9) == Success(([], [], 9));
    assert [Block("b", [], [], [])] + [] == [Block("b", [], [], [])];
  }

  /** A block holding one empty block. */
  lemma NestedBlocks()
    ensures ElementSpec(Nested(), 0) == Success((Block("a", [], [], [Block("b", [], [], [])]), 12))
  {
    var toks := Nested();
    NestedInner();
    assert AttrsSpec(toks, 2) == Success(([], 2));
    assert TagStartSpec(toks, 0) == Success((OpenTag("a", []), 3));
    assert TagEndStartSpec(toks, 9) == Success((EndTag("a", Location(1, 9)), 12));
  }

  /** `<a/>` is a self-closing tag without attributes. */
  lemma SelfClosing()
    ensures ElementSpec([At(TagStart, "", 0), At(Identifier, "a", 1), At(SingleTagEnd, "", 2), At(EndOfFile, "", 3)], 0)
         == Success((Single("a", []), 3))
  {
  }

  /** `<a k1="v1" k2></a>` */
  function WithAttrs(): seq<Token>
  {
    [At(TagStart, "", 0), At(Identifier, "a", 1),
     At(Identifier, "k1", 2), At(Operate, "", 3), At(StringLit, "v1", 4),
     At(Identifier, "k2", 5), At(TagEnd, "", 6),
     At(TagEndStart, "", 7), At(Identifier, "a", 8), At(TagEnd, "", 9),
     At(EndOfFile, "", 10)]
  }

  /** The attribute run of `<a k1="v1" k2>`. */
  lemma WithAttrsRun()
    ensures WellFormed(WithAttrs())
    ensures AttrsSpec(WithAttrs(), 2) == Success(([Attr("k1", "v1"), Attr("k2", "")], 6))
  {
    var toks := WithAttrs();
    assert WellFormed(toks);
    assert AttrSpec(toks, 2) == Success((Attr("k1", "v1"), 5));
    assert AttrSpec(toks, 5) == Success((Attr("k2", ""), 6));
    assert AttrsSpec(toks, 6) == Success(([], 6));
    assert [Attr("k2", "")] + [] == [Attr("k2", "")];
    assert AttrsSpec(toks, 5) == Success(([Attr("k2", "")], 6));
    assert [Attr("k1", "v1")] + [Attr("k2", "")] == [Attr("k1", "v1"), Attr("k2", "")];
  }

  /** `<a k1="v1" k2></a>`: a valued and a bare attribute, in order. */
  lemma AttributeForms()
    ensures ElementSpec(WithAttrs(), 0) == Success((Block("a", [Attr("k1", "v1"), Attr("k2", "")], [], []), 10))
  {
    var toks := WithAttrs();
    WithAttrsRun();
    assert TagStartSpec(toks, 0) == Success((OpenTag("a", [Attr("k1", "v1"), Attr("k2", "")]), 7));
    assert ContentSpec(toks, 7) == Success(([], [], 7));
    assert TagEndStartSpec(toks, 7) == Success((EndTag("a", Location(1, 7)), 10));
  }

  /** `<a k="v" k="v"/>` */
  function Duplicates(): seq<Token>
  {
    [At(TagStart, "", 0), At(Identifier, "a", 1),
     At(Identifier, "k", 2), At(Operate, "", 3), At(StringLit, "v", 4),
     At(Identifier, "k", 5), At(Operate, "", 6), At(StringLit, "v", 7),
     At(SingleTagEnd, "", 8), At(EndOfFile, "", 9)]
  }

  /** The attribute run of `<a k="v" k="v"/>`. */
  lemma DuplicatesRun()
    ensures WellFormed(Duplicates())
    ensures AttrsSpec(Duplicates(), 2) == Success(([Attr("k", "v"), Attr("k", "v")], 8))
  {
    var toks := Duplicates();
    assert WellFormed(toks);
    assert AttrSpec(toks, 2) == Success((Attr("k", "v"), 5));
    assert AttrSpec(toks, 5) == Success((Attr("k", "v"), 8));
    assert AttrsSpec(toks, 8) == Success(([], 8));
    assert [Attr("k", "v")] + [] == [Attr("k", "v")];
    assert AttrsSpec(toks, 5) == Success(([Attr("k", "v")], 8));
    assert [Attr("k", "v")] + [Attr("k", "v")] == [Attr("k", "v"), Attr("k", "v")];
  }

  /** `<a k="v" k="v"/>`: duplicate attributes are both kept. */
  lemma DuplicateAttributes()
    ensures ElementSpec(Duplicates(), 0) == Success((Single("a", [Attr("k", "v"), Attr("k", "v")]), 9))
  {
    DuplicatesRun();
    assert TagStartSpec(Duplicates(), 0) == Success((SingleTag("a", [Attr("k", "v"), Attr("k", "v")]), 9));
  }

  /** `<a></b>` fails at the `</` of `</b>`, naming `a`. */
  lemma Mismatch()
    ensures ElementSpec([At(TagStart, "", 0), At(Identifier, "a", 1), At(TagEnd, "", 2),
                         At(TagEndStart, "", 3), At(Identifier, "b", 4), At(TagEnd, "", 5),
                         At(EndOfFile, "", 6)], 0)
         == Failure(MismatchedClose(Location(1, 3), "a"))
  {
  }

  /** `<a><b></a>` fails where `</b>` was expected but `</a>` was found. */
  lemma Unterminated()
    ensures ElementSpec([At(TagStart, "", 0), At(Identifier, "a", 1), At(TagEnd, "", 2),
                         At(TagStart, "", 3), At(Identifier, "b", 4), At(TagEnd, "", 5),
                         At(TagEndStart, "", 6), At(Identifier, "a", 7), At(TagEnd, "", 8),
                         At(EndOfFile, "", 9)], 0)
         == Failure(MismatchedClose(Location(1, 6), "b"))
  {
  }

  /** `<a>hello<b/>world</a>` */
  function Mixed(): seq<Token>
  {
    [At(TagStart, "", 0), At(Identifier, "a", 1), At(TagEnd, "", 2),
     At(Identifier, "hello", 3),
     At(TagStart, "", 4), At(Identifier, "b", 5), At(SingleTagEnd, "", 6),
     At(Identifier, "world", 7),
     At(TagEndStart, "", 8), At(Identifier, "a", 9), At(TagEnd, "", 10),
     At(EndOfFile, "", 11)]
  }

  /** The self-closing b inside `<a>hello<b/>world</a>`, and the content from it on. */
  lemma MixedTail()
    ensures WellFormed(Mixed())
    ensures ContentSpec(Mixed(), 4) == Success((["world"], [Single("b", [])], 8))
  {
    var toks := Mixed();
    assert WellFormed(toks);
    assert AttrsSpec(toks, 6) == Success(([], 6));
    assert TagStartSpec(toks, 4) == Success((SingleTag("b", []), 7));
    assert ElementSpec(toks, 4) == Success((Single("b", []), 7));
    assert ContentSpec(toks, 8) == Success(([], [], 8));
    assert ["world"] + [] == ["world"];
    assert ContentSpec(toks, 7) == Success((["world"], [], 8));
    assert [Single("b", [])] + [] == [Single("b", [])];
  }

  /** `<a>hello<b/>world</a>`: text children and element children, each list in document order. */
  lemma MixedContent()
    ensures ElementSpec(Mixed(), 0) == Success((Block("a", [], ["hello", "world"], [Single("b", [])]), 11))
  {
    var toks := Mixed();
    MixedTail();
    assert ["hello"] + ["world"] == ["hello", "world"];
    assert ContentSpec(toks, 3) == Success((["hello", "world"], [Single("b", [])], 8));
    assert AttrsSpec(toks, 2) == Success(([], 2));
    assert TagStartSpec(toks, 0) == Success((OpenTag("a", []), 3));
    assert TagEndStartSpec(toks, 8) == Success((EndTag("a", Location(1, 8)), 11));
  }

  /** `<a>` with no end tag: the child loop meets END_OF_FILE. */
  lemma Unclosed()
    ensures ElementSpec([At(TagStart, "", 0), At(Identifier, "a", 1), At(TagEnd, "", 2), At(EndOfFile, "", 3)], 0)
         == Failure(UnknownChild)
  {
  }

  /**
   * `<a k="v"` then END_OF_FILE: the attribute loop stops at END_OF_FILE and
   * the error names the token reached by one more advance, which is the
   * same sticky END_OF_FILE.
   */
  lemma AttrsRunIntoEnd()
    ensures TagStartSpec([At(TagStart, "", 0), At(Identifier, "a", 1),
                          At(Identifier, "k", 2), At(Operate, "", 3), At(StringLit, "v", 4),
                          At(EndOfFile, "", 5)], 0)
         == Failure(ExpectedTagEnd(Location(1, 5)))
  {
  }

  /** `<a k` then END_OF_FILE: END_OF_FILE may not follow a bare attribute, so the attribute itself fails. */
  lemma BareAttrAtEnd()
    ensures TagStartSpec([At(TagStart, "", 0), At(Identifier, "a", 1), At(Identifier, "k", 2), At(EndOfFile, "", 3)], 0)
         == Failure(UnexpectedAfterAttr(Location(1, 2)))
  {
  }

  /** A client of the parser class: creating it and parsing `<a/>` from the start. */
  method ParseSelfClosing() returns (r: Result<Node>)
    ensures r == Success(Single("a", []))
  {
    var toks := [At(TagStart, "", 0), At(Identifier, "a", 1), At(SingleTagEnd, "", 2), At(EndOfFile, "", 3)];
    var p := new Parser.LLParser(toks);
    r := p.ParseTagBlock();
    SelfClosing();
  }
}
