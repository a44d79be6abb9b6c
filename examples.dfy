/** Concrete runs of the three stages on small simplelang programs. */
module Examples {
  import opened Diagnostics
  import opened Lexer
  import opened Parsing
  import opened CodeGen

  /** A keyword is recognised only as a whole word. */
  lemma KeywordIsWholeWord()
    ensures Lex("int x", 0) == Lexed(Token(Int, "int"), 3)
    ensures Lex("integer", 0) == Lexed(Token(Identifier, "integer"), 7)
  {
    assert RunEnd("int x", 1, Alnum) == 3;
    assert RunEnd("integer", 1, Alnum) == 7;
  }

  /** `==` is one token; a lone `=` is an assignment. */
  lemma EqualsVersusAssign()
    ensures Lex("==", 0) == Lexed(Token(Equal, "=="), 2)
    ensures Lex(" = 5", 0) == Lexed(Token(Assign, "="), 2)
  {
  }

  /** The tokens of `int a; a = 5;`. */
  function SampleTokens(): seq<Token> {
    [Token(Int, "int"), Token(Identifier, "a"), Token(Semicolon, ";"),
     Token(Identifier, "a"), Token(Assign, "="), Token(Number, "5"), Token(Semicolon, ";"),
     Token(EOF, "")]
  }

  function SampleTree(): Node {
    Node(ProgramNode, "Program", [
      Node(VarDeclNode, "a", []),
      Node(AssignNode, "a", [Node(ExpressionNode, "", [Node(UnknownNode, "5", [])])])])
  }

  /** `int a; a = 5;` parses to a declaration and an assignment of a literal. */
  lemma ParseSample()
    ensures ProgramAt(SampleTokens(), 0) == Parsed(SampleTree(), 7)
  {
    var toks := SampleTokens();
    var program := Node(ProgramNode, "Program", []);
    var withDecl := Node(ProgramNode, "Program", [Node(VarDeclNode, "a", [])]);
    SampleDeclaration();
    StatementsStep(toks, 0, program, false);
    assert program.(children := program.children + [Node(VarDeclNode, "a", [])]) == withDecl;
    SampleAssignment();
    StatementsStep(toks, 3, withDecl, false);
    assert withDecl.(children := withDecl.children + [SampleTree().children[1]]) == SampleTree();
    StatementsStop(toks, 7, SampleTree(), false);
  }

  lemma SampleDeclaration()
    ensures StatementAt(SampleTokens(), 0) == Parsed(Node(VarDeclNode, "a", []), 3)
  {
  }

  lemma SampleAssignment()
    ensures StatementAt(SampleTokens(), 3) == Parsed(SampleTree().children[1], 7)
  {
    var toks := SampleTokens();
    assert ExpressionAt(toks, 5) == Parsed(Node(ExpressionNode, "", [Node(UnknownNode, "5", [])]), 6);
  }

  /** The parsed sample compiles: a literal load and a store to address 0. */
  lemma GenerateSample()
    ensures Gen(SampleTree(), GenState([], 0, []))
         == Run(GenState([Symbol("a", 0)], 0, ["LOADI R0, 5", "STORE R0, 0"]), None)
  {
    var tree := SampleTree();
    assert Generable(tree) by {
      assert Generable(tree.children[1].children[0]) by {
        assert Generable(Node(UnknownNode, "5", []));
      }
    }
    var declared := GenState([Symbol("a", 0)], 0, []);
    assert Gen(tree.children[0], GenState([], 0, [])) == Run(declared, None);
    assert StartsWithDigit("5");
    assert LoadImmR0("5") == "LOADI R0, 5";
    assert Gen(tree.children[1].children[0], declared) == Run(declared.(output := ["LOADI R0, 5"]), None);
    assert NatToString(0) == "0";
    assert StoreR0(0) == "STORE R0, 0";
    assert Lookup(declared.symbols, "a") == Some(0);
    assert Gen(tree.children[1], declared)
        == Run(declared.(output := ["LOADI R0, 5", "STORE R0, 0"]), None);
    assert GenChildren(tree, 2, declared.(output := ["LOADI R0, 5", "STORE R0, 0"]))
        == Run(declared.(output := ["LOADI R0, 5", "STORE R0, 0"]), None);
  }

  function SampleText(): string { "int a; a = 5;" }

  /** The tokens the scanner reads from the text of the sample, position by
      position. */
  lemma LexSampleInt()
    ensures Lex(SampleText(), 0) == Lexed(Token(Int, "int"), 3)
  {
    var s := SampleText();
    assert RunEnd(s, 1, Alnum) == 3 && s[0..3] == "int";
  }

  lemma LexSampleName(pos: nat)
    requires pos == 3 || pos == 6
    ensures Lex(SampleText(), pos) == Lexed(Token(Identifier, "a"), pos + 2)
  {
    var s := SampleText();
    assert SkipSpaces(s, pos) == pos + 1 && RunEnd(s, pos + 2, Alnum) == pos + 2 && s[pos + 1..pos + 2] == "a";
  }

  lemma LexSamplePunctuation()
    ensures Lex(SampleText(), 5) == Lexed(Token(Semicolon, ";"), 6)
    ensures Lex(SampleText(), 8) == Lexed(Token(Assign, "="), 10)
    ensures Lex(SampleText(), 10) == Lexed(Token(Number, "5"), 12)
    ensures Lex(SampleText(), 12) == Lexed(Token(Semicolon, ";"), 13)
    ensures Lex(SampleText(), 13) == Lexed(Token(EOF, ""), 13)
  {
    var s := SampleText();
    assert SkipSpaces(s, 8) == 9;
    assert SkipSpaces(s, 10) == 11 && RunEnd(s, 12, Digits) == 12 && s[11..12] == "5";
  }

  /** `int a; int b; int c; int d;` */
  function FourDeclarations(): seq<Token> {
    [Token(Int, "int"), Token(Identifier, "a"), Token(Semicolon, ";"),
     Token(Int, "int"), Token(Identifier, "b"), Token(Semicolon, ";"),
     Token(Int, "int"), Token(Identifier, "c"), Token(Semicolon, ";"),
     Token(Int, "int"), Token(Identifier, "d"), Token(Semicolon, ";")]
  }

  lemma FourDeclarationsStatements()
    ensures StatementAt(FourDeclarations(), 0) == Parsed(Node(VarDeclNode, "a", []), 3)
    ensures StatementAt(FourDeclarations(), 3) == Parsed(Node(VarDeclNode, "b", []), 6)
    ensures StatementAt(FourDeclarations(), 6) == Parsed(Node(VarDeclNode, "c", []), 9)
    ensures StatementAt(FourDeclarations(), 9) == Parsed(Node(VarDeclNode, "d", []), 12)
  {
  }

  /** Four top-level statements exceed the three children a node can hold. */
  lemma FourStatementsOverflow()
    ensures ProgramAt(FourDeclarations(), 0) == Failed(SyntaxError(TooManyChildren))
  {
    var toks := FourDeclarations();
    var a, b, c := Node(VarDeclNode, "a", []), Node(VarDeclNode, "b", []), Node(VarDeclNode, "c", []);
    FourDeclarationsStatements();
    var p0 := Node(ProgramNode, "Program", []);
    StatementsStep(toks, 0, p0, false);
    var p1 := p0.(children := [] + [a]);
    StatementsStep(toks, 3, p1, false);
    var p2 := p1.(children := p1.children + [b]);
    StatementsStep(toks, 6, p2, false);
    var p3 := p2.(children := p2.children + [c]);
    assert |p3.children| == 3;
    assert !Stops(KindAt(toks, 9), false);
    assert StatementsAt(toks, 9, p3, false) == Failed(SyntaxError(TooManyChildren));
  }

  /** `b = a + 3;` with both operands as one-operand Expressions, after
      `int a; int b;`: load a, push, load 3, pop, add, store to b. */
  lemma GenerateAddition()
    ensures var st := GenState([Symbol("a", 0), Symbol("b", 1)], 0, []);
      Gen(Node(AssignNode, "b", [Node(ExpressionNode, "", [Operand("a"), Node(UnknownNode, "+", []), Operand("3")])]), st)
      == Run(st.(output := ["LOAD R0, 0", "PUSH R0", "LOADI R0, 3", "POP R1", "ADD R0, R1", "STORE R0, 1"]), None)
  {
    var st := GenState([Symbol("a", 0), Symbol("b", 1)], 0, []);
    var e := Node(ExpressionNode, "", [Operand("a"), Node(UnknownNode, "+", []), Operand("3")]);
    AdditionInstructions();
    assert Lookup(st.symbols, "a") == Some(0) && Lookup(st.symbols, "b") == Some(1);
    GenBinary("a", "+", "3", st);
    assert Gen(e, st) == Run(st.(output := ["LOAD R0, 0", "PUSH R0", "LOADI R0, 3", "POP R1", "ADD R0, R1"]), None);
  }

  lemma AdditionInstructions()
    ensures LoadR0(0) == "LOAD R0, 0" && StoreR0(1) == "STORE R0, 1" && LoadImmR0("3") == "LOADI R0, 3"
    ensures !StartsWithDigit("a") && StartsWithDigit("3")
  {
    assert NatToString(0) == "0" && NatToString(1) == "1";
  }

  /** The same statement as the parser builds it is rejected by the generator. */
  lemma ParsedAdditionRejected()
    ensures ExpressionAt([Token(Identifier, "a"), Token(Plus, "+"), Token(Number, "3")], 0)
         == Parsed(Node(ExpressionNode, "", [Node(UnknownNode, "a", []), Node(UnknownNode, "+", []), Node(UnknownNode, "3", [])]), 3)
    ensures Gen(Node(ExpressionNode, "", [Node(UnknownNode, "a", []), Node(UnknownNode, "+", []), Node(UnknownNode, "3", [])]),
                GenState([Symbol("a", 0)], 0, []))
         == Run(GenState([Symbol("a", 0)], 0, []), Some(UnknownNodeType))
  {
    GenRejectsParserBinary(Token(Identifier, "a"), Token(Plus, "+"), Token(Number, "3"), GenState([Symbol("a", 0)], 0, []));
  }

  /** The conditional of the sample language, `if (c == 30) { ... }`, is
      rejected: the parser wants `{` straight after `if`. */
  lemma ParenthesisedConditionRejected()
    ensures ProgramAt([Token(If, "if"), Token(Unknown, "("), Token(Identifier, "c"), Token(Equal, "=="),
                       Token(Number, "30"), Token(Unknown, ")"), Token(LBrace, "{"), Token(RBrace, "}")], 0)
         == Failed(SyntaxError(ExpectedLBrace))
  {
  }
}
