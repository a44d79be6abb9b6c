/** The recursive-descent parser of parser.c.

    The C parser keeps one token of lookahead in the global `current_token`
    and advances it by calling the lexer. Here the token source is a sequence
    `toks` with a cursor `pos`: the current token is `toks[pos]`, advancing is
    `pos + 1`, and a cursor past the end reads EOF, as the lexer keeps
    returning EOF once the input is exhausted.

    Each C parse function is modelled twice: as a function `XAt(toks, pos)`
    that gives its outcome (the node built and the cursor after it, or the
    syntax error), and as a method of class `Parser` that advances the cursor
    step by step as the C code does and is proved to agree with the function. */
module Parsing {
  import opened Diagnostics
  import opened Lexer

  /** MAX_CHILDREN: the size of a node's child array. */
  const MaxChildren: nat := 3

  datatype NodeKind =
    | ProgramNode | VarDeclNode | AssignNode | ExpressionNode | IfNode | BlockNode | UnknownNode

  /** ASTNode: a kind, a text and the children in `children[0..child_count)`.
      createNode(kind, text) is `Node(kind, text, [])`. */
  datatype Node = Node(kind: NodeKind, text: string, children: seq<Node>)

  /** The outcome of a parse function: the node together with the cursor
      position after its last token, or the syntax error. */
  datatype Parse = Parsed(node: Node, next: nat) | Failed(error: Error)

  /** addChild: stores the child at index child_count, or fails when the node
      already holds MaxChildren children. */
  function AddChild(parent: Node, child: Node): (r: Result<Node>)
    ensures r.Ok? <==> |parent.children| < MaxChildren
    ensures r.Ok? ==>
      r.value.kind == parent.kind && r.value.text == parent.text
      && |r.value.children| == |parent.children| + 1
      && r.value.children[..|parent.children|] == parent.children
      && r.value.children[|parent.children|] == child
    ensures r.Fail? ==> r.error == SyntaxError(TooManyChildren)
  {
    if |parent.children| < MaxChildren then
      Ok(parent.(children := parent.children + [child]))
    else
      Fail(SyntaxError(TooManyChildren))
  }

  /** The lookahead token at cursor `pos`. */
  function Current(toks: seq<Token>, pos: nat): Token {
    if pos < |toks| then toks[pos] else Token(EOF, "")
  }

  /** Past the last token of a scanned stream the lookahead is EOF with
      empty text: the token the scanner goes on returning at end of input. */
  lemma CurrentPastEnd(s: seq<char>, pos: nat, i: nat)
    requires pos <= |s| && |Tokenize(s, pos)| - 1 <= i
    ensures Current(Tokenize(s, pos), i) == Lex(s, |s|).token
  {
    var toks := Tokenize(s, pos);
    assert WellFormedToken(toks[|toks| - 1]);
  }

  predicate WellFormedTokens(toks: seq<Token>) {
    forall i :: 0 <= i < |toks| ==> WellFormedToken(toks[i])
  }

  /** On tokens the lexer can produce, the lookahead is one of them too. */
  lemma CurrentWellFormed(toks: seq<Token>, pos: nat)
    requires WellFormedTokens(toks)
    ensures WellFormedToken(Current(toks, pos))
  {
  }

  function KindAt(toks: seq<Token>, pos: nat): TokenKind {
    Current(toks, pos).kind
  }

  predicate IsOperandKind(k: TokenKind) {
    k == Identifier || k == Number
  }

  predicate IsOperatorKind(k: TokenKind) {
    k == Plus || k == Minus
  }

  /** The tokens that end a statement list: EOF, and `}` inside a block. */
  predicate Stops(k: TokenKind, inBlock: bool) {
    k == EOF || (inBlock && k == RBrace)
  }

  /** The leaf the parser makes for an operand or operator token: a childless
      node of no particular kind that keeps the token's text. */
  function Leaf(t: Token): (n: Node)
    ensures n.kind == UnknownNode && n.text == t.text && n.children == []
  {
    Node(UnknownNode, t.text, [])
  }

  /** parseExpression: an operand, optionally followed by `+`/`-` and a second
      operand; one child per token consumed. */
  function ExpressionAt(toks: seq<Token>, pos: nat): (r: Parse)
    ensures r.Parsed? <==>
      IsOperandKind(KindAt(toks, pos))
      && (IsOperatorKind(KindAt(toks, pos + 1)) ==> IsOperandKind(KindAt(toks, pos + 2)))
    ensures r.Parsed? ==>
      var n := r.node;
      n.kind == ExpressionNode
      && (|n.children| == 1 || |n.children| == 3)
      && (|n.children| == 3 <==> IsOperatorKind(KindAt(toks, pos + 1)))
      && r.next == pos + |n.children| <= |toks|
      && n.children[0] == Leaf(Current(toks, pos))
      && (|n.children| == 3 ==> n.children[1] == Leaf(Current(toks, pos + 1)) && n.children[2] == Leaf(Current(toks, pos + 2)))
  {
    if IsOperandKind(KindAt(toks, pos)) then
      var left := Leaf(Current(toks, pos));
      if IsOperatorKind(KindAt(toks, pos + 1)) then
        if IsOperandKind(KindAt(toks, pos + 2)) then
          var op, right := Leaf(Current(toks, pos + 1)), Leaf(Current(toks, pos + 2));
          Parsed(Node(ExpressionNode, "", [left, op, right]), pos + 3)
        else
          Failed(SyntaxError(ExpectedOperand))
      else
        Parsed(Node(ExpressionNode, "", [left]), pos + 1)
    else
      Failed(SyntaxError(InvalidExpression))
  }

  /** The two syntax errors of parseExpression. */
  lemma ExpressionErrors(toks: seq<Token>, pos: nat)
    ensures !IsOperandKind(KindAt(toks, pos)) ==> ExpressionAt(toks, pos) == Failed(SyntaxError(InvalidExpression))
    ensures IsOperandKind(KindAt(toks, pos)) && IsOperatorKind(KindAt(toks, pos + 1))
      && !IsOperandKind(KindAt(toks, pos + 2))
      ==> ExpressionAt(toks, pos) == Failed(SyntaxError(ExpectedOperand))
  {
  }

  /** parseVarDecl: `int IDENT ;`, giving a VarDecl node named after the
      identifier. */
  function VarDeclAt(toks: seq<Token>, pos: nat): (r: Parse)
    requires KindAt(toks, pos) == Int
    ensures r.Parsed? <==> KindAt(toks, pos + 1) == Identifier && KindAt(toks, pos + 2) == Semicolon
    ensures KindAt(toks, pos + 1) != Identifier
      ==> r == Failed(SyntaxError(ExpectedVariableName))
    ensures KindAt(toks, pos + 1) == Identifier && KindAt(toks, pos + 2) != Semicolon
      ==> r == Failed(SyntaxError(ExpectedDeclarationSemicolon))
    ensures r.Parsed? ==>
      r.node == Node(VarDeclNode, Current(toks, pos + 1).text, []) && r.next == pos + 3 <= |toks|
  {
    if KindAt(toks, pos + 1) != Identifier then
      Failed(SyntaxError(ExpectedVariableName))
    else
      var node := Node(VarDeclNode, Current(toks, pos + 1).text, []);
      if KindAt(toks, pos + 2) != Semicolon then
        Failed(SyntaxError(ExpectedDeclarationSemicolon))
      else
        Parsed(node, pos + 3)
  }

  /** parseAssignment: `IDENT = Expression ;`, giving an Assign node named after
      the target with the expression as its one child. */
  function AssignmentAt(toks: seq<Token>, pos: nat): (r: Parse)
    requires KindAt(toks, pos) == Identifier
    ensures r.Parsed? ==> pos + 4 <= r.next <= |toks| && r.node.kind == AssignNode
  {
    var node := Node(AssignNode, Current(toks, pos).text, []);
    if KindAt(toks, pos + 1) != Assign then
      Failed(SyntaxError(ExpectedAssign))
    else
      var expr := ExpressionAt(toks, pos + 2);
      if expr.Failed? then expr
      else
        var withExpr := AddChild(node, expr.node).value;
        if KindAt(toks, expr.next) != Semicolon then
          Failed(SyntaxError(ExpectedAssignmentSemicolon))
        else
          Parsed(withExpr, expr.next + 1)
  }

  /** parseAssignment outcome by outcome: a missing `=`, a failing expression
      (whose error is passed on), a missing `;`, or the Assign node. */
  lemma AssignmentCases(toks: seq<Token>, pos: nat)
    requires KindAt(toks, pos) == Identifier
    ensures KindAt(toks, pos + 1) != Assign
      ==> AssignmentAt(toks, pos) == Failed(SyntaxError(ExpectedAssign))
    ensures KindAt(toks, pos + 1) == Assign && ExpressionAt(toks, pos + 2).Failed?
      ==> AssignmentAt(toks, pos) == Failed(ExpressionAt(toks, pos + 2).error)
    ensures KindAt(toks, pos + 1) == Assign && ExpressionAt(toks, pos + 2).Parsed?
      ==> var e := ExpressionAt(toks, pos + 2);
          if KindAt(toks, e.next) == Semicolon
          then AssignmentAt(toks, pos) == Parsed(Node(AssignNode, Current(toks, pos).text, [e.node]), e.next + 1)
          else AssignmentAt(toks, pos) == Failed(SyntaxError(ExpectedAssignmentSemicolon))
  {
  }

  /** The node kind each statement-starting token leads to. */
  function StatementKind(k: TokenKind): NodeKind {
    match k
    case Int => VarDeclNode
    case Identifier => AssignNode
    case If => IfNode
    case _ => UnknownNode
  }

  /** parseStatement: chooses the production by the current token alone. */
  function StatementAt(toks: seq<Token>, pos: nat): (r: Parse)
    requires pos <= |toks|
    ensures r.Parsed? ==> pos < r.next <= |toks|
    ensures r.Parsed? ==> r.node.kind == StatementKind(KindAt(toks, pos)) && r.node.kind != UnknownNode
    decreases |toks| - pos, 1
  {
    match KindAt(toks, pos)
    case Int => VarDeclAt(toks, pos)
    case Identifier => AssignmentAt(toks, pos)
    case If => IfAt(toks, pos)
    case _ => Failed(SyntaxError(UnexpectedToken))
  }

  /** parseStatement rejects every token that starts no statement. */
  lemma StatementRejects(toks: seq<Token>, pos: nat)
    requires pos <= |toks| && StatementKind(KindAt(toks, pos)) == UnknownNode
    ensures StatementAt(toks, pos) == Failed(SyntaxError(UnexpectedToken))
  {
  }

  /** parseIf: `if { Statement* }`, giving an If node whose one child is the
      Block of the nested statements. */
  function IfAt(toks: seq<Token>, pos: nat): (r: Parse)
    requires pos <= |toks|
    requires KindAt(toks, pos) == If
    ensures KindAt(toks, pos + 1) != LBrace ==> r == Failed(SyntaxError(ExpectedLBrace))
    ensures r.Parsed? ==>
      var n := r.node;
      pos + 3 <= r.next <= |toks| && KindAt(toks, r.next - 1) == RBrace
      && n.kind == IfNode && n.text == "if" && |n.children| == 1
      && n.children[0].kind == BlockNode && n.children[0].text == "Block"
      && |n.children[0].children| <= MaxChildren
    decreases |toks| - pos, 0
  {
    if KindAt(toks, pos + 1) != LBrace then
      Failed(SyntaxError(ExpectedLBrace))
    else
      var body := StatementsAt(toks, pos + 2, Node(BlockNode, "Block", []), true);
      if body.Failed? then body
      else if KindAt(toks, body.next) != RBrace then
        Failed(SyntaxError(ExpectedRBrace))
      else
        Parsed(Node(IfNode, "if", [body.node]), body.next + 1)
  }

  /** The statement loop shared by parseProgram and parseIf: parse statements
      and add each to `parent` until the current token stops the list. */
  function StatementsAt(toks: seq<Token>, pos: nat, parent: Node, inBlock: bool): (r: Parse)
    requires pos <= |toks|
    ensures r.Parsed? ==> pos <= r.next <= |toks| && Stops(KindAt(toks, r.next), inBlock)
    ensures r.Parsed? ==>
      r.node.kind == parent.kind && r.node.text == parent.text
      && (|parent.children| <= MaxChildren ==> |r.node.children| <= MaxChildren)
    decreases |toks| - pos, 2
  {
    if Stops(KindAt(toks, pos), inBlock) then
      Parsed(parent, pos)
    else
      var stmt := StatementAt(toks, pos);
      if stmt.Failed? then stmt
      else
        match AddChild(parent, stmt.node)
        case Fail(e) => Failed(e)
        case Ok(extended) => StatementsAt(toks, stmt.next, extended, inBlock)
  }

  /** parseProgram: the statements up to EOF, as children of the Program root. */
  function ProgramAt(toks: seq<Token>, pos: nat): (r: Parse)
    requires pos <= |toks|
    ensures r.Parsed? ==>
      r.node.kind == ProgramNode && |r.node.children| <= MaxChildren
      && KindAt(toks, r.next) == EOF
  {
    StatementsAt(toks, pos, Node(ProgramNode, "Program", []), false)
  }

  /** How a method leaves the outcome of a parse: the node, or the error, and on
      success the cursor after the construct. */
  predicate Agrees(r: Result<Node>, spec: Parse, pos: nat) {
    match spec
    case Parsed(node, next) => r == Ok(node) && pos == next
    case Failed(e) => r == Fail(e)
  }

  /** The parser state: the token stream and the lookahead cursor. */
  class Parser {
    const toks: seq<Token>
    var pos: nat

    ghost predicate Valid()
      reads this
    {
      pos <= |toks|
    }

    /** The state after main's first getNextToken call. */
    constructor (toks: seq<Token>)
      ensures this.toks == toks && pos == 0 && Valid()
    {
      this.toks := toks;
      pos := 0;
    }

    /** current_token. */
    function CurrentToken(): Token
      reads this
    {
      Current(toks, pos)
    }

    /** getNextToken: move the lookahead one token on. */
    method Advance()
      requires pos < |toks|
      modifies this
      ensures pos == old(pos) + 1
    {
      pos := pos + 1;
    }

    method ParseExpression() returns (r: Result<Node>)
      requires Valid()
      modifies this
      ensures Valid() && Agrees(r, ExpressionAt(toks, old(pos)), pos)
    {
      var node := Node(ExpressionNode, "", []);
      if IsOperandKind(CurrentToken().kind) {
        node := AddChild(node, Leaf(CurrentToken())).value;
        assert node == Node(ExpressionNode, "", [Leaf(CurrentToken())]);
        Advance();  // consume identifier/number
        if IsOperatorKind(CurrentToken().kind) {
          node := AddChild(node, Leaf(CurrentToken())).value;
          Advance();  // consume operator
          if IsOperandKind(CurrentToken().kind) {
            node := AddChild(node, Leaf(CurrentToken())).value;
            assert node == Node(ExpressionNode, "", [Leaf(Current(toks, old(pos))), Leaf(Current(toks, old(pos) + 1)), Leaf(CurrentToken())]);
            Advance();  // consume identifier/number
          } else {
            return Fail(SyntaxError(ExpectedOperand));
          }
        }
      } else {
        return Fail(SyntaxError(InvalidExpression));
      }
      return Ok(node);
    }

    method ParseVarDecl() returns (r: Result<Node>)
      requires Valid() && CurrentToken().kind == Int
      modifies this
      ensures Valid() && Agrees(r, VarDeclAt(toks, old(pos)), pos)
    {
      Advance();  // consume 'int'
      if CurrentToken().kind != Identifier {
        return Fail(SyntaxError(ExpectedVariableName));
      }
      var node := Node(VarDeclNode, CurrentToken().text, []);
      Advance();  // consume identifier
      if CurrentToken().kind != Semicolon {
        return Fail(SyntaxError(ExpectedDeclarationSemicolon));
      }
      Advance();  // consume ';'
      return Ok(node);
    }

    method ParseAssignment() returns (r: Result<Node>)
      requires Valid() && CurrentToken().kind == Identifier
      modifies this
      ensures Valid() && Agrees(r, AssignmentAt(toks, old(pos)), pos)
    {
      var node := Node(AssignNode, CurrentToken().text, []);
      Advance();  // consume identifier
      if CurrentToken().kind != Assign {
        return Fail(SyntaxError(ExpectedAssign));
      }
      Advance();  // consume '='
      var expr := ParseExpression();
      if expr.Fail? {
        return expr;
      }
      node := AddChild(node, expr.value).value;
      if CurrentToken().kind != Semicolon {
        return Fail(SyntaxError(ExpectedAssignmentSemicolon));
      }
      Advance();  // consume ';'
      return Ok(node);
    }

    method ParseStatement() returns (r: Result<Node>)
      requires Valid()
      modifies this
      ensures Valid() && Agrees(r, StatementAt(toks, old(pos)), pos)
      decreases |toks| - pos, 1
    {
      var kind := CurrentToken().kind;
      if kind == Int {
        r := ParseVarDecl();
      } else if kind == Identifier {
        r := ParseAssignment();
      } else if kind == If {
        r := ParseIf();
      } else {
        r := Fail(SyntaxError(UnexpectedToken));
      }
    }

    method ParseIf() returns (r: Result<Node>)
      requires Valid() && CurrentToken().kind == If
      modifies this
      ensures Valid() && Agrees(r, IfAt(toks, old(pos)), pos)
      decreases |toks| - pos, 0
    {
      var node := Node(IfNode, "if", []);
      Advance();  // consume 'if'
      if CurrentToken().kind != LBrace {
        return Fail(SyntaxError(ExpectedLBrace));
      }
      Advance();  // consume '{'
      var block := Node(BlockNode, "Block", []);
      while CurrentToken().kind != RBrace && CurrentToken().kind != EOF
        invariant Valid() && old(pos) + 2 <= pos
        invariant StatementsAt(toks, pos, block, true)
               == StatementsAt(toks, old(pos) + 2, Node(BlockNode, "Block", []), true)
        decreases |toks| - pos
      {
        var stmt := ParseStatement();
        if stmt.Fail? {
          return stmt;
        }
        var added := AddChild(block, stmt.value);
        if added.Fail? {
          return added;
        }
        block := added.value;
      }
      if CurrentToken().kind != RBrace {
        return Fail(SyntaxError(ExpectedRBrace));
      }
      Advance();  // consume '}'
      node := AddChild(node, block).value;
      return Ok(node);
    }

    method ParseProgram() returns (r: Result<Node>)
      requires Valid()
      modifies this
      ensures Valid() && Agrees(r, ProgramAt(toks, old(pos)), pos)
    {
      var root := Node(ProgramNode, "Program", []);
      while CurrentToken().kind != EOF
        invariant Valid() && old(pos) <= pos
        invariant StatementsAt(toks, pos, root, false)
               == StatementsAt(toks, old(pos), Node(ProgramNode, "Program", []), false)
        decreases |toks| - pos
      {
        var stmt := ParseStatement();
        if stmt.Fail? {
          return stmt;
        }
        var added := AddChild(root, stmt.value);
        if added.Fail? {
          return added;
        }
        root := added.value;
      }
      return Ok(root);
    }
  }

  // The statement lists the parser accepts.

  /** `stmts` are the statements that parseStatement returns one after the
      other from `pos`, and `end` is the cursor after the last of them. */
  predicate StatementSequence(toks: seq<Token>, pos: nat, stmts: seq<Node>, end: nat)
    decreases |stmts|
  {
    if stmts == [] then end == pos
    else
      pos <= |toks| && StatementAt(toks, pos).Parsed? && StatementAt(toks, pos).node == stmts[0]
      && StatementSequence(toks, StatementAt(toks, pos).next, stmts[1..], end)
  }

  /** A successful statement loop adds to `parent` exactly a sequence of
      consecutive statements, in source order, and stops on a stop token. */
  lemma {:induction false} StatementsSound(toks: seq<Token>, pos: nat, parent: Node, inBlock: bool)
    requires pos <= |toks|
    requires StatementsAt(toks, pos, parent, inBlock).Parsed?
    ensures var p := StatementsAt(toks, pos, parent, inBlock);
      |parent.children| <= |p.node.children|
      && p.node.children[..|parent.children|] == parent.children
      && StatementSequence(toks, pos, p.node.children[|parent.children|..], p.next)
    decreases |toks| - pos
  {
    var p := StatementsAt(toks, pos, parent, inBlock);
    if Stops(KindAt(toks, pos), inBlock) {
      assert p.node.children[|parent.children|..] == [];
    } else {
      var s := StatementAt(toks, pos);
      var extended := AddChild(parent, s.node).value;
      StatementsSound(toks, s.next, extended, inBlock);
      var rest := p.node.children[|parent.children|..];
      assert rest[0] == s.node;
      assert rest[1..] == p.node.children[|extended.children|..];
      assert p.node.children[..|parent.children|] == extended.children[..|parent.children|];
    }
  }

  /** A loop started on an empty node returns exactly consecutive statements. */
  lemma ListSound(toks: seq<Token>, pos: nat, kind: NodeKind, text: string, inBlock: bool, n: Node, next: nat)
    requires pos <= |toks|
    requires StatementsAt(toks, pos, Node(kind, text, []), inBlock) == Parsed(n, next)
    ensures StatementSequence(toks, pos, n.children, next)
  {
    StatementsSound(toks, pos, Node(kind, text, []), inBlock);
    assert n.children[0..] == n.children;
  }

  /** One turn of the statement loop: a statement that parses and fits is
      added, and the loop goes on after it. */
  lemma StatementsStep(toks: seq<Token>, pos: nat, parent: Node, inBlock: bool)
    requires pos <= |toks| && StatementAt(toks, pos).Parsed? && |parent.children| < MaxChildren
    ensures var s := StatementAt(toks, pos);
      StatementsAt(toks, pos, parent, inBlock)
      == StatementsAt(toks, s.next, parent.(children := parent.children + [s.node]), inBlock)
  {
    assert StatementKind(KindAt(toks, pos)) != UnknownNode;
  }

  /** The loop ends on a stop token with `parent` as it is. */
  lemma StatementsStop(toks: seq<Token>, pos: nat, parent: Node, inBlock: bool)
    requires pos <= |toks| && Stops(KindAt(toks, pos), inBlock)
    ensures StatementsAt(toks, pos, parent, inBlock) == Parsed(parent, pos)
  {
  }

  /** Conversely, up to MaxChildren consecutive statements followed by a stop
      token are all accepted, in order. */
  lemma {:induction false} StatementsComplete(toks: seq<Token>, pos: nat, parent: Node, inBlock: bool,
                                              stmts: seq<Node>, end: nat)
    requires pos <= |toks|
    requires StatementSequence(toks, pos, stmts, end)
    requires Stops(KindAt(toks, end), inBlock)
    requires |parent.children| + |stmts| <= MaxChildren
    ensures StatementsAt(toks, pos, parent, inBlock)
         == Parsed(parent.(children := parent.children + stmts), end)
    decreases |stmts|
  {
    if stmts == [] {
      StatementsStop(toks, pos, parent, inBlock);
      assert parent.children + stmts == parent.children;
    } else {
      var s := StatementAt(toks, pos);
      StatementsComplete(toks, s.next, parent.(children := parent.children + [stmts[0]]), inBlock, stmts[1..], end);
      StatementsPrepend(toks, pos, parent, inBlock, stmts, end);
    }
  }

  /** The inductive step of StatementsComplete: a first statement that fits,
      and a loop from after it that accepts the others. */
  lemma StatementsPrepend(toks: seq<Token>, pos: nat, parent: Node, inBlock: bool, stmts: seq<Node>, end: nat)
    requires pos <= |toks| && stmts != [] && |parent.children| < MaxChildren
    requires StatementAt(toks, pos).Parsed? && StatementAt(toks, pos).node == stmts[0]
    requires StatementsAt(toks, StatementAt(toks, pos).next, parent.(children := parent.children + [stmts[0]]), inBlock)
          == Parsed(parent.(children := parent.children + [stmts[0]] + stmts[1..]), end)
    ensures StatementsAt(toks, pos, parent, inBlock) == Parsed(parent.(children := parent.children + stmts), end)
  {
    StatementsStep(toks, pos, parent, inBlock);
    AppendFirst(parent.children, stmts);
  }

  lemma AppendFirst<T>(prefix: seq<T>, s: seq<T>)
    requires s != []
    ensures prefix + [s[0]] + s[1..] == prefix + s
  {
    assert [s[0]] + s[1..] == s;
  }

  /** A statement list longer than the room left in `parent` is rejected when
      the first statement that does not fit has been parsed. */
  lemma {:induction false} StatementsOverflow(toks: seq<Token>, pos: nat, parent: Node, inBlock: bool,
                                              stmts: seq<Node>, end: nat)
    requires pos <= |toks|
    requires StatementSequence(toks, pos, stmts, end)
    requires |parent.children| <= MaxChildren < |parent.children| + |stmts|
    ensures StatementsAt(toks, pos, parent, inBlock)
         == Failed(SyntaxError(TooManyChildren))
    decreases |stmts|
  {
    var s := StatementAt(toks, pos);
    if |parent.children| < MaxChildren {
      StatementsOverflow(toks, s.next, AddChild(parent, s.node).value, inBlock, stmts[1..], end);
    }
  }

  /** parseProgram succeeds exactly on at most MaxChildren consecutive
      statements followed by EOF, and returns them in order under the root. */
  lemma ProgramAccepts(toks: seq<Token>, pos: nat)
    requires pos <= |toks|
    ensures ProgramAt(toks, pos).Parsed? ==>
      var p := ProgramAt(toks, pos);
      p.node.kind == ProgramNode && p.node.text == "Program"
      && |p.node.children| <= MaxChildren && KindAt(toks, p.next) == EOF
      && StatementSequence(toks, pos, p.node.children, p.next)
    ensures forall stmts: seq<Node>, end: nat ::
      StatementSequence(toks, pos, stmts, end) && KindAt(toks, end) == EOF && |stmts| <= MaxChildren
      ==> ProgramAt(toks, pos) == Parsed(Node(ProgramNode, "Program", stmts), end)
  {
    var root := Node(ProgramNode, "Program", []);
    if ProgramAt(toks, pos).Parsed? {
      StatementsSound(toks, pos, root, false);
      assert ProgramAt(toks, pos).node.children[|root.children|..] == ProgramAt(toks, pos).node.children;
    }
    forall stmts: seq<Node>, end: nat |
      StatementSequence(toks, pos, stmts, end) && KindAt(toks, end) == EOF && |stmts| <= MaxChildren
      ensures ProgramAt(toks, pos) == Parsed(Node(ProgramNode, "Program", stmts), end)
    {
      StatementsComplete(toks, pos, root, false, stmts, end);
      assert root.children + stmts == stmts;
    }
  }

  /** A program of more than MaxChildren statements is a syntax error, even
      when every statement is well formed. */
  lemma ProgramOverflow(toks: seq<Token>, pos: nat, stmts: seq<Node>, end: nat)
    requires pos <= |toks|
    requires StatementSequence(toks, pos, stmts, end)
    requires |stmts| > MaxChildren
    ensures ProgramAt(toks, pos) == Failed(SyntaxError(TooManyChildren))
  {
    StatementsOverflow(toks, pos, Node(ProgramNode, "Program", []), false, stmts, end);
  }

  /** One unfolding of parseIf once `if {` has been read. */
  lemma IfUnfold(toks: seq<Token>, pos: nat)
    requires pos <= |toks| && KindAt(toks, pos) == If
    ensures KindAt(toks, pos + 1) == LBrace ==>
      var body := StatementsAt(toks, pos + 2, Node(BlockNode, "Block", []), true);
      IfAt(toks, pos)
      == if body.Failed? then Failed(body.error)
         else if KindAt(toks, body.next) != RBrace then Failed(SyntaxError(ExpectedRBrace))
         else Parsed(Node(IfNode, "if", [body.node]), body.next + 1)
  {
  }

  /** parseIf once the statement loop after `if {` has stopped at `end`. */
  lemma IfFromBody(toks: seq<Token>, pos: nat, body: Node, end: nat)
    requires pos <= |toks| && KindAt(toks, pos) == If && KindAt(toks, pos + 1) == LBrace
    requires StatementsAt(toks, pos + 2, Node(BlockNode, "Block", []), true) == Parsed(body, end)
    ensures KindAt(toks, end) == RBrace ==> IfAt(toks, pos) == Parsed(Node(IfNode, "if", [body]), end + 1)
    ensures KindAt(toks, end) != RBrace ==> IfAt(toks, pos) == Failed(SyntaxError(ExpectedRBrace))
  {
    IfUnfold(toks, pos);
  }

  /** parseIf: with `{` right after `if`, up to MaxChildren statements and a
      closing `}` give an If node whose only child is the Block of those
      statements; reaching EOF instead of `}` is a syntax error. */
  lemma IfAccepts(toks: seq<Token>, pos: nat, stmts: seq<Node>, end: nat)
    requires pos <= |toks| && KindAt(toks, pos) == If && KindAt(toks, pos + 1) == LBrace
    requires StatementSequence(toks, pos + 2, stmts, end)
    requires |stmts| <= MaxChildren
    ensures KindAt(toks, end) == RBrace
      ==> IfAt(toks, pos) == Parsed(Node(IfNode, "if", [Node(BlockNode, "Block", stmts)]), end + 1)
    ensures KindAt(toks, end) == EOF
      ==> IfAt(toks, pos) == Failed(SyntaxError(ExpectedRBrace))
  {
    var block := Node(BlockNode, "Block", []);
    if KindAt(toks, end) == RBrace || KindAt(toks, end) == EOF {
      StatementsComplete(toks, pos + 2, block, true, stmts, end);
      assert block.(children := block.children + stmts) == Node(BlockNode, "Block", stmts);
      IfFromBody(toks, pos, Node(BlockNode, "Block", stmts), end);
    }
  }

  /** A successful If parse is the Block the statement loop returned after
      `if {`, closed by `}`. */
  lemma IfBody(toks: seq<Token>, pos: nat, n: Node, next: nat)
    requires pos <= |toks| && KindAt(toks, pos) == If
    requires IfAt(toks, pos) == Parsed(n, next)
    ensures KindAt(toks, pos + 1) == LBrace && 0 < next
    ensures StatementsAt(toks, pos + 2, Node(BlockNode, "Block", []), true) == Parsed(n.children[0], next - 1)
    ensures n == Node(IfNode, "if", [n.children[0]])
    ensures n.children[0] == Node(BlockNode, "Block", n.children[0].children)
  {
    IfUnfold(toks, pos);
  }

  // The shape of the trees the parser builds.

  /** An operand leaf: a NODE_UNKNOWN node with the text of an identifier or
      number token. */
  predicate IsOperandLeaf(n: Node) {
    n.kind == UnknownNode && n.children == [] && |n.text| > 0
    && forall k :: 0 <= k < |n.text| ==> IsAlnum(n.text[k])
  }

  predicate IsOperatorLeaf(n: Node) {
    n.kind == UnknownNode && n.children == [] && (n.text == "+" || n.text == "-")
  }

  /** An Expression: one operand, or operand, operator, operand. */
  predicate IsExpressionTree(n: Node) {
    n.kind == ExpressionNode
    && ((|n.children| == 1 && IsOperandLeaf(n.children[0]))
        || (|n.children| == 3 && IsOperandLeaf(n.children[0]) && IsOperatorLeaf(n.children[1])
            && IsOperandLeaf(n.children[2])))
  }

  predicate IsStatementTree(n: Node)
    decreases n, 1
  {
    match n.kind
    case VarDeclNode => n.children == [] && |n.text| > 0
    case AssignNode => |n.children| == 1 && IsExpressionTree(n.children[0]) && |n.text| > 0
    case IfNode => |n.children| == 1 && IsStatementListTree(n.children[0], BlockNode)
    case _ => false
  }

  /** A Program or Block: at most MaxChildren statements. */
  predicate IsStatementListTree(n: Node, kind: NodeKind)
    decreases n, 0
  {
    n.kind == kind && |n.children| <= MaxChildren
    && forall i :: 0 <= i < |n.children| ==> IsStatementTree(n.children[i])
  }

  lemma ExpressionIsTree(toks: seq<Token>, pos: nat)
    requires WellFormedTokens(toks) && ExpressionAt(toks, pos).Parsed?
    ensures IsExpressionTree(ExpressionAt(toks, pos).node)
  {
    var n := ExpressionAt(toks, pos).node;
    assert n.children[0] == Leaf(Current(toks, pos));
    CurrentWellFormed(toks, pos);
    CurrentWellFormed(toks, pos + 2);
    if |n.children| == 3 {
      assert n.children[1] == Leaf(Current(toks, pos + 1));
      assert n.children[2] == Leaf(Current(toks, pos + 2));
    }
  }

  lemma {:induction false} StatementIsTree(toks: seq<Token>, pos: nat)
    requires pos <= |toks| && WellFormedTokens(toks) && StatementAt(toks, pos).Parsed?
    ensures IsStatementTree(StatementAt(toks, pos).node)
    decreases |toks| - pos, 1
  {
    match KindAt(toks, pos)
    case Int =>
      VarDeclIsTree(toks, pos);
    case Identifier =>
      AssignmentIsTree(toks, pos);
    case If =>
      IfIsTree(toks, pos);
  }

  lemma VarDeclIsTree(toks: seq<Token>, pos: nat)
    requires WellFormedTokens(toks) && KindAt(toks, pos) == Int && VarDeclAt(toks, pos).Parsed?
    ensures IsStatementTree(VarDeclAt(toks, pos).node)
  {
    CurrentWellFormed(toks, pos + 1);
  }

  lemma AssignmentIsTree(toks: seq<Token>, pos: nat)
    requires WellFormedTokens(toks) && KindAt(toks, pos) == Identifier && AssignmentAt(toks, pos).Parsed?
    ensures IsStatementTree(AssignmentAt(toks, pos).node)
  {
    CurrentWellFormed(toks, pos);
    ExpressionIsTree(toks, pos + 2);
  }

  lemma {:induction false} IfIsTree(toks: seq<Token>, pos: nat)
    requires pos <= |toks| && WellFormedTokens(toks) && KindAt(toks, pos) == If && IfAt(toks, pos).Parsed?
    ensures IsStatementTree(IfAt(toks, pos).node)
    decreases |toks| - pos, 0
  {
    StatementsAreTrees(toks, pos + 2, Node(BlockNode, "Block", []), true);
  }

  lemma {:induction false} StatementsAreTrees(toks: seq<Token>, pos: nat, parent: Node, inBlock: bool)
    requires pos <= |toks| && WellFormedTokens(toks)
    requires forall i :: 0 <= i < |parent.children| ==> IsStatementTree(parent.children[i])
    requires StatementsAt(toks, pos, parent, inBlock).Parsed?
    ensures var n := StatementsAt(toks, pos, parent, inBlock).node;
      forall i :: 0 <= i < |n.children| ==> IsStatementTree(n.children[i])
    decreases |toks| - pos, 2
  {
    if !Stops(KindAt(toks, pos), inBlock) {
      var s := StatementAt(toks, pos);
      StatementIsTree(toks, pos);
      var extended := AddChild(parent, s.node).value;
      assert forall i :: 0 <= i < |extended.children| ==> IsStatementTree(extended.children[i]) by {
        forall i | 0 <= i < |extended.children|
          ensures IsStatementTree(extended.children[i])
        {
          if i < |parent.children| {
            assert extended.children[i] == extended.children[..|parent.children|][i];
          }
        }
      }
      StatementsAreTrees(toks, s.next, extended, inBlock);
    }
  }

  /** On tokens the lexer can produce, every tree parseProgram returns has
      statements of the three kinds only, expressions of arity 1 or 3 with
      `+`/`-` in the middle, at most MaxChildren statements per Program or
      Block, and one Block under each If. */
  lemma ProgramIsTree(toks: seq<Token>, pos: nat)
    requires pos <= |toks| && WellFormedTokens(toks) && ProgramAt(toks, pos).Parsed?
    ensures IsStatementListTree(ProgramAt(toks, pos).node, ProgramNode)
  {
    StatementsAreTrees(toks, pos, Node(ProgramNode, "Program", []), false);
  }
}
