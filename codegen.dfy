/** The tree-walking code generator of AssemblyCode.c.

    Its state is the symbol table (`symbol_table` / `symbol_count`), the label
    counter (the `static label_count` of the If case) and the instructions
    written so far by `emit`. `Gen(node, st)` gives the outcome of
    generateCode on a node from state `st`: the new state and, when the C
    program would stop with exit(1), the error. Class `Generator` holds the
    same state in fields and is proved to follow `Gen` step by step. */
module CodeGen {
  import opened Diagnostics
  import opened Lexer
  import opened Parsing

  /** A symbol table entry. */
  datatype Symbol = Symbol(name: string, address: nat)

  datatype GenState = GenState(symbols: seq<Symbol>, labelCount: nat, output: seq<string>)

  /** The state after a generateCode call, and the error that stopped it. */
  datatype Run = Run(state: GenState, failure: Option<Error>)

  // Decimal rendering (the %d of sprintf, for naturals).

  /** The character of decimal digit `d`. */
  function DigitChar(d: nat): (c: char)
    requires d < 10
    ensures IsDigit(c) && c as int - '0' as int == d
  {
    ('0' as int + d) as char
  }

  /** The number a string of decimal digits denotes, most significant first. */
  function DecimalValue(s: string): int
    decreases |s|
  {
    if s == [] then 0 else 10 * DecimalValue(s[..|s| - 1]) + (s[|s| - 1] as int - '0' as int)
  }

  /** What %d prints for a natural: digits only, no leading zero. */
  predicate IsDecimal(s: string) {
    |s| > 0 && (forall k :: 0 <= k < |s| ==> IsDigit(s[k])) && (s[0] == '0' ==> |s| == 1)
  }

  /** %d: the decimal numeral of `n`. */
  function NatToString(n: nat): (s: string)
    ensures IsDecimal(s) && DecimalValue(s) == n
    decreases n
  {
    if n < 10 then [DigitChar(n)]
    else
      var high := NatToString(n / 10);
      var s := high + [DigitChar(n % 10)];
      assert s[..|s| - 1] == high;
      assert s[0] == high[0];
      s
  }

  /** Different numbers print differently. */
  lemma NatToStringInjective(m: nat, n: nat)
    ensures NatToString(m) == NatToString(n) ==> m == n
  {
  }

  /** A numeral that reads as `n` is the one %d prints for `n`. */
  lemma {:induction false} DecimalUnique(s: string, n: nat)
    requires IsDecimal(s) && DecimalValue(s) == n
    ensures s == NatToString(n)
    decreases |s|
  {
    if |s| > 1 {
      var high := s[..|s| - 1];
      var d := s[|s| - 1] as int - '0' as int;
      assert 0 <= d < 10;
      assert high[0] == s[0];
      if DecimalValue(high) == 0 {
        ZeroNumeral(high);
        assert false;
      }
      assert n / 10 == DecimalValue(high) && n % 10 == d;
      assert IsDecimal(high);
      DecimalUnique(high, n / 10);
      assert s == high + [s[|s| - 1]];
    } else {
      assert s == [DigitChar(n)];
    }
  }

  /** A digit string of value zero is all zeros. */
  lemma {:induction false} ZeroNumeral(s: string)
    requires |s| > 0 && (forall k :: 0 <= k < |s| ==> IsDigit(s[k])) && DecimalValue(s) == 0
    ensures s[0] == '0'
    decreases |s|
  {
    if |s| > 1 {
      var high := s[..|s| - 1];
      assert DecimalValue(high) >= 0 by { DigitsNonNegative(high); }
      assert DecimalValue(high) == 0;
      ZeroNumeral(high);
      assert high[0] == s[0];
    }
  }

  lemma {:induction false} DigitsNonNegative(s: string)
    requires forall k :: 0 <= k < |s| ==> IsDigit(s[k])
    ensures DecimalValue(s) >= 0
    decreases |s|
  {
    if s != [] {
      DigitsNonNegative(s[..|s| - 1]);
    }
  }

  // The instruction texts.

  function LabelName(n: nat): string { "LABEL_" + NatToString(n) }
  function StoreR0(address: nat): string { "STORE R0, " + NatToString(address) }
  function LoadR0(address: nat): string { "LOAD R0, " + NatToString(address) }
  function LoadImmR0(literal: string): string { "LOADI R0, " + literal }
  function Jne(target: string): string { "JNE " + target }
  const PushR0: string := "PUSH R0"
  const PopR1: string := "POP R1"
  const AddR0R1: string := "ADD R0, R1"
  const SubR0R1: string := "SUB R0, R1"
  const CmpR0One: string := "CMP R0, 1"

  /** `LABEL_%d`: the label text is LABEL_ followed by the numeral of `n`. */
  lemma LabelText(n: nat)
    ensures var s := LabelName(n);
      |s| > 6 && s[..6] == "LABEL_" && IsDecimal(s[6..]) && DecimalValue(s[6..]) == n
  {
    assert LabelName(n)[6..] == NatToString(n);
  }

  /** `STORE R0, %d`: the address is printed as the numeral after the comma. */
  lemma StoreText(address: nat)
    ensures var s := StoreR0(address);
      |s| > 10 && s[..10] == "STORE R0, " && IsDecimal(s[10..]) && DecimalValue(s[10..]) == address
  {
    assert StoreR0(address)[10..] == NatToString(address);
  }

  /** `LOAD R0, %d`: the address is printed as the numeral after the comma. */
  lemma LoadText(address: nat)
    ensures var s := LoadR0(address);
      |s| > 9 && s[..9] == "LOAD R0, " && IsDecimal(s[9..]) && DecimalValue(s[9..]) == address
  {
    assert LoadR0(address)[9..] == NatToString(address);
  }

  /** `LOADI R0, %s`: the operand text is copied after the comma unchanged. */
  lemma LoadImmText(literal: string)
    ensures var s := LoadImmR0(literal);
      |s| >= 10 && s[..10] == "LOADI R0, " && s[10..] == literal
  {
  }

  /** Labels of different counter values are different strings. */
  lemma LabelsDistinct(m: nat, n: nat)
    ensures LabelName(m) == LabelName(n) ==> m == n
  {
    LabelText(m);
    LabelText(n);
  }

  // The symbol table.

  /** The position of the first entry called `name`. */
  function FirstMatch(symbols: seq<Symbol>, name: string): (r: Option<nat>)
    ensures r.None? ==> forall j :: 0 <= j < |symbols| ==> symbols[j].name != name
    ensures r.Some? ==>
      r.value < |symbols| && symbols[r.value].name == name
      && forall j :: 0 <= j < r.value ==> symbols[j].name != name
    decreases |symbols|
  {
    if symbols == [] then None
    else if symbols[0].name == name then Some(0)
    else match FirstMatch(symbols[1..], name)
      case None => None
      case Some(i) => Some(i + 1)
  }

  /** getSymbolAddress: the address of the first entry called `name`, or
      nothing when no entry has that name. */
  function Lookup(symbols: seq<Symbol>, name: string): (r: Option<nat>)
    ensures r.None? <==> forall j :: 0 <= j < |symbols| ==> symbols[j].name != name
    ensures r.Some? ==>
      exists i :: 0 <= i < |symbols| && symbols[i] == Symbol(name, r.value)
        && forall j :: 0 <= j < i ==> symbols[j].name != name
  {
    match FirstMatch(symbols, name)
    case None => None
    case Some(i) => Some(symbols[i].address)
  }

  /** addSymbol: a new last entry for `name` at address symbol_count, and
      nothing else changed. A table built this way keeps addresses equal to
      positions, and a name declared before keeps its first address. */
  function Declare(st: GenState, name: string): (r: GenState)
    ensures r.output == st.output && r.labelCount == st.labelCount
    ensures |r.symbols| == |st.symbols| + 1 && r.symbols[..|st.symbols|] == st.symbols
      && r.symbols[|st.symbols|] == Symbol(name, |st.symbols|)
    ensures AddressesArePositions(st.symbols) ==> AddressesArePositions(r.symbols)
    ensures Lookup(r.symbols, name)
      == if Lookup(st.symbols, name).Some? then Lookup(st.symbols, name) else Some(|st.symbols|)
  {
    LookupAfterDeclare(st.symbols, name, name);
    var symbols := st.symbols + [Symbol(name, |st.symbols|)];
    assert symbols[..|st.symbols|] == st.symbols;
    st.(symbols := symbols)
  }

  /** emit: append one instruction to the output. */
  function Append(st: GenState, instruction: string): GenState {
    st.(output := st.output + [instruction])
  }

  /** Every entry's address is its position: the table was built by addSymbol. */
  predicate AddressesArePositions(symbols: seq<Symbol>) {
    forall i :: 0 <= i < |symbols| ==> symbols[i].address == i
  }

  /** What generateCode reads without checking: an If has a condition at
      children[0] and a block at children[1], and an Assign an expression at
      children[0], in every node the generator visits (all children of a
      Program or Block, the operands of a binary Expression, the condition
      and block of an If, the expression of an Assign). */
  predicate Generable(n: Node)
    decreases n, 1
  {
    match n.kind
    case ProgramNode => ChildrenGenerable(n)
    case BlockNode => ChildrenGenerable(n)
    case AssignNode => |n.children| >= 1 && Generable(n.children[0])
    case ExpressionNode => |n.children| == 3 ==> Generable(n.children[0]) && Generable(n.children[2])
    case IfNode => |n.children| >= 2 && Generable(n.children[0]) && Generable(n.children[1])
    case _ => true
  }

  /** The children of a Program or Block, all of which the generator visits. */
  predicate ChildrenGenerable(n: Node)
    decreases n, 0
  {
    forall i :: 0 <= i < |n.children| ==> Generable(n.children[i])
  }

  predicate StartsWithDigit(text: string) {
    |text| > 0 && IsDigit(text[0])
  }

  /** generateCode on `n` from state `st`. */
  function Gen(n: Node, st: GenState): (r: Run)
    requires Generable(n)
    ensures st.labelCount <= r.state.labelCount
    decreases n, 1, 0
  {
    match n.kind
    case ProgramNode => GenChildren(n, 0, st)
    case BlockNode => GenChildren(n, 0, st)
    case VarDeclNode => Run(Declare(st, n.text), None)
    case AssignNode =>
      match Lookup(st.symbols, n.text) {
        case None => Run(st, Some(UndefinedVariable(n.text)))
        case Some(address) =>
          var value := Gen(n.children[0], st);
          if value.failure.Some? then value
          else Run(Append(value.state, StoreR0(address)), None)
      }
    case ExpressionNode =>
      if |n.children| == 1 then
        match OperandCode(st.symbols, n.children[0].text) {
          case Fail(e) => Run(st, Some(e))
          case Ok(instruction) => Run(Append(st, instruction), None)
        }
      else if |n.children| == 3 then
        var left := Gen(n.children[0], st);
        if left.failure.Some? then left
        else
          var right := Gen(n.children[2], Append(left.state, PushR0));
          if right.failure.Some? then right
          else Combine(right.state, n.children[1].text)
      else Run(st, None)
    case IfNode =>
      var cond := Gen(n.children[0], st);
      if cond.failure.Some? then cond
      else
        var compared := Append(cond.state, CmpR0One);
        var marker := LabelName(compared.labelCount);
        var jumped := Append(compared.(labelCount := compared.labelCount + 1), Jne(marker));
        var body := Gen(n.children[1], jumped);
        if body.failure.Some? then body
        else Run(Append(body.state, marker), None)
    case UnknownNode => Run(st, Some(UnknownNodeType))
  }

  /** The loop of the Program and Block cases: the children from index `i` on. */
  function GenChildren(n: Node, i: nat, st: GenState): (r: Run)
    requires ChildrenGenerable(n) && i <= |n.children|
    ensures st.labelCount <= r.state.labelCount
    decreases n, 0, |n.children| - i
  {
    if i == |n.children| then Run(st, None)
    else
      var child := Gen(n.children[i], st);
      if child.failure.Some? then child else GenChildren(n, i + 1, child.state)
  }

  /** What a run does to the state it starts from, success or failure:
      output and symbol table only grow at the end (emit and addSymbol
      append), the label counter never goes down, and a table built by
      addSymbol stays one. */
  predicate Grows(st: GenState, r: GenState) {
    st.output <= r.output && st.symbols <= r.symbols && st.labelCount <= r.labelCount
    && (AddressesArePositions(st.symbols) ==> AddressesArePositions(r.symbols))
  }

  /** The end of a binary Expression: POP R1, then ADD or SUB. */
  function Combine(right: GenState, op: string): Run {
    var popped := Append(right, PopR1);
    if op == "+" then Run(Append(popped, AddR0R1), None)
    else if op == "-" then Run(Append(popped, SubR0R1), None)
    else Run(popped, Some(UnsupportedOperator(op)))
  }

  /** The end of a binary Expression: POP R1, then ADD R0, R1 for "+" or
      SUB R0, R1 for "-"; any other operator fails after the POP. Only the
      output changes. */
  lemma CombineEffect(right: GenState, op: string)
    ensures var r := Combine(right, op);
      r.state.symbols == right.symbols && r.state.labelCount == right.labelCount
      && (r.failure.None? <==> op == "+" || op == "-")
      && (r.failure.Some? ==>
            r.failure == Some(UnsupportedOperator(op)) && r.state.output == right.output + [PopR1])
      && (r.failure.None? ==>
            r.state.output == right.output + [PopR1, if op == "+" then AddR0R1 else SubR0R1])
  {
  }

  /** One unfolding of the binary Expression case. */
  lemma GenBinaryUnfold(n: Node, st: GenState)
    requires Generable(n) && n.kind == ExpressionNode && |n.children| == 3
    ensures var left := Gen(n.children[0], st);
      Gen(n, st)
      == if left.failure.Some? then left
         else
           var right := Gen(n.children[2], Append(left.state, PushR0));
           if right.failure.Some? then right else Combine(right.state, n.children[1].text)
  {
  }

  lemma GrowsTrans(a: GenState, b: GenState, c: GenState)
    requires Grows(a, b) && Grows(b, c)
    ensures Grows(a, c)
  {
  }

  lemma AppendGrows(st: GenState, instruction: string)
    ensures Grows(st, Append(st, instruction))
  {
  }

  lemma {:induction false} GenGrows(n: Node, st: GenState)
    requires Generable(n)
    ensures Grows(st, Gen(n, st).state)
    decreases n, 1
  {
    match n.kind
    case ProgramNode => GenChildrenGrows(n, 0, st);
    case BlockNode => GenChildrenGrows(n, 0, st);
    case VarDeclNode =>
    case AssignNode => AssignGrows(n, st);
    case ExpressionNode =>
      if |n.children| == 1 {
        AppendGrows(st, LoadImmR0(n.children[0].text));
        if Lookup(st.symbols, n.children[0].text).Some? {
          AppendGrows(st, LoadR0(Lookup(st.symbols, n.children[0].text).value));
        }
      } else if |n.children| == 3 {
        BinaryGrows(n, st);
      }
    case IfNode => IfGrows(n, st);
    case UnknownNode =>
  }

  lemma {:induction false} AssignGrows(n: Node, st: GenState)
    requires Generable(n) && n.kind == AssignNode
    ensures Grows(st, Gen(n, st).state)
    decreases n, 0, 0
  {
    var a := Lookup(st.symbols, n.text);
    if a.Some? {
      GenGrows(n.children[0], st);
      var value := Gen(n.children[0], st);
      AppendGrows(value.state, StoreR0(a.value));
      GrowsTrans(st, value.state, Append(value.state, StoreR0(a.value)));
    }
  }

  lemma {:induction false} BinaryGrows(n: Node, st: GenState)
    requires Generable(n) && n.kind == ExpressionNode && |n.children| == 3
    ensures Grows(st, Gen(n, st).state)
    decreases n, 0, 0
  {
    GenBinaryUnfold(n, st);
    GenGrows(n.children[0], st);
    var left := Gen(n.children[0], st);
    var pushed := Append(left.state, PushR0);
    AppendGrows(left.state, PushR0);
    GrowsTrans(st, left.state, pushed);
    GenGrows(n.children[2], pushed);
    var right := Gen(n.children[2], pushed);
    GrowsTrans(st, pushed, right.state);
    var popped := Append(right.state, PopR1);
    AppendGrows(right.state, PopR1);
    GrowsTrans(st, right.state, popped);
    AppendGrows(popped, AddR0R1);
    GrowsTrans(st, popped, Append(popped, AddR0R1));
    AppendGrows(popped, SubR0R1);
    GrowsTrans(st, popped, Append(popped, SubR0R1));
  }

  lemma {:induction false} IfGrows(n: Node, st: GenState)
    requires Generable(n) && n.kind == IfNode
    ensures Grows(st, Gen(n, st).state)
    decreases n, 0, 0
  {
    GenGrows(n.children[0], st);
    var cond := Gen(n.children[0], st);
    if cond.failure.None? {
      GenIf(n, st);
      var c := cond.state;
      var jumped := GenState(c.symbols, c.labelCount + 1, c.output + [CmpR0One, Jne(LabelName(c.labelCount))]);
      assert Grows(c, jumped);
      GrowsTrans(st, c, jumped);
      GenGrows(n.children[1], jumped);
      var body := Gen(n.children[1], jumped);
      GrowsTrans(st, jumped, body.state);
      AppendGrows(body.state, LabelName(c.labelCount));
      GrowsTrans(st, body.state, Append(body.state, LabelName(c.labelCount)));
    }
  }

  lemma {:induction false} GenChildrenGrows(n: Node, i: nat, st: GenState)
    requires ChildrenGenerable(n) && i <= |n.children|
    ensures Grows(st, GenChildren(n, i, st).state)
    decreases n, 0, |n.children| - i
  {
    if i < |n.children| {
      GenGrows(n.children[i], st);
      var child := Gen(n.children[i], st);
      if child.failure.None? {
        GenChildrenGrows(n, i + 1, child.state);
        GrowsTrans(st, child.state, GenChildren(n, i + 1, child.state).state);
      }
    }
  }


  /** The generator's state, held in fields as the C globals are. */
  class Generator {
    var symbols: seq<Symbol>
    var labelCount: nat
    var output: seq<string>

    function State(): GenState
      reads this
    {
      GenState(symbols, labelCount, output)
    }

    /** Start of a run: no symbols, counter 0, nothing emitted. */
    constructor ()
      ensures State() == GenState([], 0, [])
    {
      symbols, labelCount, output := [], 0, [];
    }

    method Emit(instruction: string)
      modifies this
      ensures State() == Append(old(State()), instruction)
    {
      output := output + [instruction];
    }

    method AddSymbol(name: string)
      modifies this
      ensures State() == Declare(old(State()), name)
    {
      symbols := symbols + [Symbol(name, |symbols|)];
    }

    method GetSymbolAddress(name: string) returns (r: Option<nat>)
      ensures r == Lookup(symbols, name)
    {
      for i := 0 to |symbols|
        invariant forall j :: 0 <= j < i ==> symbols[j].name != name
      {
        if symbols[i].name == name {
          return Some(symbols[i].address);
        }
      }
      return None;
    }

    method GenerateCode(node: Node) returns (failure: Option<Error>)
      requires Generable(node)
      modifies this
      ensures Run(State(), failure) == Gen(node, old(State()))
      decreases node, 1
    {
      match node.kind {
        case ProgramNode =>
          failure := GenerateChildren(node);
        case BlockNode =>
          failure := GenerateChildren(node);
        case VarDeclNode =>
          AddSymbol(node.text);
          failure := None;
        case AssignNode =>
          var address := GetSymbolAddress(node.text);
          if address.None? {
            return Some(UndefinedVariable(node.text));
          }
          failure := GenerateCode(node.children[0]);
          if failure.Some? {
            return;
          }
          Emit(StoreR0(address.value));
        case ExpressionNode =>
          if |node.children| == 1 {
            var operand := node.children[0].text;
            if StartsWithDigit(operand) {
              Emit(LoadImmR0(operand));
            } else {
              var address := GetSymbolAddress(operand);
              if address.None? {
                return Some(UndefinedVariable(operand));
              }
              Emit(LoadR0(address.value));
            }
          } else if |node.children| == 3 {
            failure := GenerateCode(node.children[0]);
            if failure.Some? {
              return;
            }
            Emit(PushR0);
            failure := GenerateCode(node.children[2]);
            if failure.Some? {
              return;
            }
            Emit(PopR1);
            var op := node.children[1].text;
            if op == "+" {
              Emit(AddR0R1);
            } else if op == "-" {
              Emit(SubR0R1);
            } else {
              return Some(UnsupportedOperator(op));
            }
          }
          failure := None;
        case IfNode =>
          failure := GenerateCode(node.children[0]);
          if failure.Some? {
            return;
          }
          Emit(CmpR0One);
          var marker := LabelName(labelCount);
          labelCount := labelCount + 1;
          Emit(Jne(marker));
          failure := GenerateCode(node.children[1]);
          if failure.Some? {
            return;
          }
          Emit(marker);
        case UnknownNode =>
          failure := Some(UnknownNodeType);
      }
    }

    /** The `for` loop over the children of a Program or Block. */
    method GenerateChildren(node: Node) returns (failure: Option<Error>)
      requires ChildrenGenerable(node)
      modifies this
      ensures Run(State(), failure) == GenChildren(node, 0, old(State()))
      decreases node, 0
    {
      var i := 0;
      while i < |node.children|
        invariant 0 <= i <= |node.children|
        invariant GenChildren(node, i, State()) == GenChildren(node, 0, old(State()))
      {
        failure := GenerateCode(node.children[i]);
        if failure.Some? {
          return;
        }
        i := i + 1;
      }
      failure := None;
    }
  }

  // Properties of the symbol table.

  /** Appending an entry leaves every earlier lookup as it was, so a name
      declared twice keeps resolving to its first declaration; a new name
      resolves to the appended entry. */
  lemma {:induction false} LookupAfterDeclare(symbols: seq<Symbol>, name: string, declared: string)
    ensures var after := symbols + [Symbol(declared, |symbols|)];
      Lookup(after, name)
      == (if Lookup(symbols, name).Some? then Lookup(symbols, name)
          else if declared == name then Some(|symbols|) else None)
    decreases |symbols|
  {
    var after := symbols + [Symbol(declared, |symbols|)];
    if symbols != [] && symbols[0].name != name {
      assert after[1..] == symbols[1..] + [Symbol(declared, |symbols|)];
      FirstMatchAppend(symbols[1..], name, Symbol(declared, |symbols|));
    } else if symbols == [] {
    }
    FirstMatchAppend(symbols, name, Symbol(declared, |symbols|));
  }

  lemma {:induction false} FirstMatchAppend(symbols: seq<Symbol>, name: string, s: Symbol)
    ensures FirstMatch(symbols + [s], name)
      == (if FirstMatch(symbols, name).Some? then FirstMatch(symbols, name)
          else if s.name == name then Some(|symbols|) else None)
    decreases |symbols|
  {
    if symbols != [] && symbols[0].name != name {
      assert (symbols + [s])[1..] == symbols[1..] + [s];
      FirstMatchAppend(symbols[1..], name, s);
    }
  }

  /** In a table built by addSymbol, a name's address is the position of its
      first declaration: addresses follow declaration order from 0. */
  lemma LookupIsFirstPosition(symbols: seq<Symbol>, name: string)
    requires AddressesArePositions(symbols)
    ensures Lookup(symbols, name).Some? <==> exists i :: 0 <= i < |symbols| && symbols[i].name == name
    ensures Lookup(symbols, name).Some? ==>
      var a := Lookup(symbols, name).value;
      a < |symbols| && symbols[a].name == name && forall j :: 0 <= j < a ==> symbols[j].name != name
  {
  }

  // What each node kind emits.

  /** A VarDecl emits nothing and appends its name at the next address. */
  lemma GenVarDecl(name: string, st: GenState)
    ensures var r := Gen(Node(VarDeclNode, name, []), st);
      r.failure.None? && r.state.output == st.output && r.state.labelCount == st.labelCount
      && r.state.symbols == st.symbols + [Symbol(name, |st.symbols|)]
  {
  }

  /** An Assign looks its target up before generating anything: an undeclared
      target fails with nothing emitted; otherwise the expression's code is
      followed by a store of R0 to the target's address. */
  lemma GenAssign(n: Node, st: GenState)
    requires n.kind == AssignNode && Generable(n)
    ensures Lookup(st.symbols, n.text).None?
      ==> Gen(n, st) == Run(st, Some(UndefinedVariable(n.text)))
    ensures Lookup(st.symbols, n.text).Some? && Gen(n.children[0], st).failure.None?
      ==> var e := Gen(n.children[0], st).state;
          Gen(n, st) == Run(e.(output := e.output + [StoreR0(Lookup(st.symbols, n.text).value)]), None)
  {
  }

  /** The single instruction for an operand: a literal when its text starts
      with a digit, otherwise a load from the variable's address. */
  function OperandCode(symbols: seq<Symbol>, text: string): Result<string> {
    if StartsWithDigit(text) then Ok(LoadImmR0(text))
    else match Lookup(symbols, text) {
      case None => Fail(UndefinedVariable(text))
      case Some(a) => Ok(LoadR0(a))
    }
  }

  /** An Expression over one operand: the operand leaf as built by the parser. */
  function Operand(text: string): Node {
    Node(ExpressionNode, "", [Node(UnknownNode, text, [])])
  }

  /** A one-child Expression emits exactly one instruction, or fails with
      nothing emitted when its variable is undeclared; it changes nothing
      else. */
  lemma GenOperand(n: Node, st: GenState)
    requires n.kind == ExpressionNode && |n.children| == 1 && Generable(n)
    ensures var r := Gen(n, st);
      r.state.symbols == st.symbols && r.state.labelCount == st.labelCount
      && var code := OperandCode(st.symbols, n.children[0].text);
      (code.Ok? ==> r.failure.None? && r.state.output == st.output + [code.value])
      && (code.Fail? ==> r.failure == Some(code.error) && r.state.output == st.output)
  {
  }

  /** A three-child Expression whose operands are one-operand Expressions
      emits left code, PUSH R0, right code, POP R1 and the ADD/SUB; any other
      operator fails after those four have been emitted. */
  lemma GenBinary(left: string, op: string, right: string, st: GenState)
    requires OperandCode(st.symbols, left).Ok? && OperandCode(st.symbols, right).Ok?
    ensures var n := Node(ExpressionNode, "", [Operand(left), Node(UnknownNode, op, []), Operand(right)]);
      Generable(n) &&
      var r := Gen(n, st);
      var prefix := st.output + [OperandCode(st.symbols, left).value, PushR0,
                                 OperandCode(st.symbols, right).value, PopR1];
      r.state.symbols == st.symbols && r.state.labelCount == st.labelCount
      && (op == "+" ==> r == Run(st.(output := prefix + [AddR0R1]), None))
      && (op == "-" ==> r == Run(st.(output := prefix + [SubR0R1]), None))
      && (op != "+" && op != "-" ==> r == Run(st.(output := prefix), Some(UnsupportedOperator(op))))
  {
    BinaryOperands(left, op, right, st);
    var o := st.output + [OperandCode(st.symbols, left).value, PushR0, OperandCode(st.symbols, right).value];
    CombineAfter(o, op, st);
  }

  lemma CombineAfter(o: seq<string>, op: string, st: GenState)
    ensures var c := Combine(st.(output := o), op);
      c.state.symbols == st.symbols && c.state.labelCount == st.labelCount
      && (op == "+" ==> c == Run(st.(output := o + [PopR1] + [AddR0R1]), None))
      && (op == "-" ==> c == Run(st.(output := o + [PopR1] + [SubR0R1]), None))
      && (op != "+" && op != "-" ==> c == Run(st.(output := o + [PopR1]), Some(UnsupportedOperator(op))))
  {
    assert o + [PopR1] + [AddR0R1] == o + [PopR1, AddR0R1];
    assert o + [PopR1] + [SubR0R1] == o + [PopR1, SubR0R1];
  }

  /** The operands' code of a binary Expression, ahead of its Combine step. */
  lemma BinaryOperands(left: string, op: string, right: string, st: GenState)
    requires OperandCode(st.symbols, left).Ok? && OperandCode(st.symbols, right).Ok?
    ensures var n := Node(ExpressionNode, "", [Operand(left), Node(UnknownNode, op, []), Operand(right)]);
      var codeL, codeR := OperandCode(st.symbols, left).value, OperandCode(st.symbols, right).value;
      Generable(n) && Gen(n, st) == Combine(st.(output := st.output + [codeL, PushR0, codeR]), op)
  {
    var codeL := OperandCode(st.symbols, left).value;
    var codeR := OperandCode(st.symbols, right).value;
    var n := Node(ExpressionNode, "", [Operand(left), Node(UnknownNode, op, []), Operand(right)]);
    OperandRun(left, st);
    var pushed := Append(Append(st, codeL), PushR0);
    OperandRun(right, pushed);
    assert n.children[0] == Operand(left) && n.children[2] == Operand(right) && n.children[1].text == op;
    assert Append(pushed, codeR) == st.(output := st.output + [codeL, PushR0, codeR]);
  }

  /** An operand the generator can load runs as its one instruction. */
  lemma OperandRun(text: string, st: GenState)
    requires OperandCode(st.symbols, text).Ok?
    ensures Generable(Operand(text))
      && Gen(Operand(text), st) == Run(Append(st, OperandCode(st.symbols, text).value), None)
  {
  }

  /** An Expression with neither one nor three children emits nothing and
      succeeds; a node of unknown kind fails with nothing emitted. */
  lemma GenOtherShapes(n: Node, st: GenState)
    requires Generable(n)
    ensures n.kind == ExpressionNode && |n.children| != 1 && |n.children| != 3 ==> Gen(n, st) == Run(st, None)
    ensures n.kind == UnknownNode ==> Gen(n, st) == Run(st, Some(UnknownNodeType))
  {
  }

  /** The operand leaves the parser builds are not Expressions, so a binary
      expression exactly as parseExpression returns it is rejected when the
      generator reaches its left operand, with nothing emitted. */
  lemma GenRejectsParserBinary(left: Token, op: Token, right: Token, st: GenState)
    ensures var n := Node(ExpressionNode, "", [Leaf(left), Leaf(op), Leaf(right)]);
      Generable(n) && Gen(n, st) == Run(st, Some(UnknownNodeType))
  {
    var n := Node(ExpressionNode, "", [Leaf(left), Leaf(op), Leaf(right)]);
    assert n.children[0] == Leaf(left) && n.children[2] == Leaf(right);
    assert Generable(Leaf(left)) && Generable(Leaf(right));
  }

  /** The If nodes the parser builds have one child, short of the two the
      generator reads, so no parsed If satisfies the generator's precondition. */
  lemma ParsedIfNotGenerable(toks: seq<Token>, pos: nat)
    requires pos <= |toks| && KindAt(toks, pos) == If
    ensures IfAt(toks, pos).Parsed? ==> !Generable(IfAt(toks, pos).node)
  {
  }

  /** An If emits the condition's code, CMP R0, 1, a jump to a fresh label,
      the block's code and then that label; the label is numbered by the
      counter after the condition, which goes up by one. */
  lemma GenIf(n: Node, st: GenState)
    requires n.kind == IfNode && Generable(n)
    requires Gen(n.children[0], st).failure.None?
    ensures var c := Gen(n.children[0], st).state;
      var k := c.labelCount;
      var jumped := GenState(c.symbols, k + 1, c.output + [CmpR0One, Jne(LabelName(k))]);
      var b := Gen(n.children[1], jumped);
      Gen(n, st) == (if b.failure.Some? then b else Run(Append(b.state, LabelName(k)), None))
  {
    var c := Gen(n.children[0], st).state;
    assert Append(Append(c, CmpR0One).(labelCount := c.labelCount + 1), Jne(LabelName(c.labelCount)))
        == GenState(c.symbols, c.labelCount + 1, c.output + [CmpR0One, Jne(LabelName(c.labelCount))]);
  }

  /** A Program or Block emits its children's code in order: adding a child
      at the end runs that child after the others. */
  lemma {:induction false} GenChildrenSnoc(n: Node, c: Node, i: nat, st: GenState)
    requires ChildrenGenerable(n) && Generable(c) && i <= |n.children|
    ensures var m := n.(children := n.children + [c]);
      ChildrenGenerable(m)
      && GenChildren(m, i, st)
         == (var r := GenChildren(n, i, st); if r.failure.Some? then r else Gen(c, r.state))
    decreases |n.children| - i
  {
    var m := n.(children := n.children + [c]);
    assert forall j :: 0 <= j < |m.children| ==> m.children[j] == if j < |n.children| then n.children[j] else c;
    assert ChildrenGenerable(m);
    if i < |n.children| {
      var child := Gen(n.children[i], st);
      assert m.children[i] == n.children[i];
      if child.failure.None? {
        GenChildrenSnoc(n, c, i + 1, child.state);
      }
    } else {
      assert m.children[i] == c;
      var r := Gen(c, st);
      if r.failure.None? {
        assert GenChildren(m, i + 1, r.state) == Run(r.state, None);
      }
    }
  }

  lemma GenProgramSnoc(stmts: seq<Node>, c: Node, st: GenState)
    requires Generable(Node(ProgramNode, "Program", stmts)) && Generable(c)
    ensures Generable(Node(ProgramNode, "Program", stmts + [c]))
    ensures var r := Gen(Node(ProgramNode, "Program", stmts), st);
      Gen(Node(ProgramNode, "Program", stmts + [c]), st) == if r.failure.Some? then r else Gen(c, r.state)
  {
    GenChildrenSnoc(Node(ProgramNode, "Program", stmts), c, 0, st);
  }

  // Labels.

  predicate IsJump(instruction: string) {
    |instruction| >= 4 && instruction[..4] == "JNE "
  }

  /** The targets of the JNE instructions of `out`, in emission order. */
  function JumpTargets(out: seq<string>): seq<string>
    decreases |out|
  {
    if out == [] then []
    else
      var last := out[|out| - 1];
      JumpTargets(out[..|out| - 1]) + (if IsJump(last) then [last[4..]] else [])
  }

  /** LABEL_from, ..., LABEL_(to - 1). */
  function LabelRange(from: nat, to: nat): (r: seq<string>)
    requires from <= to
    ensures |r| == to - from
  {
    if from == to then [] else LabelRange(from, to - 1) + [LabelName(to - 1)]
  }

  lemma {:induction false} LabelRangeAt(lo: nat, hi: nat, i: nat)
    requires lo <= hi && i < hi - lo
    ensures LabelRange(lo, hi)[i] == LabelName(lo + i)
    decreases hi
  {
    if lo + i < hi - 1 {
      LabelRangeAt(lo, hi - 1, i);
    }
  }

  lemma JumpTargetsAppend(out: seq<string>, instruction: string)
    ensures JumpTargets(out + [instruction])
         == JumpTargets(out) + (if IsJump(instruction) then [instruction[4..]] else [])
  {
    assert (out + [instruction])[..|out|] == out;
  }

  /** An instruction whose first letter is not J is not a jump. */
  lemma NotJump(prefix: string, rest: string)
    requires |prefix| >= 1 && prefix[0] != 'J'
    ensures !IsJump(prefix + rest)
  {
    var s := prefix + rest;
    assert s[0] == prefix[0];
    if |s| >= 4 {
      assert s[..4][0] == s[0];
    }
  }

  /** `JNE %s`: a jump whose target is the label text. */
  lemma JneIsJump(target: string)
    ensures IsJump(Jne(target)) && Jne(target)[4..] == target
  {
  }

  /** emit as the generator sees it: the output gains exactly this
      instruction at its end, nothing else changes, and only a JNE adds a
      jump target. */
  lemma AppendEffect(st: GenState, instruction: string)
    ensures var r := Append(st, instruction);
      Grows(st, r) && r.symbols == st.symbols && r.labelCount == st.labelCount
      && |r.output| == |st.output| + 1 && r.output[|st.output|] == instruction
      && JumpTargets(r.output)
         == JumpTargets(st.output) + if IsJump(instruction) then [instruction[4..]] else []
  {
    JumpTargetsAppend(st.output, instruction);
  }

  /** Every instruction but JNE leaves the jump targets as they are. */
  lemma AppendOther(st: GenState, instruction: string)
    requires instruction in {PushR0, PopR1, AddR0R1, SubR0R1, CmpR0One}
      || (exists a: nat :: instruction == StoreR0(a) || instruction == LoadR0(a) || instruction == LabelName(a))
      || (exists lit :: instruction == LoadImmR0(lit))
    ensures JumpTargets(Append(st, instruction).output) == JumpTargets(st.output)
  {
    JumpTargetsAppend(st.output, instruction);
    if instruction in {PushR0, PopR1, AddR0R1, SubR0R1, CmpR0One} {
      assert instruction + "" == instruction;
      NotJump(instruction, "");
    } else if exists a: nat :: instruction == StoreR0(a) || instruction == LoadR0(a) || instruction == LabelName(a) {
      var a: nat :| instruction == StoreR0(a) || instruction == LoadR0(a) || instruction == LabelName(a);
      if instruction == StoreR0(a) {
        NotJump("STORE R0, ", NatToString(a));
      } else if instruction == LoadR0(a) {
        NotJump("LOAD R0, ", NatToString(a));
      } else {
        NotJump("LABEL_", NatToString(a));
      }
    } else {
      var lit :| instruction == LoadImmR0(lit);
      NotJump("LOADI R0, ", lit);
    }
  }

  lemma LabelRangeJoin(a: nat, b: nat, c: nat)
    requires a <= b <= c
    ensures LabelRange(a, b) + LabelRange(b, c) == LabelRange(a, c)
    decreases c - b
  {
    if b < c {
      LabelRangeJoin(a, b, c - 1);
    }
  }

  /** The jumps a run of the generator adds to its output, as a relation
      between the state before and the state after: they target the labels
      it allocates, in order. */
  predicate JumpsFollowLabels(st: GenState, r: GenState) {
    st.labelCount <= r.labelCount
    && JumpTargets(r.output) == JumpTargets(st.output) + LabelRange(st.labelCount, r.labelCount)
  }

  lemma JumpsTrans(a: GenState, b: GenState, c: GenState)
    requires JumpsFollowLabels(a, b) && JumpsFollowLabels(b, c)
    ensures JumpsFollowLabels(a, c)
  {
    LabelRangeJoin(a.labelCount, b.labelCount, c.labelCount);
    assert JumpTargets(c.output)
        == (JumpTargets(a.output) + LabelRange(a.labelCount, b.labelCount)) + LabelRange(b.labelCount, c.labelCount);
  }

  /** The instructions other than JNE leave the jump targets alone. */
  lemma OtherFollowsLabels(st: GenState, instruction: string)
    requires instruction in {PushR0, PopR1, AddR0R1, SubR0R1, CmpR0One}
      || (exists a: nat :: instruction == StoreR0(a) || instruction == LoadR0(a) || instruction == LabelName(a))
      || (exists lit :: instruction == LoadImmR0(lit))
    ensures JumpsFollowLabels(st, Append(st, instruction))
  {
    AppendOther(st, instruction);
  }

  /** The JNE instructions one generateCode call emits jump to LABEL_k for
      the counter values k it allocates, in increasing order, so within one
      run no jump target is used twice. */
  lemma {:induction false} GenJumps(n: Node, st: GenState)
    requires Generable(n)
    ensures JumpsFollowLabels(st, Gen(n, st).state)
    decreases n, 1
  {
    match n.kind
    case ProgramNode => GenChildrenJumps(n, 0, st);
    case BlockNode => GenChildrenJumps(n, 0, st);
    case VarDeclNode =>
    case AssignNode => AssignJumps(n, st);
    case ExpressionNode =>
      if |n.children| == 1 {
        OperandJumps(n, st);
      } else if |n.children| == 3 {
        BinaryJumps(n, st);
      }
    case IfNode => IfJumps(n, st);
    case UnknownNode =>
  }

  lemma {:induction false} AssignJumps(n: Node, st: GenState)
    requires Generable(n) && n.kind == AssignNode
    ensures JumpsFollowLabels(st, Gen(n, st).state)
    decreases n, 0, 0
  {
    var a := Lookup(st.symbols, n.text);
    if a.Some? {
      GenJumps(n.children[0], st);
      var value := Gen(n.children[0], st);
      OtherFollowsLabels(value.state, StoreR0(a.value));
      JumpsTrans(st, value.state, Append(value.state, StoreR0(a.value)));
    }
  }

  lemma OperandJumps(n: Node, st: GenState)
    requires Generable(n) && n.kind == ExpressionNode && |n.children| == 1
    ensures JumpsFollowLabels(st, Gen(n, st).state)
  {
    var operand := n.children[0].text;
    if StartsWithDigit(operand) {
      OtherFollowsLabels(st, LoadImmR0(operand));
    } else if Lookup(st.symbols, operand).Some? {
      OtherFollowsLabels(st, LoadR0(Lookup(st.symbols, operand).value));
    }
  }

  lemma CombineJumps(right: GenState, op: string)
    ensures JumpsFollowLabels(right, Combine(right, op).state)
  {
    var popped := Append(right, PopR1);
    OtherFollowsLabels(right, PopR1);
    OtherFollowsLabels(popped, AddR0R1);
    OtherFollowsLabels(popped, SubR0R1);
    JumpsTrans(right, popped, Append(popped, AddR0R1));
    JumpsTrans(right, popped, Append(popped, SubR0R1));
  }

  lemma {:induction false} BinaryJumps(n: Node, st: GenState)
    requires Generable(n) && n.kind == ExpressionNode && |n.children| == 3
    ensures JumpsFollowLabels(st, Gen(n, st).state)
    decreases n, 0, 0
  {
    GenBinaryUnfold(n, st);
    GenJumps(n.children[0], st);
    var left := Gen(n.children[0], st);
    var pushed := Append(left.state, PushR0);
    OtherFollowsLabels(left.state, PushR0);
    JumpsTrans(st, left.state, pushed);
    GenJumps(n.children[2], pushed);
    var right := Gen(n.children[2], pushed);
    JumpsTrans(st, pushed, right.state);
    CombineJumps(right.state, n.children[1].text);
    JumpsTrans(st, right.state, Combine(right.state, n.children[1].text).state);
  }

  /** The two instructions an If emits after its condition add one target. */
  lemma CompareAndJump(c: GenState)
    ensures JumpsFollowLabels(c, GenState(c.symbols, c.labelCount + 1, c.output + [CmpR0One, Jne(LabelName(c.labelCount))]))
  {
    var marker := LabelName(c.labelCount);
    AppendOther(c, CmpR0One);
    assert c.output + [CmpR0One, Jne(marker)] == (c.output + [CmpR0One]) + [Jne(marker)];
    JumpTargetsAppend(c.output + [CmpR0One], Jne(marker));
    JneIsJump(marker);
    assert LabelRange(c.labelCount, c.labelCount + 1) == [marker];
  }

  lemma {:induction false} IfJumps(n: Node, st: GenState)
    requires Generable(n) && n.kind == IfNode
    ensures JumpsFollowLabels(st, Gen(n, st).state)
    decreases n, 0, 0
  {
    GenJumps(n.children[0], st);
    var cond := Gen(n.children[0], st);
    if cond.failure.None? {
      GenIf(n, st);
      var c := cond.state;
      var jumped := GenState(c.symbols, c.labelCount + 1, c.output + [CmpR0One, Jne(LabelName(c.labelCount))]);
      CompareAndJump(c);
      JumpsTrans(st, c, jumped);
      GenJumps(n.children[1], jumped);
      var body := Gen(n.children[1], jumped);
      JumpsTrans(st, jumped, body.state);
      OtherFollowsLabels(body.state, LabelName(c.labelCount));
      JumpsTrans(st, body.state, Append(body.state, LabelName(c.labelCount)));
    }
  }

  lemma {:induction false} GenChildrenJumps(n: Node, i: nat, st: GenState)
    requires ChildrenGenerable(n) && i <= |n.children|
    ensures JumpsFollowLabels(st, GenChildren(n, i, st).state)
    decreases n, 0, |n.children| - i
  {
    if i < |n.children| {
      GenJumps(n.children[i], st);
      var child := Gen(n.children[i], st);
      if child.failure.None? {
        GenChildrenJumps(n, i + 1, child.state);
        JumpsTrans(st, child.state, GenChildren(n, i + 1, child.state).state);
      }
    }
  }

  /** A whole run from a fresh generator jumps to LABEL_0, LABEL_1, ... in
      order, each target a different string. */
  lemma RunJumpsDistinct(n: Node)
    requires Generable(n)
    ensures var r := Gen(n, GenState([], 0, []));
      var targets := JumpTargets(r.state.output);
      targets == LabelRange(0, r.state.labelCount)
      && forall i, j :: 0 <= i < j < |targets| ==> targets[i] != targets[j]
  {
    GenJumps(n, GenState([], 0, []));
    var r := Gen(n, GenState([], 0, []));
    var targets := JumpTargets(r.state.output);
    forall i, j | 0 <= i < j < |targets|
      ensures targets[i] != targets[j]
    {
      LabelRangeAt(0, r.state.labelCount, i);
      LabelRangeAt(0, r.state.labelCount, j);
      LabelsDistinct(i, j);
    }
  }
}
