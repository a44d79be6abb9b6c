/** The scanner of lexer1.c. The C function reads a FILE with fgetc and pushes
    one character back with ungetc; here the stream is a character sequence
    `s` and a cursor `pos`: reading is `s[pos]` followed by `pos + 1`, pushing
    back is not advancing. */
module Lexer {

  datatype TokenKind =
    | Int | If | Identifier | Number | Assign | Plus | Minus | Equal
    | LBrace | RBrace | Semicolon | Unknown | EOF

  datatype Token = Token(kind: TokenKind, text: string)

  /** A token together with the cursor position just after it. */
  datatype Lexed = Lexed(token: Token, next: nat)

  /** Size of the C text buffer, including its terminating NUL. */
  const MaxTokenLen: nat := 100
  /** The longest text a token can carry. */
  const MaxTextLen: nat := MaxTokenLen - 1

  // Character classes of the C library in the "C" locale.

  predicate IsSpace(c: char) {
    c == ' ' || c == '\t' || c == '\n' || c == '\U{000B}' || c == '\U{000C}' || c == '\r'
  }

  predicate IsAlpha(c: char) {
    ('a' <= c <= 'z') || ('A' <= c <= 'Z')
  }

  predicate IsDigit(c: char) {
    '0' <= c <= '9'
  }

  predicate IsAlnum(c: char) {
    IsAlpha(c) || IsDigit(c)
  }

  /** The two kinds of run the scanner consumes greedily. */
  datatype RunClass = Alnum | Digits

  predicate InRun(c: char, cls: RunClass) {
    match cls
    case Alnum => IsAlnum(c)
    case Digits => IsDigit(c)
  }

  /** The first position at or after `i` that does not hold white space. */
  function SkipSpaces(s: seq<char>, i: nat): (j: nat)
    requires i <= |s|
    ensures i <= j <= |s|
    ensures forall k :: i <= k < j ==> IsSpace(s[k])
    ensures j == |s| || !IsSpace(s[j])
    decreases |s| - i
  {
    if i < |s| && IsSpace(s[i]) then SkipSpaces(s, i + 1) else i
  }

  /** The end of the maximal run of `cls` characters that starts at `i`. */
  function RunEnd(s: seq<char>, i: nat, cls: RunClass): (j: nat)
    requires i <= |s|
    ensures i <= j <= |s|
    ensures forall k :: i <= k < j ==> InRun(s[k], cls)
    ensures j == |s| || !InRun(s[j], cls)
    decreases |s| - i
  {
    if i < |s| && InRun(s[i], cls) then RunEnd(s, i + 1, cls) else i
  }

  /** What the fixed buffer keeps of a run: its first MaxTextLen characters. */
  function Truncate(t: string): (r: string)
    ensures |r| <= MaxTextLen
    ensures |t| > MaxTextLen ==> r == t[..MaxTextLen]
    ensures |t| <= MaxTextLen ==> r == t
  {
    if |t| <= MaxTextLen then t else t[..MaxTextLen]
  }

  /** Keyword recognition on the stored text: Int and If exactly for the two
      keywords, Identifier for every other word. */
  function WordKind(text: string): (k: TokenKind)
    ensures k == Int <==> text == "int"
    ensures k == If <==> text == "if"
    ensures k == Identifier <==> text != "int" && text != "if"
  {
    if text == "int" then Int else if text == "if" then If else Identifier
  }

  /** The one-character tokens, and Unknown for every other character; the
      text is always that one character. */
  function Single(c: char): (t: Token)
    ensures t.text == [c]
    ensures t.kind == Plus <==> c == '+'
    ensures t.kind == Minus <==> c == '-'
    ensures t.kind == LBrace <==> c == '{'
    ensures t.kind == RBrace <==> c == '}'
    ensures t.kind == Semicolon <==> c == ';'
    ensures t.kind == Unknown <==> c !in "+-{};"
  {
    match c
    case '+' => Token(Plus, "+")
    case '-' => Token(Minus, "-")
    case '{' => Token(LBrace, "{")
    case '}' => Token(RBrace, "}")
    case ';' => Token(Semicolon, ";")
    case _ => Token(Unknown, [c])
  }

  /** What a token of each kind can look like. */
  predicate WellFormedToken(t: Token) {
    match t.kind
    case Int => t.text == "int"
    case If => t.text == "if"
    case Identifier =>
      0 < |t.text| <= MaxTextLen && IsAlpha(t.text[0]) && t.text != "int" && t.text != "if"
      && forall k :: 0 <= k < |t.text| ==> IsAlnum(t.text[k])
    case Number =>
      0 < |t.text| <= MaxTextLen && forall k :: 0 <= k < |t.text| ==> IsDigit(t.text[k])
    case Assign => t.text == "="
    case Plus => t.text == "+"
    case Minus => t.text == "-"
    case Equal => t.text == "=="
    case LBrace => t.text == "{"
    case RBrace => t.text == "}"
    case Semicolon => t.text == ";"
    case Unknown => |t.text| == 1
    case EOF => t.text == ""
  }

  /** The stored text of a run keeps the run's characters in place. */
  lemma TruncatedRun(s: seq<char>, j: nat, e: nat)
    requires j <= e <= |s|
    ensures var text := Truncate(s[j..e]);
      |text| <= e - j && forall k :: 0 <= k < |text| ==> text[k] == s[j + k]
  {
  }

  /** A run that starts with a letter: a keyword or an identifier. */
  function LexWordAt(s: seq<char>, j: nat): (r: Lexed)
    requires j < |s| && IsAlpha(s[j])
    ensures j < r.next <= |s| && r.token.kind != EOF
    ensures |r.token.text| > 0 && r.token.text[0] == s[j]
    ensures |r.token.text| <= MaxTextLen && WellFormedToken(r.token)
  {
    var e := RunEnd(s, j + 1, Alnum);
    var text := Truncate(s[j..e]);
    TruncatedRun(s, j, e);
    assert |text| > 0 && text[0] == s[j];
    Lexed(Token(WordKind(text), text), e)
  }

  /** A run that starts with a digit: a number. */
  function LexNumberAt(s: seq<char>, j: nat): (r: Lexed)
    requires j < |s| && IsDigit(s[j])
    ensures j < r.next <= |s| && r.token.kind == Number
    ensures |r.token.text| > 0 && r.token.text[0] == s[j]
    ensures |r.token.text| <= MaxTextLen && WellFormedToken(r.token)
  {
    var e := RunEnd(s, j + 1, Digits);
    var text := Truncate(s[j..e]);
    TruncatedRun(s, j, e);
    assert |text| > 0;
    Lexed(Token(Number, text), e)
  }

  /** getNextToken as a function of the stream: the token that starts at the
      first non-space character at or after `pos`, and the position after it. */
  function Lex(s: seq<char>, pos: nat): (r: Lexed)
    requires pos <= |s|
    ensures pos <= r.next <= |s|
    ensures r.token.kind == EOF <==> SkipSpaces(s, pos) == |s|
    ensures r.token.kind != EOF ==> pos < r.next
    ensures |r.token.text| <= MaxTextLen
    ensures WellFormedToken(r.token)
  {
    var j := SkipSpaces(s, pos);
    if j == |s| then Lexed(Token(EOF, ""), j)
    else
      var c := s[j];
      if IsAlpha(c) then LexWordAt(s, j)
      else if IsDigit(c) then LexNumberAt(s, j)
      else if c == '=' then
        if j + 1 < |s| && s[j + 1] == '=' then Lexed(Token(Equal, "=="), j + 2)
        else Lexed(Token(Assign, "="), j + 1)
      else Lexed(Single(c), j + 1)
  }

  /** Copying one more run character into the buffer, or dropping it once
      the buffer is full. */
  lemma TruncateExtend(t: string, c: char)
    ensures Truncate(t + [c]) == if |t| < MaxTextLen then t + [c] else Truncate(t)
  {
    if |t| >= MaxTextLen {
      assert (t + [c])[..MaxTextLen] == t[..MaxTextLen];
    }
  }

  lemma TruncateStart(s: seq<char>, start: nat)
    requires start < |s|
    ensures Truncate(s[start..start + 1]) == [s[start]]
  {
  }

  /** One more character of the run, as the buffer sees it. */
  lemma TruncateStep(s: seq<char>, start: nat, end: nat)
    requires start < end < |s|
    ensures var t := Truncate(s[start..end]);
      Truncate(s[start..end + 1]) == if |t| < MaxTextLen then t + [s[end]] else t
  {
    assert s[start..end + 1] == s[start..end] + [s[end]];
    TruncateExtend(s[start..end], s[end]);
  }

  /** A run of `cls` characters from `i` to `j` that cannot be extended ends at `j`. */
  lemma {:induction false} RunEndIs(s: seq<char>, i: nat, j: nat, cls: RunClass)
    requires i <= j <= |s|
    requires forall k :: i <= k < j ==> InRun(s[k], cls)
    requires j == |s| || !InRun(s[j], cls)
    ensures RunEnd(s, i, cls) == j
    decreases j - i
  {
    if i < j {
      RunEndIs(s, i + 1, j, cls);
    }
  }

  /** The inner loops of getNextToken: consume the maximal `cls` run that
      continues after `s[start]`, copying into the text buffer only while it
      holds fewer than MaxTextLen characters. The cursor ends on the character
      that stopped the run, which the C code pushes back. */
  method ScanRun(s: seq<char>, start: nat, cls: RunClass) returns (text: string, end: nat)
    requires start < |s|
    ensures end == RunEnd(s, start + 1, cls)
    ensures text == Truncate(s[start..end])
  {
    text := [s[start]];
    end := start + 1;
    TruncateStart(s, start);
    while end < |s| && InRun(s[end], cls)
      invariant start < end <= |s|
      invariant forall k :: start + 1 <= k < end ==> InRun(s[k], cls)
      invariant text == Truncate(s[start..end])
    {
      TruncateStep(s, start, end);
      if |text| < MaxTokenLen - 1 {
        text := text + [s[end]];
      }
      end := end + 1;
    }
    RunEndIs(s, start + 1, end, cls);
  }

  /** getNextToken: skips white space, then scans one token and leaves the
      cursor on the character that ended it. */
  method NextToken(s: seq<char>, pos: nat) returns (token: Token, next: nat)
    requires pos <= |s|
    ensures Lexed(token, next) == Lex(s, pos)
  {
    var i := pos;
    while i < |s| && IsSpace(s[i])
      invariant pos <= i <= |s|
      invariant SkipSpaces(s, i) == SkipSpaces(s, pos)
    {
      i := i + 1;
    }
    if i == |s| {
      return Token(EOF, ""), i;
    }
    var c := s[i];
    if IsAlpha(c) {
      var text;
      text, next := ScanRun(s, i, Alnum);
      return Token(WordKind(text), text), next;
    }
    if IsDigit(c) {
      var text;
      text, next := ScanRun(s, i, Digits);
      return Token(Number, text), next;
    }
    if c == '=' {
      if i + 1 < |s| && s[i + 1] == '=' {
        return Token(Equal, "=="), i + 2;
      }
      return Token(Assign, "="), i + 1;
    }
    return Single(c), i + 1;
  }

  /** The token stream a caller sees by calling getNextToken until it
      returns EOF, that EOF included. */
  function Tokenize(s: seq<char>, pos: nat): (toks: seq<Token>)
    requires pos <= |s|
    ensures |toks| > 0 && toks[|toks| - 1].kind == EOF
    ensures forall i :: 0 <= i < |toks| - 1 ==> toks[i].kind != EOF
    ensures forall i :: 0 <= i < |toks| ==> WellFormedToken(toks[i])
    decreases |s| - pos
  {
    var l := Lex(s, pos);
    if l.token.kind == EOF then [l.token] else [l.token] + Tokenize(s, l.next)
  }

  // Properties of the scanner.

  /** Leading white space is skipped: every skipped character is a space, and
      lexing from the first non-space character gives the same result. */
  lemma LexSkipsWhiteSpace(s: seq<char>, pos: nat)
    requires pos <= |s|
    ensures var j := SkipSpaces(s, pos);
      (forall k :: pos <= k < j ==> IsSpace(s[k])) && Lex(s, pos) == Lex(s, j)
  {
    var j := SkipSpaces(s, pos);
    assert SkipSpaces(s, j) == j;
  }

  /** A non-EOF token's text begins with the first non-space character. */
  lemma TokenStartsAtFirstNonSpace(s: seq<char>, pos: nat)
    requires pos <= |s|
    requires Lex(s, pos).token.kind != EOF
    ensures var t := Lex(s, pos).token;
      |t.text| > 0 && t.text[0] == s[SkipSpaces(s, pos)]
  {
    var j := SkipSpaces(s, pos);
    if IsAlpha(s[j]) {
      assert Lex(s, pos) == LexWordAt(s, j);
    } else if IsDigit(s[j]) {
      assert Lex(s, pos) == LexNumberAt(s, j);
    }
  }

  /** A letter starts a maximal alphanumeric run; the token is Int exactly for
      "int", If exactly for "if" and one Identifier otherwise; the character
      that ends the run is not consumed. */
  lemma LexWord(s: seq<char>, pos: nat)
    requires pos <= |s|
    requires SkipSpaces(s, pos) < |s| && IsAlpha(s[SkipSpaces(s, pos)])
    ensures var j := SkipSpaces(s, pos);
      var l := Lex(s, pos);
      var e := l.next;
      j < e && (e == |s| || !IsAlnum(s[e])) && (forall k :: j <= k < e ==> IsAlnum(s[k]))
      && l.token.text == Truncate(s[j..e])
      && (l.token.kind == Int <==> s[j..e] == "int")
      && (l.token.kind == If <==> s[j..e] == "if")
      && (l.token.kind == Identifier <==> s[j..e] != "int" && s[j..e] != "if")
  {
    var j := SkipSpaces(s, pos);
    var e := RunEnd(s, j + 1, Alnum);
    TruncateKeyword(s[j..e]);
  }

  /** A keyword survives truncation only if the whole run was the keyword. */
  lemma TruncateKeyword(t: string)
    ensures Truncate(t) == "int" <==> t == "int"
    ensures Truncate(t) == "if" <==> t == "if"
  {
    if |t| > MaxTextLen {
      assert |Truncate(t)| == MaxTextLen;
    }
  }

  /** A digit starts a maximal digit run, classified as Number; the first
      non-digit is not consumed. */
  lemma LexNumber(s: seq<char>, pos: nat)
    requires pos <= |s|
    requires SkipSpaces(s, pos) < |s| && IsDigit(s[SkipSpaces(s, pos)])
    ensures var j := SkipSpaces(s, pos);
      var l := Lex(s, pos);
      var e := l.next;
      j < e && (e == |s| || !IsDigit(s[e])) && (forall k :: j <= k < e ==> IsDigit(s[k]))
      && l.token == Token(Number, Truncate(s[j..e]))
  {
  }

  /** "==" is one Equal token; "=" followed by anything else is Assign and the
      following character is left for the next call. */
  lemma LexEquals(s: seq<char>, pos: nat)
    requires pos <= |s|
    requires SkipSpaces(s, pos) < |s| && s[SkipSpaces(s, pos)] == '='
    ensures var j := SkipSpaces(s, pos);
      if j + 1 < |s| && s[j + 1] == '=' then Lex(s, pos) == Lexed(Token(Equal, "=="), j + 2)
      else Lex(s, pos) == Lexed(Token(Assign, "="), j + 1)
  {
  }

  /** Every other character is a one-character token: the five punctuation
      characters map to their kinds, anything else is Unknown with that
      character as text. */
  lemma LexSingle(s: seq<char>, pos: nat)
    requires pos <= |s|
    requires var j := SkipSpaces(s, pos); j < |s| && !IsAlnum(s[j]) && s[j] != '='
    ensures var j := SkipSpaces(s, pos);
      var l := Lex(s, pos);
      var c := s[j];
      l.next == j + 1 && l.token.text == [c]
      && (l.token.kind == Plus <==> c == '+')
      && (l.token.kind == Minus <==> c == '-')
      && (l.token.kind == LBrace <==> c == '{')
      && (l.token.kind == RBrace <==> c == '}')
      && (l.token.kind == Semicolon <==> c == ';')
      && (l.token.kind == Unknown <==> c !in "+-{};")
  {
  }

  /** At the end of input the result is EOF with empty text, the cursor stays
      at the end, and calling again yields EOF again. */
  lemma LexEndOfInput(s: seq<char>, pos: nat)
    requires pos <= |s|
    requires Lex(s, pos).token.kind == EOF
    ensures Lex(s, pos) == Lexed(Token(EOF, ""), |s|)
    ensures Lex(s, |s|) == Lexed(Token(EOF, ""), |s|)
  {
  }
}
