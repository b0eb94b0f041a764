/**
 The scanner's data model: the closed set of token kinds, the token record,
 the status value `tokenize` reports, and the error record that replaces the
 process exit of the C++ `error` routine.
 */
module Tokens {
  import opened Results

  /** The token kinds, in declaration order (the order fixes each kind's ordinal). */
  datatype TokenKind =
    // Single-character tokens
    | LeftParen | RightParen | LeftBrace | RightBrace
    | Comma | Dot | Minus | Plus | Semicolon | Slash | Star
    // One or two character tokens
    | Bang | BangEqual | Equal | EqualEqual
    | Greater | GreaterEqual | Less | LessEqual
    // Literals
    | Identifier | String | Number
    // Keywords
    | And | Class | Else | False | Fun | For | If | Nil | Or
    | Print | Return | Super | This | True | Var | While
    // End of file
    | EndOfFile

  /** Number of declared token kinds. */
  const KindCount: nat := 39

  /** A token is exactly its kind, its lexeme and the line it was emitted on. */
  datatype Token = Token(kind: TokenKind, lexeme: string, line: int)

  /** The only two status values; `tokenize` never reports `Error` itself. */
  datatype LexingStatus = Success | Error

  /** The two diagnostics the scanner can raise. */
  datatype LexErrorKind = UnexpectedCharacter | UnterminatedString

  /** A fatal scanning error with the line counter's value when it was raised. */
  datatype LexError = LexError(kind: LexErrorKind, line: int)

  predicate IsKeyword(k: TokenKind) {
    || k.And? || k.Class? || k.Else? || k.False? || k.Fun? || k.For?
    || k.If? || k.Nil? || k.Or? || k.Print? || k.Return? || k.Super?
    || k.This? || k.True? || k.Var? || k.While?
  }

  /** Kinds the scanner as written can produce: no keyword, no end marker, no slash. */
  predicate Emittable(k: TokenKind) {
    !IsKeyword(k) && !k.EndOfFile? && !k.Slash?
  }

  /** The enumerator's underlying value, i.e. its position in the declaration. */
  function Ordinal(k: TokenKind): (n: nat)
    ensures n < KindCount
    ensures KindOfOrdinal(n) == Some(k)
  {
    match k
    case LeftParen => 0
    case RightParen => 1
    case LeftBrace => 2
    case RightBrace => 3
    case Comma => 4
    case Dot => 5
    case Minus => 6
    case Plus => 7
    case Semicolon => 8
    case Slash => 9
    case Star => 10
    case Bang => 11
    case BangEqual => 12
    case Equal => 13
    case EqualEqual => 14
    case Greater => 15
    case GreaterEqual => 16
    case Less => 17
    case LessEqual => 18
    case Identifier => 19
    case String => 20
    case Number => 21
    case And => 22
    case Class => 23
    case Else => 24
    case False => 25
    case Fun => 26
    case For => 27
    case If => 28
    case Nil => 29
    case Or => 30
    case Print => 31
    case Return => 32
    case Super => 33
    case This => 34
    case True => 35
    case Var => 36
    case While => 37
    case EndOfFile => 38
  }

  /** The kind whose ordinal is `n`, if `n` is one of the declared values. */
  function KindOfOrdinal(n: nat): (r: Option<TokenKind>)
    ensures r.Some? <==> n < KindCount
  {
    match n
    case 0 => Some(LeftParen)
    case 1 => Some(RightParen)
    case 2 => Some(LeftBrace)
    case 3 => Some(RightBrace)
    case 4 => Some(Comma)
    case 5 => Some(Dot)
    case 6 => Some(Minus)
    case 7 => Some(Plus)
    case 8 => Some(Semicolon)
    case 9 => Some(Slash)
    case 10 => Some(Star)
    case 11 => Some(Bang)
    case 12 => Some(BangEqual)
    case 13 => Some(Equal)
    case 14 => Some(EqualEqual)
    case 15 => Some(Greater)
    case 16 => Some(GreaterEqual)
    case 17 => Some(Less)
    case 18 => Some(LessEqual)
    case 19 => Some(Identifier)
    case 20 => Some(String)
    case 21 => Some(Number)
    case 22 => Some(And)
    case 23 => Some(Class)
    case 24 => Some(Else)
    case 25 => Some(False)
    case 26 => Some(Fun)
    case 27 => Some(For)
    case 28 => Some(If)
    case 29 => Some(Nil)
    case 30 => Some(Or)
    case 31 => Some(Print)
    case 32 => Some(Return)
    case 33 => Some(Super)
    case 34 => Some(This)
    case 35 => Some(True)
    case 36 => Some(Var)
    case 37 => Some(While)
    case 38 => Some(EndOfFile)
    case _ => None
  }

  /** The fixed text of a kind in the language the token set is taken from; the
      literal kinds and the end marker have none. */
  function Spelling(k: TokenKind): Option<string> {
    match k
    case LeftParen => Some("(")
    case RightParen => Some(")")
    case LeftBrace => Some("{")
    case RightBrace => Some("}")
    case Comma => Some(",")
    case Dot => Some(".")
    case Minus => Some("-")
    case Plus => Some("+")
    case Semicolon => Some(";")
    case Slash => Some("/")
    case Star => Some("*")
    case Bang => Some("!")
    case BangEqual => Some("!=")
    case Equal => Some("=")
    case EqualEqual => Some("==")
    case Greater => Some(">")
    case GreaterEqual => Some(">=")
    case Less => Some("<")
    case LessEqual => Some("<=")
    case And => Some("and")
    case Class => Some("class")
    case Else => Some("else")
    case False => Some("false")
    case Fun => Some("fun")
    case For => Some("for")
    case If => Some("if")
    case Nil => Some("nil")
    case Or => Some("or")
    case Print => Some("print")
    case Return => Some("return")
    case Super => Some("super")
    case This => Some("this")
    case True => Some("true")
    case Var => Some("var")
    case While => Some("while")
    case Identifier | String | Number | EndOfFile => None
  }

  /** Distinct kinds have distinct ordinals, so the 39 kinds are pairwise different. */
  lemma OrdinalInjective(a: TokenKind, b: TokenKind)
    requires Ordinal(a) == Ordinal(b)
    ensures a == b
  {
    assert KindOfOrdinal(Ordinal(a)) == Some(a);
    assert KindOfOrdinal(Ordinal(b)) == Some(b);
  }

  /** Every ordinal below the kind count names a kind that maps back to it. */
  lemma OrdinalSurjective(n: nat)
    requires n < KindCount
    ensures KindOfOrdinal(n).Some? && Ordinal(KindOfOrdinal(n).value) == n
  {
  }
}
