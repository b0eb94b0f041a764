/**
 The scanner of `libs/lexer/src/lexer.cpp`, modelled as written: a cursor over an
 immutable source, a line counter and an append-only token list, advanced by pure
 step functions. The C++ `error` routine (print and `exit(1)`) becomes an
 `Err(LexError(kind, line))` result; the partial token list is dropped with it.
 */
module Scanner {
  import opened Results
  import opened Tokens

  // ---------------------------------------------------------------------------
  // Character classes (ASCII, as the "C" locale classifies them)
  // ---------------------------------------------------------------------------

  predicate IsDigit(c: char) { '0' <= c <= '9' }

  predicate IsAlpha(c: char) { 'a' <= c <= 'z' || 'A' <= c <= 'Z' }

  predicate IsAlnum(c: char) { IsDigit(c) || IsAlpha(c) }

  /** The characters the whitespace skipper discards one at a time. */
  predicate IsBlank(c: char) { c == ' ' || c == '\r' || c == '\t' || c == '\n' }

  /** The characters on which the whitespace skipper does not stop. */
  predicate IsSkipStart(c: char) { IsBlank(c) || c == '/' }

  /** `!`, `=`, `<` and `>`: the characters whose case looks at the next character. */
  predicate IsOperatorStart(c: char) { c == '!' || c == '=' || c == '<' || c == '>' }

  // ---------------------------------------------------------------------------
  // Reference notions on the raw source text
  // ---------------------------------------------------------------------------

  /** The character at `i`, or the NUL character past the end (what `peek` returns there). */
  function CharAt(t: string, i: nat): char {
    if i < |t| then t[i] else '\0'
  }

  /** Number of newline characters in `t[..i]`. */
  function NewlinesBefore(t: string, i: nat): nat
    requires i <= |t|
  {
    if i == 0 then 0 else NewlinesBefore(t, i - 1) + (if t[i - 1] == '\n' then 1 else 0)
  }

  /** The line position `i` is on: one plus the newlines before it. */
  function LineAt(t: string, i: nat): int
    requires i <= |t|
  {
    1 + NewlinesBefore(t, i)
  }

  /** The line of the end of `t`: one plus all its newlines. */
  function LastLine(t: string): int {
    LineAt(t, |t|)
  }

  /** No occurrence of `c` in `t[i..j]`. */
  predicate NoneOf(t: string, i: nat, j: nat, c: char)
    requires i <= j <= |t|
  {
    forall k | i <= k < j :: t[k] != c
  }

  /** Position `k` lies in a line comment that started at or after `from`: some `/`
      in `t[from..k]` is not followed by a newline up to and including `k`. */
  ghost predicate InComment(t: string, from: nat, k: nat)
    requires k < |t|
  {
    exists j | from <= j <= k :: t[j] == '/' && NoneOf(t, j, k + 1, '\n')
  }

  // ---------------------------------------------------------------------------
  // Scanner state
  // ---------------------------------------------------------------------------

  /** The fields of one scan: the source (never changed), the cursor, the line counter
      and the tokens emitted so far. */
  datatype Lexer = Lexer(src: string, pos: nat, line: int, tokens: seq<Token>)

  /** The cursor stays inside the source and the line counter is one plus the
      number of newlines before the cursor. */
  predicate Valid(s: Lexer) {
    s.pos <= |s.src| && s.line == LineAt(s.src, s.pos)
  }

  /** The constructor: cursor 0, line 1, no tokens. */
  function Init(src: string): (s: Lexer)
    ensures Valid(s) && s.src == src && s.pos == 0 && s.tokens == []
  {
    Lexer(src, 0, 1, [])
  }

  /** `isAtEnd`: in a valid state, the cursor sits exactly on the end of the source. */
  function IsAtEnd(s: Lexer): (r: bool)
    ensures Valid(s) ==> (r <==> s.pos == |s.src|)
  {
    s.pos >= |s.src|
  }

  /** `peek`: the character under the cursor; NUL at the end. */
  function Peek(s: Lexer): (c: char)
    ensures IsAtEnd(s) ==> c == '\0'
    ensures !IsAtEnd(s) ==> c == s.src[s.pos]
  {
    CharAt(s.src, s.pos)
  }

  /** Consumes the character under the cursor, which is the character `advance`
      returns (`Peek(s)`, NUL at the end); at the end the cursor does not move. */
  function Advance(s: Lexer): (r: Lexer)
    ensures r.src == s.src && r.line == s.line && r.tokens == s.tokens
    ensures r.pos == if IsAtEnd(s) then s.pos else s.pos + 1
  {
    if s.pos < |s.src| then s.(pos := s.pos + 1) else s
  }

  /** Line numbers do not decrease along the source. */
  lemma {:induction false} LineAtMonotone(t: string, i: nat, j: nat)
    requires i <= j <= |t|
    ensures LineAt(t, i) <= LineAt(t, j)
    decreases j - i
  {
    if i < j {
      LineAtMonotone(t, i, j - 1);
    }
  }

  /** Any line counter that satisfies the invariant is between 1 and one plus all newlines. */
  lemma LineBounds(s: Lexer)
    requires Valid(s)
    ensures 1 <= s.line <= LastLine(s.src)
  {
    LineAtMonotone(s.src, s.pos, |s.src|);
  }

  /** Bumping the counter exactly when the consumed character is a newline keeps
      the line invariant. */
  lemma AdvanceTracksLines(s: Lexer)
    requires Valid(s)
    ensures Valid(Advance(s.(line := if Peek(s) == '\n' then s.line + 1 else s.line)))
  {
  }

  // ---------------------------------------------------------------------------
  // Skipping
  // ---------------------------------------------------------------------------

  /** Moves the cursor to the next newline (not consumed) or to the end. */
  function SkipLine(s: Lexer): (r: Lexer)
    requires Valid(s)
    decreases |s.src| - s.pos
    ensures Valid(r) && r.src == s.src && r.line == s.line && r.tokens == s.tokens
    ensures s.pos <= r.pos
    ensures NoneOf(s.src, s.pos, r.pos, '\n')
    ensures r.pos == |s.src| || s.src[r.pos] == '\n'
  {
    if Peek(s) != '\n' && !IsAtEnd(s) then
      AdvanceTracksLines(s);
      SkipLine(Advance(s))
    else
      s
  }

  /** Skips blanks and `/`-comments. The `/` case re-reads the character under the
      cursor, so its `peek() == '/'` test always holds: every `/` starts a line skip,
      and the `*` test and the `return` behind it are never reached. */
  function SkipWhitespace(s: Lexer): (r: Lexer)
    requires Valid(s)
    decreases |s.src| - s.pos
    ensures Valid(r) && r.src == s.src && r.tokens == s.tokens
    ensures s.pos <= r.pos
    ensures r.pos == |s.src| || !IsSkipStart(s.src[r.pos])
  {
    var c := Peek(s);
    if c == ' ' || c == '\r' || c == '\t' then
      AdvanceTracksLines(s);
      SkipWhitespace(Advance(s))
    else if c == '\n' then
      AdvanceTracksLines(s);
      SkipWhitespace(Advance(s.(line := s.line + 1)))
    else if c == '/' then
      if Peek(s) == '/' then
        SkipWhitespace(SkipLine(s))
      else
        assert false; s
    else
      s
  }

  // ---------------------------------------------------------------------------
  // Emitting
  // ---------------------------------------------------------------------------

  /** Appends a token carrying the current line. An empty lexeme (the default
      argument) is replaced by the character under the cursor. */
  function AddToken(s: Lexer, kind: TokenKind, lexeme: string := ""): (r: Lexer)
    ensures r.src == s.src && r.pos == s.pos && r.line == s.line
    ensures |r.tokens| == |s.tokens| + 1 && r.tokens == s.tokens + [r.tokens[|s.tokens|]]
    ensures r.tokens[|s.tokens|].kind == kind && r.tokens[|s.tokens|].line == s.line
    ensures r.tokens[|s.tokens|].lexeme != ""
    ensures lexeme != "" ==> r.tokens[|s.tokens|].lexeme == lexeme
    ensures lexeme == "" ==> r.tokens[|s.tokens|].lexeme == [Peek(s)]
  {
    var tokenLexeme := if lexeme == "" then [Peek(s)] else lexeme;
    s.(tokens := s.tokens + [Token(kind, tokenLexeme, s.line)])
  }

  // ---------------------------------------------------------------------------
  // Literal scanners
  // ---------------------------------------------------------------------------

  /** A scanned literal value and the state after it. */
  datatype Scanned = Scanned(lexeme: string, next: Lexer)

  /** The two character classes the number and identifier loops accept. */
  datatype RunClass = Digits | Alphanumerics

  predicate Accepts(cls: RunClass, c: char) {
    match cls
    case Digits => IsDigit(c)
    case Alphanumerics => IsAlnum(c)
  }

  /** Consumes the longest run of characters in `cls` starting at the cursor. */
  function AdvanceWhile(s: Lexer, cls: RunClass): (r: Lexer)
    requires Valid(s)
    decreases |s.src| - s.pos
    ensures Valid(r) && r.src == s.src && r.line == s.line && r.tokens == s.tokens
    ensures s.pos <= r.pos
    ensures forall k | s.pos <= k < r.pos :: Accepts(cls, s.src[k])
    ensures r.pos == |s.src| || !Accepts(cls, s.src[r.pos])
  {
    if Accepts(cls, Peek(s)) then
      AdvanceTracksLines(s);
      AdvanceWhile(Advance(s), cls)
    else
      s
  }

  /** `scanNumber` (over `Digits`) and `scanIdentifier` (over `Alphanumerics`), called
      after the first character of the run has been consumed: the rest of the run,
      `substr(start, current_position - start)`. */
  function ScanRun(s: Lexer, cls: RunClass): (r: Scanned)
    requires Valid(s)
    ensures Valid(r.next) && r.next.src == s.src && r.next.line == s.line && r.next.tokens == s.tokens
    ensures s.pos <= r.next.pos && r.lexeme == s.src[s.pos..r.next.pos]
    ensures forall k | s.pos <= k < r.next.pos :: Accepts(cls, s.src[k])
    ensures r.next.pos == |s.src| || !Accepts(cls, s.src[r.next.pos])
    ensures s.pos < r.next.pos ==> !IsSkipStart(s.src[r.next.pos - 1])
  {
    var e := AdvanceWhile(s, cls);
    Scanned(s.src[s.pos..e.pos], e)
  }

  /** The body loop of the string scanner: up to the next `"` (not consumed) or the
      end, counting the newlines passed. */
  function SkipStringBody(s: Lexer): (r: Lexer)
    requires Valid(s)
    decreases |s.src| - s.pos
    ensures Valid(r) && r.src == s.src && r.tokens == s.tokens
    ensures s.pos <= r.pos
    ensures NoneOf(s.src, s.pos, r.pos, '"')
    ensures r.pos == |s.src| || s.src[r.pos] == '"'
  {
    if Peek(s) != '"' && !IsAtEnd(s) then
      var t := if Peek(s) == '\n' then s.(line := s.line + 1) else s;
      AdvanceTracksLines(s);
      SkipStringBody(Advance(t))
    else
      s
  }

  /** `std::size_t` arithmetic wraps modulo 2^64. */
  const SizeTModulus: nat := 0x1_0000_0000_0000_0000

  /** `std::string::substr(p, count)`: the characters from `p`, at most `count` of them. */
  function Substr(t: string, p: nat, count: nat): (r: string)
    requires p <= |t|
    ensures |r| <= count && p + |r| <= |t| && r == t[p..p + |r|]
    ensures |r| < count ==> p + |r| == |t|
  {
    if count <= |t| - p then t[p..p + count] else t[p..]
  }

  /** Called after the opening quote: scans to the closing quote and returns
      `substr(start + 1, current_position - start - 2)`, where `start` is the
      position after the opening quote. That drops the first character of the
      content; for an empty literal the unsigned length wraps and `substr`
      returns everything after the closing quote. */
  function ScanString(s: Lexer): (r: Result<Scanned, LexError>)
    requires Valid(s)
    ensures r.Err? <==> NoneOf(s.src, s.pos, |s.src|, '"')
    ensures r.Err? ==> r.error == LexError(UnterminatedString, LastLine(s.src))
    ensures r.Ok? ==> Valid(r.value.next) && r.value.next.src == s.src && r.value.next.tokens == s.tokens
    ensures r.Ok? ==> s.pos < r.value.next.pos
    ensures r.Ok? ==> s.src[r.value.next.pos - 1] == '"' && NoneOf(s.src, s.pos, r.value.next.pos - 1, '"')
  {
    var start := s.pos;
    var e := SkipStringBody(s);
    if IsAtEnd(e) then
      Err(LexError(UnterminatedString, e.line))
    else
      AdvanceTracksLines(e);
      var f := Advance(e);
      // `current_position - start - 2` in size_t arithmetic: the difference is at least
      // 1 (the closing quote), so the subtraction of 2 wraps only for an empty literal
      var length := f.pos - start;
      Ok(Scanned(Substr(s.src, start + 1, if length >= 2 then length - 2 else SizeTModulus + length - 2), f))
  }

  /** The lexeme of a terminated literal: the content after its first character, or,
      for an empty content, whose length wraps, everything after the closing quote. */
  lemma ScanStringLexeme(s: Lexer)
    requires Valid(s) && ScanString(s).Ok? && |s.src| < SizeTModulus
    ensures var close := ScanString(s).value.next.pos - 1;
            ScanString(s).value.lexeme == if s.pos < close then s.src[s.pos + 1..close] else s.src[s.pos + 1..]
  {
  }

  // ---------------------------------------------------------------------------
  // The main loop
  // ---------------------------------------------------------------------------

  /** The kinds of the ten punctuation cases that emit a token directly. */
  function PunctuationKind(c: char): (r: Option<TokenKind>)
    ensures r.Some? ==> Emittable(r.value) && !IsSkipStart(c) && !IsOperatorStart(c)
  {
    match c
    case '(' => Some(LeftParen)
    case ')' => Some(RightParen)
    case '{' => Some(LeftBrace)
    case '}' => Some(RightBrace)
    case ',' => Some(Comma)
    case '.' => Some(Dot)
    case '-' => Some(Minus)
    case '+' => Some(Plus)
    case ';' => Some(Semicolon)
    case '*' => Some(Star)
    case _ => None
  }

  /** The kind an operator character produces, given the character the lookahead sees. */
  function OperatorKind(c: char, next: char): (k: TokenKind)
    requires IsOperatorStart(c)
    ensures Emittable(k)
  {
    var two := next == '=';
    match c
    case '!' => if two then BangEqual else Bang
    case '=' => if two then EqualEqual else Equal
    case '<' => if two then LessEqual else Less
    case _ => if two then GreaterEqual else Greater
  }

  /** Characters on which the main switch emits a token rather than raising an error. */
  predicate StartsToken(c: char) {
    PunctuationKind(c).Some? || IsOperatorStart(c) || c == '"' || IsDigit(c) || IsAlpha(c)
  }

  /** A number or identifier lexeme: the run after the first character, or the
      character under the cursor when that run is empty. */
  function RunLexeme(t: string, i: nat, j: nat): string
    requires i <= j <= |t|
  {
    if i < j then t[i..j] else [CharAt(t, j)]
  }

  /** The tokens as the scanner as written can produce them: an emittable kind, a
      non-empty lexeme, a line between 1 and `maxLine`, lines in emission order. */
  predicate WellFormed(ts: seq<Token>, maxLine: int) {
    && (forall i | 0 <= i < |ts| ::
          Emittable(ts[i].kind) && ts[i].lexeme != "" && 1 <= ts[i].line <= maxLine)
    && (forall i, j | 0 <= i < j < |ts| :: ts[i].line <= ts[j].line)
  }

  /** A token's kind together with its scanned lexeme ("" for the cases that pass
      none) and the state after it. */
  datatype Lexeme = Lexeme(kind: TokenKind, scanned: Scanned)

  /** A state the skipper can stop in: at the end, or on a character it does not discard. */
  predicate Stopped(w: Lexer) {
    Valid(w) && (IsAtEnd(w) || !IsSkipStart(w.src[w.pos]))
  }

  /** The body of the main switch minus its `addToken` call: consumes one character
      at the position where the skipper stopped and scans the rest of the lexeme. The
      `/`, blank and newline cases are dead because the skipper never stops on those
      characters. */
  function ScanToken(w: Lexer): (r: Result<Lexeme, LexError>)
    requires Stopped(w)
    ensures r.Ok? ==> Valid(r.value.scanned.next) && w.pos < r.value.scanned.next.pos
    ensures r.Ok? ==> r.value.scanned.next.src == w.src && r.value.scanned.next.tokens == w.tokens
    ensures r.Err? ==> w.line <= r.error.line <= LastLine(w.src)
  {
    AdvanceTracksLines(w);
    LineBounds(w);
    var c := Peek(w);
    var a := Advance(w);
    if PunctuationKind(c).Some? then
      Ok(Lexeme(PunctuationKind(c).value, Scanned("", a)))
    else if IsOperatorStart(c) then
      // `!`, `=`, `<`, `>`: the lookahead reads the character after `c` and does not consume it
      Ok(Lexeme(OperatorKind(c, Peek(a)), Scanned("", a)))
    else if c == '/' || IsBlank(c) then
      assert false; Err(LexError(UnexpectedCharacter, 0))
    else if c == '"' then
      match ScanString(a)
      case Err(e) => Err(e)
      case Ok(sc) => Ok(Lexeme(String, sc))
    else if IsDigit(c) then
      Ok(Lexeme(Number, ScanRun(a, Digits)))
    else if IsAlpha(c) then
      Ok(Lexeme(Identifier, ScanRun(a, Alphanumerics)))
    else
      Err(LexError(UnexpectedCharacter, a.line))
  }

  /** Every kind the switch produces is emittable: no keyword, no slash, no end marker. */
  lemma ScanTokenEmittable(w: Lexer)
    requires Stopped(w)
    ensures ScanToken(w).Ok? ==> Emittable(ScanToken(w).value.kind)
  {
    var c := Peek(w);
    var a := Advance(w);
    if IsOperatorStart(c) {
      assert PunctuationKind(c).None?;
    }
  }

  /** The last character a token consumes is never one the skipper would have discarded. */
  lemma ScanTokenEndsOnToken(w: Lexer)
    requires Stopped(w)
    ensures ScanToken(w).Ok? ==> !IsSkipStart(w.src[ScanToken(w).value.scanned.next.pos - 1])
  {
    AdvanceTracksLines(w);
    var c := Peek(w);
    var a := Advance(w);
    if PunctuationKind(c).Some? || IsOperatorStart(c) {
      assert ScanToken(w).Ok? ==> ScanToken(w).value.scanned.next == a;
    } else if IsDigit(c) || IsAlpha(c) {
      var cls := if IsDigit(c) then Digits else Alphanumerics;
      assert ScanToken(w).Ok? && ScanToken(w).value.scanned == ScanRun(a, cls);
    }
  }

  /** The switch together with its `addToken` call, from a state the skipper stopped
      in: one token is appended on the line counter's value after the scan. */
  function Emit(w: Lexer): (r: Result<Lexer, LexError>)
    requires Stopped(w)
    ensures r.Ok? ==> Valid(r.value) && r.value.src == w.src && w.pos < r.value.pos
    ensures r.Ok? ==> w.line <= r.value.line
    ensures r.Ok? ==> |r.value.tokens| == |w.tokens| + 1 && r.value.tokens == w.tokens + [r.value.tokens[|w.tokens|]]
    ensures r.Ok? ==> r.value.tokens[|w.tokens|].line == r.value.line
    ensures r.Ok? ==> Emittable(r.value.tokens[|w.tokens|].kind)
    ensures r.Ok? ==> r.value.tokens[|w.tokens|].lexeme != ""
    ensures r.Ok? ==> !IsSkipStart(w.src[r.value.pos - 1])
    ensures r.Err? ==> w.line <= r.error.line <= LastLine(w.src)
  {
    ScanTokenEmittable(w);
    ScanTokenEndsOnToken(w);
    match ScanToken(w)
    case Err(e) => Err(e)
    case Ok(lx) =>
      var sc := lx.scanned;
      LineAtMonotone(w.src, w.pos, sc.next.pos);
      Ok(AddToken(sc.next, lx.kind, sc.lexeme))
  }

  /** One iteration of the `tokenize` loop: skip blanks and comments, then scan and
      emit one token. */
  function Step(s: Lexer): (r: Result<Lexer, LexError>)
    requires Valid(s) && !IsAtEnd(s)
    ensures r.Ok? ==> Valid(r.value) && r.value.src == s.src && s.pos < r.value.pos
    ensures r.Ok? ==> s.line <= r.value.line
    ensures r.Ok? ==> |r.value.tokens| == |s.tokens| + 1 && r.value.tokens == s.tokens + [r.value.tokens[|s.tokens|]]
    ensures r.Ok? ==> r.value.tokens[|s.tokens|].line == r.value.line
    ensures r.Ok? ==> Emittable(r.value.tokens[|s.tokens|].kind)
    ensures r.Ok? ==> r.value.tokens[|s.tokens|].lexeme != ""
    ensures r.Ok? ==> !IsSkipStart(s.src[r.value.pos - 1])
    ensures r.Err? ==> s.line <= r.error.line
    ensures r.Err? ==> r.error.line <= LastLine(s.src)
  {
    var w := SkipWhitespace(s);
    LineAtMonotone(s.src, s.pos, w.pos);
    assert w.src == s.src && w.tokens == s.tokens && s.line <= w.line;
    var r := Emit(w);
    assert r.Ok? ==> !IsSkipStart(w.src[r.value.pos - 1]);
    r
  }

  /** A step keeps the emitted tokens well formed, with the line counter as bound. */
  lemma StepKeepsWellFormed(s: Lexer)
    requires Valid(s) && !IsAtEnd(s) && Step(s).Ok?
    ensures WellFormed(s.tokens, s.line) ==> WellFormed(Step(s).value.tokens, Step(s).value.line)
  {
    var n := Step(s).value;
    if WellFormed(s.tokens, s.line) {
      var ts := n.tokens;
      assert forall i | 0 <= i < |s.tokens| :: ts[i] == s.tokens[i];
      forall i | 0 <= i < |ts|
        ensures Emittable(ts[i].kind) && ts[i].lexeme != "" && 1 <= ts[i].line <= n.line
      {
        if i == |s.tokens| {
          LineBounds(n);
        }
      }
      forall i, j | 0 <= i < j < |ts|
        ensures ts[i].line <= ts[j].line
      {
      }
    }
  }

  /** The `while (!isAtEnd())` loop, run from state `s`: the tokens on success, the
      first error otherwise. */
  function Run(s: Lexer): (r: Result<seq<Token>, LexError>)
    requires Valid(s)
    decreases |s.src| - s.pos
    ensures r.Ok? ==> s.tokens <= r.value && |r.value| - |s.tokens| <= |s.src| - s.pos
    ensures r.Err? ==> s.line <= r.error.line <= LastLine(s.src)
  {
    if IsAtEnd(s) then
      Ok(s.tokens)
    else
      match Step(s)
      case Err(e) => Err(e)
      case Ok(n) => Run(n)
  }

  /** A successful run over a non-empty remainder emits at least one token, and its
      last step ends on a character the skipper would not discard. */
  lemma {:induction false} RunEndsOnToken(s: Lexer)
    requires Valid(s)
    ensures Run(s).Ok? && s.pos < |s.src| ==>
              |s.tokens| < |Run(s).value| && !IsSkipStart(s.src[|s.src| - 1])
    decreases |s.src| - s.pos
  {
    if Run(s).Ok? && s.pos < |s.src| {
      assert !IsAtEnd(s) && Step(s).Ok?;
      var n := Step(s).value;
      assert |n.tokens| == |s.tokens| + 1;
      assert Run(s) == Run(n);
      if n.pos == |s.src| {
        assert Run(n) == Ok(n.tokens);
        assert !IsSkipStart(s.src[n.pos - 1]);
      } else {
        RunEndsOnToken(n);
      }
    }
  }

  /** A successful run keeps the token list well formed, bounded by the last line. */
  lemma {:induction false} RunWellFormed(s: Lexer)
    requires Valid(s)
    ensures Run(s).Ok? && WellFormed(s.tokens, s.line) ==> WellFormed(Run(s).value, LastLine(s.src))
    decreases |s.src| - s.pos
  {
    if !Run(s).Ok? || !WellFormed(s.tokens, s.line) {
    } else if IsAtEnd(s) {
    } else {
      StepKeepsWellFormed(s);
      RunWellFormed(Step(s).value);
    }
  }

  /** What a call of `tokenize` ends in: it returns a status and leaves its tokens, or
      the process exits with a diagnostic. */
  datatype Outcome = Completed(status: LexingStatus, tokens: seq<Token>) | Exited(error: LexError)

  /** A run from the fresh state: nothing for an empty source; otherwise a success
      ends on a token character and leaves a well-formed list, and a failure reports
      a line of the source. */
  lemma FreshRun(src: string)
    ensures src == [] ==> Run(Init(src)) == Ok([])
    ensures Run(Init(src)).Ok? ==>
              WellFormed(Run(Init(src)).value, LastLine(src)) && |Run(Init(src)).value| <= |src|
    ensures Run(Init(src)).Ok? && src != [] ==>
              1 <= |Run(Init(src)).value| && !IsSkipStart(src[|src| - 1])
    ensures Run(Init(src)).Err? ==> 1 <= Run(Init(src)).error.line <= LastLine(src)
  {
    var s := Init(src);
    assert s.src == src && s.pos == 0 && s.line == 1 && s.tokens == [];
    RunEndsOnToken(s);
    RunWellFormed(s);
  }

  /** `tokenize` on a fresh scanner over `src`. */
  function Tokenize(src: string): (r: Outcome)
    ensures src == [] ==> r == Completed(Success, [])
    ensures r.Completed? ==> r.status == Success
    ensures r.Completed? ==> WellFormed(r.tokens, LastLine(src)) && |r.tokens| <= |src|
    ensures r.Completed? && src != [] ==> 1 <= |r.tokens| && !IsSkipStart(src[|src| - 1])
    ensures r.Exited? ==> 1 <= r.error.line <= LastLine(src)
  {
    FreshRun(src);
    match Run(Init(src))
    case Ok(ts) => Completed(Success, ts)
    case Err(e) => Exited(e)
  }
}
