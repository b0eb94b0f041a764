/**
 Whole runs of `tokenize` on small inputs, each showing one behaviour of the
 scanner as written. Each step is pinned down by its own lemma and the run lemma
 chains them. The input is a parameter fixed by the precondition.
 */
module WorkedInputs {
  import opened Results
  import opened Tokens
  import opened Scanner
  import opened ScannerProperties

  /** On a character the skipper does not discard, a step is the switch alone. */
  lemma StepAtToken(s: Lexer)
    requires Valid(s) && !IsAtEnd(s) && !IsSkipStart(s.src[s.pos])
    ensures Step(s) == Emit(s)
  {
    assert SkipWhitespace(s) == s;
  }

  /** A stretch without newlines stays on one line. */
  lemma {:induction false} LineAcross(t: string, i: nat, j: nat)
    requires i <= j <= |t| && NoneOf(t, i, j, '\n')
    ensures LineAt(t, j) == LineAt(t, i)
    decreases j - i
  {
    if i < j {
      LineAcross(t, i, j - 1);
    }
  }

  /** The kinds the worked inputs below meet. */
  lemma KindsMet()
    ensures PunctuationKind('.') == Some(Dot) && PunctuationKind('+') == Some(Plus)
    ensures OperatorKind('!', '=') == BangEqual && OperatorKind('=', '\0') == Equal
    ensures !StartsToken('#') && !StartsToken('\0')
  {
    assert PunctuationKind('#').None? && PunctuationKind('\0').None?;
  }

  // --- "!=": the `=` after `!` is looked at, not consumed --------------------

  lemma BangEqualStep(t: string)
    requires t == "!="
    ensures Step(Lexer(t, 0, 1, [])) == Ok(Lexer(t, 1, 1, [Token(BangEqual, "=", 1)]))
  {
    var s := Lexer(t, 0, 1, []);
    KindsMet();
    StepAtToken(s);
    EmitOperator(s);
    assert CharAt(t, 1) == '=';
    assert [] + [Token(BangEqual, "=", 1)] == [Token(BangEqual, "=", 1)];
  }

  lemma LeftoverEqualStep(t: string)
    requires t == "!="
    ensures Valid(Lexer(t, 1, 1, [Token(BangEqual, "=", 1)]))
    ensures Step(Lexer(t, 1, 1, [Token(BangEqual, "=", 1)]))
         == Ok(Lexer(t, 2, 1, [Token(BangEqual, "=", 1), Token(Equal, "\0", 1)]))
  {
    var s := Lexer(t, 1, 1, [Token(BangEqual, "=", 1)]);
    KindsMet();
    LineAcross(t, 0, 1);
    StepAtToken(s);
    EmitOperator(s);
    assert CharAt(t, 2) == '\0';
    assert [Token(BangEqual, "=", 1)] + [Token(Equal, "\0", 1)] == [Token(BangEqual, "=", 1), Token(Equal, "\0", 1)];
  }

  /** The lookahead picks `BangEqual` but leaves the `=` in place, so it is scanned
      again as an `Equal` whose lexeme is the NUL past the end. */
  lemma OperatorLeavesEquals(t: string)
    requires t == "!="
    ensures Tokenize(t) == Completed(Success, [Token(BangEqual, "=", 1), Token(Equal, "\0", 1)])
  {
    BangEqualStep(t);
    LeftoverEqualStep(t);
    assert Run(Lexer(t, 1, 1, [Token(BangEqual, "=", 1)]))
        == Run(Lexer(t, 2, 1, [Token(BangEqual, "=", 1), Token(Equal, "\0", 1)]));
  }

  // --- "3.14": a number is the digits after its first one --------------------

  /** A digit followed by a non-digit is a number token of its own whose lexeme is
      the character after it, which is left in place. */
  lemma LoneDigitStep(t: string)
    requires 2 <= |t| && IsDigit(t[0]) && !IsDigit(t[1])
    ensures Step(Lexer(t, 0, 1, [])) == Ok(Lexer(t, 1, 1, [Token(Number, [t[1]], 1)]))
  {
    var s := Lexer(t, 0, 1, []);
    StepAtToken(s);
    EmitRun(s, Digits);
    var n := Emit(s).value;
    assert !Accepts(Digits, t[1]);
    assert n.pos == 1;
    assert RunLexeme(t, 1, 1) == [t[1]];
    assert [] + [Token(Number, [t[1]], 1)] == [Token(Number, [t[1]], 1)];
  }

  lemma DotStep(t: string)
    requires t == "3.14"
    ensures Valid(Lexer(t, 1, 1, [Token(Number, ".", 1)]))
    ensures Step(Lexer(t, 1, 1, [Token(Number, ".", 1)]))
         == Ok(Lexer(t, 2, 1, [Token(Number, ".", 1), Token(Dot, "1", 1)]))
  {
    var s := Lexer(t, 1, 1, [Token(Number, ".", 1)]);
    KindsMet();
    LineAcross(t, 0, 1);
    StepAtToken(s);
    EmitPunctuation(s);
    assert CharAt(t, 2) == '1';
    assert [Token(Number, ".", 1)] + [Token(Dot, "1", 1)] == [Token(Number, ".", 1), Token(Dot, "1", 1)];
  }

  lemma FractionStep(t: string)
    requires t == "3.14"
    ensures Valid(Lexer(t, 2, 1, [Token(Number, ".", 1), Token(Dot, "1", 1)]))
    ensures Step(Lexer(t, 2, 1, [Token(Number, ".", 1), Token(Dot, "1", 1)]))
         == Ok(Lexer(t, 4, 1, [Token(Number, ".", 1), Token(Dot, "1", 1), Token(Number, "4", 1)]))
  {
    var s := Lexer(t, 2, 1, [Token(Number, ".", 1), Token(Dot, "1", 1)]);
    LineAcross(t, 0, 2);
    StepAtToken(s);
    EmitRun(s, Digits);
    var n := Emit(s).value;
    assert Accepts(Digits, t[3]);
    assert n.pos == 4;
    assert RunLexeme(t, 3, 4) == "4";
    assert [Token(Number, ".", 1), Token(Dot, "1", 1)] + [Token(Number, "4", 1)]
        == [Token(Number, ".", 1), Token(Dot, "1", 1), Token(Number, "4", 1)];
  }

  /** A decimal splits into a number token holding the dot, a dot token holding the
      first fraction digit, and a number token holding the rest. */
  lemma DecimalSplits(t: string)
    requires t == "3.14"
    ensures Tokenize(t)
         == Completed(Success, [Token(Number, ".", 1), Token(Dot, "1", 1), Token(Number, "4", 1)])
  {
    LoneDigitStep(t);
    assert [t[1]] == ".";
    DotStep(t);
    FractionStep(t);
    var s1 := Lexer(t, 1, 1, [Token(Number, ".", 1)]);
    var s2 := Lexer(t, 2, 1, [Token(Number, ".", 1), Token(Dot, "1", 1)]);
    var s3 := Lexer(t, 4, 1, [Token(Number, ".", 1), Token(Dot, "1", 1), Token(Number, "4", 1)]);
    assert Run(s3) == Ok(s3.tokens);
    assert Run(s2) == Run(s3);
    assert Run(s1) == Run(s2);
    assert Run(Lexer(t, 0, 1, [])) == Run(s1);
  }

  // --- "classy": identifiers are never keywords --------------------------------

  lemma WordStep(t: string)
    requires t == "classy"
    ensures Step(Lexer(t, 0, 1, [])) == Ok(Lexer(t, 6, 1, [Token(Identifier, "lassy", 1)]))
  {
    var s := Lexer(t, 0, 1, []);
    StepAtToken(s);
    EmitRun(s, Alphanumerics);
    var n := Emit(s).value;
    assert forall k | 1 <= k < 6 :: Accepts(Alphanumerics, t[k]);
    assert n.pos == 6;
    assert RunLexeme(t, 1, 6) == "lassy";
    assert [] + [Token(Identifier, "lassy", 1)] == [Token(Identifier, "lassy", 1)];
  }

  /** A word is one identifier token holding all of it but its first letter; no
      keyword kind is looked up. */
  lemma WordIsIdentifier(t: string)
    requires t == "classy"
    ensures Tokenize(t) == Completed(Success, [Token(Identifier, "lassy", 1)])
  {
    WordStep(t);
    var s1 := Lexer(t, 6, 1, [Token(Identifier, "lassy", 1)]);
    assert Run(s1) == Ok(s1.tokens);
    assert Run(Lexer(t, 0, 1, [])) == Run(s1);
  }

  // --- strings ------------------------------------------------------------------

  /** A quote with no closing quote exits with "Unterminated string". */
  lemma UnclosedQuoteExits(t: string)
    requires t == "\"abc"
    ensures Tokenize(t) == Exited(LexError(UnterminatedString, 1))
  {
    var s := Lexer(t, 0, 1, []);
    StepAtToken(s);
    assert NoneOf(t, 1, 4, '"');
    EmitStringUnterminated(s);
    LineAcross(t, 0, 4);
  }

  /** An empty literal makes the lexeme length wrap; with nothing after the closing
      quote the lexeme is the NUL past the end. */
  lemma EmptyLiteral(t: string)
    requires t == "\"\""
    ensures Tokenize(t) == Completed(Success, [Token(String, "\0", 1)])
  {
    var s := Lexer(t, 0, 1, []);
    StepAtToken(s);
    EmitStringTerminated(s, 1);
    assert StringLexeme(t, 0, 1) == "\0";
    LineAcross(t, 0, 2);
    assert [] + [Token(String, "\0", 1)] == [Token(String, "\0", 1)];
    var s1 := Lexer(t, 2, 1, [Token(String, "\0", 1)]);
    assert Step(s) == Ok(s1);
    assert Run(s1) == Ok(s1.tokens);
    assert Run(s) == Run(s1);
  }

  // --- characters no case handles -------------------------------------------------

  /** A character outside every case exits with "Unexpected character". */
  lemma UnknownCharacterExits(t: string)
    requires t == "#"
    ensures Tokenize(t) == Exited(LexError(UnexpectedCharacter, 1))
  {
    var s := Lexer(t, 0, 1, []);
    KindsMet();
    StepAtToken(s);
    assert CharAt(t, 0) == '#';
    EmitRejects(s);
    assert Step(s) == Err(LexError(UnexpectedCharacter, 1));
  }

  /** A letter followed by a character that is not a letter or digit is an identifier
      token of its own, whose lexeme is that following character, left in place. */
  lemma LoneLetterStep(t: string)
    requires 2 <= |t| && IsAlpha(t[0]) && !IsAlnum(t[1])
    ensures Step(Lexer(t, 0, 1, [])) == Ok(Lexer(t, 1, 1, [Token(Identifier, [t[1]], 1)]))
  {
    var s := Lexer(t, 0, 1, []);
    StepAtToken(s);
    EmitRun(s, Alphanumerics);
    var n := Emit(s).value;
    assert !Accepts(Alphanumerics, t[1]);
    assert n.pos == 1;
    assert RunLexeme(t, 1, 1) == [t[1]];
    assert [] + [Token(Identifier, [t[1]], 1)] == [Token(Identifier, [t[1]], 1)];
  }

  lemma NewlineAtEndStep(t: string)
    requires t == "a\n"
    ensures Valid(Lexer(t, 1, 1, [Token(Identifier, "\n", 1)]))
    ensures Step(Lexer(t, 1, 1, [Token(Identifier, "\n", 1)])) == Err(LexError(UnexpectedCharacter, 2))
  {
    var s := Lexer(t, 1, 1, [Token(Identifier, "\n", 1)]);
    var w := Lexer(t, 2, 2, [Token(Identifier, "\n", 1)]);
    KindsMet();
    LineAcross(t, 0, 1);
    assert NewlinesBefore(t, 2) == NewlinesBefore(t, 1) + 1;
    assert Peek(s) == '\n' && Advance(s.(line := 2)) == w;
    assert SkipWhitespace(w) == w;
    assert SkipWhitespace(s) == w;
    EmitRejects(w);
  }

  /** Blanks at the end of the input are fatal: the skipper reaches the end and the
      NUL that `advance` then returns is an unexpected character. */
  lemma TrailingNewlineExits(t: string)
    requires t == "a\n"
    ensures Tokenize(t) == Exited(LexError(UnexpectedCharacter, 2))
  {
    LoneLetterStep(t);
    assert [t[1]] == "\n";
    NewlineAtEndStep(t);
    var s1 := Lexer(t, 1, 1, [Token(Identifier, "\n", 1)]);
    assert Run(s1) == Err(LexError(UnexpectedCharacter, 2));
    assert Run(Lexer(t, 0, 1, [])) == Run(s1);
  }

  // --- "a //x": a comment at the end is fatal too ---------------------------------

  lemma CommentAtEndStep(t: string)
    requires t == "a //x"
    ensures Valid(Lexer(t, 1, 1, [Token(Identifier, " ", 1)]))
    ensures Step(Lexer(t, 1, 1, [Token(Identifier, " ", 1)])) == Err(LexError(UnexpectedCharacter, 1))
  {
    var s := Lexer(t, 1, 1, [Token(Identifier, " ", 1)]);
    LineAcross(t, 0, 1);
    LineAcross(t, 0, 5);
    assert t[2] == '/' && NoneOf(t, 2, 5, '\n');
    assert forall k | 2 <= k < 5 :: InComment(t, 1, k) by {
      forall k | 2 <= k < 5
        ensures InComment(t, 1, k)
      {
        assert t[2] == '/' && NoneOf(t, 2, k + 1, '\n');
      }
    }
    assert IsBlank(t[1]);
    StepFailsOnTrailingSkip(s);
  }

  /** A line comment at the end of the input is fatal: the tokens after `a` are only a
      blank and a comment, so the skipper reaches the end and meets the NUL there. */
  lemma TrailingCommentExits(t: string)
    requires t == "a //x"
    ensures Tokenize(t) == Exited(LexError(UnexpectedCharacter, 1))
  {
    LoneLetterStep(t);
    assert [t[1]] == " ";
    CommentAtEndStep(t);
    var s1 := Lexer(t, 1, 1, [Token(Identifier, " ", 1)]);
    assert Run(s1) == Err(LexError(UnexpectedCharacter, 1));
    assert Run(Lexer(t, 0, 1, [])) == Run(s1);
  }

  // --- "1/2\n+": every slash starts a comment -------------------------------------

  /** After `1`, the skipper discards the slash comment and the newline after it. */
  lemma CommentLineSkipped(t: string)
    requires t == "1/2\n+"
    ensures Valid(Lexer(t, 1, 1, [Token(Number, "/", 1)]))
    ensures SkipWhitespace(Lexer(t, 1, 1, [Token(Number, "/", 1)])) == Lexer(t, 4, 2, [Token(Number, "/", 1)])
  {
    var s := Lexer(t, 1, 1, [Token(Number, "/", 1)]);
    LineAcross(t, 0, 3);
    assert NewlinesBefore(t, 4) == NewlinesBefore(t, 3) + 1;
    var l := s.(pos := 3);
    assert SkipLine(s.(pos := 2)) == SkipLine(l) == l;
    assert SkipLine(s) == l;
    var w := s.(pos := 4, line := 2);
    assert SkipWhitespace(w) == w;
    assert SkipWhitespace(l) == w;
  }

  lemma PlusAfterCommentStep(t: string)
    requires t == "1/2\n+"
    ensures Valid(Lexer(t, 1, 1, [Token(Number, "/", 1)]))
    ensures Step(Lexer(t, 1, 1, [Token(Number, "/", 1)]))
         == Ok(Lexer(t, 5, 2, [Token(Number, "/", 1), Token(Plus, "\0", 2)]))
  {
    var s := Lexer(t, 1, 1, [Token(Number, "/", 1)]);
    var w := Lexer(t, 4, 2, [Token(Number, "/", 1)]);
    KindsMet();
    CommentLineSkipped(t);
    assert Step(s) == Emit(w);
    EmitPunctuation(w);
    assert CharAt(t, 5) == '\0';
    assert [Token(Number, "/", 1)] + [Token(Plus, "\0", 2)] == [Token(Number, "/", 1), Token(Plus, "\0", 2)];
  }

  /** A division sign comments out the rest of its line. */
  lemma SlashCommentsOutLine(t: string)
    requires t == "1/2\n+"
    ensures Tokenize(t) == Completed(Success, [Token(Number, "/", 1), Token(Plus, "\0", 2)])
  {
    LoneDigitStep(t);
    assert [t[1]] == "/";
    PlusAfterCommentStep(t);
    assert Run(Lexer(t, 1, 1, [Token(Number, "/", 1)]))
        == Run(Lexer(t, 5, 2, [Token(Number, "/", 1), Token(Plus, "\0", 2)]));
  }
}
