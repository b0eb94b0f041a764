/**
 Properties of the scanner model that relate several operations or pin down the
 result of a whole iteration.
 */
module ScannerProperties {
  import opened Results
  import opened Tokens
  import opened Scanner

  /** The ten punctuation cases emit exactly the kinds spelled by one character other
      than `/` and the operator characters, each for its own character. */
  lemma PunctuationKindSpelling(c: char)
    ensures PunctuationKind(c).Some? ==> Spelling(PunctuationKind(c).value) == Some([c])
    ensures PunctuationKind(c).Some? <==> c != '/' && !IsOperatorStart(c) && exists k :: Spelling(k) == Some([c])
  {
    if c != '/' && !IsOperatorStart(c) && exists k :: Spelling(k) == Some([c]) {
      var k :| Spelling(k) == Some([c]);
      assert [c][0] == c;
    }
  }

  /** An operator kind is spelled by its character, followed by `=` exactly when the
      lookahead sees one. */
  lemma OperatorKindSpelling(c: char, next: char)
    requires IsOperatorStart(c)
    ensures Spelling(OperatorKind(c, next)) == Some(if next == '=' then [c, '='] else [c])
  {
  }

  /** `InComment` from a later start implies it from an earlier one. */
  lemma InCommentFromEarlier(t: string, from: nat, later: nat, k: nat)
    requires from <= later && k < |t| && InComment(t, later, k)
    ensures InComment(t, from, k)
  {
    var j :| later <= j <= k && t[j] == '/' && NoneOf(t, j, k + 1, '\n');
  }

  /** Prepending one blank to a stretch of blanks and comments keeps it one, and the
      stop position still lies outside every comment. */
  lemma BlankExtendsSkipped(t: string, from: nat, stop: nat)
    requires from < stop <= |t| && IsBlank(t[from])
    requires forall k | from + 1 <= k < stop :: IsBlank(t[k]) || InComment(t, from + 1, k)
    requires stop < |t| ==> !InComment(t, from + 1, stop)
    ensures forall k | from <= k < stop :: IsBlank(t[k]) || InComment(t, from, k)
    ensures stop < |t| ==> !InComment(t, from, stop)
  {
    forall k | from <= k < stop
      ensures IsBlank(t[k]) || InComment(t, from, k)
    {
      if k > from && !IsBlank(t[k]) {
        InCommentFromEarlier(t, from, from + 1, k);
      }
    }
    if stop < |t| {
      forall j | from <= j <= stop && t[j] == '/'
        ensures !NoneOf(t, j, stop + 1, '\n')
      {
        assert from + 1 <= j;
      }
    }
  }

  /** Prepending a `/`-comment that runs up to a newline (or the end) to a stretch of
      blanks and comments keeps it one, and the stop position still lies outside every
      comment, because the newline closes the prepended one. */
  lemma CommentExtendsSkipped(t: string, from: nat, mid: nat, stop: nat)
    requires from < mid <= stop <= |t| && t[from] == '/' && NoneOf(t, from, mid, '\n')
    requires mid == |t| || t[mid] == '\n'
    requires forall k | mid <= k < stop :: IsBlank(t[k]) || InComment(t, mid, k)
    requires stop < |t| ==> !InComment(t, mid, stop)
    ensures forall k | from <= k < stop :: IsBlank(t[k]) || InComment(t, from, k)
    ensures stop < |t| ==> !InComment(t, from, stop)
  {
    forall k | from <= k < stop
      ensures IsBlank(t[k]) || InComment(t, from, k)
    {
      if k < mid {
        assert NoneOf(t, from, k + 1, '\n');
      } else if !IsBlank(t[k]) {
        InCommentFromEarlier(t, from, mid, k);
      }
    }
    if stop < |t| {
      forall j | from <= j <= stop && t[j] == '/'
        ensures !NoneOf(t, j, stop + 1, '\n')
      {
        if j < mid {
          assert t[mid] == '\n';
        }
      }
    }
  }

  /** The skipper discards exactly blanks and `/`-comments running up to (not into) the
      next newline: every skipped character is a blank or lies in such a comment, and
      the character it stops on does not. */
  lemma {:induction false} SkipWhitespaceDiscardsBlanksAndComments(s: Lexer)
    requires Valid(s)
    ensures var r := SkipWhitespace(s);
            forall k | s.pos <= k < r.pos :: IsBlank(s.src[k]) || InComment(s.src, s.pos, k)
    ensures var r := SkipWhitespace(s);
            r.pos < |s.src| ==> !InComment(s.src, s.pos, r.pos)
    decreases |s.src| - s.pos
  {
    var r := SkipWhitespace(s);
    var c := Peek(s);
    if IsBlank(c) {
      var n := Advance(if c == '\n' then s.(line := s.line + 1) else s);
      AdvanceTracksLines(s);
      assert r == SkipWhitespace(n);
      SkipWhitespaceDiscardsBlanksAndComments(n);
      BlankExtendsSkipped(s.src, s.pos, r.pos);
    } else if c == '/' {
      var l := SkipLine(s);
      assert r == SkipWhitespace(l);
      SkipWhitespaceDiscardsBlanksAndComments(l);
      CommentExtendsSkipped(s.src, s.pos, l.pos, r.pos);
    }
  }

  /** Conversely, when everything left is blanks and `/`-comments the skipper reaches
      the end of the input. */
  lemma SkipWhitespaceReachesEnd(s: Lexer)
    requires Valid(s)
    requires forall k | s.pos <= k < |s.src| :: IsBlank(s.src[k]) || InComment(s.src, s.pos, k)
    ensures SkipWhitespace(s).pos == |s.src|
  {
    SkipWhitespaceDiscardsBlanksAndComments(s);
  }

  /** A step whose remainder is only blanks and comments fails: the skipper reaches the
      end, and the NUL that `advance` returns there is an unexpected character. */
  lemma StepFailsOnTrailingSkip(s: Lexer)
    requires Valid(s) && !IsAtEnd(s)
    requires forall k | s.pos <= k < |s.src| :: IsBlank(s.src[k]) || InComment(s.src, s.pos, k)
    ensures Step(s) == Err(LexError(UnexpectedCharacter, LastLine(s.src)))
  {
    var w := SkipWhitespace(s);
    SkipWhitespaceReachesEnd(s);
    assert CharAt(w.src, w.pos) == '\0' && PunctuationKind('\0').None?;
    EmitRejects(w);
  }

  // ---------------------------------------------------------------------------
  // One iteration, case by case, from a state `w` the skipper stopped in: the
  // character under the cursor (NUL at the end) selects the case of the main switch.
  // ---------------------------------------------------------------------------

  /** A character no case handles, or the NUL that `advance` returns at the end of the
      input, ends the scan with "Unexpected character" on the current line. */
  lemma EmitRejects(w: Lexer)
    requires Stopped(w) && !StartsToken(CharAt(w.src, w.pos))
    ensures Emit(w) == Err(LexError(UnexpectedCharacter, w.line))
  {
    var c := Peek(w);
    assert c == CharAt(w.src, w.pos);
    assert ScanToken(w) == Err(LexError(UnexpectedCharacter, w.line));
  }

  /** A punctuation character becomes one token of its kind whose lexeme is the
      character after it (NUL at the end); the scan goes on right after it. */
  lemma EmitPunctuation(w: Lexer)
    requires Stopped(w) && !IsAtEnd(w) && PunctuationKind(w.src[w.pos]).Some?
    ensures Emit(w) == Ok(w.(pos := w.pos + 1,
                             tokens := w.tokens + [Token(PunctuationKind(w.src[w.pos]).value,
                                                         [CharAt(w.src, w.pos + 1)], w.line)]))
  {
    var kind := PunctuationKind(w.src[w.pos]).value;
    var a := Advance(w);
    assert ScanToken(w) == Ok(Lexeme(kind, Scanned("", a)));
  }

  /** An operator character becomes one token, two-character in kind exactly when the
      next character is `=`; that `=` is not consumed and is the token's lexeme. */
  lemma EmitOperator(w: Lexer)
    requires Stopped(w) && !IsAtEnd(w) && IsOperatorStart(w.src[w.pos])
    ensures Emit(w) == Ok(w.(pos := w.pos + 1,
                             tokens := w.tokens + [Token(OperatorKind(w.src[w.pos], CharAt(w.src, w.pos + 1)),
                                                         [CharAt(w.src, w.pos + 1)], w.line)]))
  {
    var c := w.src[w.pos];
    var a := Advance(w);
    assert PunctuationKind(c).None?;
    assert ScanToken(w) == Ok(Lexeme(OperatorKind(c, Peek(a)), Scanned("", a)));
  }

  /** True when `c` starts a run of class `cls`: a digit a number, a letter a word. */
  predicate StartsRun(cls: RunClass, c: char) {
    if cls.Digits? then IsDigit(c) else IsAlpha(c)
  }

  /** A digit (`Digits`) or a letter (`Alphanumerics`) consumes the maximal run of the
      class after it; the token's lexeme is that run without its first character, or
      the character after the run when the run is empty. */
  lemma EmitRun(w: Lexer, cls: RunClass)
    requires Stopped(w) && !IsAtEnd(w) && StartsRun(cls, w.src[w.pos])
    ensures Emit(w).Ok?
    ensures w.pos + 1 <= Emit(w).value.pos
    ensures forall k | w.pos + 1 <= k < Emit(w).value.pos :: Accepts(cls, w.src[k])
    ensures Emit(w).value.pos == |w.src| || !Accepts(cls, w.src[Emit(w).value.pos])
    ensures Emit(w).value.line == w.line
    ensures Emit(w).value.tokens == w.tokens + [Token(if cls.Digits? then Number else Identifier,
                                                      RunLexeme(w.src, w.pos + 1, Emit(w).value.pos),
                                                      w.line)]
  {
    var c := w.src[w.pos];
    var kind := if cls.Digits? then Number else Identifier;
    AdvanceTracksLines(w);
    var a := Advance(w);
    assert PunctuationKind(c).None?;
    var sc := ScanRun(a, cls);
    assert ScanToken(w) == Ok(Lexeme(kind, sc));
    var n := AddToken(sc.next, kind, sc.lexeme);
    assert Emit(w) == Ok(n);
    assert n.tokens == w.tokens + [Token(kind, RunLexeme(w.src, w.pos + 1, n.pos), w.line)];
  }

  /** The lexeme the string case emits for a literal whose quotes are at `open` and
      `close`: the content without its first character, except that an empty content
      makes the length wrap and yields everything after the closing quote; when that
      is empty, the character after the closing quote (NUL at the end) stands in. */
  function StringLexeme(t: string, open: nat, close: nat): string
    requires open < close < |t|
  {
    var raw := if close - open >= 2 then t[open + 2..close] else t[close + 1..];
    if raw == [] then [CharAt(t, close + 1)] else raw
  }

  /** A quote with no quote after it ends the scan with "Unterminated string" on the
      last line of the input. */
  lemma EmitStringUnterminated(w: Lexer)
    requires Stopped(w) && !IsAtEnd(w) && w.src[w.pos] == '"'
    requires NoneOf(w.src, w.pos + 1, |w.src|, '"')
    ensures Emit(w) == Err(LexError(UnterminatedString, LastLine(w.src)))
  {
    AdvanceTracksLines(w);
    assert PunctuationKind('"').None?;
    assert ScanToken(w) == Err(LexError(UnterminatedString, LastLine(w.src)));
  }

  /** The lexeme `addToken` records for a scanned string literal whose opening quote
      is just before `a`'s cursor. */
  lemma StringTokenLexeme(a: Lexer)
    requires Valid(a) && 1 <= a.pos && ScanString(a).Ok? && |a.src| < SizeTModulus
    ensures var sc := ScanString(a).value;
            AddToken(sc.next, String, sc.lexeme).tokens[|a.tokens|].lexeme
              == StringLexeme(a.src, a.pos - 1, sc.next.pos - 1)
  {
    var sc := ScanString(a).value;
    var close := sc.next.pos - 1;
    ScanStringLexeme(a);
    if a.pos < close {
      assert sc.lexeme == a.src[a.pos + 1..close];
    } else {
      assert sc.lexeme == a.src[close + 1..];
    }
  }

  /** Two positions that are each the first `c` at or after `from` are the same. */
  lemma FirstOccurrenceUnique(t: string, from: nat, i: nat, j: nat, c: char)
    requires from <= i < |t| && from <= j < |t| && t[i] == c && t[j] == c
    requires NoneOf(t, from, i, c) && NoneOf(t, from, j, c)
    ensures i == j
  {
  }

  /** A quote whose first closing quote is at `close` emits one string token, on the
      line of the closing quote, with the lexeme of `StringLexeme`; the scan goes on
      after the closing quote. */
  lemma EmitStringTerminated(w: Lexer, close: nat)
    requires Stopped(w) && !IsAtEnd(w) && w.src[w.pos] == '"' && |w.src| < SizeTModulus
    requires w.pos < close < |w.src| && w.src[close] == '"' && NoneOf(w.src, w.pos + 1, close, '"')
    ensures Emit(w) == Ok(Lexer(w.src, close + 1, LineAt(w.src, close + 1),
                                w.tokens + [Token(String, StringLexeme(w.src, w.pos, close), LineAt(w.src, close + 1))]))
  {
    AdvanceTracksLines(w);
    var a := Advance(w);
    assert PunctuationKind('"').None?;
    var sc := ScanString(a).value;
    assert ScanToken(w) == Ok(Lexeme(String, sc));
    FirstOccurrenceUnique(w.src, a.pos, sc.next.pos - 1, close, '"');
    var n := AddToken(sc.next, String, sc.lexeme);
    assert Emit(w) == Ok(n);
    StringTokenLexeme(a);
  }
}
