/**
 Scans of small concrete sources, worked out step by step from the step
 lemmas.
 */
module ScanExamples {

  import opened Wrappers
  import opened Tokens
  import opened Scanner
  import opened ScannerProperties

  /** At a lexeme start the scan loop takes one step from the state as it is. */
  lemma LoopStep(sc: Scanner)
    requires AtLexemeStart(sc)
    ensures ScanLoop(sc).tokens == ScanLoop(ScanToken(sc)).tokens
    ensures ScanLoop(sc).errors == ScanLoop(ScanToken(sc)).errors
  {
    assert sc.(start := sc.current) == sc;
  }

  /** An empty source scans to a lone EOF token on line 1. */
  lemma EmptySource()
    ensures Scan("").tokens == [Token(Eof, "", None, 1)]
    ensures Scan("").errors == []
  {
  }

  /** The first step over `1.` scans the number `1` and stops before the dot. */
  lemma DotWithoutFractionFirstStep(s: string)
    requires s == "1."
    ensures var r := ScanToken(New(s));
      && r.current == 1 && r.line == 1 && r.errors == []
      && r.tokens == [Token(Number, "1", Some(NumberValue("1")), 1)]
  {
    NumberStep(New(s));
    assert !IsDigit(s[1]);
    assert s[0..1] == "1";
  }

  /** `1.`: a dot with no digit after it is not part of the number. */
  lemma DotWithoutFraction(s: string)
    requires s == "1."
    ensures Scan(s).tokens ==
      [Token(Number, "1", Some(NumberValue("1")), 1), Token(Dot, ".", None, 1), Token(Eof, "", None, 1)]
    ensures Scan(s).errors == []
  {
    var sc0 := New(s);
    DotWithoutFractionFirstStep(s);
    var sc1 := ScanToken(sc0).(start := 1);
    PunctuationStep(sc1);
    assert s[1..2] == ".";
    LoopStep(sc0);
    LoopStep(sc1);
  }

  /** The first step over `"abc` consumes everything and reports the missing quote. */
  lemma UnterminatedFirstStep(s: string)
    requires s == "\"abc"
    ensures var r := ScanToken(New(s));
      && r.current == 4 && r.line == 1 && r.tokens == []
      && r.errors == [Diagnostic(1, "Unterminated string.")]
  {
    assert forall k :: 0 < k < |s| ==> s[k] != '"';
    UnterminatedStringStep(New(s));
    NoNewlineNoCount(s, 1, |s|);
  }

  /** `"abc` without a closing quote: one error on line 1 and no STRING token. */
  lemma UnterminatedString(s: string)
    requires s == "\"abc"
    ensures Scan(s).tokens == [Token(Eof, "", None, 1)]
    ensures Scan(s).errors == [Diagnostic(1, "Unterminated string.")]
  {
    UnterminatedFirstStep(s);
    LoopStep(New(s));
  }

  /** The first step over `//c\nx` consumes the comment and its line break. */
  lemma CommentFirstStep(s: string)
    requires s == "//c\nx"
    ensures var r := ScanToken(New(s));
      r.current == 4 && r.line == 1 && r.errors == [] && r.tokens == []
  {
    SlashStep(New(s));
    assert s[2] != '\n' && s[3] == '\n' && s[4] != '\n';
  }

  /** The second step over `//c\nx` scans the identifier `x`, still on line 1. */
  lemma CommentSecondStep(s: string)
    requires s == "//c\nx"
    ensures ScanToken(New(s)).current == 4
    ensures var r := ScanToken(ScanToken(New(s)).(start := 4));
      r.current == 5 && r.errors == [] && r.tokens == [Token(Identifier, "x", None, 1)]
  {
    CommentFirstStep(s);
    IdentifierStep(ScanToken(New(s)).(start := 4));
    assert s[4..5] == "x";
  }

  /**
   A line break that ends a `//` comment does not advance the line: the
   identifier on the next source line is reported on line 1.
   */
  lemma CommentLineBreakNotCounted(s: string)
    requires s == "//c\nx"
    ensures Scan(s).tokens == [Token(Identifier, "x", None, 1), Token(Eof, "", None, 1)]
    ensures Scan(s).errors == []
  {
    var sc0 := New(s);
    CommentFirstStep(s);
    CommentSecondStep(s);
    LoopStep(sc0);
    LoopStep(ScanToken(sc0).(start := 4));
  }
}
