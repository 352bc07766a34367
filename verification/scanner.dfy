/**
 The scanner: a single left-to-right, maximal-munch pass over the source that
 turns characters into tokens. The scanner's state is an immutable record
 holding the three cursors `start`, `current` and `line`; every helper of the
 source that mutates the scanner becomes a function from one state to the
 next. Error reports do not stop the scan: they are appended to `errors`.
 Sources are sequences of characters. The Rust scanner indexes by bytes,
 which matches characters only for ASCII text.
 */
module Scanner {

  import opened Wrappers
  import opened Tokens
  import Keywords

  predicate IsDigit(c: char) { '0' <= c <= '9' }

  predicate IsAlpha(c: char) { 'a' <= c <= 'z' || 'A' <= c <= 'Z' || c == '_' }

  predicate IsAlphaNumeric(c: char) { IsAlpha(c) || IsDigit(c) }

  const Digits := "0123456789"
  const Lower := "abcdefghijklmnopqrstuvwxyz"
  const Upper := "ABCDEFGHIJKLMNOPQRSTUVWXYZ"

  lemma DigitClass(c: char)
    ensures IsDigit(c) <==> c in Digits
  {
    if IsDigit(c) {
      assert Digits[c as int - '0' as int] == c;
    }
  }

  lemma LowerClass(c: char)
    ensures 'a' <= c <= 'z' <==> c in Lower
  {
    if 'a' <= c <= 'z' {
      assert Lower[c as int - 'a' as int] == c;
    }
  }

  lemma UpperClass(c: char)
    ensures 'A' <= c <= 'Z' <==> c in Upper
  {
    if 'A' <= c <= 'Z' {
      assert Upper[c as int - 'A' as int] == c;
    }
  }

  /** The character classes, against explicit lists of their members. */
  lemma CharacterClasses(c: char)
    ensures IsDigit(c) <==> c in Digits
    ensures IsAlpha(c) <==> c in Lower || c in Upper || c == '_'
    ensures IsAlphaNumeric(c) <==> c in Lower || c in Upper || c in Digits || c == '_'
  {
    DigitClass(c);
    LowerClass(c);
    UpperClass(c);
  }

  /** The number of line breaks among `s[i..j]`. */
  function NewlinesIn(s: string, i: nat, j: nat): nat
    requires i <= j <= |s|
    decreases j - i
  {
    if i == j then 0 else (if s[i] == '\n' then 1 else 0) + NewlinesIn(s, i + 1, j)
  }

  /** The line breaks of two adjacent ranges add up. */
  lemma {:induction false} NewlinesInSplit(s: string, i: nat, j: nat, k: nat)
    requires i <= j <= k <= |s|
    ensures NewlinesIn(s, i, k) == NewlinesIn(s, i, j) + NewlinesIn(s, j, k)
    decreases j - i
  {
    if i < j {
      NewlinesInSplit(s, i + 1, j, k);
    }
  }

  /** One reported lexical error: the line it was reported at and its message. */
  datatype Diagnostic = Diagnostic(line: nat, message: string)

  datatype Scanner = Scanner(
    source: string,
    tokens: seq<Token>,
    errors: seq<Diagnostic>,
    start: nat,    // first character of the lexeme being scanned
    current: nat,  // next character to read
    line: nat)     // line the scanner is on

  predicate Valid(sc: Scanner)
  {
    sc.start <= sc.current <= |sc.source|
  }

  /** `Scanner::new`: nothing scanned yet, both cursors at 0, on line 1. */
  function New(source: string): (sc: Scanner)
    ensures Valid(sc) && sc.source == source
    ensures sc.tokens == [] && sc.errors == []
    ensures sc.start == 0 && sc.current == 0 && sc.line == 1
  {
    Scanner(source, [], [], 0, 0, 1)
  }

  // ----- Cursor helpers -----

  /** No character is left to read. */
  predicate IsAtEnd(sc: Scanner)
  {
    sc.current >= |sc.source|
  }

  /** Reads the next character and moves past it (the source panics at the end). */
  function Advance(sc: Scanner): (r: (Scanner, char))
    requires sc.current < |sc.source|
  {
    (sc.(current := sc.current + 1), sc.source[sc.current])
  }

  /** The next character, or NUL at the end of input. */
  function Peek(sc: Scanner): (c: char)
  {
    if IsAtEnd(sc) then '\0' else sc.source[sc.current]
  }

  /** The character after the next one, or NUL past the end of input. */
  function PeekNext(sc: Scanner): (c: char)
  {
    if sc.current + 1 >= |sc.source| then '\0' else sc.source[sc.current + 1]
  }

  /**
   Consumes the next character exactly when it is `expected`: the answer is
   whether `peek` sees `expected` before the end, and a match is an `advance`.
   */
  function MatchChar(sc: Scanner, expected: char): (r: (Scanner, bool))
    ensures r.1 <==> !IsAtEnd(sc) && Peek(sc) == expected
    ensures r.0 == if r.1 then Advance(sc).0 else sc
  {
    if !IsAtEnd(sc) && sc.source[sc.current] == expected then
      (sc.(current := sc.current + 1), true)
    else
      (sc, false)
  }

  /** Appends a token whose lexeme is the text between `start` and `current`. */
  function AddToken(sc: Scanner, kind: TokenType, literal: Option<Literal>): (r: Scanner)
    requires Valid(sc)
  {
    sc.(tokens := sc.tokens + [NewToken(kind, sc.source[sc.start..sc.current], literal, sc.line)])
  }

  /** `err`: records a diagnostic at the current line; scanning goes on. */
  function Error(sc: Scanner, message: string): (r: Scanner)
  {
    sc.(errors := sc.errors + [Diagnostic(sc.line, message)])
  }

  /** On a valid scanner, being at the end means the cursor sits exactly at the end of the source. */
  lemma AtEndIsEndOfSource(sc: Scanner)
    requires Valid(sc)
    ensures IsAtEnd(sc) <==> sc.current == |sc.source|
  {
  }

  /** `advance` returns the character `peek` sees and moves only `current`, by one. */
  lemma AdvanceReadsPeek(sc: Scanner)
    requires sc.current < |sc.source|
    ensures Advance(sc).1 == Peek(sc) && Peek(sc) in sc.source
    ensures Advance(sc).0 == sc.(current := sc.current + 1)
  {
  }

  /** `peek_next` sees what `peek` would see one character further on. */
  lemma PeekNextIsPeekAhead(sc: Scanner)
    ensures PeekNext(sc) == Peek(sc.(current := sc.current + 1))
  {
  }

  /**
   `add_token` appends exactly one token, whose lexeme is the text between
   `start` and `current` and whose line is the current line; nothing else
   changes.
   */
  lemma AddTokenAppends(sc: Scanner, kind: TokenType, literal: Option<Literal>)
    requires Valid(sc)
    ensures var r := AddToken(sc, kind, literal);
      && r == sc.(tokens := r.tokens) && |r.tokens| == |sc.tokens| + 1 && r.tokens[..|sc.tokens|] == sc.tokens
      && r.tokens[|sc.tokens|] == Token(kind, sc.source[sc.start..sc.current], literal, sc.line)
  {
  }

  /** `err` appends one diagnostic at the current line and changes nothing else. */
  lemma ErrorAppends(sc: Scanner, message: string)
    ensures var r := Error(sc, message);
      && r == sc.(errors := r.errors) && |r.errors| == |sc.errors| + 1 && r.errors[..|sc.errors|] == sc.errors
      && r.errors[|sc.errors|] == Diagnostic(sc.line, message)
  {
  }

  // ----- The loops of the source, one function each -----

  /**
   `while inClass(peek()) { advance() }`: consumes the maximal run of
   characters in the class starting at `current`.
   */
  function ConsumeWhile(sc: Scanner, inClass: char -> bool): (r: Scanner)
    requires Valid(sc) && !inClass('\0')
    ensures r == sc.(current := r.current) && Valid(r)
    ensures sc.current <= r.current
    ensures forall k :: sc.current <= k < r.current ==> inClass(sc.source[k])
    ensures r.current == |sc.source| || !inClass(sc.source[r.current])
    decreases |sc.source| - sc.current
  {
    if inClass(Peek(sc)) then ConsumeWhile(Advance(sc).0, inClass) else sc
  }

  /** The position of the first `"` at or after `i`, or the end of `s` if there is none. */
  function FirstQuote(s: string, i: nat): (q: nat)
    requires i <= |s|
    ensures i <= q <= |s|
    decreases |s| - i
  {
    if i == |s| || s[i] == '"' then i else FirstQuote(s, i + 1)
  }

  lemma {:induction false} FirstQuoteIsFirst(s: string, i: nat)
    requires i <= |s|
    ensures var q := FirstQuote(s, i);
      && (forall k :: i <= k < q ==> s[k] != '"')
      && (q == |s| || s[q] == '"')
    decreases |s| - i
  {
    if i < |s| && s[i] != '"' {
      FirstQuoteIsFirst(s, i + 1);
    }
  }

  /**
   The body loop of `string`: runs to the next `"` (not consumed) or to the
   end of input, counting each line break it passes.
   */
  function ConsumeStringBody(sc: Scanner): (r: Scanner)
    requires Valid(sc)
    ensures r == sc.(current := r.current, line := r.line) && Valid(r)
    ensures r.current == FirstQuote(sc.source, sc.current)
    ensures r.line == sc.line + NewlinesIn(sc.source, sc.current, r.current)
    decreases |sc.source| - sc.current
  {
    if Peek(sc) != '"' && !IsAtEnd(sc) then
      var sc1 := if Peek(sc) == '\n' then sc.(line := sc.line + 1) else sc;
      ConsumeStringBody(Advance(sc1).0)
    else
      sc
  }

  /**
   The loop of a `//` comment: consumes up to and including the next line
   break, or to the end of input. The line break does not advance `line`.
   */
  function SkipLineComment(sc: Scanner): (r: Scanner)
    requires Valid(sc)
    ensures r == sc.(current := r.current) && Valid(r)
    ensures sc.current <= r.current
    ensures || (r.current == |sc.source| && forall k :: sc.current <= k < |sc.source| ==> sc.source[k] != '\n')
            || (sc.current < r.current && sc.source[r.current - 1] == '\n'
                && forall k :: sc.current <= k < r.current - 1 ==> sc.source[k] != '\n')
    decreases |sc.source| - sc.current
  {
    if IsAtEnd(sc) then sc
    else
      var (sc1, c) := Advance(sc);
      if c != '\n' then SkipLineComment(sc1) else sc1
  }

  /** A block comment can close at `k`: `*` at `k` and `/` right after it. */
  predicate ClosesAt(source: string, k: int)
  {
    0 <= k && k + 1 < |source| && source[k] == '*' && source[k + 1] == '/'
  }

  /**
   The loop of a block comment: consumes through the first star-slash that starts at
   or after `current` (comments do not nest), or to the end of input. Line
   breaks inside do not advance `line`.
   */
  function SkipBlockComment(sc: Scanner): (r: Scanner)
    requires Valid(sc)
    ensures r == sc.(current := r.current) && Valid(r)
    ensures sc.current <= r.current
    ensures || (r.current == |sc.source| && forall k :: sc.current <= k < |sc.source| ==> !ClosesAt(sc.source, k))
            || (sc.current + 2 <= r.current && ClosesAt(sc.source, r.current - 2)
                && forall k :: sc.current <= k < r.current - 2 ==> !ClosesAt(sc.source, k))
    decreases |sc.source| - sc.current
  {
    if IsAtEnd(sc) then sc
    else
      var (sc1, c) := Advance(sc);
      if c == '*' && Peek(sc1) == '/' then Advance(sc1).0 else SkipBlockComment(sc1)
  }

  // ----- Literal and identifier scanners -----

  /**
   The effect one scan step may have: nothing, one reported error, or one
   token that is not EOF, whose lexeme is the text the step consumed and
   whose line is the line the step ended on.
   */
  predicate StepEffect(sc: Scanner, r: Scanner)
    requires sc.start <= r.current <= |sc.source|
  {
    || (r.tokens == sc.tokens && r.errors == sc.errors)
    || (r.tokens == sc.tokens && |r.errors| == |sc.errors| + 1 && r.errors[..|sc.errors|] == sc.errors
        && r.errors[|sc.errors|].line == r.line)
    || (r.errors == sc.errors && |r.tokens| == |sc.tokens| + 1 && r.tokens[..|sc.tokens|] == sc.tokens
        && var t := r.tokens[|sc.tokens|];
           t.kind != Eof && t.lexeme == sc.source[sc.start..r.current] && t.line == r.line)
  }

  /** A step only appends: it keeps the tokens and errors it was given and adds no EOF token. */
  lemma StepKeepsPrefixes(sc: Scanner, r: Scanner)
    requires sc.start <= r.current <= |sc.source|
    requires StepEffect(sc, r)
    ensures |sc.tokens| <= |r.tokens| && r.tokens[..|sc.tokens|] == sc.tokens
    ensures |sc.errors| <= |r.errors| && r.errors[..|sc.errors|] == sc.errors
    ensures forall i :: |sc.tokens| <= i < |r.tokens| ==> r.tokens[i].kind != Eof
  {
  }

  /** `string`: called after the opening quote has been consumed. */
  function ScanString(sc: Scanner): (r: Scanner)
    requires Valid(sc) && sc.start < sc.current
    ensures r.source == sc.source && r.start == sc.start && Valid(r)
    ensures sc.current <= r.current && sc.line <= r.line
    ensures StepEffect(sc, r)
    ensures |r.tokens| + |r.errors| == |sc.tokens| + |sc.errors| + 1
    ensures r.errors == sc.errors <==> FirstQuote(sc.source, sc.current) < |sc.source|
  {
    var sc1 := ConsumeStringBody(sc);
    if IsAtEnd(sc1) then
      Error(sc1, "Unterminated string.")
    else
      CloseString(sc1)
  }

  /**
   The end of `string` on its closing quote: the quote is consumed and the
   token spans both quotes, its literal the text between them.
   */
  function CloseString(sc: Scanner): (r: Scanner)
    requires sc.start < sc.current < |sc.source|
    ensures r == sc.(current := sc.current + 1, tokens := r.tokens)
    ensures r.tokens == sc.tokens + [Token(String, sc.source[sc.start..sc.current + 1],
                                           Some(StringValue(sc.source[sc.start + 1..sc.current])), sc.line)]
  {
    var sc2 := Advance(sc).0;
    AddToken(sc2, String, Some(StringValue(sc2.source[sc2.start + 1..sc2.current - 1])))
  }

  /**
   The optional fraction of `number`: the `.` and the digits after it are
   consumed only when a digit follows the `.`; otherwise nothing is.
   */
  function ScanFraction(sc: Scanner): (r: Scanner)
    requires Valid(sc)
    ensures r == sc.(current := r.current) && Valid(r)
    ensures Peek(sc) == '.' && IsDigit(PeekNext(sc)) ==>
      && sc.current + 1 < r.current && sc.source[sc.current] == '.'
      && (forall k :: sc.current < k < r.current ==> IsDigit(sc.source[k]))
      && (r.current == |sc.source| || !IsDigit(sc.source[r.current]))
    ensures !(Peek(sc) == '.' && IsDigit(PeekNext(sc))) ==> r.current == sc.current
  {
    if Peek(sc) == '.' && IsDigit(PeekNext(sc)) then ConsumeWhile(Advance(sc).0, IsDigit) else sc
  }

  /** `number`: called after the first digit has been consumed. */
  function ScanNumber(sc: Scanner): (r: Scanner)
    requires Valid(sc)
    ensures r.source == sc.source && r.start == sc.start && Valid(r)
    ensures sc.current <= r.current && sc.line <= r.line
    ensures StepEffect(sc, r)
    ensures r.errors == sc.errors && |r.tokens| == |sc.tokens| + 1
  {
    var sc2 := ScanFraction(ConsumeWhile(sc, IsDigit));
    AddToken(sc2, Number, Some(NumberValue(sc2.source[sc2.start..sc2.current])))
  }

  /** `identifier`: called after the first letter or `_` has been consumed. */
  function ScanIdentifier(sc: Scanner): (r: Scanner)
    requires Valid(sc)
    ensures r.source == sc.source && r.start == sc.start && Valid(r)
    ensures sc.current <= r.current && sc.line <= r.line
    ensures StepEffect(sc, r)
    ensures r.errors == sc.errors && |r.tokens| == |sc.tokens| + 1
  {
    var sc1 := ConsumeWhile(sc, IsAlphaNumeric);
    match Keywords.Lookup(sc1.source[sc1.start..sc1.current])
    case Some(keyword) => AddToken(sc1, keyword, None)
    case None => AddToken(sc1, Identifier, None)
  }

  // ----- One scan step and the whole scan -----

  /** The ten punctuation characters that always form a token on their own. */
  function PunctuationKind(c: char): Option<TokenType>
  {
    if c == '(' then Some(LeftParen)
    else if c == ')' then Some(RightParen)
    else if c == '{' then Some(LeftBrace)
    else if c == '}' then Some(RightBrace)
    else if c == ',' then Some(Comma)
    else if c == '.' then Some(Dot)
    else if c == '-' then Some(Minus)
    else if c == '+' then Some(Plus)
    else if c == ';' then Some(Semicolon)
    else if c == '*' then Some(Star)
    else None
  }

  /** The arms for `!`, `=`, `<` and `>`: the two-character kind when `=` follows. */
  function ScanOperator(sc: Scanner, c: char): (r: Scanner)
    requires Valid(sc) && sc.start < sc.current && c in "!=<>"
    ensures r.source == sc.source && r.start == sc.start && Valid(r)
    ensures sc.current <= r.current && sc.line <= r.line
    ensures StepEffect(sc, r)
    ensures r.errors == sc.errors && |r.tokens| == |sc.tokens| + 1
  {
    var (sc1, two) := MatchChar(sc, '=');
    var kind :=
      if c == '!' then (if two then BangEqual else Bang)
      else if c == '=' then (if two then EqualEqual else Equal)
      else if c == '<' then (if two then LessEqual else Less)
      else (if two then GreaterEqual else Greater);
    AddToken(sc1, kind, None)
  }

  /** The arm for `/`: a line comment, a block comment, or SLASH. */
  function ScanSlash(sc: Scanner): (r: Scanner)
    requires Valid(sc) && sc.start < sc.current
    ensures r.source == sc.source && r.start == sc.start && Valid(r)
    ensures sc.current <= r.current && sc.line <= r.line
    ensures StepEffect(sc, r)
    ensures r.errors == sc.errors
  {
    var (sc1, lineComment) := MatchChar(sc, '/');
    if lineComment then SkipLineComment(sc1)
    else
      var (sc2, blockComment) := MatchChar(sc, '*');
      if blockComment then SkipBlockComment(sc2)
      else AddToken(sc, Slash, None)
  }

  /** `scan_token`: scans the lexeme that starts at `start == current`. */
  function ScanToken(sc: Scanner): (r: Scanner)
    requires sc.start == sc.current < |sc.source|
    ensures r.source == sc.source && r.start == sc.start && Valid(r)
    ensures sc.current < r.current && sc.line <= r.line
    ensures StepEffect(sc, r)
  {
    var (sc1, c) := Advance(sc);
    if PunctuationKind(c).Some? then AddToken(sc1, PunctuationKind(c).value, None)
    else if c in "!=<>" then ScanOperator(sc1, c)
    else if c == '/' then ScanSlash(sc1)
    else if c == ' ' || c == '\r' || c == '\t' then sc1
    else if c == '\n' then sc1.(line := sc1.line + 1)
    else if c == '"' then ScanString(sc1)
    else if IsDigit(c) then ScanNumber(sc1)
    else if IsAlpha(c) then ScanIdentifier(sc1)
    else Error(sc1, "Unexpected character: '" + [c] + "'")
  }

  /** Being a prefix is transitive. */
  lemma PrefixTransitive<T>(a: seq<T>, b: seq<T>, c: seq<T>)
    requires |a| <= |b| <= |c| && c[..|b|] == b && b[..|a|] == a
    ensures c[..|a|] == a
  {
    assert c[..|a|] == c[..|b|][..|a|];
  }

  /** The loop of `scan_tokens`: one scan step per lexeme until the input is used up. */
  function ScanLoop(sc: Scanner): (r: Scanner)
    requires Valid(sc)
    ensures r.source == sc.source && r.current == |sc.source| && sc.line <= r.line
    ensures |sc.tokens| <= |r.tokens| && r.tokens[..|sc.tokens|] == sc.tokens
    ensures |sc.errors| <= |r.errors| && r.errors[..|sc.errors|] == sc.errors
    ensures forall i :: |sc.tokens| <= i < |r.tokens| ==> r.tokens[i].kind != Eof
    decreases |sc.source| - sc.current
  {
    if IsAtEnd(sc) then sc
    else
      var sc1 := ScanToken(sc.(start := sc.current));
      StepKeepsPrefixes(sc.(start := sc.current), sc1);
      var r := ScanLoop(sc1);
      PrefixTransitive(sc.tokens, sc1.tokens, r.tokens);
      PrefixTransitive(sc.errors, sc1.errors, r.errors);
      r
  }

  /** `scan_tokens`: scans the rest of the input, then appends one EOF token. */
  function ScanTokens(sc: Scanner): (r: Scanner)
    requires Valid(sc)
    ensures r.source == sc.source && r.current == |sc.source| && sc.line <= r.line
    ensures |r.tokens| > |sc.tokens| && r.tokens[..|sc.tokens|] == sc.tokens
    ensures r.tokens[|r.tokens| - 1] == Token(Eof, "", None, r.line)
    ensures forall i :: |sc.tokens| <= i < |r.tokens| - 1 ==> r.tokens[i].kind != Eof
  {
    var sc1 := ScanLoop(sc);
    sc1.(tokens := sc1.tokens + [NewToken(Eof, "", None, sc1.line)])
  }

  /**
   A fresh scanner run over `source`, as the driver does: the token sequence
   ends in exactly one EOF token, with an empty lexeme, no literal and the
   final line.
   */
  function Scan(source: string): (r: Scanner)
    ensures EofTerminated(r.tokens) && r.source == source && r.line >= 1
    ensures r.tokens[|r.tokens| - 1] == Token(Eof, "", None, r.line)
  {
    ScanTokens(New(source))
  }
}
