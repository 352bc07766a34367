/**
 What one scan step does for each kind of leading character: the token or
 error it adds, how far it reads, and how it advances `line` (comment line
 breaks are not counted).
 */
module ScannerProperties {

  import opened Wrappers
  import opened Tokens
  import Keywords
  import opened Scanner

  // ----- Reference definitions -----

  /** The one-character kind of `!`, `=`, `<` and `>`. */
  function OneCharKind(c: char): TokenType
  {
    match c
    case '!' => Bang
    case '=' => Equal
    case '<' => Less
    case _ => Greater
  }

  /** The kind of `!`, `=`, `<` or `>` followed by `=`. */
  function TwoCharKind(c: char): TokenType
  {
    match c
    case '!' => BangEqual
    case '=' => EqualEqual
    case '<' => LessEqual
    case _ => GreaterEqual
  }

  /**
   What follows the first digit of a number: digits, and at most one `.`
   (none once `dotSeen`), which must be followed by a digit.
   */
  predicate NumberTail(t: string, dotSeen: bool)
    decreases |t|
  {
    || |t| == 0
    || (IsDigit(t[0]) && NumberTail(t[1..], dotSeen))
    || (!dotSeen && t[0] == '.' && |t| >= 2 && IsDigit(t[1]) && NumberTail(t[1..], true))
  }

  /** Digits, optionally followed by `.` and more digits. */
  predicate IsNumberLexeme(s: string)
  {
    |s| > 0 && IsDigit(s[0]) && NumberTail(s[1..], false)
  }

  /** A run of digits is a number tail, whether or not a `.` was seen before it. */
  lemma {:induction false} DigitsTail(s: string, i: nat, j: nat, dotSeen: bool)
    requires i <= j <= |s|
    requires forall k :: i <= k < j ==> IsDigit(s[k])
    ensures NumberTail(s[i..j], dotSeen)
    decreases j - i
  {
    if i < j {
      DigitsTail(s, i + 1, j, dotSeen);
      assert s[i..j][1..] == s[i + 1..j];
    }
  }

  /** Digits in front of a number tail leave it a number tail. */
  lemma {:induction false} PrefixTail(s: string, i: nat, d: nat, j: nat)
    requires i <= d <= j <= |s|
    requires forall k :: i <= k < d ==> IsDigit(s[k])
    requires NumberTail(s[d..j], false)
    ensures NumberTail(s[i..j], false)
    decreases d - i
  {
    if i < d {
      PrefixTail(s, i + 1, d, j);
      assert s[i..j][1..] == s[i + 1..j];
    }
  }

  /**
   The same language described character by character: it begins and ends
   with a digit, and besides digits holds at most one `.`.
   */
  predicate IsNumberText(s: string)
  {
    && |s| > 0 && IsDigit(s[0]) && IsDigit(s[|s| - 1])
    && (forall k :: 0 <= k < |s| ==> IsDigit(s[k]) || s[k] == '.')
    && (forall j, k :: 0 <= j < k < |s| && s[j] == '.' ==> s[k] != '.')
  }

  /** The character-by-character reading of `NumberTail`. */
  predicate IsTailText(t: string, dotSeen: bool)
  {
    && (|t| == 0 || IsDigit(t[|t| - 1]))
    && (forall k :: 0 <= k < |t| ==> IsDigit(t[k]) || t[k] == '.')
    && (forall j, k :: 0 <= j < k < |t| && t[j] == '.' ==> t[k] != '.')
    && (dotSeen ==> forall k :: 0 <= k < |t| ==> t[k] != '.')
  }

  lemma {:induction false} TailText(t: string, dotSeen: bool)
    ensures NumberTail(t, dotSeen) <==> IsTailText(t, dotSeen)
    decreases |t|
  {
    if |t| > 0 {
      var u := t[1..];
      TailText(u, dotSeen);
      TailText(u, true);
      assert forall k :: 0 < k < |t| ==> t[k] == u[k - 1];
      if |t| > 1 {
        assert t[|t| - 1] == u[|u| - 1];
      }
    }
  }

  /** The recursive and the character-by-character descriptions of a number lexeme agree. */
  lemma NumberLexemeIsText(s: string)
    ensures IsNumberLexeme(s) <==> IsNumberText(s)
  {
    if |s| > 0 {
      var u := s[1..];
      TailText(u, false);
      assert forall k :: 0 < k < |s| ==> s[k] == u[k - 1];
      if |s| > 1 {
        assert s[|s| - 1] == u[|u| - 1];
      }
    }
  }

  lemma IntegerIsNumberLexeme(s: string, i: nat, j: nat)
    requires i < j <= |s|
    requires forall k :: i <= k < j ==> IsDigit(s[k])
    ensures IsNumberLexeme(s[i..j])
  {
    DigitsTail(s, i + 1, j, false);
    assert s[i..j][1..] == s[i + 1..j];
  }

  lemma FractionIsNumberLexeme(s: string, i: nat, d: nat, j: nat)
    requires i < d && d + 1 < j <= |s|
    requires forall k :: i <= k < d ==> IsDigit(s[k])
    requires s[d] == '.'
    requires forall k :: d < k < j ==> IsDigit(s[k])
    ensures IsNumberLexeme(s[i..j])
  {
    DigitsTail(s, d + 1, j, true);
    assert s[d..j][1..] == s[d + 1..j];
    assert NumberTail(s[d..j], false);
    PrefixTail(s, i + 1, d, j);
    assert s[i..j][1..] == s[i + 1..j];
  }

  /**
   A digit run that is followed neither by a digit nor by `.` and a digit
   cannot be extended to a longer number lexeme.
   */
  lemma IntegerIsMaximal(s: string, i: nat, j: nat)
    requires i < j <= |s|
    requires forall k :: i <= k < j ==> IsDigit(s[k])
    requires j == |s| || !IsDigit(s[j])
    requires j + 1 < |s| && s[j] == '.' ==> !IsDigit(s[j + 1])
    ensures forall e :: j < e <= |s| ==> !IsNumberLexeme(s[i..e])
  {
    forall e | j < e <= |s|
      ensures !IsNumberLexeme(s[i..e])
    {
      NumberLexemeIsText(s[i..e]);
    }
  }

  /** A number with a fraction that no digit follows cannot be extended to a longer number lexeme. */
  lemma FractionIsMaximal(s: string, i: nat, d: nat, j: nat)
    requires i < d < j <= |s| && s[d] == '.'
    requires j == |s| || !IsDigit(s[j])
    ensures forall e :: j < e <= |s| ==> !IsNumberLexeme(s[i..e])
  {
    forall e | j < e <= |s|
      ensures !IsNumberLexeme(s[i..e])
    {
      NumberLexemeIsText(s[i..e]);
    }
  }

  /** A maximal digit run with no fraction after it is a maximal number lexeme. */
  lemma IntegerNumber(s: string, i: nat, j: nat)
    requires i < j <= |s|
    requires forall k :: i <= k < j ==> IsDigit(s[k])
    requires j == |s| || !IsDigit(s[j])
    requires j + 1 < |s| && s[j] == '.' ==> !IsDigit(s[j + 1])
    ensures IsNumberLexeme(s[i..j])
    ensures forall e :: j < e <= |s| ==> !IsNumberLexeme(s[i..e])
  {
    IntegerIsNumberLexeme(s, i, j);
    IntegerIsMaximal(s, i, j);
  }

  /** Digits, a `.` and a maximal digit run form a maximal number lexeme. */
  lemma FractionNumber(s: string, i: nat, d: nat, j: nat)
    requires i < d && d + 1 < j <= |s| && s[d] == '.'
    requires forall k :: i <= k < d ==> IsDigit(s[k])
    requires forall k :: d < k < j ==> IsDigit(s[k])
    requires j == |s| || !IsDigit(s[j])
    ensures IsNumberLexeme(s[i..j])
    ensures forall e :: j < e <= |s| ==> !IsNumberLexeme(s[i..e])
  {
    FractionIsNumberLexeme(s, i, d, j);
    FractionIsMaximal(s, i, d, j);
  }

  /** A letter or `_` followed by letters, digits and `_`. */
  predicate IsIdentifierLexeme(s: string)
  {
    |s| > 0 && IsAlpha(s[0]) && forall k :: 0 <= k < |s| ==> IsAlphaNumeric(s[k])
  }

  /** A character no arm of `scan_token` accepts. */
  predicate IsUnexpected(c: char)
  {
    PunctuationKind(c).None? && c !in "!=<>/ \r\t\n\"" && !IsAlphaNumeric(c)
  }

  // A line comment or a block comment starts at `k`.
  predicate StartsComment(source: string, k: nat)
  {
    k + 1 < |source| && source[k] == '/' && (source[k + 1] == '/' || source[k + 1] == '*')
  }

  /** A scan step that begins at the first character still unread. */
  predicate AtLexemeStart(sc: Scanner)
  {
    sc.start == sc.current < |sc.source|
  }

  // ----- Single-character tokens -----

  /** The punctuation table gives exactly the ten single-character kinds other than SLASH. */
  lemma PunctuationKindsAreSingleCharacter(c: char)
    ensures PunctuationKind(c).Some? ==>
      CategoryOf(PunctuationKind(c).value) == SingleCharacter && PunctuationKind(c).value != Slash
    ensures forall t :: CategoryOf(t) == SingleCharacter && t != Slash ==>
      exists d :: d in "(){},.-+;*" && PunctuationKind(d) == Some(t)
  {
    forall t | CategoryOf(t) == SingleCharacter && t != Slash
      ensures exists d :: d in "(){},.-+;*" && PunctuationKind(d) == Some(t)
    {
      var d :=
        match t
        case LeftParen => '(' case RightParen => ')' case LeftBrace => '{'
        case RightBrace => '}' case Comma => ',' case Dot => '.'
        case Minus => '-' case Plus => '+' case Semicolon => ';' case _ => '*';
      assert d in "(){},.-+;*" && PunctuationKind(d) == Some(t);
    }
  }

  /** A punctuation character is a one-character token on its own. */
  lemma PunctuationStep(sc: Scanner)
    requires AtLexemeStart(sc) && PunctuationKind(sc.source[sc.current]).Some?
    ensures var r := ScanToken(sc);
      && r.current == sc.current + 1 && r.line == sc.line && r.errors == sc.errors
      && r.tokens == sc.tokens
           + [Token(PunctuationKind(sc.source[sc.current]).value, [sc.source[sc.current]], None, sc.line)]
  {
    assert sc.source[sc.current..sc.current + 1] == [sc.source[sc.current]];
  }

  /**
   Maximal munch for `!`, `=`, `<`, `>`: with `=` next, both characters form
   the two-character kind; otherwise the one-character kind is emitted and the
   next character is left for the following step.
   */
  lemma OperatorStep(sc: Scanner)
    requires AtLexemeStart(sc) && sc.source[sc.current] in "!=<>"
    ensures var c := sc.source[sc.current];
      var r := ScanToken(sc);
      && r.line == sc.line && r.errors == sc.errors
      && CategoryOf(OneCharKind(c)) == OneOrTwoCharacter
      && CategoryOf(TwoCharKind(c)) == OneOrTwoCharacter
      && (if sc.current + 1 < |sc.source| && sc.source[sc.current + 1] == '=' then
            r.current == sc.current + 2 && r.tokens == sc.tokens + [Token(TwoCharKind(c), [c, '='], None, sc.line)]
          else
            r.current == sc.current + 1 && r.tokens == sc.tokens + [Token(OneCharKind(c), [c], None, sc.line)])
  {
    var c := sc.source[sc.current];
    assert PunctuationKind(c).None?;
    if sc.current + 1 < |sc.source| && sc.source[sc.current + 1] == '=' {
      assert sc.source[sc.current..sc.current + 2] == [c, '='];
    } else {
      assert sc.source[sc.current..sc.current + 1] == [c];
    }
  }

  /**
   `/` starts a line comment, a block comment, or is SLASH. Comments emit
   nothing and leave `line` unchanged, whatever line breaks they contain.
   */
  lemma SlashStep(sc: Scanner)
    requires AtLexemeStart(sc) && sc.source[sc.current] == '/'
    ensures var s := sc.source;
      var i := sc.current;
      var r := ScanToken(sc);
      && r.line == sc.line && r.errors == sc.errors
      && (if i + 1 < |s| && s[i + 1] == '/' then
            && r.tokens == sc.tokens
            && (|| (r.current == |s| && forall k :: i + 2 <= k < |s| ==> s[k] != '\n')
                || (i + 2 < r.current && s[r.current - 1] == '\n'
                    && forall k :: i + 2 <= k < r.current - 1 ==> s[k] != '\n'))
          else if i + 1 < |s| && s[i + 1] == '*' then
            && r.tokens == sc.tokens
            && (|| (r.current == |s| && forall k :: i + 2 <= k < |s| ==> !ClosesAt(s, k))
                || (i + 4 <= r.current && ClosesAt(s, r.current - 2)
                    && forall k :: i + 2 <= k < r.current - 2 ==> !ClosesAt(s, k)))
          else
            r.current == i + 1 && r.tokens == sc.tokens + [Token(Slash, "/", None, sc.line)])
  {
    assert PunctuationKind('/').None?;
    assert sc.source[sc.current..sc.current + 1] == "/";
  }

  /** Space, carriage return and tab are skipped. */
  lemma WhitespaceStep(sc: Scanner)
    requires AtLexemeStart(sc) && sc.source[sc.current] in " \r\t"
    ensures ScanToken(sc) == sc.(current := sc.current + 1)
  {
    assert PunctuationKind(sc.source[sc.current]).None?;
  }

  /** A line break outside strings and comments is skipped and advances `line`. */
  lemma NewlineStep(sc: Scanner)
    requires AtLexemeStart(sc) && sc.source[sc.current] == '\n'
    ensures ScanToken(sc) == sc.(current := sc.current + 1, line := sc.line + 1)
  {
  }

  lemma DispatchString(sc: Scanner)
    requires AtLexemeStart(sc) && sc.source[sc.current] == '"'
    ensures ScanToken(sc) == ScanString(sc.(current := sc.current + 1))
  {
    assert PunctuationKind('"').None? && '"' !in "!=<>";
  }

  lemma DispatchNumber(sc: Scanner)
    requires AtLexemeStart(sc) && IsDigit(sc.source[sc.current])
    ensures ScanToken(sc) == ScanNumber(sc.(current := sc.current + 1))
  {
    assert PunctuationKind(sc.source[sc.current]).None?;
  }

  /** A slice from one quote to another is the text between them, quoted. */
  lemma QuotedSlice(s: string, i: nat, q: nat)
    requires i < q < |s| && s[i] == '"' && s[q] == '"'
    ensures s[i..q + 1] == "\"" + s[i + 1..q] + "\""
  {
  }

  /** There is no `"` at or after `i` exactly when the search for one runs to the end. */
  lemma NoQuoteAhead(s: string, i: nat)
    requires i <= |s|
    ensures FirstQuote(s, i) == |s| <==> forall k :: i <= k < |s| ==> s[k] != '"'
  {
    FirstQuoteIsFirst(s, i);
  }

  /** When `string`'s body loop stops on a quote, `string` closes there. */
  lemma ScanStringCloses(sc: Scanner)
    requires Valid(sc) && sc.start < sc.current && ConsumeStringBody(sc).current < |sc.source|
    ensures ScanString(sc) == CloseString(ConsumeStringBody(sc))
  {
  }

  /**
   The state `string` leaves when it closes on the quote at `q`: just past
   `q`, with the body's line breaks counted and a token spanning both quotes.
   */
  predicate ClosedAt(sc: Scanner, q: nat, r: Scanner)
    requires sc.start < sc.current <= q < |sc.source|
  {
    var s := sc.source;
    && r.current == q + 1
    && r.line == sc.line + NewlinesIn(s, sc.current, q)
    && r.errors == sc.errors
    && r.tokens == sc.tokens + [Token(String, s[sc.start..q + 1], Some(StringValue(s[sc.start + 1..q])), r.line)]
  }

  /**
   `string` with a quote at `q`, the first after the opening one: it stops
   just past `q` and emits a token spanning both quotes.
   */
  lemma StringLayout(sc: Scanner)
    requires Valid(sc) && sc.start + 1 == sc.current && FirstQuote(sc.source, sc.current) < |sc.source|
    ensures ClosedAt(sc, FirstQuote(sc.source, sc.current), ScanString(sc))
  {
    ScanStringCloses(sc);
  }

  /**
   `string` with a closing quote ahead: the lexeme is the body between the
   quotes with the quotes around it, and the literal is the body alone.
   */
  lemma ScanStringTerminated(sc: Scanner)
    requires Valid(sc) && sc.start + 1 == sc.current && sc.source[sc.start] == '"'
    requires exists k :: sc.current <= k < |sc.source| && sc.source[k] == '"'
    ensures var s := sc.source;
      var q := FirstQuote(s, sc.current);
      var r := ScanString(sc);
      && q < |s| && r.current == q + 1
      && var body := s[sc.current..q];
         r.tokens == sc.tokens + [Token(String, "\"" + body + "\"", Some(StringValue(body)), r.line)]
  {
    var s := sc.source;
    NoQuoteAhead(s, sc.current);
    FirstQuoteIsFirst(s, sc.current);
    StringLayout(sc);
    QuotedSlice(s, sc.start, FirstQuote(s, sc.current));
  }

  /** `string` without a closing quote: one error, no token. */
  lemma ScanStringUnterminated(sc: Scanner)
    requires Valid(sc) && sc.start < sc.current
    requires forall k :: sc.current <= k < |sc.source| ==> sc.source[k] != '"'
    ensures var s := sc.source;
      var r := ScanString(sc);
      && r.current == |s|
      && r.tokens == sc.tokens
      && r.line == sc.line + NewlinesIn(s, sc.current, |s|)
      && r.errors == sc.errors + [Diagnostic(r.line, "Unterminated string.")]
  {
    NoQuoteAhead(sc.source, sc.current);
  }

  /**
   A string literal runs to the first following `"`, at `q`. Its literal is
   the text strictly between the quotes, its lexeme includes them, and each
   line break inside advances `line`; the token carries the line the literal
   ends on.
   */
  lemma StringStep(sc: Scanner)
    requires AtLexemeStart(sc) && sc.source[sc.current] == '"'
    requires exists k :: sc.current < k < |sc.source| && sc.source[k] == '"'
    ensures var s := sc.source;
      var i := sc.current;
      var q := FirstQuote(s, i + 1);
      var r := ScanToken(sc);
      var body := s[i + 1..q];
      && q < |s| && s[q] == '"' && (forall k :: i < k < q ==> s[k] != '"')
      && r.current == q + 1
      && r.line == sc.line + NewlinesIn(s, i + 1, q)
      && r.errors == sc.errors
      && r.tokens == sc.tokens + [Token(String, "\"" + body + "\"", Some(StringValue(body)), r.line)]
  {
    var sc1 := sc.(current := sc.current + 1);
    DispatchString(sc);
    FirstQuoteIsFirst(sc.source, sc.current + 1);
    ScanStringTerminated(sc1);
    StringLayout(sc1);
  }

  /**
   Without a closing quote the rest of the input is consumed (its line breaks
   still counted), one error is reported at the line reached and no token is
   emitted.
   */
  lemma UnterminatedStringStep(sc: Scanner)
    requires AtLexemeStart(sc) && sc.source[sc.current] == '"'
    requires forall k :: sc.current < k < |sc.source| ==> sc.source[k] != '"'
    ensures var s := sc.source;
      var r := ScanToken(sc);
      && r.current == |s|
      && r.tokens == sc.tokens
      && r.line == sc.line + NewlinesIn(s, sc.current + 1, |s|)
      && r.errors == sc.errors + [Diagnostic(r.line, "Unterminated string.")]
  {
    DispatchString(sc);
    ScanStringUnterminated(sc.(current := sc.current + 1));
  }

  /** `number` emits one NUMBER token whose literal is its lexeme. */
  lemma ScanNumberEmits(sc: Scanner)
    requires Valid(sc) && sc.start + 1 == sc.current
    ensures var r := ScanNumber(sc);
      var lexeme := sc.source[sc.start..r.current];
      && r.line == sc.line && r.errors == sc.errors
      && r.tokens == sc.tokens + [Token(Number, lexeme, Some(NumberValue(lexeme)), sc.line)]
  {
  }

  /** `number` stops where its optional fraction ends. */
  lemma ScanNumberStops(sc: Scanner)
    requires Valid(sc)
    ensures ScanNumber(sc).current == ScanFraction(ConsumeWhile(sc, IsDigit)).current
  {
  }

  /** The leading digit run of a number, taken on its own. */
  lemma DigitRun(sc: Scanner)
    requires Valid(sc) && sc.start + 1 == sc.current && IsDigit(sc.source[sc.start])
    ensures var j := ConsumeWhile(sc, IsDigit).current;
      && sc.start < j
      && (forall k :: sc.start <= k < j ==> IsDigit(sc.source[k]))
      && (j == |sc.source| || !IsDigit(sc.source[j]))
  {
    var r := ConsumeWhile(sc, IsDigit);
    forall k | sc.start <= k < r.current
      ensures IsDigit(sc.source[k])
    {
      if k != sc.start {
        assert sc.current <= k < r.current;
      }
    }
  }

  /** When `number` takes no fraction, no `.` followed by a digit comes next. */
  lemma NoFractionNext(sc: Scanner)
    requires !(Peek(sc) == '.' && IsDigit(PeekNext(sc)))
    ensures sc.current + 1 < |sc.source| && sc.source[sc.current] == '.' ==> !IsDigit(sc.source[sc.current + 1])
  {
  }

  /** Where the digits, the `.` and the fraction of a number with a fraction lie. */
  lemma FractionLayout(sc: Scanner)
    requires Valid(sc) && sc.start + 1 == sc.current && IsDigit(sc.source[sc.start])
    requires var sc1 := ConsumeWhile(sc, IsDigit); Peek(sc1) == '.' && IsDigit(PeekNext(sc1))
    ensures var s := sc.source;
      var d := ConsumeWhile(sc, IsDigit).current;
      var j := ScanNumber(sc).current;
      && sc.start < d && d + 1 < j <= |s| && s[d] == '.'
      && (forall k :: sc.start <= k < d ==> IsDigit(s[k]))
      && (forall k :: d < k < j ==> IsDigit(s[k]))
      && (j == |s| || !IsDigit(s[j]))
  {
    ScanNumberStops(sc);
    DigitRun(sc);
  }

  /** `number` when a `.` and a digit follow the leading digits. */
  lemma ScanNumberWithFraction(sc: Scanner)
    requires Valid(sc) && sc.start + 1 == sc.current && IsDigit(sc.source[sc.start])
    requires var sc1 := ConsumeWhile(sc, IsDigit); Peek(sc1) == '.' && IsDigit(PeekNext(sc1))
    ensures var j := ScanNumber(sc).current;
      && IsNumberLexeme(sc.source[sc.start..j])
      && forall e :: j < e <= |sc.source| ==> !IsNumberLexeme(sc.source[sc.start..e])
  {
    FractionLayout(sc);
    FractionNumber(sc.source, sc.start, ConsumeWhile(sc, IsDigit).current, ScanNumber(sc).current);
  }

  /** Where the digits of a number without a fraction lie, and what follows them. */
  lemma IntegerLayout(sc: Scanner)
    requires Valid(sc) && sc.start + 1 == sc.current && IsDigit(sc.source[sc.start])
    requires var sc1 := ConsumeWhile(sc, IsDigit); !(Peek(sc1) == '.' && IsDigit(PeekNext(sc1)))
    ensures var s := sc.source;
      var j := ScanNumber(sc).current;
      && sc.start < j <= |s|
      && (forall k :: sc.start <= k < j ==> IsDigit(s[k]))
      && (j == |s| || !IsDigit(s[j]))
      && (j + 1 < |s| && s[j] == '.' ==> !IsDigit(s[j + 1]))
  {
    ScanNumberStops(sc);
    DigitRun(sc);
    NoFractionNext(ConsumeWhile(sc, IsDigit));
  }

  /** `number` when no `.` and digit follow the leading digits. */
  lemma ScanNumberWithoutFraction(sc: Scanner)
    requires Valid(sc) && sc.start + 1 == sc.current && IsDigit(sc.source[sc.start])
    requires var sc1 := ConsumeWhile(sc, IsDigit); !(Peek(sc1) == '.' && IsDigit(PeekNext(sc1)))
    ensures var j := ScanNumber(sc).current;
      && IsNumberLexeme(sc.source[sc.start..j])
      && forall e :: j < e <= |sc.source| ==> !IsNumberLexeme(sc.source[sc.start..e])
  {
    IntegerLayout(sc);
    IntegerNumber(sc.source, sc.start, ScanNumber(sc).current);
  }

  /**
   `number` consumes a number lexeme, once the first digit has been consumed,
   and the longest one there is: no longer slice from the same start is one.
   */
  lemma ScanNumberExtent(sc: Scanner)
    requires Valid(sc) && sc.start + 1 == sc.current && IsDigit(sc.source[sc.start])
    ensures var s := sc.source;
      var r := ScanNumber(sc);
      && IsNumberLexeme(s[sc.start..r.current])
      && forall e :: r.current < e <= |s| ==> !IsNumberLexeme(s[sc.start..e])
  {
    var sc1 := ConsumeWhile(sc, IsDigit);
    if Peek(sc1) == '.' && IsDigit(PeekNext(sc1)) {
      ScanNumberWithFraction(sc);
    } else {
      ScanNumberWithoutFraction(sc);
    }
  }

  /**
   A number is a maximal run of digits, extended by `.` and a further maximal
   run of digits only when a digit follows the `.`. The literal holds the
   lexeme text.
   */
  lemma NumberStep(sc: Scanner)
    requires AtLexemeStart(sc) && IsDigit(sc.source[sc.current])
    ensures var s := sc.source;
      var r := ScanToken(sc);
      var lexeme := s[sc.current..r.current];
      && r.line == sc.line && r.errors == sc.errors
      && r.tokens == sc.tokens + [Token(Number, lexeme, Some(NumberValue(lexeme)), sc.line)]
      && IsNumberLexeme(lexeme)
      && forall e :: r.current < e <= |s| ==> !IsNumberLexeme(s[sc.current..e])
  {
    DispatchNumber(sc);
    ScanNumberEmits(sc.(current := sc.current + 1));
    ScanNumberExtent(sc.(current := sc.current + 1));
  }

  lemma DispatchIdentifier(sc: Scanner)
    requires AtLexemeStart(sc) && IsAlpha(sc.source[sc.current])
    ensures ScanToken(sc) == ScanIdentifier(sc.(current := sc.current + 1))
  {
    var c := sc.source[sc.current];
    assert PunctuationKind(c).None? && c !in "!=<>" && !IsDigit(c);
  }

  /** `identifier` consumes the maximal alphanumeric run and looks it up in the keyword table. */
  lemma ScanIdentifierShape(sc: Scanner)
    requires Valid(sc) && sc.start + 1 == sc.current && IsAlpha(sc.source[sc.start])
    ensures var s := sc.source;
      var r := ScanIdentifier(sc);
      var lexeme := s[sc.start..r.current];
      && r.line == sc.line && r.errors == sc.errors
      && IsIdentifierLexeme(lexeme)
      && (r.current == |s| || !IsAlphaNumeric(s[r.current]))
      && r.tokens == sc.tokens + [Token(
           if lexeme in Keywords.KeywordTable then Keywords.KeywordTable[lexeme] else Identifier,
           lexeme, None, sc.line)]
  {
    var sc1 := ConsumeWhile(sc, IsAlphaNumeric);
    var lexeme := sc.source[sc.start..sc1.current];
    var kind := if lexeme in Keywords.KeywordTable then Keywords.KeywordTable[lexeme] else Identifier;
    assert ScanIdentifier(sc) == AddToken(sc1, kind, None);
    AddTokenAppends(sc1, kind, None);
  }

  /**
   An identifier is a maximal run of letters, digits and `_` that begins with
   a letter or `_`. It is the keyword kind when the run is in the keyword
   table and IDENTIFIER otherwise; neither carries a literal.
   */
  lemma IdentifierStep(sc: Scanner)
    requires AtLexemeStart(sc) && IsAlpha(sc.source[sc.current])
    ensures var s := sc.source;
      var r := ScanToken(sc);
      var lexeme := s[sc.current..r.current];
      && r.line == sc.line && r.errors == sc.errors
      && IsIdentifierLexeme(lexeme)
      && (r.current == |s| || !IsAlphaNumeric(s[r.current]))
      && r.tokens == sc.tokens + [Token(
           if lexeme in Keywords.KeywordTable then Keywords.KeywordTable[lexeme] else Identifier,
           lexeme, None, sc.line)]
  {
    DispatchIdentifier(sc);
    ScanIdentifierShape(sc.(current := sc.current + 1));
  }

  /** Any other character is reported at the current line and skipped. */
  lemma UnexpectedStep(sc: Scanner)
    requires AtLexemeStart(sc) && IsUnexpected(sc.source[sc.current])
    ensures ScanToken(sc) == sc.(
      current := sc.current + 1,
      errors := sc.errors + [Diagnostic(sc.line, "Unexpected character: '" + [sc.source[sc.current]] + "'")])
  {
  }

  /**
   Where a step reports a lexical error: at a character no arm accepts, and
   at a `"` that no later quote closes.
   */
  predicate ReportsError(s: string, i: nat)
    requires i < |s|
  {
    IsUnexpected(s[i]) || (s[i] == '"' && FirstQuote(s, i + 1) == |s|)
  }

  /** A string step reports an error exactly when no quote closes the string, and then one. */
  lemma StringErrors(sc: Scanner)
    requires AtLexemeStart(sc) && sc.source[sc.current] == '"'
    ensures var r := ScanToken(sc);
      && (r.errors == sc.errors <==> FirstQuote(sc.source, sc.current + 1) < |sc.source|)
      && |r.errors| <= |sc.errors| + 1
  {
    DispatchString(sc);
  }

  /**
   A step adds exactly one diagnostic where `ReportsError` holds and leaves
   the errors unchanged everywhere else.
   */
  lemma StepErrors(sc: Scanner)
    requires AtLexemeStart(sc)
    ensures var r := ScanToken(sc);
      && (r.errors == sc.errors <==> !ReportsError(sc.source, sc.current))
      && (ReportsError(sc.source, sc.current) ==> |r.errors| == |sc.errors| + 1)
  {
    var c := sc.source[sc.current];
    if c == '"' {
      StringErrors(sc);
    } else if IsUnexpected(c) {
      UnexpectedStep(sc);
    }
  }

  lemma {:induction false} NoNewlineNoCount(s: string, i: nat, j: nat)
    requires i <= j <= |s|
    requires forall k :: i <= k < j ==> s[k] != '\n'
    ensures NewlinesIn(s, i, j) == 0
    decreases j - i
  {
    if i < j {
      NoNewlineNoCount(s, i + 1, j);
    }
  }

  /** The line count of the text a step consumed, comments counting none. */
  predicate LineAccounted(sc: Scanner, r: Scanner)
    requires sc.current <= r.current <= |sc.source|
  {
    r.line == sc.line
      + (if StartsComment(sc.source, sc.current) then 0
         else NewlinesIn(sc.source, sc.current, r.current))
  }

  lemma LineAccountingShort(sc: Scanner)
    requires AtLexemeStart(sc)
    requires var c := sc.source[sc.current];
      PunctuationKind(c).Some? || c in "!=<>" || c in " \r\t" || IsUnexpected(c)
    ensures LineAccounted(sc, ScanToken(sc))
  {
    var s := sc.source;
    var i := sc.current;
    var c := s[i];
    var r := ScanToken(sc);
    if PunctuationKind(c).Some? {
      PunctuationStep(sc);
    } else if c in "!=<>" {
      OperatorStep(sc);
    } else if c in " \r\t" {
      WhitespaceStep(sc);
    } else {
      UnexpectedStep(sc);
    }
    NoNewlineNoCount(s, i, r.current);
  }

  lemma LineAccountingSlashOrNewline(sc: Scanner)
    requires AtLexemeStart(sc) && sc.source[sc.current] in "/\n"
    ensures LineAccounted(sc, ScanToken(sc))
  {
    var s := sc.source;
    var i := sc.current;
    var r := ScanToken(sc);
    if s[i] == '/' {
      SlashStep(sc);
      if !StartsComment(s, i) {
        NoNewlineNoCount(s, i, r.current);
      }
    } else {
      NewlineStep(sc);
      assert NewlinesIn(s, i + 1, r.current) == 0;
    }
  }

  /** Quotes around a text add no line breaks to it. */
  lemma QuotesAddNoLines(s: string, i: nat, q: nat)
    requires i < q < |s| && s[i] == '"' && s[q] == '"'
    ensures NewlinesIn(s, i, q + 1) == NewlinesIn(s, i + 1, q)
  {
    NewlinesInSplit(s, i + 1, q, q + 1);
  }

  /** A string closed on the quote at `q` has counted the line breaks of its whole lexeme. */
  lemma ClosedLines(sc: Scanner, q: nat, r: Scanner)
    requires sc.start + 1 == sc.current <= q < |sc.source|
    requires sc.source[sc.start] == '"' && sc.source[q] == '"'
    requires ClosedAt(sc, q, r)
    ensures r.line == sc.line + NewlinesIn(sc.source, sc.start, r.current)
  {
    QuotesAddNoLines(sc.source, sc.start, q);
  }

  /** `string` with a closing quote: `line` rises by the line breaks of the whole lexeme. */
  lemma StringLinesTerminated(sc: Scanner)
    requires Valid(sc) && sc.start + 1 == sc.current && sc.source[sc.start] == '"'
    requires FirstQuote(sc.source, sc.current) < |sc.source|
    ensures ScanString(sc).line == sc.line + NewlinesIn(sc.source, sc.start, ScanString(sc).current)
  {
    var q := FirstQuote(sc.source, sc.current);
    FirstQuoteIsFirst(sc.source, sc.current);
    StringLayout(sc);
    ClosedLines(sc, q, ScanString(sc));
  }

  /** `string` without a closing quote: `line` rises by the line breaks of the rest of the input. */
  lemma StringLinesUnterminated(sc: Scanner)
    requires Valid(sc) && sc.start + 1 == sc.current && sc.source[sc.start] == '"'
    requires FirstQuote(sc.source, sc.current) == |sc.source|
    ensures ScanString(sc).line == sc.line + NewlinesIn(sc.source, sc.start, ScanString(sc).current)
  {
    NoQuoteAhead(sc.source, sc.current);
    ScanStringUnterminated(sc);
  }

  lemma LineAccountingString(sc: Scanner)
    requires AtLexemeStart(sc) && sc.source[sc.current] == '"'
    ensures LineAccounted(sc, ScanToken(sc))
  {
    var sc1 := sc.(current := sc.current + 1);
    DispatchString(sc);
    if FirstQuote(sc.source, sc.current + 1) < |sc.source| {
      StringLinesTerminated(sc1);
    } else {
      StringLinesUnterminated(sc1);
    }
  }

  /** A number lexeme holds only digits and a `.`, so no line break. */
  lemma NumberHasNoLineBreak(sc: Scanner)
    requires Valid(sc) && sc.start + 1 == sc.current && IsDigit(sc.source[sc.start])
    ensures forall k :: sc.start <= k < ScanNumber(sc).current ==> sc.source[k] != '\n'
  {
    var sc1 := ConsumeWhile(sc, IsDigit);
    if Peek(sc1) == '.' && IsDigit(PeekNext(sc1)) {
      FractionLayout(sc);
      forall k | sc.start <= k < ScanNumber(sc).current
        ensures sc.source[k] != '\n'
      {
        if k != sc1.current {
          assert IsDigit(sc.source[k]);
        }
      }
    } else {
      IntegerLayout(sc);
    }
  }

  /** An identifier lexeme holds only letters, digits and `_`, so no line break. */
  lemma IdentifierHasNoLineBreak(sc: Scanner)
    requires Valid(sc) && sc.start + 1 == sc.current && IsAlpha(sc.source[sc.start])
    ensures forall k :: sc.start <= k < ScanIdentifier(sc).current ==> sc.source[k] != '\n'
  {
    var sc1 := ConsumeWhile(sc, IsAlphaNumeric);
    assert ScanIdentifier(sc).current == sc1.current;
    forall k | sc.start <= k < sc1.current
      ensures sc.source[k] != '\n'
    {
      if k != sc.start {
        assert IsAlphaNumeric(sc.source[k]);
      }
    }
  }

  lemma LineAccountingNumber(sc: Scanner)
    requires AtLexemeStart(sc) && IsDigit(sc.source[sc.current])
    ensures LineAccounted(sc, ScanToken(sc))
  {
    var sc1 := sc.(current := sc.current + 1);
    DispatchNumber(sc);
    ScanNumberEmits(sc1);
    NumberHasNoLineBreak(sc1);
    NoNewlineNoCount(sc.source, sc.current, ScanToken(sc).current);
  }

  lemma LineAccountingIdentifier(sc: Scanner)
    requires AtLexemeStart(sc) && IsAlpha(sc.source[sc.current])
    ensures LineAccounted(sc, ScanToken(sc))
  {
    var sc1 := sc.(current := sc.current + 1);
    DispatchIdentifier(sc);
    IdentifierStep(sc);
    IdentifierHasNoLineBreak(sc1);
    NoNewlineNoCount(sc.source, sc.current, ScanToken(sc).current);
  }

  lemma LineAccountingWord(sc: Scanner)
    requires AtLexemeStart(sc) && IsAlphaNumeric(sc.source[sc.current])
    ensures LineAccounted(sc, ScanToken(sc))
  {
    if IsDigit(sc.source[sc.current]) {
      LineAccountingNumber(sc);
    } else {
      LineAccountingIdentifier(sc);
    }
  }

  /**
   Line accounting: a step advances `line` by the number of line breaks it
   consumed, except that a step consuming a comment leaves `line` unchanged,
   whatever line breaks the comment contains.
   */
  lemma StepLineAccounting(sc: Scanner)
    requires AtLexemeStart(sc)
    ensures var r := ScanToken(sc);
      r.line == sc.line
        + (if StartsComment(sc.source, sc.current) then 0
           else NewlinesIn(sc.source, sc.current, r.current))
  {
    var c := sc.source[sc.current];
    if c == '"' {
      LineAccountingString(sc);
    } else if c in "/\n" {
      LineAccountingSlashOrNewline(sc);
    } else if IsAlphaNumeric(c) {
      LineAccountingWord(sc);
    } else {
      LineAccountingShort(sc);
    }
  }
}
