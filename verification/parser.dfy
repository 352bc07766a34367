/**
 The parser's token cursor: the token list taken over from the scanner and
 the index of the next token to consume. No grammar rule is modelled.
 */
module Parser {

  import opened Wrappers
  import opened Tokens
  import Scanner

  datatype Parse = Parse(tokens: seq<Token>, current: nat)

  /**
   The cursor stays on a token of a list the scanner could have produced; the
   cursor of a parser built on a finished scan starts out this way.
   */
  predicate Valid(p: Parse)
  {
    EofTerminated(p.tokens) && p.current < |p.tokens|
  }

  /** The token `advance` hands out once the cursor sits on EOF; it carries line 0. */
  const EndOfInput: Token := NewToken(Eof, "", None, 0)

  /** `Parse::new`: take over the scanner's tokens and start at the first one. */
  function New(sc: Scanner.Scanner): (p: Parse)
    ensures p.current == 0 && p.tokens == sc.tokens
  {
    Parse(sc.tokens, 0)
  }

  /** A parser built on the result of a complete scan is valid and looks at the first token. */
  lemma NewAfterScanIsValid(source: string)
    ensures Valid(New(Scanner.Scan(source)))
    ensures Peek(New(Scanner.Scan(source))) == Scanner.Scan(source).tokens[0]
  {
  }

  /**
   `peek`: the token under the cursor (indexing past the end panics in the
   source). On a scanned token list it is EOF only on the last token.
   */
  function Peek(p: Parse): (t: Token)
    requires p.current < |p.tokens|
    ensures EofTerminated(p.tokens) ==> (t.kind == Eof <==> p.current == |p.tokens| - 1)
  {
    p.tokens[p.current]
  }

  /** `is_at_end`: the token under the cursor is EOF, which on a scanned list is the last token. */
  function IsAtEnd(p: Parse): (b: bool)
    requires p.current < |p.tokens|
    ensures EofTerminated(p.tokens) ==> (b <==> p.current == |p.tokens| - 1)
  {
    Peek(p).kind == Eof
  }

  /** On a valid cursor, being at the end means sitting on the last token. */
  lemma AtEndIsLastToken(p: Parse)
    requires Valid(p)
    ensures IsAtEnd(p) <==> p.current == |p.tokens| - 1
  {
  }

  /**
   `advance`: at the end the cursor stays put and the synthetic end token is
   returned; otherwise the token under the cursor is returned and the cursor
   moves one step.
   */
  function Advance(p: Parse): (r: (Parse, Token))
    requires p.current < |p.tokens|
    ensures r.0.tokens == p.tokens
    ensures r.0.current == p.current || r.0.current == p.current + 1
    ensures r.0.current == p.current <==> Peek(p).kind == Eof
    ensures r.1 == if Peek(p).kind == Eof then EndOfInput else Peek(p)
  {
    if IsAtEnd(p) then
      (p, NewToken(Eof, "", None, 0))
    else
      var token := p.tokens[p.current];
      (p.(current := p.current + 1), token)
  }

  /** `advance` never moves a valid cursor off the token list. */
  lemma AdvanceKeepsValid(p: Parse)
    requires Valid(p)
    ensures Valid(Advance(p).0)
  {
  }

  /** `n` consecutive calls of `advance`, with the tokens they return in order. */
  function AdvanceTimes(p: Parse, n: nat): (r: (Parse, seq<Token>))
    requires Valid(p)
    ensures Valid(r.0) && |r.1| == n
    decreases n
  {
    if n == 0 then (p, [])
    else
      AdvanceKeepsValid(p);
      var (q, t) := Advance(p);
      var (q', ts) := AdvanceTimes(q, n - 1);
      (q', [t] + ts)
  }

  function Min(a: int, b: int): int
  {
    if a <= b then a else b
  }

  /** `n` copies of the synthetic end token. */
  function EndTokens(n: nat): (r: seq<Token>)
    ensures |r| == n && forall i :: 0 <= i < n ==> r[i] == EndOfInput
  {
    if n == 0 then [] else [EndOfInput] + EndTokens(n - 1)
  }

  /**
   Reading the token at `c` ahead of the `m - 1` tokens after it and the end
   tokens is reading `m` tokens from `c`.
   */
  lemma ReadOne(s: seq<Token>, c: nat, m: nat, n: nat, c': nat, m': nat, rest: seq<Token>)
    requires 0 < m <= n && c + m <= |s| && c' == c + 1 && m' == m - 1
    requires rest == s[c'..c' + m'] + EndTokens(n - 1 - m')
    ensures [s[c]] + rest == s[c..c + m] + EndTokens(n - m)
  {
    assert s[c..c + m] == [s[c]] + s[c'..c' + m'];
  }

  /** `n` calls of `advance` are one call followed by `n - 1` more. */
  lemma AdvanceTimesUnfold(p: Parse, n: nat)
    requires Valid(p) && n > 0
    ensures Valid(Advance(p).0)
    ensures AdvanceTimes(p, n).0 == AdvanceTimes(Advance(p).0, n - 1).0
    ensures AdvanceTimes(p, n).1 == [Advance(p).1] + AdvanceTimes(Advance(p).0, n - 1).1
  {
    AdvanceKeepsValid(p);
  }

  /** Once on EOF, further calls of `advance` return only the synthetic end token. */
  lemma {:induction false} AtEndStays(p: Parse, n: nat)
    requires Valid(p) && IsAtEnd(p)
    ensures AdvanceTimes(p, n).0 == p && AdvanceTimes(p, n).1 == EndTokens(n)
    decreases n
  {
    if n > 0 {
      AdvanceTimesUnfold(p, n);
      AtEndStays(p, n - 1);
    }
  }

  /**
   What `n` calls of `advance` from `p` leave: the cursor moved by `m`, the
   number of tokens before EOF that remain, capped at `n`; the tokens read
   are those `m` tokens in order followed by `n - m` synthetic end tokens.
   */
  predicate ReadsAhead(p: Parse, n: nat, r: (Parse, seq<Token>))
    requires Valid(p)
  {
    var m := Min(n, |p.tokens| - 1 - p.current);
    && r.0.current == p.current + m
    && r.1 == p.tokens[p.current..p.current + m] + EndTokens(n - m)
  }

  /**
   Calling `advance` `n` times reads the tokens from the cursor onwards in
   order, up to but not including EOF, and from then on only the synthetic
   end token; the cursor comes to rest on EOF at the latest.
   */
  lemma {:induction false} AdvanceTimesReads(p: Parse, n: nat)
    requires Valid(p)
    ensures ReadsAhead(p, n, AdvanceTimes(p, n))
    decreases n, 1
  {
    if n > 0 {
      if IsAtEnd(p) {
        AtEndIsLastToken(p);
        AtEndStays(p, n);
      } else {
        AdvanceReadsOne(p, n);
      }
    }
  }

  /** Off EOF, the first call reads the token under the cursor and the rest read on from the next one. */
  lemma {:induction false} AdvanceReadsOne(p: Parse, n: nat)
    requires Valid(p) && !IsAtEnd(p) && n > 0
    ensures ReadsAhead(p, n, AdvanceTimes(p, n))
    decreases n, 0
  {
    AdvanceTimesUnfold(p, n);
    var q := Advance(p).0;
    AdvanceTimesReads(q, n - 1);
    assert q.tokens == p.tokens;
    ReadOne(p.tokens, p.current, Min(n, |p.tokens| - 1 - p.current), n,
            q.current, Min(n - 1, |q.tokens| - 1 - q.current), AdvanceTimes(q, n - 1).1);
  }
}
