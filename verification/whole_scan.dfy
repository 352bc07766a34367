/**
 Properties of a complete scan: every token but the final EOF is the text of
 a slice of the source, the slices follow one another in source order, token
 lines never decrease, and a lexical error does not stop the scan.
 */
module WholeScan {

  import opened Wrappers
  import opened Tokens
  import opened Scanner
  import opened ScannerProperties

  /**
   The `(start, current)` span of each token the scan loop emits from `sc`
   onwards, in emission order.
   */
  ghost function LoopSpans(sc: Scanner): seq<(nat, nat)>
    requires Valid(sc)
    decreases |sc.source| - sc.current
  {
    if IsAtEnd(sc) then []
    else
      var r := ScanToken(sc.(start := sc.current));
      (if |r.tokens| > |sc.tokens| then [(sc.current, r.current)] else []) + LoopSpans(r)
  }

  /** Spans lie in `[from, to)` of the source, are non-empty and do not overlap. */
  ghost predicate OrderedSpans(spans: seq<(nat, nat)>, from: nat, to: nat)
  {
    && (forall i :: 0 <= i < |spans| ==> from <= spans[i].0 < spans[i].1 <= to)
    && (forall i :: 0 <= i < |spans| - 1 ==> spans[i].1 <= spans[i + 1].0)
  }

  /** One span per token the loop emits. */
  lemma {:induction false} LoopSpansCount(sc: Scanner)
    requires Valid(sc)
    ensures |LoopSpans(sc)| == |ScanLoop(sc).tokens| - |sc.tokens|
    decreases |sc.source| - sc.current
  {
    if !IsAtEnd(sc) {
      var sc1 := ScanToken(sc.(start := sc.current));
      LoopSpansCount(sc1);
      assert ScanLoop(sc).tokens == ScanLoop(sc1).tokens;
      if |sc1.tokens| > |sc.tokens| {
        assert LoopSpans(sc) == [(sc.current, sc1.current)] + LoopSpans(sc1);
      } else {
        assert LoopSpans(sc) == LoopSpans(sc1);
      }
    }
  }

  /** A span in front of ordered spans that start after it keeps them ordered. */
  lemma PrependOrdered(span: (nat, nat), rest: seq<(nat, nat)>, from: nat, mid: nat, to: nat)
    requires from <= span.0 < span.1 <= mid <= to
    requires OrderedSpans(rest, mid, to)
    ensures OrderedSpans([span] + rest, from, to)
  {
    var spans := [span] + rest;
    forall i | 0 <= i < |spans| ensures from <= spans[i].0 < spans[i].1 <= to {
      if i > 0 { assert spans[i] == rest[i - 1]; }
    }
    forall i | 0 <= i < |spans| - 1 ensures spans[i].1 <= spans[i + 1].0 {
      assert spans[i + 1] == rest[i];
      if i > 0 { assert spans[i] == rest[i - 1]; }
    }
  }

  /** The spans are non-empty, in order, and inside the unread input. */
  lemma {:induction false} LoopSpansOrdered(sc: Scanner)
    requires Valid(sc)
    ensures OrderedSpans(LoopSpans(sc), sc.current, |sc.source|)
    decreases |sc.source| - sc.current
  {
    if !IsAtEnd(sc) {
      var sc1 := ScanToken(sc.(start := sc.current));
      LoopSpansOrdered(sc1);
      var rest := LoopSpans(sc1);
      if |sc1.tokens| > |sc.tokens| {
        assert LoopSpans(sc) == [(sc.current, sc1.current)] + rest;
        PrependOrdered((sc.current, sc1.current), rest, sc.current, sc1.current, |sc.source|);
      } else {
        assert LoopSpans(sc) == rest;
      }
    }
  }

  /** From position `n` on, the lexeme of each token is the source text of its span. */
  ghost predicate SlicesFrom(tokens: seq<Token>, n: nat, source: string, spans: seq<(nat, nat)>)
  {
    forall i :: 0 <= i < |spans| ==>
      && n + i < |tokens| && spans[i].0 <= spans[i].1 <= |source|
      && tokens[n + i].lexeme == source[spans[i].0..spans[i].1]
  }

  /**
   One step of the induction below, stated without the scanner: if the step
   emitted a token (`m == n + 1`) its span is put in front of the spans of
   the tokens after it.
   */
  lemma PrependSpan(tokens: seq<Token>, n: nat, m: nat, source: string,
                    span: (nat, nat), rest: seq<(nat, nat)>)
    requires m == n || m == n + 1
    requires SlicesFrom(tokens, m, source, rest)
    requires m == n + 1 ==>
      n < |tokens| && span.0 <= span.1 <= |source| && tokens[n].lexeme == source[span.0..span.1]
    ensures SlicesFrom(tokens, n, source, (if m == n + 1 then [span] else []) + rest)
  {
    if m == n + 1 {
      var spans := [span] + rest;
      forall i | 0 <= i < |spans|
        ensures && n + i < |tokens| && spans[i].0 <= spans[i].1 <= |source|
                && tokens[n + i].lexeme == source[spans[i].0..spans[i].1]
      {
        if i > 0 {
          assert spans[i] == rest[i - 1];
        }
      }
    } else {
      assert [] + rest == rest;
    }
  }

  /** Each emitted token's lexeme is the text of its span. */
  lemma {:induction false} LoopLexemesAreSlices(sc: Scanner)
    requires Valid(sc)
    ensures SlicesFrom(ScanLoop(sc).tokens, |sc.tokens|, sc.source, LoopSpans(sc))
    decreases |sc.source| - sc.current
  {
    if !IsAtEnd(sc) {
      var sc1 := ScanToken(sc.(start := sc.current));
      LoopLexemesAreSlices(sc1);
      var tokens := ScanLoop(sc1).tokens;
      assert ScanLoop(sc).tokens == tokens;
      var emitted := |sc1.tokens| > |sc.tokens|;
      assert emitted ==> tokens[|sc.tokens|] == sc1.tokens[|sc.tokens|];
      PrependSpan(tokens, |sc.tokens|, |sc1.tokens|, sc.source, (sc.current, sc1.current), LoopSpans(sc1));
    }
  }

  /**
   Every token before the final EOF has as its lexeme the slice of the source
   between a `start` and a `current` with `start < current`; these slices are
   in source order and do not overlap.
   */
  lemma LexemesAreSlices(source: string)
    ensures var tokens := Scan(source).tokens;
      var spans := LoopSpans(New(source));
      && |spans| == |tokens| - 1
      && OrderedSpans(spans, 0, |source|)
      && forall i :: 0 <= i < |spans| ==> tokens[i].lexeme == source[spans[i].0..spans[i].1]
  {
    var sc := New(source);
    LoopSpansCount(sc);
    LoopSpansOrdered(sc);
    LoopLexemesAreSlices(sc);
    var r := ScanLoop(sc);
    var tokens := Scan(source).tokens;
    assert tokens == r.tokens + [Token(Eof, "", None, r.line)];
    assert forall i :: 0 <= i < |r.tokens| ==> tokens[i] == r.tokens[i];
  }

  /** Token lines never decrease along the sequence. */
  predicate LinesNondecreasing(tokens: seq<Token>)
  {
    forall i, j :: 0 <= i <= j < |tokens| ==> tokens[i].line <= tokens[j].line
  }

  /** All token lines lie between `low` and `high`. */
  predicate LinesWithin(tokens: seq<Token>, low: nat, high: nat)
  {
    forall i :: 0 <= i < |tokens| ==> low <= tokens[i].line <= high
  }

  lemma {:induction false} LoopLinesOrdered(sc: Scanner, low: nat)
    requires Valid(sc) && LinesNondecreasing(sc.tokens) && LinesWithin(sc.tokens, low, sc.line)
    requires low <= sc.line
    ensures var r := ScanLoop(sc);
      LinesNondecreasing(r.tokens) && LinesWithin(r.tokens, low, r.line)
    decreases |sc.source| - sc.current
  {
    if !IsAtEnd(sc) {
      var sc1 := ScanToken(sc.(start := sc.current));
      assert LinesNondecreasing(sc1.tokens) && LinesWithin(sc1.tokens, low, sc1.line) by {
        if |sc1.tokens| > |sc.tokens| {
          assert sc1.tokens == sc.tokens + [sc1.tokens[|sc.tokens|]];
        }
      }
      LoopLinesOrdered(sc1, low);
    }
  }

  /**
   The lines of the scanned tokens never decrease, start at 1 or later, and
   none exceeds the line of the final EOF token.
   */
  lemma TokenLinesNondecreasing(source: string)
    ensures var tokens := Scan(source).tokens;
      && LinesNondecreasing(tokens)
      && LinesWithin(tokens, 1, tokens[|tokens| - 1].line)
  {
    var sc := New(source);
    LoopLinesOrdered(sc, 1);
    var r := ScanLoop(sc);
    var tokens := Scan(source).tokens;
    assert tokens == r.tokens + [Token(Eof, "", None, r.line)];
  }

  /**
   A lexical error does not stop the scan: an unexpected character is
   recorded and the loop carries on with the next character exactly as if
   the error had been recorded beforehand.
   */
  lemma UnexpectedCharacterIsSkipped(sc: Scanner)
    requires Valid(sc) && sc.current < |sc.source| && IsUnexpected(sc.source[sc.current])
    ensures ScanLoop(sc) == ScanLoop(sc.(
      start := sc.current,
      current := sc.current + 1,
      errors := sc.errors + [Diagnostic(sc.line, "Unexpected character: '" + [sc.source[sc.current]] + "'")]))
  {
    UnexpectedStep(sc.(start := sc.current));
  }
}
