/**
 The token model: the closed set of token kinds, the literal values a token
 may carry, and the token record the scanner produces.
 */
module Tokens {

  import opened Wrappers

  /** The 39 token kinds, in the order the source declares them. */
  datatype TokenType =
    // Single-character tokens.
    | LeftParen | RightParen | LeftBrace | RightBrace
    | Comma | Dot | Minus | Plus | Semicolon | Slash | Star
    // One- or two-character tokens.
    | Bang | BangEqual
    | Equal | EqualEqual
    | Greater | GreaterEqual
    | Less | LessEqual
    // Literals.
    | Identifier | String | Number
    // Keywords.
    | And | Class | Else | False | Fun | For | If | Nil | Or
    | Print | Return | Super | This | True | Var | While
    | Eof

  /** The five groups the declaration of `TokenType` is divided into. */
  datatype Category = SingleCharacter | OneOrTwoCharacter | LiteralKind | Keyword | EndOfFile

  function CategoryOf(t: TokenType): Category
  {
    match t
    case LeftParen | RightParen | LeftBrace | RightBrace
      | Comma | Dot | Minus | Plus | Semicolon | Slash | Star => SingleCharacter
    case Bang | BangEqual | Equal | EqualEqual
      | Greater | GreaterEqual | Less | LessEqual => OneOrTwoCharacter
    case Identifier | String | Number => LiteralKind
    case Eof => EndOfFile
    case _ => Keyword
  }

  /** The kind declared at position `i`. */
  function KindAt(i: nat): TokenType
    requires i < 39
  {
    match i
    case 0 => LeftParen
    case 1 => RightParen
    case 2 => LeftBrace
    case 3 => RightBrace
    case 4 => Comma
    case 5 => Dot
    case 6 => Minus
    case 7 => Plus
    case 8 => Semicolon
    case 9 => Slash
    case 10 => Star
    case 11 => Bang
    case 12 => BangEqual
    case 13 => Equal
    case 14 => EqualEqual
    case 15 => Greater
    case 16 => GreaterEqual
    case 17 => Less
    case 18 => LessEqual
    case 19 => Identifier
    case 20 => String
    case 21 => Number
    case 22 => And
    case 23 => Class
    case 24 => Else
    case 25 => False
    case 26 => Fun
    case 27 => For
    case 28 => If
    case 29 => Nil
    case 30 => Or
    case 31 => Print
    case 32 => Return
    case 33 => Super
    case 34 => This
    case 35 => True
    case 36 => Var
    case 37 => While
    case _ => Eof
  }

  /** Every token kind, in declaration order. */
  const AllKinds: seq<TokenType> := seq(39, i requires 0 <= i < 39 => KindAt(i))

  /** The position of a kind in the declaration. */
  function Ordinal(t: TokenType): nat
  {
    match t
    case LeftParen => 0
    case RightParen => 1
    case LeftBrace => 2
    case RightBrace => 3
    case Comma => 4
    case Dot => 5
    case Minus => 6
    case Plus => 7
    case Semicolon => 8
    case Slash => 9
    case Star => 10
    case Bang => 11
    case BangEqual => 12
    case Equal => 13
    case EqualEqual => 14
    case Greater => 15
    case GreaterEqual => 16
    case Less => 17
    case LessEqual => 18
    case Identifier => 19
    case String => 20
    case Number => 21
    case And => 22
    case Class => 23
    case Else => 24
    case False => 25
    case Fun => 26
    case For => 27
    case If => 28
    case Nil => 29
    case Or => 30
    case Print => 31
    case Return => 32
    case Super => 33
    case This => 34
    case True => 35
    case Var => 36
    case While => 37
    case Eof => 38
  }

  predicate Distinct<T(==)>(s: seq<T>)
  {
    forall i, j :: 0 <= i < j < |s| ==> s[i] != s[j]
  }

  /** Each kind sits at its ordinal in the declaration. */
  lemma {:induction false} OrdinalLocates(t: TokenType)
    ensures Ordinal(t) < 39 && KindAt(Ordinal(t)) == t
  {
    match t
    case LeftParen => case RightParen => case LeftBrace => case RightBrace => case Comma => case Dot =>
    case Minus => case Plus => case Semicolon => case Slash => case Star => case Bang =>
    case BangEqual => case Equal => case EqualEqual => case Greater => case GreaterEqual => case Less =>
    case LessEqual => case Identifier => case String => case Number => case And => case Class =>
    case Else => case False => case Fun => case For => case If => case Nil =>
    case Or => case Print => case Return => case Super => case This => case True =>
    case Var => case While => case Eof =>
  }

  /** Each position's kind has that position as its ordinal. */
  lemma OrdinalOfIndex(i: nat)
    requires i < 39
    ensures Ordinal(KindAt(i)) == i
  {
  }

  /**
   `TokenType` is closed: exactly 39 distinct kinds, of which 11 are
   single-character, 8 one-or-two-character, 3 literal, 16 keywords and
   one the end-of-file marker (the groups follow the declaration order).
   */
  lemma {:induction false} TokenTypeIsClosed()
    ensures |AllKinds| == 39 && Distinct(AllKinds)
    ensures forall t: TokenType :: t in AllKinds
    ensures forall t: TokenType :: CategoryOf(t) == SingleCharacter <==> Ordinal(t) < 11
    ensures forall t: TokenType :: CategoryOf(t) == OneOrTwoCharacter <==> 11 <= Ordinal(t) < 19
    ensures forall t: TokenType :: CategoryOf(t) == LiteralKind <==> 19 <= Ordinal(t) < 22
    ensures forall t: TokenType :: CategoryOf(t) == Keyword <==> 22 <= Ordinal(t) < 38
    ensures forall t: TokenType :: CategoryOf(t) == EndOfFile <==> Ordinal(t) == 38
  {
    forall i, j | 0 <= i < j < |AllKinds| ensures AllKinds[i] != AllKinds[j] {
      OrdinalOfIndex(i);
      OrdinalOfIndex(j);
    }
    forall t: TokenType ensures t in AllKinds {
      OrdinalLocates(t);
      assert AllKinds[Ordinal(t)] == t;
    }
  }

  /** A literal value. The source holds numbers as `f64`; here a number is its lexeme text. */
  datatype Literal =
    | StringValue(s: string)
    | NumberValue(text: string)
    | BoolValue(b: bool)
    | NilValue

  /** One lexical unit: its kind, the exact source text, an optional literal and its line. */
  datatype Token = Token(kind: TokenType, lexeme: string, literal: Option<Literal>, line: nat)

  /**
   A token sequence as the scanner returns it: it ends in an EOF token and no
   earlier token is EOF.
   */
  predicate EofTerminated(tokens: seq<Token>)
  {
    && |tokens| > 0
    && tokens[|tokens| - 1].kind == Eof
    && forall i :: 0 <= i < |tokens| - 1 ==> tokens[i].kind != Eof
  }

  /** `Token::new` stores its four arguments unchanged. */
  function NewToken(kind: TokenType, lexeme: string, literal: Option<Literal>, line: nat): (t: Token)
    ensures t.kind == kind && t.lexeme == lexeme && t.literal == literal && t.line == line
  {
    Token(kind, lexeme, literal, line)
  }

  /** `Display` for the non-number literals. */
  function Display(l: Literal): (r: string)
    requires !l.NumberValue?
    ensures l.StringValue? ==> r == l.s
    ensures l.BoolValue? ==> r == (if l.b then "true" else "false")
    ensures l.NilValue? ==> r == "nil"
  {
    match l
    case StringValue(s) => s
    case BoolValue(b) => if b then "true" else "false"
    case NilValue => "nil"
  }
}
