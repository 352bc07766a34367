/**
 The keyword table: the sixteen reserved spellings and the token kind each
 stands for. The source builds it lazily once; here it is a constant map.
 */
module Keywords {

  import opened Wrappers
  import opened Tokens

  const KeywordTable: map<string, TokenType> := map[
    "and" := And, "class" := Class, "else" := Else, "false" := False,
    "for" := For, "fun" := Fun, "if" := If, "nil" := Nil,
    "or" := Or, "print" := Print, "return" := Return, "super" := Super,
    "this" := This, "true" := True, "var" := Var, "while" := While
  ]

  /** The reserved spelling of a keyword kind; the empty string for any other kind. */
  function Spelling(k: TokenType): string
  {
    match k
    case And => "and"       case Class => "class"   case Else => "else"
    case False => "false"   case For => "for"       case Fun => "fun"
    case If => "if"         case Nil => "nil"       case Or => "or"
    case Print => "print"   case Return => "return" case Super => "super"
    case This => "this"     case True => "true"     case Var => "var"
    case While => "while"
    case _ => ""
  }

  /** `get_keywords().get(text)`: the keyword kind `text` spells, if any. */
  function Lookup(text: string): (r: Option<TokenType>)
    ensures r.Some? <==> text in KeywordTable
    ensures r.Some? ==> CategoryOf(r.value) == Keyword && Spelling(r.value) == text
  {
    if text in KeywordTable then Some(KeywordTable[text]) else None
  }

  /** Every entry maps a spelling to a keyword kind that spells it back. */
  lemma TableEntriesAreKeywords(s: string)
    requires s in KeywordTable
    ensures CategoryOf(KeywordTable[s]) == Keyword && Spelling(KeywordTable[s]) == s
  {
  }

  /** Every keyword kind has exactly one entry: its spelling. */
  lemma {:induction false} EveryKeywordHasEntry(k: TokenType)
    requires CategoryOf(k) == Keyword
    ensures Spelling(k) in KeywordTable && KeywordTable[Spelling(k)] == k
  {
    match k
    case And => case Class => case Else => case False => case For => case Fun =>
    case If => case Nil => case Or => case Print => case Return => case Super =>
    case This => case True => case Var => case While =>
  }

  /** The table holds sixteen entries, one per keyword kind. */
  lemma KeywordTableSize()
    ensures |KeywordTable| == 16
  {
    // The table built one entry at a time: every key is new when it is added.
    var m: map<string, TokenType> := map[];
    assert "and" !in m; m := m["and" := And];
    assert "class" !in m; m := m["class" := Class];
    assert "else" !in m; m := m["else" := Else];
    assert "false" !in m; m := m["false" := False];
    assert "for" !in m; m := m["for" := For];
    assert "fun" !in m; m := m["fun" := Fun];
    assert "if" !in m; m := m["if" := If];
    assert "nil" !in m; m := m["nil" := Nil];
    assert "or" !in m; m := m["or" := Or];
    assert "print" !in m; m := m["print" := Print];
    assert "return" !in m; m := m["return" := Return];
    assert "super" !in m; m := m["super" := Super];
    assert "this" !in m; m := m["this" := This];
    assert "true" !in m; m := m["true" := True];
    assert "var" !in m; m := m["var" := Var];
    assert "while" !in m; m := m["while" := While];
    assert m == KeywordTable;
  }

  /**
   The boolean and nil literals display as the very keywords that scan to
   `TRUE`, `FALSE` and `NIL`.
   */
  lemma DisplayedLiteralsAreKeywords(b: bool)
    ensures Lookup(Display(BoolValue(b))) == Some(if b then True else False)
    ensures Lookup(Display(NilValue)) == Some(Nil)
  {
  }
}
