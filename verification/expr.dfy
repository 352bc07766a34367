/**
 The expression tree and its visitor dispatch. Each variant of `Expr` carries
 a payload record of its own, as the source's enum wraps one struct per
 expression kind; a visitor is the record of its per-kind handlers.
 */
module Exprs {

  import Tokens
  import Wrappers

  datatype Expr =
    | Assignment(assignment: AssignmentExpr)
    | Binary(binary: BinaryExpr)
    | Grouping(grouping: GroupingExpr)
    | Literal(literal: LiteralExpr)
    | Logical(logical: LogicalExpr)
    | Unary(unary: UnaryExpr)
    | Variable(variable: VariableExpr)

  /** `name = value`, with the node's unique id. */
  datatype AssignmentExpr = AssignmentExpr(uuid: nat, name: Tokens.Token, value: Expr)

  datatype BinaryExpr = BinaryExpr(left: Expr, operator: Tokens.Token, right: Expr)

  /** A parenthesised expression. */
  datatype GroupingExpr = GroupingExpr(expr: Expr)

  datatype LiteralExpr = LiteralExpr(value: Tokens.Literal)

  /** `and` / `or`, with the node's unique id. */
  datatype LogicalExpr = LogicalExpr(uuid: nat, left: Expr, operator: Tokens.Token, right: Expr)

  datatype UnaryExpr = UnaryExpr(operator: Tokens.Token, right: Expr)

  datatype VariableExpr = VariableExpr(name: Tokens.Token)

  /**
   A visitor over a state `S` producing `T`. Every handler but the literal one
   receives the state and may return a changed one; the literal handler only
   reads the visitor, so it returns a result alone.
   */
  datatype Visitor<!S, T> = Visitor(
    visitAssignment: (S, AssignmentExpr) -> (S, T),
    visitBinary: (S, BinaryExpr) -> (S, T),
    visitGrouping: (S, GroupingExpr) -> (S, T),
    visitLiteral: (S, LiteralExpr) -> T,
    visitLogical: (S, LogicalExpr) -> (S, T),
    visitUnary: (S, UnaryExpr) -> (S, T),
    visitVariable: (S, VariableExpr) -> (S, T))

  /** The kinds of expression, one per variant and per handler. */
  datatype ExprKind = AssignmentKind | BinaryKind | GroupingKind | LiteralKind
                    | LogicalKind | UnaryKind | VariableKind

  function KindOf(e: Expr): ExprKind
  {
    match e
    case Assignment(_) => AssignmentKind
    case Binary(_) => BinaryKind
    case Grouping(_) => GroupingKind
    case Literal(_) => LiteralKind
    case Logical(_) => LogicalKind
    case Unary(_) => UnaryKind
    case Variable(_) => VariableKind
  }

  /**
   Two visitors agree on kind `k` when their handlers for `k` give the same
   answer on every state and payload (the other six may differ arbitrarily).
   */
  ghost predicate AgreeOn<S(!new), T>(k: ExprKind, v: Visitor<S, T>, w: Visitor<S, T>)
  {
    match k
    case AssignmentKind => forall s, a :: v.visitAssignment(s, a) == w.visitAssignment(s, a)
    case BinaryKind => forall s, b :: v.visitBinary(s, b) == w.visitBinary(s, b)
    case GroupingKind => forall s, g :: v.visitGrouping(s, g) == w.visitGrouping(s, g)
    case LiteralKind => forall s, l :: v.visitLiteral(s, l) == w.visitLiteral(s, l)
    case LogicalKind => forall s, l :: v.visitLogical(s, l) == w.visitLogical(s, l)
    case UnaryKind => forall s, u :: v.visitUnary(s, u) == w.visitUnary(s, u)
    case VariableKind => forall s, x :: v.visitVariable(s, x) == w.visitVariable(s, x)
  }

  /** `Expr::accept`: hand the node's payload to the handler for its kind. */
  function Accept<S, T>(e: Expr, v: Visitor<S, T>, s: S): (r: (S, T))
    ensures e.Literal? ==> r.0 == s
  {
    match e
    case Assignment(a) => v.visitAssignment(s, a)
    case Binary(b) => v.visitBinary(s, b)
    case Grouping(g) => v.visitGrouping(s, g)
    case Literal(l) => (s, v.visitLiteral(s, l))
    case Logical(l) => v.visitLogical(s, l)
    case Unary(u) => v.visitUnary(s, u)
    case Variable(x) => v.visitVariable(s, x)
  }

  /**
   `accept` consults exactly one handler, the one for the node's kind: two
   visitors that agree on that handler give the same answer from any state.
   */
  lemma AcceptUsesOnlyItsKind<S(!new), T>(e: Expr, v: Visitor<S, T>, w: Visitor<S, T>, s: S)
    requires AgreeOn(KindOf(e), v, w)
    ensures Accept(e, v, s) == Accept(e, w, s)
  {
  }

  /**
   The visitor whose every handler rebuilds the node it is given and counts
   the calls made to it in its state.
   */
  function Rebuild(): Visitor<int, Expr>
  {
    Visitor(
      (n: int, a: AssignmentExpr) => (n + 1, Assignment(a)),
      (n: int, b: BinaryExpr) => (n + 1, Binary(b)),
      (n: int, g: GroupingExpr) => (n + 1, Grouping(g)),
      (n: int, l: LiteralExpr) => Literal(l),
      (n: int, l: LogicalExpr) => (n + 1, Logical(l)),
      (n: int, u: UnaryExpr) => (n + 1, Unary(u)),
      (n: int, x: VariableExpr) => (n + 1, Variable(x)))
  }

  /**
   Dispatch passes the payload through unchanged to the handler of the same
   variant, calls one handler once, and only non-literal handlers may update
   the visitor state.
   */
  lemma AcceptRebuilds(e: Expr, n: int)
    ensures Accept(e, Rebuild(), n).1 == e
    ensures Accept(e, Rebuild(), n).0 == if e.Literal? then n else n + 1
  {
  }

  /** The direct sub-expressions of a node, left to right. */
  function Children(e: Expr): (r: seq<Expr>)
    ensures |r| == match KindOf(e)
                   case BinaryKind | LogicalKind => 2
                   case AssignmentKind | GroupingKind | UnaryKind => 1
                   case LiteralKind | VariableKind => 0
    ensures forall i :: 0 <= i < |r| ==> r[i] < e
  {
    match e
    case Assignment(a) => [a.value]
    case Binary(b) => [b.left, b.right]
    case Grouping(g) => [g.expr]
    case Literal(_) => []
    case Logical(l) => [l.left, l.right]
    case Unary(u) => [u.right]
    case Variable(_) => []
  }

  /** The id an assignment or logical node carries; other nodes have none. */
  function Uuid(e: Expr): (r: Wrappers.Option<nat>)
    ensures r.Some? <==> KindOf(e) in {AssignmentKind, LogicalKind}
  {
    match e
    case Assignment(a) => Wrappers.Some(a.uuid)
    case Logical(l) => Wrappers.Some(l.uuid)
    case _ => Wrappers.None
  }
}
