/** The abstract syntax of SIMPLE, shared by the small-step and the big-step
    interpreter, and the meaning of its operators. */
module SimpleSyntax {
  import opened Options

  /** The classes Add, Multiply and LessThan differ only in the Ruby operator
      they apply to the two operand values. */
  datatype BinOp = Add | Multiply | LessThan

  datatype Expr =
    | Number(n: int)
    | Boolean(b: bool)
    | Variable(name: string)
    | Binary(op: BinOp, left: Expr, right: Expr)

  datatype Stmt =
    | DoNothing
    | Assign(name: string, expression: Expr)
    | If(condition: Expr, consequence: Stmt, alternative: Stmt)
    | Sequence(first: Stmt, second: Stmt)
    | While(condition: Expr, body: Stmt)

  predicate Reducible(e: Expr) {
    e.Variable? || e.Binary?
  }

  /** What an environment may hold: an expression that does not reduce. */
  type Value = e: Expr | !Reducible(e) witness Number(0)

  type Env = map<string, Value>

  /** `+`, `*` and `<` raise in Ruby unless both operands are numbers. */
  function Apply(op: BinOp, l: Value, r: Value): Option<Value> {
    if l.Number? && r.Number? then
      match op
      case Add => Some(Number(l.n + r.n))
      case Multiply => Some(Number(l.n * r.n))
      case LessThan => Some(Boolean(l.n < r.n))
    else
      None
  }
}
