/** ShadowRust syntax (ast/ast.go), the part the sandbox interpreter runs. */
module Ast {
  import opened Hashing

  datatype Rel = Gt | Ge | Lt | Le | Eq | Ne

  datatype Op = Plus | Minus | Times | Over | Compare(rel: Rel) | Unknown(text: string)

  datatype Expr =
    | NumberLit(text: string)
    | Ident(name: string)
    | Binary(op: Op, left: Expr, right: Expr)
    | FeeRoute(value: Expr, target: string)

  datatype Stmt =
    | Assignment(name: string, value: Expr)
    | IfStatement(condition: Expr, body: seq<Stmt>)
    | TxStatement(tx: Tx)
    | ValidateStatement(body: seq<Stmt>)
    | MintStatement(amount: Expr, epoch: Option<Expr>)
    | QueueInsertStatement(name: string, positions: seq<Expr>)
    | BankDepositStatement(name: string, atr: Expr)
    | ResilienceStatement(condition: Expr, body: seq<Stmt>)
    | UpdateTraitStatement(name: string, op: string, value: Expr) // name is target.key
    | ShardStatement(count: Option<Expr>)
    | Declarative // container, network, async_stagger, vote, activate: no runtime effect

  /** tx buy name from sender to receiver amount expr { body } */
  datatype Tx = Tx(name: string, sender: string, receiver: string, amount: Expr, body: seq<Stmt>)

  /** Why an evaluation stops. */
  datatype Fault = BadLiteral(text: string) | Undefined(name: string) | DivisionByZero | UnknownOperator(text: string)

  datatype Result<+T> = Ok(value: T) | Err(fault: Fault)

  function Idents(e: Expr): set<string> {
    match e
    case NumberLit(_) => {}
    case Ident(name) => {name}
    case Binary(_, l, r) => Idents(l) + Idents(r)
    case FeeRoute(v, _) => Idents(v)
  }

  /** The operators in an expression that are none of + - * / and the six comparisons. */
  function UnknownOps(e: Expr): set<string> {
    match e
    case NumberLit(_) => {}
    case Ident(_) => {}
    case Binary(op, l, r) => UnknownOps(l) + UnknownOps(r) + if op.Unknown? then {op.text} else {}
    case FeeRoute(v, _) => UnknownOps(v)
  }

  /** Number of `to` routes inside an expression. */
  function Routes(e: Expr): nat {
    match e
    case NumberLit(_) => 0
    case Ident(_) => 0
    case Binary(_, l, r) => Routes(l) + Routes(r)
    case FeeRoute(v, _) => Routes(v) + 1
  }

  function Holds(rel: Rel, l: real, r: real): bool {
    match rel
    case Gt => l > r
    case Ge => l >= r
    case Lt => l < r
    case Le => l <= r
    case Eq => l == r
    case Ne => l != r
  }
}
