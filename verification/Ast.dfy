/**
  The part of the language that is compiled here: functions over integer variables,
  with nested scopes, conditionals, loops, calls and returns. Nodes carry the types
  the symbol-tree builder annotates them with; a block carries the variables of its
  scope in the order its symbol table lists them.
 */
module Ast {
  import opened Options
  import opened Values

  datatype Expr =
    | Constant(ty: Ty, value: int)
    | Access(name: string)
    | Dual(op: DualOp, ty: Ty, left: Expr, right: Expr)
    | Comparison(cmp: CompareOp, ty: Ty, left: Expr, right: Expr)
    | Single(single: SingleOp, ty: Ty, operand: Expr)
    | Call(callee: nat, args: seq<Expr>)

  datatype AssignOp = Copy | Compound(op: DualOp)

  datatype Stmt =
    | Declare(name: string, init: Expr)
    | Assign(name: string, assign: AssignOp, ty: Ty, value: Expr)
    | Evaluate(e: Expr)
    | If(cond: Condition)
    | While(test: Expr, body: Block)
    | Return(result: Option<Expr>)

  datatype Block = Block(vars: seq<string>, stmts: seq<Stmt>)

  datatype Condition = Condition(test: Expr, onTrue: Block, onFalse: Tail)

  datatype Tail = NoElse | Elif(cond: Condition) | Else(block: Block)

  datatype Parameter = Parameter(name: string, ty: Ty)

  datatype FunctionDecl = FunctionDecl(params: seq<Parameter>, result: Option<Ty>, body: Block)

  datatype Program = Program(functions: seq<FunctionDecl>)

  predicate CallFree(e: Expr) {
    match e
    case Constant(_, _) => true
    case Access(_) => true
    case Dual(_, _, l, r) => CallFree(l) && CallFree(r)
    case Comparison(_, _, l, r) => CallFree(l) && CallFree(r)
    case Single(_, _, operand) => CallFree(operand)
    case Call(_, _) => false
  }
}
