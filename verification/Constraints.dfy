// `where`-constraint expressions of the schema language.
module Constraints {
  import opened Grammar

  // The membership and identity operators exist in the target languages only.
  type SourceOp = op: BinOp | op.Cmp? ==> !op.c.In? && !op.c.NotIn? && !op.c.IsNot? witness And

  datatype SourceUnOp = Negate | LogicalNot

  datatype Expr =
    | Ident(name: string)
    | Literal(lit: Lit)
    | FieldAccess(obj: Expr, field: string)
    | MethodCall(recv: Expr, name_: string, args: Exprs)
    | Binary(op: SourceOp, left: Expr, right: Expr)
    | Unary(uop: SourceUnOp, operand: Expr)
    | Unsupported

  datatype Exprs = NoExprs | MoreExprs(head: Expr, tail: Exprs)

  predicate IsSelf(e: Expr) { e.Ident? && e.name == "self" }

  predicate IsSelfLength(e: Expr) { e.FieldAccess? && e.field == "length" && IsSelf(e.obj) }

  predicate IsSelfContains(e: Expr) { e.MethodCall? && e.name_ == "contains" && IsSelf(e.recv) }

  /** `self.contains` has its one argument, as the type checker demands. */
  predicate ArityOk(e: Expr) {
    match e
    case Ident(_) => true
    case Literal(_) => true
    case FieldAccess(o, _) => ArityOk(o)
    case MethodCall(o, _, args) =>
      ArityOk(o) && AllArityOk(args) && (IsSelfContains(e) ==> args.MoreExprs? && args.tail.NoExprs?)
    case Binary(_, l, r) => ArityOk(l) && ArityOk(r)
    case Unary(_, x) => ArityOk(x)
    case Unsupported => true
  }

  predicate AllArityOk(es: Exprs) {
    match es
    case NoExprs => true
    case MoreExprs(h, tl) => ArityOk(h) && AllArityOk(tl)
  }
}
