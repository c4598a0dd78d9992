// Token-level expression grammars of the generated code, and a parser for them.
//
// A constraint is printed as text by one back end and read back by the target
// language.  `Term` is the concrete syntax of such a text: a tree that still
// carries its grouping parentheses as `Paren` nodes.  `Flatten` is the text,
// `Erase` the meaning-bearing tree.
module Grammar {
  datatype Lit = IntLit(i: int) | FloatLit(r: real) | StrLit(s: string) | BoolLit(b: bool) | NoneLit

  datatype MulOp = Mul | Div | Mod
  datatype AddOp = Add | Sub
  datatype CmpOp = Eq | NotEq | Lt | Gt | LtEq | GtEq | In | NotIn | IsNot
  datatype BinOp = Product(m: MulOp) | Sum(a: AddOp) | Cmp(c: CmpOp) | And | Or

  datatype UnOp = Neg | Not | Deref

  datatype Term =
    | Name(id: string)
    | Const(lit: Lit)
    | Attr(obj: Term, field: string)
    | FCall(fn: string, args: Terms)
    | MCall(recv: Term, method_: string, margs: Terms)
    | Bin(op: BinOp, left: Term, right: Term)
    | Chain(prev: Term, cop: BinOp, next: Term)  // Python's `a < b < c`: prev && (b cop next)
    | Un(uop: UnOp, operand: Term)
    | Paren(inner: Term)

  datatype Terms = NoTerms | MoreTerms(head: Term, tail: Terms)

  // Two-word operators (`not in`, `is not`) are one token.
  datatype Token = TName(id: string) | TConst(lit: Lit) | TDot | TComma | TLParen | TRParen | TOp(op: BinOp) | TNot

  // The PREC_* table of the Python printer, which is also Go's operator
  // precedence, and Python's own expression grammar.
  datatype Grammar = Prec | Python

  predicate IsComparison(t: Term) {
    t.Chain? || (t.Bin? && t.op.Cmp?)
  }

  /** Binding strength of a binary operator; a larger number binds tighter. */
  function BinLevel(g: Grammar, op: BinOp): (l: nat)
    ensures 1 <= l < AtomLevel(g) && !IsUnaryLevel(g, l)
  {
    match op
    case Or => 1
    case And => 2
    case Cmp(_) => if g.Prec? then 3 else 4
    case Sum(_) => if g.Prec? then 4 else 5
    case Product(_) => if g.Prec? then 5 else 6
  }

  /** Binding strength of a prefix operator; 0 when the language has no such operator. */
  function UnLevel(g: Grammar, op: UnOp): (l: nat)
    ensures l == 0 || (l < AtomLevel(g) && IsUnaryLevel(g, l))
  {
    if g.Prec? then 6
    else match op
         case Not => 3
         case Neg => 7
         case Deref => 0
  }

  function AtomLevel(g: Grammar): nat { if g.Prec? then 7 else 8 }

  predicate IsUnaryLevel(g: Grammar, l: nat) {
    if g.Prec? then l == 6 else l == 3 || l == 7
  }

  /** Python comparisons do not associate; every other binary operator associates to the left. */
  function LeftMin(g: Grammar, op: BinOp): nat {
    if g.Python? && op.Cmp? then BinLevel(g, op) + 1 else BinLevel(g, op)
  }

  function Level(g: Grammar, t: Term): nat {
    match t
    case Bin(op, _, _) => BinLevel(g, op)
    case Chain(_, op, _) => BinLevel(g, op)
    case Un(u, _) => UnLevel(g, u)
    case _ => AtomLevel(g)
  }

  /** The texts the grammar derives, as trees that show where the parentheses are. */
  predicate Derivable(g: Grammar, t: Term) {
    match t
    case Name(_) => true
    case Const(_) => true
    case Attr(o, _) => Derivable(g, o) && Level(g, o) == AtomLevel(g)
    case FCall(_, args) => AllDerivable(g, args)
    case MCall(o, _, args) => Derivable(g, o) && Level(g, o) == AtomLevel(g) && AllDerivable(g, args)
    case Bin(op, l, r) =>
      && Derivable(g, l) && Derivable(g, r)
      && Level(g, l) >= LeftMin(g, op) && Level(g, r) > BinLevel(g, op)
    case Chain(p, op, n) =>
      && g.Python? && op.Cmp? && IsComparison(p)
      && Derivable(g, p) && Derivable(g, n) && Level(g, n) > BinLevel(g, op)
    case Un(u, x) => UnLevel(g, u) > 0 && Derivable(g, x) && Level(g, x) >= UnLevel(g, u)
    case Paren(x) => Derivable(g, x)
  }

  predicate AllDerivable(g: Grammar, ts: Terms) {
    match ts
    case NoTerms => true
    case MoreTerms(h, tl) => Derivable(g, h) && AllDerivable(g, tl)
  }

  /** The prefix spelling of a unary operator: `-` and `*` are spelled like their binary namesakes. */
  function UnToken(u: UnOp): Token {
    match u
    case Neg => TOp(Sum(Sub))
    case Not => TNot
    case Deref => TOp(Product(Mul))
  }

  function Flatten(t: Term): (s: seq<Token>)
    ensures |s| > 0
  {
    match t
    case Name(x) => [TName(x)]
    case Const(c) => [TConst(c)]
    case Attr(o, f) => Flatten(o) + [TDot, TName(f)]
    case FCall(f, args) => [TName(f), TLParen] + FlattenArgs(args) + [TRParen]
    case MCall(o, m, args) => Flatten(o) + [TDot, TName(m), TLParen] + FlattenArgs(args) + [TRParen]
    case Bin(op, l, r) => Flatten(l) + [TOp(op)] + Flatten(r)
    case Chain(p, op, n) => Flatten(p) + [TOp(op)] + Flatten(n)
    case Un(u, x) => [UnToken(u)] + Flatten(x)
    case Paren(x) => [TLParen] + Flatten(x) + [TRParen]
  }

  function FlattenArgs(ts: Terms): seq<Token> {
    match ts
    case NoTerms => []
    case MoreTerms(h, NoTerms) => Flatten(h)
    case MoreTerms(h, tl) => Flatten(h) + [TComma] + FlattenArgs(tl)
  }

  /** The tree of a text: grouping parentheses dropped. */
  function Erase(t: Term): Term {
    match t
    case Name(_) => t
    case Const(_) => t
    case Attr(o, f) => Attr(Erase(o), f)
    case FCall(f, args) => FCall(f, EraseArgs(args))
    case MCall(o, m, args) => MCall(Erase(o), m, EraseArgs(args))
    case Bin(op, l, r) => Bin(op, Erase(l), Erase(r))
    case Chain(p, op, n) => Chain(Erase(p), op, Erase(n))
    case Un(u, x) => Un(u, Erase(x))
    case Paren(x) => Erase(x)
  }

  function EraseArgs(ts: Terms): Terms {
    match ts
    case NoTerms => NoTerms
    case MoreTerms(h, tl) => MoreTerms(Erase(h), EraseArgs(tl))
  }
}
