// The Python constraint printer: minimal parentheses, guided by the PREC_* table.
module PythonPrinter {
  import opened Options
  import opened Grammar
  import opened Parser
  import opened TextTree
  import opened Constraints

  const PREC_OR: nat := 1
  const PREC_AND: nat := 2
  const PREC_CMP: nat := 3
  const PREC_ADD: nat := 4
  const PREC_MUL: nat := 5
  const PREC_UNARY: nat := 6
  const PREC_ATOM: nat := 7

  /** What stands for `self`: `self.<field>` in a model, a bare local in a route. */
  predicate IsAccessor(acc: Term) { acc.Name? || (acc.Attr? && acc.obj.Name?) }

  lemma Accessors(x: string, f: string)
    ensures IsAccessor(Name(x)) && IsAccessor(Attr(Name(x), f))
  {}

  lemma AccessorIsPlain(g: Grammar, acc: Term)
    requires IsAccessor(acc)
    ensures Derivable(g, acc) && Level(g, acc) == AtomLevel(g)
    ensures Erase(acc) == acc && !acc.Paren? && Lean(g, acc)
    ensures var one := MoreTerms(acc, NoTerms); AllDerivable(g, one) && EraseArgs(one) == one && LeanArgs(g, one)
  {}

  // ----------------------------------------------------------------- printer

  datatype Printed = Printed(text: seq<Token>, prec: nat)

  function Precedence(op: SourceOp): nat {
    match op
    case Product(_) => PREC_MUL
    case Sum(_) => PREC_ADD
    case Cmp(_) => PREC_CMP
    case And => PREC_AND
    case Or => PREC_OR
  }

  function ToUnOp(u: SourceUnOp): UnOp {
    match u
    case Negate => Neg
    case LogicalNot => Not
  }

  /** How both target languages spell a source operator before its operand. */
  function Spelled(u: SourceUnOp): Token {
    match u
    case Negate => TOp(Sum(Sub))
    case LogicalNot => TNot
  }

  function Wrapped(child: Printed, parent: nat): seq<Token> {
    if child.prec < parent then [TLParen] + child.text + [TRParen] else child.text
  }

  function Print(e: Expr, acc: seq<Token>): Printed
    decreases e
  {
    match e
    case Ident(x) => if x == "self" then Printed(acc, PREC_ATOM) else Printed([TName(x)], PREC_ATOM)
    case Literal(c) => Printed([TConst(c)], PREC_ATOM)
    case FieldAccess(o, f) =>
      if IsSelfLength(e) then Printed([TName("len"), TLParen] + acc + [TRParen], PREC_ATOM)
      else Printed(Wrapped(Print(o, acc), PREC_ATOM) + [TDot, TName(f)], PREC_ATOM)
    case MethodCall(o, m, args) =>
      if IsSelfContains(e) then
        var arg := if args.MoreExprs? then Print(args.head, acc).text else [];
        Printed(arg + [TOp(Cmp(In))] + acc, PREC_CMP)
      else
        Printed(
          Wrapped(Print(o, acc), PREC_ATOM) + [TDot, TName(m), TLParen] + PrintArgs(args, acc) + [TRParen], PREC_ATOM)
    case Binary(op, l, r) =>
      var prec := Precedence(op);
      Printed(Wrapped(Print(l, acc), prec) + [TOp(op)] + Wrapped(Print(r, acc), prec + 1), prec)
    case Unary(u, x) =>
      Printed([Spelled(u)] + Wrapped(Print(x, acc), PREC_UNARY), PREC_UNARY)
    case Unsupported => Printed([TConst(BoolLit(true))], PREC_ATOM)
  }

  function PrintArgs(es: Exprs, acc: seq<Token>): seq<Token>
    decreases es
  {
    match es
    case NoExprs => []
    case MoreExprs(h, NoExprs) => Print(h, acc).text
    case MoreExprs(h, tl) => Print(h, acc).text + [TComma] + PrintArgs(tl, acc)
  }

  // ------------------------------------------------------------------ meaning

  /** The Python tree that means what the constraint means. */
  function Translate(e: Expr, acc: Term): Term
    decreases e
  {
    match e
    case Ident(x) => if x == "self" then acc else Name(x)
    case Literal(c) => Const(c)
    case FieldAccess(o, f) =>
      if IsSelfLength(e) then FCall("len", MoreTerms(acc, NoTerms)) else Attr(Translate(o, acc), f)
    case MethodCall(o, m, args) =>
      if IsSelfContains(e) && args.MoreExprs? then Bin(Cmp(In), Translate(args.head, acc), acc)
      else MCall(Translate(o, acc), m, TranslateArgs(args, acc))
    case Binary(op, l, r) => Bin(op, Translate(l, acc), Translate(r, acc))
    case Unary(u, x) => Un(ToUnOp(u), Translate(x, acc))
    case Unsupported => Const(BoolLit(true))
  }

  function TranslateArgs(es: Exprs, acc: Term): Terms
    decreases es
  {
    match es
    case NoExprs => NoTerms
    case MoreExprs(h, tl) => MoreTerms(Translate(h, acc), TranslateArgs(tl, acc))
  }

  // ------------------------------------------- the printed text, parens marked

  function Fit(child: Term, parent: nat): Term {
    if Level(Prec, child) < parent then Paren(child) else child
  }

  function Layout(e: Expr, acc: Term): (c: Term)
    requires IsAccessor(acc)
    ensures !c.Paren?
    decreases e
  {
    match e
    case Ident(x) => if x == "self" then acc else Name(x)
    case Literal(c) => Const(c)
    case FieldAccess(o, f) =>
      if IsSelfLength(e) then FCall("len", MoreTerms(acc, NoTerms))
      else Attr(Fit(Layout(o, acc), PREC_ATOM), f)
    case MethodCall(o, m, args) =>
      if IsSelfContains(e) && args.MoreExprs? then Bin(Cmp(In), Layout(args.head, acc), acc)
      else MCall(Fit(Layout(o, acc), PREC_ATOM), m, LayoutArgs(args, acc))
    case Binary(op, l, r) =>
      Bin(op, Fit(Layout(l, acc), Precedence(op)), Fit(Layout(r, acc), Precedence(op) + 1))
    case Unary(u, x) => Un(ToUnOp(u), Fit(Layout(x, acc), PREC_UNARY))
    case Unsupported => Const(BoolLit(true))
  }

  function LayoutArgs(es: Exprs, acc: Term): Terms
    requires IsAccessor(acc)
    decreases es
  {
    match es
    case NoExprs => NoTerms
    case MoreExprs(h, tl) => MoreTerms(Layout(h, acc), LayoutArgs(tl, acc))
  }

  lemma {:induction false} FitPrints(c: Term, p: Printed, parent: nat)
    requires p == Printed(Flatten(c), Level(Prec, c))
    ensures Flatten(Fit(c, parent)) == Wrapped(p, parent)
  {}

  predicate Prints(e: Expr, acc: Term)
    requires IsAccessor(acc)
  {
    Print(e, Flatten(acc)) == Printed(Flatten(Layout(e, acc)), Level(Prec, Layout(e, acc)))
  }

  lemma BinaryPrints(op: SourceOp, l: Expr, r: Expr, acc: Term)
    requires IsAccessor(acc) && Prints(l, acc) && Prints(r, acc)
    ensures Prints(Binary(op, l, r), acc)
  {
    FitPrints(Layout(l, acc), Print(l, Flatten(acc)), Precedence(op));
    FitPrints(Layout(r, acc), Print(r, Flatten(acc)), Precedence(op) + 1);
  }

  lemma {:induction false} LayoutPrints(e: Expr, acc: Term)
    requires IsAccessor(acc) && ArityOk(e)
    ensures Print(e, Flatten(acc)) == Printed(Flatten(Layout(e, acc)), Level(Prec, Layout(e, acc)))
    decreases e
  {
    match e
    case Ident(_) =>
    case Literal(_) =>
    case FieldAccess(o, f) =>
      if !IsSelfLength(e) {
        LayoutPrints(o, acc);
        FitPrints(Layout(o, acc), Print(o, Flatten(acc)), PREC_ATOM);
      }
    case MethodCall(o, m, args) =>
      if IsSelfContains(e) {
        LayoutPrints(args.head, acc);
      } else {
        LayoutPrints(o, acc);
        LayoutArgsPrints(args, acc);
        FitPrints(Layout(o, acc), Print(o, Flatten(acc)), PREC_ATOM);
      }
    case Binary(op, l, r) =>
      LayoutPrints(l, acc);
      LayoutPrints(r, acc);
      BinaryPrints(op, l, r, acc);
    case Unary(_, x) =>
      LayoutPrints(x, acc);
      FitPrints(Layout(x, acc), Print(x, Flatten(acc)), PREC_UNARY);
    case Unsupported =>
  }

  lemma {:induction false} LayoutArgsPrints(es: Exprs, acc: Term)
    requires IsAccessor(acc) && AllArityOk(es)
    ensures PrintArgs(es, Flatten(acc)) == FlattenArgs(LayoutArgs(es, acc))
    decreases es
  {
    match es
    case NoExprs =>
    case MoreExprs(h, tl) =>
      LayoutPrints(h, acc);
      LayoutArgsPrints(tl, acc);
  }

  lemma {:induction false} LayoutErases(e: Expr, acc: Term)
    requires IsAccessor(acc)
    ensures Erase(Layout(e, acc)) == Translate(e, acc)
    decreases e
  {
    AccessorIsPlain(Prec, acc);
    match e
    case Ident(_) =>
    case Literal(_) =>
    case FieldAccess(o, _) =>
      LayoutErases(o, acc);
      FitErases(Layout(o, acc), PREC_ATOM);
    case MethodCall(o, _, args) =>
      LayoutErases(o, acc);
      FitErases(Layout(o, acc), PREC_ATOM);
      LayoutArgsErases(args, acc);
    case Binary(op, l, r) =>
      LayoutErases(l, acc);
      LayoutErases(r, acc);
      FitErases(Layout(l, acc), Precedence(op));
      FitErases(Layout(r, acc), Precedence(op) + 1);
    case Unary(_, x) =>
      LayoutErases(x, acc);
      FitErases(Layout(x, acc), PREC_UNARY);
    case Unsupported =>
  }

  lemma FitErases(c: Term, parent: nat)
    ensures Erase(Fit(c, parent)) == Erase(c)
  {}

  lemma {:induction false} LayoutArgsErases(es: Exprs, acc: Term)
    requires IsAccessor(acc)
    ensures EraseArgs(LayoutArgs(es, acc)) == TranslateArgs(es, acc)
    decreases es
  {
    match es
    case NoExprs =>
    case MoreExprs(h, tl) =>
      LayoutErases(h, acc);
      LayoutArgsErases(tl, acc);
  }

  // -------------------------------------------------- reading back: PREC_* table

  /** Binding strength of the printed text of `e`. */
  function Strength(e: Expr): nat {
    match e
    case Binary(op, _, _) => Precedence(op)
    case Unary(_, _) => PREC_UNARY
    case _ => if IsSelfContains(e) then PREC_CMP else PREC_ATOM
  }

  /** Every `self.contains(a)` has an argument that is not a bare `and`/`or`. */
  predicate ContainsArgsBind(e: Expr) {
    match e
    case FieldAccess(o, _) => ContainsArgsBind(o)
    case MethodCall(o, _, args) =>
      && (if IsSelfContains(e) then args.MoreExprs? && Strength(args.head) >= PREC_CMP else ContainsArgsBind(o))
      && AllContainsArgsBind(args)
    case Binary(_, l, r) => ContainsArgsBind(l) && ContainsArgsBind(r)
    case Unary(_, x) => ContainsArgsBind(x)
    case _ => true
  }

  predicate AllContainsArgsBind(es: Exprs) {
    match es
    case NoExprs => true
    case MoreExprs(h, tl) => ContainsArgsBind(h) && AllContainsArgsBind(tl)
  }

  lemma LevelOfLayout(e: Expr, acc: Term)
    requires IsAccessor(acc) && ArityOk(e)
    ensures Level(Prec, Layout(e, acc)) == Strength(e)
  {}

  lemma {:induction false} MembershipDerivable(g: Grammar, e: Expr, acc: Term)
    requires IsAccessor(acc) && ArityOk(e) && IsSelfContains(e)
    ensures var arg := Layout(e.args.head, acc);
            Derivable(g, Layout(e, acc)) <==> Derivable(g, arg) && Level(g, arg) >= LeftMin(g, Cmp(In))
  {
    AccessorIsPlain(g, acc);
    assert Layout(e, acc) == Bin(Cmp(In), Layout(e.args.head, acc), acc);
  }

  lemma {:induction false} MembershipBinds(e: Expr, acc: Term)
    requires IsAccessor(acc) && ArityOk(e) && IsSelfContains(e)
    requires Derivable(Prec, Layout(e.args.head, acc)) <==> ContainsArgsBind(e.args.head)
    ensures Derivable(Prec, Layout(e, acc)) <==> ContainsArgsBind(e)
  {
    MembershipDerivable(Prec, e, acc);
    LevelOfLayout(e.args.head, acc);
    assert AllContainsArgsBind(e.args.tail);
  }

  lemma FitBinds(c: Term, parent: nat)
    requires parent <= PREC_ATOM
    ensures Derivable(Prec, Fit(c, parent)) <==> Derivable(Prec, c)
    ensures Level(Prec, Fit(c, parent)) >= parent
  {}

  lemma BinaryBinds(op: SourceOp, l: Expr, r: Expr, acc: Term)
    requires IsAccessor(acc)
    requires Derivable(Prec, Layout(l, acc)) <==> ContainsArgsBind(l)
    requires Derivable(Prec, Layout(r, acc)) <==> ContainsArgsBind(r)
    ensures Derivable(Prec, Layout(Binary(op, l, r), acc)) <==> ContainsArgsBind(Binary(op, l, r))
  {
    FitBinds(Layout(l, acc), Precedence(op));
    FitBinds(Layout(r, acc), Precedence(op) + 1);
  }

  lemma {:induction false} DerivableIffContainsArgsBind(e: Expr, acc: Term)
    requires IsAccessor(acc) && ArityOk(e)
    ensures Derivable(Prec, Layout(e, acc)) <==> ContainsArgsBind(e)
    decreases e
  {
    AccessorIsPlain(Prec, acc);
    match e
    case Ident(_) =>
    case Literal(_) =>
    case FieldAccess(o, _) =>
      if !IsSelfLength(e) {
        DerivableIffContainsArgsBind(o, acc);
        FitBinds(Layout(o, acc), PREC_ATOM);
      }
    case MethodCall(o, _, args) =>
      if IsSelfContains(e) {
        DerivableIffContainsArgsBind(args.head, acc);
        MembershipBinds(e, acc);
      } else {
        DerivableIffContainsArgsBind(o, acc);
        FitBinds(Layout(o, acc), PREC_ATOM);
        ArgsDerivableIffBind(args, acc);
      }
    case Binary(op, l, r) =>
      DerivableIffContainsArgsBind(l, acc);
      DerivableIffContainsArgsBind(r, acc);
      BinaryBinds(op, l, r, acc);
    case Unary(_, x) =>
      DerivableIffContainsArgsBind(x, acc);
      FitBinds(Layout(x, acc), PREC_UNARY);
    case Unsupported =>
  }

  lemma {:induction false} ArgsDerivableIffBind(es: Exprs, acc: Term)
    requires IsAccessor(acc) && AllArityOk(es)
    ensures AllDerivable(Prec, LayoutArgs(es, acc)) <==> AllContainsArgsBind(es)
    decreases es
  {
    match es
    case NoExprs =>
    case MoreExprs(h, tl) =>
      DerivableIffContainsArgsBind(h, acc);
      ArgsDerivableIffBind(tl, acc);
  }

  /** Under the printer's own table the text reads back exactly when contains-arguments bind tightly enough. */
  lemma RoundTripOwnTable(e: Expr, acc: Term)
    requires IsAccessor(acc) && ArityOk(e)
    ensures Tree(Prec, Print(e, Flatten(acc)).text) == Some(Translate(e, acc)) <==> ContainsArgsBind(e)
  {
    LayoutPrints(e, acc);
    LayoutErases(e, acc);
    DerivableIffContainsArgsBind(e, acc);
    ReadsBackIff(Prec, Layout(e, acc));
  }

  // ----------------------------------------------- reading back: Python itself

  predicate IsNot(e: Expr) { e.Unary? && e.uop.LogicalNot? }

  predicate IsComparing(e: Expr) { (e.Binary? && e.op.Cmp?) || IsSelfContains(e) }

  /** The constraints whose printed text Python reads as written. */
  predicate PythonFaithful(e: Expr) {
    match e
    case FieldAccess(o, _) => PythonFaithful(o)
    case MethodCall(o, _, args) =>
      && (if IsSelfContains(e)
          then args.MoreExprs? && Strength(args.head) >= PREC_ADD && !IsNot(args.head)
          else PythonFaithful(o))
      && AllPythonFaithful(args)
    case Binary(op, l, r) =>
      && PythonFaithful(l) && PythonFaithful(r)
      && (op.And? || op.Or? || (!IsNot(l) && !IsNot(r)))  // `not` binds looser than these operators
      && (op.Cmp? ==> !IsComparing(l))                     // comparisons chain
    case Unary(u, x) => PythonFaithful(x) && (u.Negate? ==> !IsNot(x))
    case _ => true
  }

  predicate AllPythonFaithful(es: Exprs) {
    match es
    case NoExprs => true
    case MoreExprs(h, tl) => PythonFaithful(h) && AllPythonFaithful(tl)
  }

  /** Python's own binding strength of the same text. */
  function PythonStrength(e: Expr): nat {
    match e
    case Binary(op, _, _) => BinLevel(Python, op)
    case Unary(u, _) => UnLevel(Python, ToUnOp(u))
    case _ => if IsSelfContains(e) then BinLevel(Python, Cmp(In)) else AtomLevel(Python)
  }

  lemma PythonLevel(e: Expr, acc: Term)
    requires IsAccessor(acc) && ArityOk(e)
    ensures Level(Python, Layout(e, acc)) == PythonStrength(e)
    ensures Level(Prec, Layout(e, acc)) == Strength(e)
  {}

  // Where the PREC_* table adds no parentheses, Python's grammar must not need any either.
  lemma OperandFits(op: SourceOp, l: Expr, r: Expr)
    ensures (Strength(l) < Precedence(op) || PythonStrength(l) >= LeftMin(Python, op))
            <==> (op.And? || op.Or? || !IsNot(l)) && (op.Cmp? ==> !IsComparing(l))
    ensures (Strength(r) <= Precedence(op) || PythonStrength(r) > BinLevel(Python, op))
            <==> op.And? || op.Or? || !IsNot(r)
  {}

  lemma {:induction false} FitDerivable(c: Term, parent: nat, min: nat)
    requires !c.Paren? && min <= AtomLevel(Python)
    ensures Derivable(Python, Fit(c, parent)) <==> Derivable(Python, c)
    ensures Level(Python, Fit(c, parent)) >= min <==> Level(Prec, c) < parent || Level(Python, c) >= min
  {}

  lemma {:induction false} PythonMembership(e: Expr, acc: Term)
    requires IsAccessor(acc) && ArityOk(e) && IsSelfContains(e)
    requires Derivable(Python, Layout(e.args.head, acc)) <==> PythonFaithful(e.args.head)
    ensures Derivable(Python, Layout(e, acc)) <==> PythonFaithful(e)
  {
    MembershipDerivable(Python, e, acc);
    PythonLevel(e.args.head, acc);
    assert AllPythonFaithful(e.args.tail);
  }

  // The remaining shapes, given the same of their parts.
  lemma PythonCallIff(e: Expr, acc: Term)
    requires IsAccessor(acc) && ArityOk(e) && e.MethodCall? && !IsSelfContains(e)
    requires Derivable(Python, Layout(e.recv, acc)) <==> PythonFaithful(e.recv)
    requires AllDerivable(Python, LayoutArgs(e.args, acc)) <==> AllPythonFaithful(e.args)
    ensures Derivable(Python, Layout(e, acc)) <==> PythonFaithful(e)
  {
    PythonLevel(e.recv, acc);
  }

  lemma PythonFieldIff(e: Expr, acc: Term)
    requires IsAccessor(acc) && ArityOk(e) && e.FieldAccess?
    requires Derivable(Python, Layout(e.obj, acc)) <==> PythonFaithful(e.obj)
    ensures Derivable(Python, Layout(e, acc)) <==> PythonFaithful(e)
  {
    AccessorIsPlain(Python, acc);
    PythonLevel(e.obj, acc);
  }

  lemma PythonUnaryIff(u: SourceUnOp, x: Expr, acc: Term)
    requires IsAccessor(acc) && ArityOk(x)
    requires Derivable(Python, Layout(x, acc)) <==> PythonFaithful(x)
    ensures Derivable(Python, Layout(Unary(u, x), acc)) <==> PythonFaithful(Unary(u, x))
  {
    PythonLevel(x, acc);
  }

  lemma {:induction false} PythonDerivableIff(e: Expr, acc: Term)
    requires IsAccessor(acc) && ArityOk(e)
    ensures Derivable(Python, Layout(e, acc)) <==> PythonFaithful(e)
    decreases e
  {
    match e
    case Ident(_) => AccessorIsPlain(Python, acc);
    case Literal(_) =>
    case FieldAccess(o, _) =>
      PythonDerivableIff(o, acc);
      PythonFieldIff(e, acc);
    case MethodCall(o, _, args) =>
      if IsSelfContains(e) {
        PythonDerivableIff(args.head, acc);
        PythonMembership(e, acc);
      } else {
        PythonDerivableIff(o, acc);
        PythonArgsDerivableIff(args, acc);
        PythonCallIff(e, acc);
      }
    case Binary(op, l, r) =>
      PythonDerivableIff(l, acc);
      PythonDerivableIff(r, acc);
      PythonBinaryIff(op, l, r, acc);
    case Unary(u, x) =>
      PythonDerivableIff(x, acc);
      PythonUnaryIff(u, x, acc);
    case Unsupported =>
  }

  // The same of the two operands, each in its parentheses if it needs them.
  lemma BinaryDerivable(op: SourceOp, a: Term, b: Term)
    ensures Derivable(Python, Bin(op, a, b)) <==>
            Derivable(Python, a) && Derivable(Python, b)
            && Level(Python, a) >= LeftMin(Python, op) && Level(Python, b) > BinLevel(Python, op)
  {}

  lemma {:induction false} PythonBinaryIff(op: SourceOp, l: Expr, r: Expr, acc: Term)
    requires IsAccessor(acc) && ArityOk(l) && ArityOk(r)
    requires Derivable(Python, Layout(l, acc)) <==> PythonFaithful(l)
    requires Derivable(Python, Layout(r, acc)) <==> PythonFaithful(r)
    ensures Derivable(Python, Layout(Binary(op, l, r), acc)) <==> PythonFaithful(Binary(op, l, r))
  {
    PythonLevel(l, acc);
    PythonLevel(r, acc);
    var (a, b) := (Layout(l, acc), Layout(r, acc));
    FitDerivable(a, Precedence(op), LeftMin(Python, op));
    FitDerivable(b, Precedence(op) + 1, BinLevel(Python, op) + 1);
    OperandFits(op, l, r);
    BinaryDerivable(op, Fit(a, Precedence(op)), Fit(b, Precedence(op) + 1));
    assert Layout(Binary(op, l, r), acc) == Bin(op, Fit(a, Precedence(op)), Fit(b, Precedence(op) + 1));
  }

  lemma {:induction false} PythonArgsDerivableIff(es: Exprs, acc: Term)
    requires IsAccessor(acc) && AllArityOk(es)
    ensures AllDerivable(Python, LayoutArgs(es, acc)) <==> AllPythonFaithful(es)
    decreases es
  {
    match es
    case NoExprs =>
    case MoreExprs(h, tl) =>
      PythonDerivableIff(h, acc);
      PythonArgsDerivableIff(tl, acc);
  }

  /** Python reads the text as the constraint's own tree exactly on the faithful fragment. */
  lemma RoundTripPython(e: Expr, acc: Term)
    requires IsAccessor(acc) && ArityOk(e)
    ensures Tree(Python, Print(e, Flatten(acc)).text) == Some(Translate(e, acc)) <==> PythonFaithful(e)
  {
    LayoutPrints(e, acc);
    LayoutErases(e, acc);
    PythonDerivableIff(e, acc);
    ReadsBackIff(Python, Layout(e, acc));
  }

  // ----------------------------------------------------------------- minimality

  lemma {:induction false} LayoutLean(e: Expr, acc: Term)
    requires IsAccessor(acc) && ArityOk(e)
    ensures Lean(Prec, Layout(e, acc))
    decreases e
  {
    AccessorIsPlain(Prec, acc);
    match e
    case Ident(_) =>
    case Literal(_) =>
    case FieldAccess(o, _) =>
      if !IsSelfLength(e) { LayoutLean(o, acc); }
    case MethodCall(o, _, args) =>
      if IsSelfContains(e) {
        LayoutLean(args.head, acc);
      } else {
        LayoutLean(o, acc);
        LayoutArgsLean(args, acc);
      }
    case Binary(_, l, r) =>
      LayoutLean(l, acc);
      LayoutLean(r, acc);
    case Unary(_, x) => LayoutLean(x, acc);
    case Unsupported =>
  }

  lemma {:induction false} LayoutArgsLean(es: Exprs, acc: Term)
    requires IsAccessor(acc) && AllArityOk(es)
    ensures LeanArgs(Prec, LayoutArgs(es, acc))
    decreases es
  {
    match es
    case NoExprs =>
    case MoreExprs(h, tl) =>
      LayoutLean(h, acc);
      LayoutArgsLean(tl, acc);
  }

  /** No other text with the constraint's tree is as short, so no parenthesis can be dropped. */
  lemma ShortestText(e: Expr, acc: Term, toks: seq<Token>)
    requires IsAccessor(acc) && ArityOk(e)
    requires Tree(Prec, toks) == Some(Translate(e, acc))
    ensures |toks| >= |Print(e, Flatten(acc)).text|
    ensures |toks| == |Print(e, Flatten(acc)).text| ==> toks == Print(e, Flatten(acc)).text
  {
    var t := Parse(Prec, toks).value;
    ParseIsDerivation(Prec, toks, t);
    LayoutPrints(e, acc);
    LayoutErases(e, acc);
    LayoutLean(e, acc);
    LeanIsShortest(Prec, Layout(e, acc), t);
  }
}
