// The Go constraint printer: every operator parenthesised, one outer pair stripped.
module GoPrinter {
  import opened Options
  import opened Grammar
  import opened TextTree
  import opened Constraints
  import opened PythonPrinter

  /** What stands for `self`: the field, dereferenced in parentheses when it is a pointer. */
  function SelfText(acc: seq<Token>, deref: bool): seq<Token> {
    if deref then [TLParen, TOp(Product(Mul))] + acc + [TRParen] else acc
  }

  /** The same as a call argument, where no parentheses are needed. */
  function ArgText(acc: seq<Token>, deref: bool): seq<Token> {
    if deref then [TOp(Product(Mul))] + acc else acc
  }

  function PrintGo(e: Expr, acc: seq<Token>, deref: bool): seq<Token>
    decreases e
  {
    match e
    case Ident(x) => if x == "self" then SelfText(acc, deref) else [TName(x)]
    case Literal(c) => [TConst(c)]
    case FieldAccess(o, f) =>
      if IsSelfLength(e) then [TName("len"), TLParen] + ArgText(acc, deref) + [TRParen]
      else PrintGo(o, acc, deref) + [TDot, TName(f)]
    case MethodCall(o, m, args) =>
      if IsSelfContains(e) then
        [TName("strings"), TDot, TName("Contains"), TLParen]
        + (ArgText(acc, deref) + [TComma] + PrintGoArgs(args, acc, deref)) + [TRParen]
      else
        PrintGo(o, acc, deref) + [TDot, TName(m), TLParen] + PrintGoArgs(args, acc, deref) + [TRParen]
    case Binary(op, l, r) =>
      [TLParen] + (PrintGo(l, acc, deref) + [TOp(op)] + PrintGo(r, acc, deref)) + [TRParen]
    case Unary(u, x) =>
      [TLParen] + ([Spelled(u)] + PrintGo(x, acc, deref)) + [TRParen]
    case Unsupported => [TConst(BoolLit(true))]
  }

  function PrintGoArgs(es: Exprs, acc: seq<Token>, deref: bool): seq<Token>
    decreases es
  {
    match es
    case NoExprs => []
    case MoreExprs(h, NoExprs) => PrintGo(h, acc, deref)
    case MoreExprs(h, tl) => PrintGo(h, acc, deref) + [TComma] + PrintGoArgs(tl, acc, deref)
  }

  function SelfTree(acc: Term, deref: bool): Term { if deref then Un(Deref, acc) else acc }

  /** The Go tree that means what the constraint means. */
  function TranslateGo(e: Expr, acc: Term, deref: bool): Term
    decreases e
  {
    match e
    case Ident(x) => if x == "self" then SelfTree(acc, deref) else Name(x)
    case Literal(c) => Const(c)
    case FieldAccess(o, f) =>
      if IsSelfLength(e) then FCall("len", MoreTerms(SelfTree(acc, deref), NoTerms))
      else Attr(TranslateGo(o, acc, deref), f)
    case MethodCall(o, m, args) =>
      if IsSelfContains(e) then
        MCall(Name("strings"), "Contains", MoreTerms(SelfTree(acc, deref), TranslateGoArgs(args, acc, deref)))
      else MCall(TranslateGo(o, acc, deref), m, TranslateGoArgs(args, acc, deref))
    case Binary(op, l, r) => Bin(op, TranslateGo(l, acc, deref), TranslateGo(r, acc, deref))
    case Unary(u, x) => Un(ToUnOp(u), TranslateGo(x, acc, deref))
    case Unsupported => Const(BoolLit(true))
  }

  function TranslateGoArgs(es: Exprs, acc: Term, deref: bool): Terms
    decreases es
  {
    match es
    case NoExprs => NoTerms
    case MoreExprs(h, tl) => MoreTerms(TranslateGo(h, acc, deref), TranslateGoArgs(tl, acc, deref))
  }

  /** The printed text with its parentheses marked. */
  function GoLayout(e: Expr, acc: Term, deref: bool): Term
    decreases e
  {
    match e
    case Ident(x) => if x == "self" then (if deref then Paren(Un(Deref, acc)) else acc) else Name(x)
    case Literal(c) => Const(c)
    case FieldAccess(o, f) =>
      if IsSelfLength(e) then FCall("len", MoreTerms(SelfTree(acc, deref), NoTerms))
      else Attr(GoLayout(o, acc, deref), f)
    case MethodCall(o, m, args) =>
      if IsSelfContains(e) then
        MCall(Name("strings"), "Contains", MoreTerms(SelfTree(acc, deref), GoLayoutArgs(args, acc, deref)))
      else MCall(GoLayout(o, acc, deref), m, GoLayoutArgs(args, acc, deref))
    case Binary(op, l, r) => Paren(Bin(op, GoLayout(l, acc, deref), GoLayout(r, acc, deref)))
    case Unary(u, x) => Paren(Un(ToUnOp(u), GoLayout(x, acc, deref)))
    case Unsupported => Const(BoolLit(true))
  }

  function GoLayoutArgs(es: Exprs, acc: Term, deref: bool): Terms
    decreases es
  {
    match es
    case NoExprs => NoTerms
    case MoreExprs(h, tl) => MoreTerms(GoLayout(h, acc, deref), GoLayoutArgs(tl, acc, deref))
  }

  lemma {:induction false} GoLayoutPrints(e: Expr, acc: Term, deref: bool)
    requires IsAccessor(acc) && ArityOk(e)
    ensures PrintGo(e, Flatten(acc), deref) == Flatten(GoLayout(e, acc, deref))
    decreases e
  {
    match e
    case Ident(_) =>
    case Literal(_) =>
    case FieldAccess(o, _) => GoLayoutPrints(o, acc, deref);
    case MethodCall(o, m, args) =>
      GoLayoutArgsPrints(args, acc, deref);
      if IsSelfContains(e) {
        ContainsText(acc, deref, GoLayoutArgs(args, acc, deref));
      } else {
        GoLayoutPrints(o, acc, deref);
        CallText(GoLayout(o, acc, deref), m, GoLayoutArgs(args, acc, deref));
      }
    case Binary(op, l, r) =>
      GoLayoutPrints(l, acc, deref);
      GoLayoutPrints(r, acc, deref);
      BinaryText(op, GoLayout(l, acc, deref), GoLayout(r, acc, deref));
    case Unary(u, x) =>
      GoLayoutPrints(x, acc, deref);
      UnaryText(ToUnOp(u), GoLayout(x, acc, deref));
    case Unsupported =>
  }

  lemma UnaryText(u: UnOp, x: Term)
    ensures Flatten(Paren(Un(u, x))) == [TLParen] + ([UnToken(u)] + Flatten(x)) + [TRParen]
  {}

  lemma CallText(o: Term, m: string, args: Terms)
    ensures Flatten(MCall(o, m, args)) == Flatten(o) + [TDot, TName(m), TLParen] + FlattenArgs(args) + [TRParen]
  {}

  lemma BinaryText(op: BinOp, l: Term, r: Term)
    ensures Flatten(Paren(Bin(op, l, r))) == [TLParen] + (Flatten(l) + [TOp(op)] + Flatten(r)) + [TRParen]
  {}

  lemma {:induction false} ContainsText(acc: Term, deref: bool, args: Terms)
    requires args.MoreTerms?
    ensures Flatten(MCall(Name("strings"), "Contains", MoreTerms(SelfTree(acc, deref), args)))
         == [TName("strings"), TDot, TName("Contains"), TLParen]
            + (ArgText(Flatten(acc), deref) + [TComma] + FlattenArgs(args)) + [TRParen]
  {
    assert Flatten(SelfTree(acc, deref)) == ArgText(Flatten(acc), deref);
    var all := MoreTerms(SelfTree(acc, deref), args);
    assert FlattenArgs(all) == ArgText(Flatten(acc), deref) + [TComma] + FlattenArgs(args);
    assert Flatten(Name("strings")) == [TName("strings")];
  }

  lemma {:induction false} GoLayoutArgsPrints(es: Exprs, acc: Term, deref: bool)
    requires IsAccessor(acc) && AllArityOk(es)
    ensures PrintGoArgs(es, Flatten(acc), deref) == FlattenArgs(GoLayoutArgs(es, acc, deref))
    decreases es
  {
    match es
    case NoExprs =>
    case MoreExprs(h, tl) =>
      GoLayoutPrints(h, acc, deref);
      GoLayoutArgsPrints(tl, acc, deref);
  }

  lemma SelfTreePlain(acc: Term, deref: bool)
    requires IsAccessor(acc)
    ensures var t := SelfTree(acc, deref);
            Derivable(Prec, t) && Erase(t) == t && Level(Prec, t) >= UnLevel(Prec, Deref)
    ensures var one := MoreTerms(SelfTree(acc, deref), NoTerms); AllDerivable(Prec, one) && EraseArgs(one) == one
  {
    AccessorIsPlain(Prec, acc);
    assert EraseArgs(NoTerms) == NoTerms;
  }

  /** A rendering that needs no context: it parses as an atom, back to `t`. */
  ghost predicate AtomFor(c: Term, t: Term) { Derivable(Prec, c) && Level(Prec, c) == AtomLevel(Prec) && Erase(c) == t }

  lemma GoBinaryGood(op: SourceOp, l: Expr, r: Expr, acc: Term, deref: bool)
    requires IsAccessor(acc)
    requires AtomFor(GoLayout(l, acc, deref), TranslateGo(l, acc, deref))
             && AtomFor(GoLayout(r, acc, deref), TranslateGo(r, acc, deref))
    ensures AtomFor(GoLayout(Binary(op, l, r), acc, deref), TranslateGo(Binary(op, l, r), acc, deref))
  {}

  lemma GoContainsGood(e: Expr, acc: Term, deref: bool)
    requires IsAccessor(acc) && IsSelfContains(e)
    requires AllDerivable(Prec, GoLayoutArgs(e.args, acc, deref))
    requires EraseArgs(GoLayoutArgs(e.args, acc, deref)) == TranslateGoArgs(e.args, acc, deref)
    ensures AtomFor(GoLayout(e, acc, deref), TranslateGo(e, acc, deref))
  {
    SelfTreePlain(acc, deref);
    var all := MoreTerms(SelfTree(acc, deref), GoLayoutArgs(e.args, acc, deref));
    assert AllDerivable(Prec, all);
    assert EraseArgs(all) == MoreTerms(SelfTree(acc, deref), TranslateGoArgs(e.args, acc, deref));
    assert Derivable(Prec, Name("strings")) && Erase(Name("strings")) == Name("strings");
  }

  lemma {:induction false} GoLayoutGood(e: Expr, acc: Term, deref: bool)
    requires IsAccessor(acc)
    ensures AtomFor(GoLayout(e, acc, deref), TranslateGo(e, acc, deref))
    decreases e
  {
    AccessorIsPlain(Prec, acc);
    match e
    case Ident(_) => SelfTreePlain(acc, deref);
    case Literal(_) =>
    case FieldAccess(o, _) =>
      SelfTreePlain(acc, deref);
      GoLayoutGood(o, acc, deref);
    case MethodCall(o, _, args) =>
      GoLayoutGood(o, acc, deref);
      GoLayoutArgsGood(args, acc, deref);
      if IsSelfContains(e) { GoContainsGood(e, acc, deref); }
    case Binary(op, l, r) =>
      GoLayoutGood(l, acc, deref);
      GoLayoutGood(r, acc, deref);
      GoBinaryGood(op, l, r, acc, deref);
    case Unary(u, x) =>
      GoLayoutGood(x, acc, deref);
      var c := Un(ToUnOp(u), GoLayout(x, acc, deref));
      assert Derivable(Prec, c) && Erase(c) == TranslateGo(e, acc, deref);
    case Unsupported =>
  }

  lemma {:induction false} GoLayoutArgsGood(es: Exprs, acc: Term, deref: bool)
    requires IsAccessor(acc)
    ensures var cs := GoLayoutArgs(es, acc, deref);
            AllDerivable(Prec, cs) && EraseArgs(cs) == TranslateGoArgs(es, acc, deref)
    decreases es
  {
    match es
    case NoExprs =>
    case MoreExprs(h, tl) =>
      GoLayoutGood(h, acc, deref);
      GoLayoutArgsGood(tl, acc, deref);
  }

  // ------------------------------------------------------ the outer-pair scan

  /** The text without its outer pair, if one pair encloses all of it. */
  function Stripped(s: seq<Token>): seq<Token> {
    if Enclosed(s) then s[1..|s| - 1] else s
  }

  /** One scan with a depth counter; the counter cannot underflow on any input. */
  method StripOuterParens(expr: seq<Token>) returns (r: seq<Token>)
    ensures r == Stripped(expr)
  {
    if expr == [] || expr[0] != TLParen || expr[|expr| - 1] != TRParen {
      EnclosedEnds(expr);
      return expr;
    }
    var depth: nat := 0;
    for i := 0 to |expr|
      invariant depth == Depth(expr[..i])
      invariant i > 0 ==> depth > 0
      invariant forall k :: 0 < k <= i ==> Depth(expr[..k]) > 0
    {
      assert expr[..i + 1][..i] == expr[..i];
      match expr[i]
      case TLParen => depth := depth + 1;
      case TRParen =>
        depth := depth - 1;
        if depth == 0 {
          assert Depth(expr[..i + 1]) == 0;
          if i == |expr| - 1 {
            assert expr[..i + 1] == expr;
            return expr[1..|expr| - 1];
          }
          return expr;
        }
      case _ =>
    }
    assert expr[..|expr|] == expr;
    return expr;
  }

  lemma EnclosedEnds(s: seq<Token>)
    requires s == [] || s[0] != TLParen || s[|s| - 1] != TRParen
    ensures !Enclosed(s)
  {
    if |s| >= 2 {
      assert s[..1] == [s[0]];
      CountsOne(s[0]);
      assert s[..|s| - 1] + [s[|s| - 1]] == s;
    }
  }

  /** The scan removes exactly the pair that encloses the whole rendering. */
  lemma StripsEnclosingPair(c: Term)
    ensures Stripped(Flatten(c)) == if c.Paren? then Flatten(c.inner) else Flatten(c)
  {
    if c.Paren? {
      FlattenBalanced(c.inner);
      BalancedEnclose(Flatten(c.inner));
      var s := Flatten(c);
      assert s[1..|s| - 1] == Flatten(c.inner);
    } else {
      BareNotEnclosed(c);
    }
  }

  lemma StrippedReads(c: Term, t: Term)
    requires AtomFor(c, t)
    ensures Tree(Prec, Stripped(Flatten(c))) == Some(t)
  {
    StripsEnclosingPair(c);
    if c.Paren? { ReadsBackIff(Prec, c.inner); } else { ReadsBackIff(Prec, c); }
  }

  /** Go reads every stripped text as the constraint's own tree, whatever the constraint. */
  lemma RoundTripGo(e: Expr, acc: Term, deref: bool)
    requires IsAccessor(acc) && ArityOk(e)
    ensures Tree(Prec, Stripped(PrintGo(e, Flatten(acc), deref))) == Some(TranslateGo(e, acc, deref))
  {
    GoLayoutPrints(e, acc, deref);
    GoLayoutGood(e, acc, deref);
    StrippedReads(GoLayout(e, acc, deref), TranslateGo(e, acc, deref));
  }
}
