// The guards around a printed constraint, and what they do when they run.
module Guards {
  import opened Options
  import opened Grammar
  import opened TextTree
  import opened Constraints
  import opened PythonPrinter
  import opened GoPrinter

  // Python and Go trees are given meanings over the same values as source constraints.

  // `NoneV` is an absent field (Python `None`, Go `nil`), `PtrV` a Go pointer that is
  // not nil; `Stuck` is a type error, a nil dereference or an operation the model leaves out.
  datatype Value =
    | IntV(i: int)
    | RealV(r: real)
    | StrV(s: string)
    | BoolV(b: bool)
    | ListV(l: seq<Value>)
    | PtrV(target: Value)
    | NoneV
    | Stuck

  // ------------------------------------------------------- shared primitives

  predicate LexLess(a: string, b: string) {
    if b == "" then false
    else if a == "" then true
    else a[0] < b[0] || (a[0] == b[0] && LexLess(a[1..], b[1..]))
  }

  function Arith(op: BinOp, x: Value, y: Value): Value {
    match (op, x, y)
    case (Sum(Add), IntV(a), IntV(b)) => IntV(a + b)
    case (Sum(Sub), IntV(a), IntV(b)) => IntV(a - b)
    case (Product(Mul), IntV(a), IntV(b)) => IntV(a * b)
    case (Sum(Add), RealV(a), RealV(b)) => RealV(a + b)
    case (Sum(Sub), RealV(a), RealV(b)) => RealV(a - b)
    case (Product(Mul), RealV(a), RealV(b)) => RealV(a * b)
    case (Sum(Add), StrV(a), StrV(b)) => StrV(a + b)
    case _ => Stuck  // `/` and `%` differ between the targets
  }

  lemma ArithmeticLaws(a: real, b: real, i: int, j: int, s: string, t: string)
    ensures Arith(Sum(Add), IntV(i), IntV(j)) == IntV(i + j) && Arith(Sum(Add), RealV(a), RealV(b)) == RealV(a + b)
    ensures Arith(Sum(Sub), IntV(i), IntV(j)) == IntV(i - j) && Arith(Sum(Sub), RealV(a), RealV(b)) == RealV(a - b)
    ensures Arith(Product(Mul), IntV(i), IntV(j)) == IntV(i * j)
            && Arith(Product(Mul), RealV(a), RealV(b)) == RealV(a * b)
    ensures Arith(Sum(Add), StrV(s), StrV(t)) == StrV(s + t)
    ensures Negated(IntV(i)) == IntV(-i) && Negated(RealV(a)) == RealV(-a)
  {}

  /** Strings are ordered by their first difference, a prefix before what it begins. */
  lemma {:induction false} StringOrder(p: string, x: char, y: char, a: string, b: string)
    ensures LexLess(p + [x] + a, p + [y] + b) <==> x < y || (x == y && LexLess(a, b))
    ensures LexLess(p, p + [x] + a) && !LexLess(p + [x] + a, p) && !LexLess(p, p)
    decreases |p|
  {
    if p == "" {
      assert ([x] + a)[1..] == a && ([y] + b)[1..] == b && p + [x] + a == [x] + a && p + [y] + b == [y] + b;
    } else {
      StringOrder(p[1..], x, y, a, b);
      assert (p + [x] + a)[1..] == p[1..] + [x] + a && (p + [y] + b)[1..] == p[1..] + [y] + b;
    }
  }

  predicate SameKind(x: Value, y: Value) {
    (x.IntV? && y.IntV?) || (x.RealV? && y.RealV?) || (x.StrV? && y.StrV?) || (x.BoolV? && y.BoolV?)
  }

  predicate Less(x: Value, y: Value)
    requires SameKind(x, y)
  {
    match x
    case IntV(a) => a < y.i
    case RealV(a) => a < y.r
    case StrV(a) => LexLess(a, y.s)
    case _ => false
  }

  function Compare(op: CmpOp, x: Value, y: Value): Value {
    if !SameKind(x, y) then Stuck
    else match op
         case Eq => BoolV(x == y)
         case NotEq => BoolV(x != y)
         case Lt => if x.BoolV? then Stuck else BoolV(Less(x, y))
         case Gt => if x.BoolV? then Stuck else BoolV(Less(y, x))
         case LtEq => if x.BoolV? then Stuck else BoolV(Less(x, y) || x == y)
         case GtEq => if x.BoolV? then Stuck else BoolV(Less(y, x) || x == y)
         case _ => Stuck
  }

  /** What is compared: integers and reals by value, texts by `LexLess`, booleans for equality only. */
  lemma ComparisonLaws(i: int, j: int, a: real, b: real, s: string, t: string)
    ensures Compare(Lt, IntV(i), IntV(j)) == BoolV(i < j) && Compare(Lt, RealV(a), RealV(b)) == BoolV(a < b)
    ensures Compare(LtEq, IntV(i), IntV(j)) == BoolV(i <= j) && Compare(LtEq, RealV(a), RealV(b)) == BoolV(a <= b)
    ensures Compare(Gt, IntV(i), IntV(j)) == BoolV(i > j) && Compare(GtEq, IntV(i), IntV(j)) == BoolV(i >= j)
    ensures Compare(Lt, StrV(s), StrV(t)) == BoolV(LexLess(s, t))
            && Compare(Gt, StrV(s), StrV(t)) == BoolV(LexLess(t, s))
    ensures Compare(Eq, StrV(s), StrV(t)) == BoolV(s == t) && Compare(NotEq, BoolV(true), BoolV(false)) == BoolV(true)
    ensures Compare(Lt, BoolV(false), BoolV(true)) == Stuck && Compare(Eq, IntV(i), RealV(a)) == Stuck
  {}

  predicate HasSubstring(s: string, t: string) {
    t <= s || (s != "" && HasSubstring(s[1..], t))
  }

  /** `t` stands somewhere in `s`. */
  lemma {:induction false} SubstringIff(s: string, t: string)
    ensures HasSubstring(s, t) <==> exists a, b :: s == a + t + b
    decreases |s|
  {
    if t <= s {
      assert s == "" + t + s[|t|..];
    } else if s != "" {
      SubstringIff(s[1..], t);
      if a, b :| s[1..] == a + t + b { assert s == ([s[0]] + a) + t + b; }
      if a, b :| s == a + t + b {
        assert a == "" ==> s == t + b;
        assert s[1..] == a[1..] + t + b;
      }
    }
  }

  function Negated(x: Value): Value {
    match x
    case IntV(a) => IntV(-a)
    case RealV(a) => RealV(-a)
    case _ => Stuck
  }

  // ------------------------------------------------------------ the constraint

  /** The meaning of a constraint for a present field value; `len` is the length measure. */
  function Holds(e: Expr, self: Value, len: Value -> Value): Value
    decreases e
  {
    match e
    case Ident(x) => if x == "self" then self else Stuck
    case Literal(c) => LitValue(c)
    case FieldAccess(_, _) => if IsSelfLength(e) then len(self) else Stuck
    case MethodCall(_, _, args) =>
      if IsSelfContains(e) && args.MoreExprs? then
        match (self, Holds(args.head, self, len))
        case (StrV(s), StrV(t)) => BoolV(HasSubstring(s, t))
        case (ListV(l), v) => if v.Stuck? then Stuck else BoolV(v in l)
        case _ => Stuck
      else Stuck
    case Binary(op, l, r) =>
      var x := Holds(l, self, len);
      if op.And? || op.Or? then
        if !x.BoolV? then Stuck
        else if x.b == op.Or? then x
        else var y := Holds(r, self, len); if y.BoolV? then y else Stuck
      else
        var y := Holds(r, self, len);
        if op.Cmp? then Compare(op.c, x, y) else Arith(op, x, y)
    case Unary(u, x) =>
      var v := Holds(x, self, len);
      if u.Negate? then Negated(v) else if v.BoolV? then BoolV(!v.b) else Stuck
    case Unsupported => BoolV(true)
  }

  function LitValue(c: Lit): Value {
    match c
    case IntLit(i) => IntV(i)
    case FloatLit(r) => RealV(r)
    case StrLit(s) => StrV(s)
    case BoolLit(b) => BoolV(b)
    case NoneLit => NoneV
  }

  // -------------------------------------------------------------------- Python

  /** Python truth value; `Stuck` has none. */
  predicate Truthy(v: Value) {
    match v
    case IntV(i) => i != 0
    case RealV(r) => r != 0.0
    case StrV(s) => s != ""
    case BoolV(b) => b
    case ListV(l) => l != []
    case PtrV(_) => true
    case NoneV => false
    case Stuck => false
  }

  /** Zero, the empty text, the empty list, `False` and `None` count as false in Python, and nothing else. */
  lemma FalsyValues(v: Value)
    requires v != Stuck
    ensures !Truthy(v) <==> v in [IntV(0), RealV(0.0), StrV(""), BoolV(false), ListV([]), NoneV]
  {}

  /** A Python boolean is the integer 0 or 1 where it is compared. */
  function AsNumber(v: Value): Value { if v.BoolV? then IntV(if v.b then 1 else 0) else v }

  /** Numbers compare by value, whatever their types. */
  function PyOrdered(op: CmpOp, x: Value, y: Value): Value {
    match (AsNumber(x), AsNumber(y))
    case (IntV(a), RealV(b)) => Compare(op, RealV(a as real), RealV(b))
    case (RealV(a), IntV(b)) => Compare(op, RealV(a), RealV(b as real))
    case (a, b) => Compare(op, a, b)
  }

  predicate PyEqual(x: Value, y: Value) {
    var r := PyOrdered(Eq, x, y);
    if r.BoolV? then r.b else x == y
  }

  function PyCompare(op: CmpOp, x: Value, y: Value): Value {
    if x.Stuck? || y.Stuck? then Stuck
    else match op
         case Eq => BoolV(PyEqual(x, y))
         case NotEq => BoolV(!PyEqual(x, y))
         case IsNot => BoolV(x != y)
         case In => PyIn(x, y)
         case NotIn => (var v := PyIn(x, y); if v.BoolV? then BoolV(!v.b) else Stuck)
         case _ => PyOrdered(op, x, y)
  }

  /** `True == 1`, `False == 0`, `1 == 1.0`; numbers of whatever type are ordered by value. */
  lemma NumbersCompare(i: int, r: real)
    ensures PyCompare(Eq, BoolV(true), IntV(i)) == BoolV(i == 1)
            && PyCompare(Eq, IntV(i), BoolV(false)) == BoolV(i == 0)
    ensures PyCompare(Eq, IntV(i), RealV(r)) == BoolV(i as real == r)
    ensures PyCompare(Lt, RealV(r), IntV(i)) == BoolV(r < i as real)
    ensures PyCompare(NotEq, StrV("0"), IntV(i)) == BoolV(true)
    ensures PyCompare(NotEq, BoolV(false), IntV(i)) == BoolV(i != 0)
            && PyCompare(IsNot, BoolV(false), NoneV) == BoolV(true)
  {}

  // What is looked for has the type of the list's elements.
  function PyIn(x: Value, y: Value): Value {
    match y
    case StrV(s) => if x.StrV? then BoolV(HasSubstring(s, x.s)) else Stuck
    case ListV(l) => BoolV(x in l)
    case _ => Stuck
  }

  /** Evaluates a Python tree in which `acc` holds the field value. */
  function PyEval(t: Term, acc: Term, self: Value, len: Value -> Value): Value
    decreases t
  {
    if t == acc then self
    else match t
         case Const(c) => LitValue(c)
         case FCall(f, args) =>
           if f == "len" && args.MoreTerms? && args.tail.NoTerms? then len(PyEval(args.head, acc, self, len)) else Stuck
         case Bin(op, l, r) =>
           var x := PyEval(l, acc, self, len);
           if x.Stuck? then Stuck
           else if op.And? then (if Truthy(x) then PyEval(r, acc, self, len) else x)
           else if op.Or? then (if Truthy(x) then x else PyEval(r, acc, self, len))
           else
             var y := PyEval(r, acc, self, len);
             if op.Cmp? then PyCompare(op.c, x, y) else Arith(op, x, y)
         case Chain(p, op, n) =>
           var x := PyEval(p, acc, self, len);
           if x.Stuck? || !Truthy(x) || !op.Cmp? then x
           else
             var mid := if p.Bin? then PyEval(p.right, acc, self, len)
                        else if p.Chain? then PyEval(p.next, acc, self, len) else Stuck;
             PyCompare(op.c, mid, PyEval(n, acc, self, len))
         case Un(u, x) =>
           var v := PyEval(x, acc, self, len);
           if v.Stuck? then Stuck
           else if u.Not? then BoolV(!Truthy(v)) else if u.Neg? then Negated(v) else Stuck
         case Paren(x) => PyEval(x, acc, self, len)
         case _ => Stuck
  }

  // ------------------------------------------------------------------------ Go

  /** What the struct field holds: a pointer to a present value, if it is a pointer field. */
  function GoField(self: Value, isPtr: bool): Value {
    if isPtr && !self.NoneV? then PtrV(self) else self
  }

  /** `x != nil` is for pointers; nothing else that a constraint is about may be compared with nil. */
  function NotNilTest(x: Value): Value {
    if x.PtrV? || x.NoneV? then BoolV(x.PtrV?) else Stuck
  }

  function GoLogical(op: BinOp, x: Value, y: Value): Value {
    if !x.BoolV? then Stuck else if x.b == op.Or? then x else if y.BoolV? then y else Stuck
  }

  function GoStrict(op: BinOp, x: Value, y: Value): Value {
    if op == Cmp(NotEq) && y.NoneV? then NotNilTest(x) else if op.Cmp? then Compare(op.c, x, y) else Arith(op, x, y)
  }

  /** A logical operator looks at its right operand only where the left one does not decide. */
  function GoBinop(op: BinOp, x: Value, y: Value): Value {
    if op.And? || op.Or? then GoLogical(op, x, y) else GoStrict(op, x, y)
  }

  /** Evaluates a Go tree in which `acc` is the struct field and holds `field`. */
  function GoEval(t: Term, acc: Term, field: Value, len: Value -> Value): Value
    decreases t
  {
    if t == acc then field
    else match t
         case Name(x) => if x == "nil" then NoneV else Stuck
         case Const(c) => LitValue(c)
         case FCall(f, args) =>
           if f == "len" && args.MoreTerms? && args.tail.NoTerms? then
             GoLen(GoEval(args.head, acc, field, len), len)
           else Stuck
         case MCall(p, m, args) =>
           if p == Name("strings") && m == "Contains"
              && args.MoreTerms? && args.tail.MoreTerms? && args.tail.tail.NoTerms? then
             match (GoEval(args.head, acc, field, len), GoEval(args.tail.head, acc, field, len))
             case (StrV(s), StrV(u)) => BoolV(HasSubstring(s, u))
             case _ => Stuck
           else Stuck
         case Bin(op, l, r) =>
           GoBinop(op, GoEval(l, acc, field, len), GoEval(r, acc, field, len))
         case Un(u, x) =>
           var v := GoEval(x, acc, field, len);
           if u.Neg? then Negated(v)
           else if u.Not? then (if v.BoolV? then BoolV(!v.b) else Stuck)
           else if v.PtrV? then v.target else Stuck
         case Paren(x) => GoEval(x, acc, field, len)
         case _ => Stuck
  }

  /** Go has no length of a pointer. */
  function GoLen(v: Value, len: Value -> Value): Value { if v.PtrV? then Stuck else len(v) }

  // -------------------------------------------------- translations keep meaning

  /** `self.contains` is used on strings only; on a list Go has no such call. */
  predicate ContainsOnText(e: Expr, self: Value) {
    self.ListV? ==> !UsesContains(e)
  }

  predicate UsesContains(e: Expr) {
    match e
    case FieldAccess(o, _) => UsesContains(o)
    case MethodCall(o, _, args) => IsSelfContains(e) || UsesContains(o)
    case Binary(_, l, r) => UsesContains(l) || UsesContains(r)
    case Unary(_, x) => UsesContains(x)
    case _ => false
  }

  /** The left operand settles `and` or `or`. */
  predicate Decided(op: BinOp, x: Value) { (op.And? || op.Or?) && x.BoolV? && x.b == op.Or? }

  lemma BinaryStuck(op: SourceOp, l: Expr, r: Expr, self: Value, len: Value -> Value)
    requires Holds(Binary(op, l, r), self, len) != Stuck
    ensures Holds(l, self, len) != Stuck && (Decided(op, Holds(l, self, len)) || Holds(r, self, len) != Stuck)
  {}

  lemma PythonBinary(op: SourceOp, l: Expr, r: Expr, acc: Term, self: Value, len: Value -> Value)
    requires IsAccessor(acc) && Holds(Binary(op, l, r), self, len) != Stuck
    requires PyEval(Translate(l, acc), acc, self, len) == Holds(l, self, len)
    requires Decided(op, Holds(l, self, len)) || PyEval(Translate(r, acc), acc, self, len) == Holds(r, self, len)
    ensures PyEval(Translate(Binary(op, l, r), acc), acc, self, len) == Holds(Binary(op, l, r), self, len)
  {}

  lemma {:induction false} PythonKeepsMeaning(e: Expr, acc: Term, self: Value, len: Value -> Value)
    requires IsAccessor(acc) && Holds(e, self, len) != Stuck && self != Stuck
    ensures PyEval(Translate(e, acc), acc, self, len) == Holds(e, self, len)
    decreases e
  {
    match e
    case Ident(_) =>
    case Literal(_) =>
    case FieldAccess(_, _) =>
      assert PyEval(acc, acc, self, len) == self;
    case MethodCall(_, _, args) =>
      PythonKeepsMeaning(args.head, acc, self, len);
      assert PyEval(acc, acc, self, len) == self;
    case Binary(op, l, r) =>
      BinaryStuck(op, l, r, self, len);
      PythonKeepsMeaning(l, acc, self, len);
      if !Decided(op, Holds(l, self, len)) { PythonKeepsMeaning(r, acc, self, len); }
      PythonBinary(op, l, r, acc, self, len);
    case Unary(_, x) =>
      PythonKeepsMeaning(x, acc, self, len);
    case Unsupported =>
  }

  /** A present value of the source language. */
  predicate Plain(self: Value) { !self.Stuck? && !self.NoneV? && !self.PtrV? }

  /** How a Go text can fail a good constraint: a pointer used as if it were its target, `contains` on a list. */
  datatype Slip = NoDeref | ListContains

  /** Evaluating the constraint comes to a place where the slip shows. */
  predicate Reaches(slip: Slip, e: Expr, self: Value, len: Value -> Value)
    decreases e
  {
    match e
    case Ident(x) => slip.NoDeref? && x == "self"
    case FieldAccess(_, _) => slip.NoDeref? && IsSelfLength(e)
    case MethodCall(_, _, args) =>
      IsSelfContains(e) && (slip.NoDeref? || self.ListV? || (args.MoreExprs? && Reaches(slip, args.head, self, len)))
    case Binary(op, l, r) =>
      Reaches(slip, l, self, len) || (!Decided(op, Holds(l, self, len)) && Reaches(slip, r, self, len))
    case Unary(_, x) => Reaches(slip, x, self, len)
    case _ => false
  }

  /** The field and the dereferencing that a slip is about. */
  predicate Setting(slip: Slip, deref: bool, self: Value, field: Value) {
    if slip.NoDeref? then !deref && field == PtrV(self) else field == GoField(self, deref)
  }

  /** `v` is the constraint's value, unless evaluation reached the slip: then no value of the source language. */
  predicate Outcome(slip: Slip, e: Expr, self: Value, len: Value -> Value, v: Value) {
    if Reaches(slip, e, self, len) then v == Stuck || v == PtrV(self) else v == Holds(e, self, len) != NoneV
  }

  /** A constraint in the Go fragment of the model. */
  ghost predicate GoReady(e: Expr, self: Value, len: Value -> Value) {
    Holds(e, self, len) != Stuck && Plain(self) && ArityOk(e) && !MentionsNone(e) && IsMeasure(len)
  }

  lemma PointerSpoils(op: BinOp, x: Value, y: Value)
    requires x == Stuck || x.PtrV? || y == Stuck || y.PtrV?
    requires !y.NoneV?
    ensures GoStrict(op, x, y) == Stuck
  {}

  lemma NeverPointer(e: Expr, self: Value, len: Value -> Value)
    requires Plain(self) && IsMeasure(len)
    ensures !Holds(e, self, len).PtrV?
  {}

  lemma LogicalOutcome(slip: Slip, op: SourceOp, l: Expr, r: Expr, self: Value, len: Value -> Value, x: Value, y: Value)
    requires (op.And? || op.Or?) && Plain(self) && Holds(Binary(op, l, r), self, len) != Stuck
    requires Outcome(slip, l, self, len, x) && (Decided(op, Holds(l, self, len)) || Outcome(slip, r, self, len, y))
    ensures Outcome(slip, Binary(op, l, r), self, len, GoLogical(op, x, y))
  {}

  lemma StrictOutcome(slip: Slip, op: SourceOp, l: Expr, r: Expr, self: Value, len: Value -> Value, x: Value, y: Value)
    requires !op.And? && !op.Or? && Plain(self) && IsMeasure(len) && Holds(Binary(op, l, r), self, len) != Stuck
    requires Outcome(slip, l, self, len, x) && Outcome(slip, r, self, len, y)
    ensures Outcome(slip, Binary(op, l, r), self, len, GoStrict(op, x, y))
  {
    if Reaches(slip, l, self, len) || Reaches(slip, r, self, len) { PointerSpoils(op, x, y); }
  }

  lemma GoBinary(slip: Slip, op: SourceOp, l: Expr, r: Expr, acc: Term, deref: bool, self: Value, field: Value,
                 len: Value -> Value)
    requires IsAccessor(acc) && Plain(self) && IsMeasure(len) && Holds(Binary(op, l, r), self, len) != Stuck
    requires Outcome(slip, l, self, len, GoEval(TranslateGo(l, acc, deref), acc, field, len))
    requires Decided(op, Holds(l, self, len))
          || Outcome(slip, r, self, len, GoEval(TranslateGo(r, acc, deref), acc, field, len))
    ensures Outcome(slip, Binary(op, l, r), self, len,
                    GoEval(TranslateGo(Binary(op, l, r), acc, deref), acc, field, len))
  {
    var x := GoEval(TranslateGo(l, acc, deref), acc, field, len);
    var y := GoEval(TranslateGo(r, acc, deref), acc, field, len);
    assert GoEval(TranslateGo(Binary(op, l, r), acc, deref), acc, field, len) == GoBinop(op, x, y);
    if op.And? || op.Or? {
      LogicalOutcome(slip, op, l, r, self, len, x, y);
    } else {
      StrictOutcome(slip, op, l, r, self, len, x, y);
    }
  }

  lemma ArgumentReady(e: Expr, self: Value, len: Value -> Value)
    requires GoReady(e, self, len) && e.MethodCall?
    ensures IsSelfContains(e) && e.args.MoreExprs? && GoReady(e.args.head, self, len)
  {
    assert AllArityOk(e.args) && !AnyMentionsNone(e.args);
  }

  lemma {:induction false} GoContains(slip: Slip, e: Expr, acc: Term, deref: bool, self: Value, field: Value,
                                      len: Value -> Value)
    requires IsAccessor(acc) && GoReady(e, self, len) && Setting(slip, deref, self, field) && IsSelfContains(e)
    requires Outcome(slip, e.args.head, self, len, GoEval(TranslateGo(e.args.head, acc, deref), acc, field, len))
    ensures Outcome(slip, e, self, len, GoEval(TranslateGo(e, acc, deref), acc, field, len))
  {
    assert TranslateGoArgs(e.args.tail, acc, deref) == NoTerms;
    var args := MoreTerms(SelfTree(acc, deref), MoreTerms(TranslateGo(e.args.head, acc, deref), NoTerms));
    assert TranslateGo(e, acc, deref) == MCall(Name("strings"), "Contains", args);
    assert GoEval(SelfTree(acc, deref), acc, field, len) == if slip.NoDeref? then PtrV(self) else self;
  }

  /** The Go tree has the constraint's value exactly as long as evaluation does not reach the slip. */
  lemma {:induction false} GoMeaning(slip: Slip, e: Expr, acc: Term, deref: bool, self: Value, field: Value,
                                     len: Value -> Value)
    requires IsAccessor(acc) && GoReady(e, self, len) && Setting(slip, deref, self, field)
    ensures Outcome(slip, e, self, len, GoEval(TranslateGo(e, acc, deref), acc, field, len))
    decreases e
  {
    assert GoEval(SelfTree(acc, deref), acc, field, len) == if slip.NoDeref? then PtrV(self) else self;
    match e
    case Ident(_) =>
    case Literal(_) =>
    case FieldAccess(_, _) =>
    case MethodCall(_, _, args) =>
      ArgumentReady(e, self, len);
      GoMeaning(slip, args.head, acc, deref, self, field, len);
      GoContains(slip, e, acc, deref, self, field, len);
    case Binary(op, l, r) =>
      BinaryStuck(op, l, r, self, len);
      GoMeaning(slip, l, acc, deref, self, field, len);
      if !Decided(op, Holds(l, self, len)) { GoMeaning(slip, r, acc, deref, self, field, len); }
      GoBinary(slip, op, l, r, acc, deref, self, field, len);
    case Unary(_, x) =>
      GoMeaning(slip, x, acc, deref, self, field, len);
    case Unsupported =>
  }

  lemma {:induction false} TextNeverSlips(e: Expr, self: Value, len: Value -> Value)
    requires ContainsOnText(e, self) && ArityOk(e) && Holds(e, self, len) != Stuck
    ensures !Reaches(ListContains, e, self, len)
    decreases e
  {
    match e
    case MethodCall(_, _, args) =>
      if !self.ListV? { TextNeverSlips(args.head, self, len); }
    case Binary(op, l, r) =>
      BinaryStuck(op, l, r, self, len);
      TextNeverSlips(l, self, len);
      if !Decided(op, Holds(l, self, len)) { TextNeverSlips(r, self, len); }
    case Unary(_, x) => TextNeverSlips(x, self, len);
    case _ =>
  }

  /** On a field of either kind the Go tree, with its dereferences, has the constraint's value. */
  lemma GoKeepsMeaning(e: Expr, acc: Term, deref: bool, self: Value, len: Value -> Value)
    requires IsAccessor(acc) && GoReady(e, self, len) && ContainsOnText(e, self)
    ensures GoEval(TranslateGo(e, acc, deref), acc, GoField(self, deref), len) == Holds(e, self, len) != NoneV
  {
    GoMeaning(ListContains, e, acc, deref, self, GoField(self, deref), len);
    TextNeverSlips(e, self, len);
  }

  /** Without its dereferences it has that value on a pointer field only if evaluation never comes to `self`. */
  lemma DereferencesNeeded(e: Expr, acc: Term, self: Value, len: Value -> Value)
    requires IsAccessor(acc) && GoReady(e, self, len)
    ensures GoEval(TranslateGo(e, acc, false), acc, PtrV(self), len) == Holds(e, self, len) <==>
            !Reaches(NoDeref, e, self, len)
  {
    GoMeaning(NoDeref, e, acc, false, self, PtrV(self), len);
    NeverPointer(e, self, len);
  }

  /** Phoenix has no `None` literal. */
  predicate MentionsNone(e: Expr) {
    match e
    case Literal(c) => c.NoneLit?
    case MethodCall(o, _, args) => MentionsNone(o) || AnyMentionsNone(args)
    case FieldAccess(o, _) => MentionsNone(o)
    case Binary(_, l, r) => MentionsNone(l) || MentionsNone(r)
    case Unary(_, x) => MentionsNone(x)
    case _ => false
  }

  predicate AnyMentionsNone(es: Exprs) {
    match es
    case NoExprs => false
    case MoreExprs(h, tl) => MentionsNone(h) || AnyMentionsNone(tl)
  }

  /** A length measure gives an integer where it is defined. */
  ghost predicate IsMeasure(len: Value -> Value) { forall v :: len(v).IntV? || len(v).Stuck? }

  // The presence test `acc op absent` needs no parentheses in either language.
  lemma {:induction false} PresencePlain(g: Grammar, op: CmpOp, acc: Term, absent: Term)
    requires IsAccessor(acc) && (absent.Name? || absent.Const?)
    ensures var t := Bin(Cmp(op), acc, absent);
            && Derivable(g, t) && Erase(t) == t
            && Flatten(t) == Flatten(acc) + [TOp(Cmp(op))] + Flatten(absent)
  {
    AccessorIsPlain(g, acc);
    assert Derivable(g, absent) && Level(g, absent) == AtomLevel(g) && Erase(absent) == absent;
  }

  // -------------------------------------------------------------- Python guard

  /** The condition of the guard: the presence test of an optional field, then the negated constraint. */
  function PyGuard(e: Expr, acc: seq<Token>, optional: bool): seq<Token> {
    (if optional then acc + [TOp(Cmp(CmpOp.IsNot)), TConst(NoneLit), TOp(And)] else []) + PyNegated(e, acc)
  }

  function PyNegated(e: Expr, acc: seq<Token>): seq<Token> {
    if IsSelfContains(e) then
      (if e.args.MoreExprs? then Print(e.args.head, acc).text else []) + [TOp(Cmp(NotIn))] + acc
    else
      var p := Print(e, acc);
      if p.prec < PREC_UNARY then [TNot, TLParen] + p.text + [TRParen] else [TNot] + p.text
  }

  function NegatedLayout(e: Expr, acc: Term): Term
    requires IsAccessor(acc)
  {
    if IsSelfContains(e) && e.args.MoreExprs? then Bin(Cmp(NotIn), Layout(e.args.head, acc), acc)
    else Un(Not, Fit(Layout(e, acc), PREC_UNARY))
  }

  function PyGuardLayout(e: Expr, acc: Term, optional: bool): Term
    requires IsAccessor(acc)
  {
    if optional then Bin(And, Bin(Cmp(CmpOp.IsNot), acc, Const(NoneLit)), NegatedLayout(e, acc))
    else NegatedLayout(e, acc)
  }

  lemma ContainsNegatedPrints(e: Expr, acc: Term)
    requires IsAccessor(acc) && ArityOk(e) && IsSelfContains(e)
    ensures PyNegated(e, Flatten(acc)) == Flatten(NegatedLayout(e, acc))
  {
    LayoutPrints(e.args.head, acc);
  }

  lemma NotPrints(c: Term, p: Printed)
    requires p == Printed(Flatten(c), Level(Prec, c))
    ensures Flatten(Un(Not, Fit(c, PREC_UNARY))) == [TNot] + Wrapped(p, PREC_UNARY)
  {
    FitPrints(c, p, PREC_UNARY);
  }

  lemma NegatedPrints(e: Expr, acc: Term)
    requires IsAccessor(acc) && ArityOk(e)
    ensures PyNegated(e, Flatten(acc)) == Flatten(NegatedLayout(e, acc))
  {
    if IsSelfContains(e) {
      ContainsNegatedPrints(e, acc);
    } else {
      var p := Print(e, Flatten(acc));
      LayoutPrints(e, acc);
      NotPrints(Layout(e, acc), p);
      NotText(p.text);
    }
  }

  lemma {:induction false} GuardPrints(e: Expr, acc: Term, optional: bool)
    requires IsAccessor(acc) && ArityOk(e)
    ensures PyGuard(e, Flatten(acc), optional) == Flatten(PyGuardLayout(e, acc, optional))
  {
    NegatedPrints(e, acc);
    if optional {
      PresencePlain(Python, CmpOp.IsNot, acc, Const(NoneLit));
      PresentThen(acc, NegatedLayout(e, acc));
    }
  }

  lemma PresentThen(acc: Term, negated: Term)
    requires Flatten(Bin(Cmp(CmpOp.IsNot), acc, Const(NoneLit)))
             == Flatten(acc) + [TOp(Cmp(CmpOp.IsNot))] + Flatten(Const(NoneLit))
    ensures Flatten(Bin(And, Bin(Cmp(CmpOp.IsNot), acc, Const(NoneLit)), negated))
         == Flatten(acc) + [TOp(Cmp(CmpOp.IsNot)), TConst(NoneLit), TOp(And)] + Flatten(negated)
  {
    assert Flatten(Const(NoneLit)) == [TConst(NoneLit)];
  }

  lemma NotInIsLikeIn(l: Term, r: Term)
    ensures Derivable(Python, Bin(Cmp(NotIn), l, r)) == Derivable(Python, Bin(Cmp(In), l, r))
    ensures Level(Python, Bin(Cmp(NotIn), l, r)) >= UnLevel(Python, Not)
  {}

  lemma NotDerivable(c: Term, faithful: bool)
    requires !c.Paren? && (Derivable(Python, c) <==> faithful)
             && (Level(Prec, c) < PREC_UNARY || Level(Python, c) >= UnLevel(Python, Not))
    ensures Derivable(Python, Un(Not, Fit(c, PREC_UNARY))) <==> faithful
    ensures Level(Python, Un(Not, Fit(c, PREC_UNARY))) >= UnLevel(Python, Not)
  {
    FitDerivable(c, PREC_UNARY, UnLevel(Python, Not));
  }

  lemma NegatedDerivable(e: Expr, acc: Term)
    requires IsAccessor(acc) && ArityOk(e)
    ensures Derivable(Python, NegatedLayout(e, acc)) <==> PythonFaithful(e)
    ensures Level(Python, NegatedLayout(e, acc)) >= UnLevel(Python, Not)
  {
    PythonDerivableIff(e, acc);
    if IsSelfContains(e) {
      NotInIsLikeIn(Layout(e.args.head, acc), acc);
    } else {
      PythonLevel(e, acc);
      NotDerivable(Layout(e, acc), PythonFaithful(e));
    }
  }

  lemma GuardDerivable(e: Expr, acc: Term, optional: bool)
    requires IsAccessor(acc) && ArityOk(e)
    ensures Derivable(Python, PyGuardLayout(e, acc, optional)) <==> PythonFaithful(e)
  {
    NegatedDerivable(e, acc);
    PresencePlain(Python, CmpOp.IsNot, acc, Const(NoneLit));
  }

  function NegatedTree(e: Expr, acc: Term): Term {
    if IsSelfContains(e) && e.args.MoreExprs? then Bin(Cmp(NotIn), Translate(e.args.head, acc), acc)
    else Un(Not, Translate(e, acc))
  }

  function PyGuardTree(e: Expr, acc: Term, optional: bool): Term {
    if optional then Bin(And, Bin(Cmp(CmpOp.IsNot), acc, Const(NoneLit)), NegatedTree(e, acc)) else NegatedTree(e, acc)
  }

  lemma NegatedErases(e: Expr, acc: Term)
    requires IsAccessor(acc)
    ensures Erase(NegatedLayout(e, acc)) == NegatedTree(e, acc)
  {
    AccessorIsPlain(Python, acc);
    if IsSelfContains(e) && e.args.MoreExprs? {
      LayoutErases(e.args.head, acc);
    } else {
      LayoutErases(e, acc);
      FitErases(Layout(e, acc), PREC_UNARY);
    }
  }

  lemma GuardErases(e: Expr, acc: Term, optional: bool)
    requires IsAccessor(acc)
    ensures Erase(PyGuardLayout(e, acc, optional)) == PyGuardTree(e, acc, optional)
  {
    NegatedErases(e, acc);
    PresencePlain(Python, CmpOp.IsNot, acc, Const(NoneLit));
  }

  lemma {:induction false} PyNegatedRuns(e: Expr, acc: Term, self: Value, len: Value -> Value)
    requires IsAccessor(acc) && self != Stuck && Holds(e, self, len).BoolV?
    ensures PyEval(NegatedTree(e, acc), acc, self, len) == BoolV(!Holds(e, self, len).b)
  {
    PythonKeepsMeaning(e, acc, self, len);
    if IsSelfContains(e) && e.args.MoreExprs? {
      PythonKeepsMeaning(e.args.head, acc, self, len);
      assert PyEval(acc, acc, self, len) == self;
    }
  }

  lemma {:induction false} PyGuardRuns(e: Expr, acc: Term, optional: bool, self: Value, len: Value -> Value)
    requires IsAccessor(acc) && self != Stuck && (self.NoneV? ==> optional)
    requires !self.NoneV? ==> Holds(e, self, len).BoolV?
    ensures PyEval(PyGuardTree(e, acc, optional), acc, self, len)
         == BoolV(!self.NoneV? && !Holds(e, self, len).b)
  {
    if !self.NoneV? {
      PyNegatedRuns(e, acc, self, len);
    }
    PresenceRuns(acc, self, len);
  }

  lemma {:induction false} PresenceRuns(acc: Term, self: Value, len: Value -> Value)
    requires IsAccessor(acc) && self != Stuck
    ensures PyEval(Bin(Cmp(CmpOp.IsNot), acc, Const(NoneLit)), acc, self, len) == BoolV(!self.NoneV?)
  {}

  // ------------------------------------------------------------------ Go guard

  function GoGuard(e: Expr, acc: seq<Token>, isPtr: bool): seq<Token> {
    (if isPtr then acc + [TOp(Cmp(NotEq)), TName("nil"), TOp(And)] else [])
    + [TNot, TLParen] + Stripped(PrintGo(e, acc, isPtr)) + [TRParen]
  }

  function GoGuardTree(e: Expr, acc: Term, isPtr: bool): Term {
    var negated := Un(Not, TranslateGo(e, acc, isPtr));
    if isPtr then Bin(And, Bin(Cmp(NotEq), acc, Name("nil")), negated) else negated
  }

  // Stripping the outer pair and writing it again around `!` changes nothing.
  function Rewrapped(c: Term): Term { if c.Paren? then c else Paren(c) }

  lemma RewrappedText(c: Term)
    requires Derivable(Prec, c) && Level(Prec, c) == AtomLevel(Prec)
    ensures Flatten(Rewrapped(c)) == [TLParen] + Stripped(Flatten(c)) + [TRParen]
  {
    StripsEnclosingPair(c);
  }

  lemma RewrappedGood(c: Term)
    requires Derivable(Prec, c) && Level(Prec, c) == AtomLevel(Prec)
    ensures var negated := Un(Not, Rewrapped(c));
            && Derivable(Prec, negated) && Level(Prec, negated) == UnLevel(Prec, Not)
            && Erase(negated) == Un(Not, Erase(c))
            && Flatten(negated) == [TNot] + Flatten(Rewrapped(c))
  {}

  lemma NotText(body: seq<Token>)
    ensures [TNot] + ([TLParen] + body + [TRParen]) == [TNot, TLParen] + body + [TRParen]
  {}

  lemma NegatedRendering(c: Term) returns (negated: Term)
    requires Derivable(Prec, c) && Level(Prec, c) == AtomLevel(Prec)
    ensures Derivable(Prec, negated) && Level(Prec, negated) == UnLevel(Prec, Not)
    ensures Erase(negated) == Un(Not, Erase(c))
    ensures Flatten(negated) == [TNot, TLParen] + Stripped(Flatten(c)) + [TRParen]
  {
    negated := Un(Not, Rewrapped(c));
    RewrappedGood(c);
    RewrappedText(c);
    NotText(Stripped(Flatten(c)));
  }

  lemma {:induction false} GoNegatedReads(e: Expr, acc: Term, isPtr: bool) returns (negated: Term)
    requires IsAccessor(acc) && ArityOk(e)
    ensures Derivable(Prec, negated) && Level(Prec, negated) == UnLevel(Prec, Not)
    ensures Erase(negated) == Un(Not, TranslateGo(e, acc, isPtr))
    ensures Flatten(negated) == [TNot, TLParen] + Stripped(PrintGo(e, Flatten(acc), isPtr)) + [TRParen]
  {
    GoLayoutPrints(e, acc, isPtr);
    GoLayoutGood(e, acc, isPtr);
    negated := NegatedRendering(GoLayout(e, acc, isPtr));
  }

  lemma {:induction false} GoGuardReads(e: Expr, acc: Term, isPtr: bool)
    requires IsAccessor(acc) && ArityOk(e)
    ensures Tree(Prec, GoGuard(e, Flatten(acc), isPtr)) == Some(GoGuardTree(e, acc, isPtr))
  {
    var negated := GoNegatedReads(e, acc, isPtr);
    if isPtr {
      PresencePlain(Prec, CmpOp.NotEq, acc, Name("nil"));
      GuardedReads(Bin(Cmp(CmpOp.NotEq), acc, Name("nil")), negated);
      GuardedText(Flatten(acc), TOp(Cmp(CmpOp.NotEq)), TName("nil"), TOp(And),
          Stripped(PrintGo(e, Flatten(acc), isPtr)));
    } else {
      ReadsBackIff(Prec, negated);
      assert GoGuard(e, Flatten(acc), isPtr) == Flatten(negated);
    }
  }

  lemma GuardedText(acc: seq<Token>, op: Token, absent: Token, and: Token, body: seq<Token>)
    ensures (acc + [op] + [absent]) + [and] + ([TNot, TLParen] + body + [TRParen])
         == acc + [op, absent, and] + [TNot, TLParen] + body + [TRParen]
  {}

  lemma {:induction false} GuardedReads(present: Term, negated: Term)
    requires Derivable(Prec, present) && Level(Prec, present) > BinLevel(Prec, And)
    requires Derivable(Prec, negated) && Level(Prec, negated) > BinLevel(Prec, And)
    ensures Tree(Prec, Flatten(present) + [TOp(And)] + Flatten(negated))
            == Some(Bin(And, Erase(present), Erase(negated)))
  {
    ReadsBackIff(Prec, Bin(And, present, negated));
  }

  lemma NilTestRuns(acc: Term, self: Value, len: Value -> Value)
    requires IsAccessor(acc) && acc != Name("nil") && (self.NoneV? || Plain(self))
    ensures GoEval(Bin(Cmp(NotEq), acc, Name("nil")), acc, GoField(self, true), len) == BoolV(!self.NoneV?)
  {
    assert GoEval(Name("nil"), acc, GoField(self, true), len) == NoneV;
  }

  lemma {:induction false} GoGuardRuns(e: Expr, acc: Term, isPtr: bool, self: Value, len: Value -> Value)
    requires IsAccessor(acc) && acc != Name("nil") && (if self.NoneV? then isPtr else Plain(self))
    requires !self.NoneV? ==> Holds(e, self, len).BoolV?
    requires ContainsOnText(e, self) && ArityOk(e) && !MentionsNone(e) && IsMeasure(len)
    ensures GoEval(GoGuardTree(e, acc, isPtr), acc, GoField(self, isPtr), len)
         == BoolV(!self.NoneV? && !Holds(e, self, len).b)
  {
    if isPtr { NilTestRuns(acc, self, len); }
    if !self.NoneV? {
      GoKeepsMeaning(e, acc, isPtr, self, len);
      assert GoEval(Un(Not, TranslateGo(e, acc, isPtr)), acc, GoField(self, isPtr), len)
          == BoolV(!Holds(e, self, len).b);
    }
  }

  // --------------------------------------------------------------- the special forms

  function SelfLength(): Expr { FieldAccess(Ident("self"), "length") }

  function SelfContains(arg: Expr): Expr { MethodCall(Ident("self"), "contains", MoreExprs(arg, NoExprs)) }

  /** What Python gets for `self.length` and `self.contains(..)`. */
  lemma SpecialPython(arg: Expr, acc: seq<Token>)
    ensures Print(SelfLength(), acc).text == [TName("len"), TLParen] + acc + [TRParen]
    ensures Print(SelfContains(arg), acc).text == Print(arg, acc).text + [TOp(Cmp(In))] + acc
    ensures PyNegated(SelfContains(arg), acc) == Print(arg, acc).text + [TOp(Cmp(NotIn))] + acc
  {
    assert IsSelfContains(SelfContains(arg)) && IsSelfLength(SelfLength());
  }

  /** What Go gets, on a value and on a pointer field. */
  lemma SpecialGo(arg: Expr, acc: seq<Token>, deref: bool)
    ensures var self := (if deref then [TOp(Product(Mul))] else []) + acc;
            && PrintGo(SelfLength(), acc, deref) == [TName("len"), TLParen] + self + [TRParen]
            && PrintGo(SelfContains(arg), acc, deref)
            == [TName("strings"), TDot, TName("Contains"), TLParen] + self + [TComma] + PrintGo(arg, acc, deref)
               + [TRParen]
  {
    var self := (if deref then [TOp(Product(Mul))] else []) + acc;
    assert IsSelfContains(SelfContains(arg)) && IsSelfLength(SelfLength()) && ArgText(acc, deref) == self;
    assert PrintGoArgs(MoreExprs(arg, NoExprs), acc, deref) == PrintGo(arg, acc, deref);
    assert [TName("strings"), TDot, TName("Contains"), TLParen] + (self + [TComma] + PrintGo(arg, acc, deref))
        + [TRParen]
        == [TName("strings"), TDot, TName("Contains"), TLParen] + self + [TComma] + PrintGo(arg, acc, deref)
           + [TRParen];
  }

  /** And what they mean of a string; any well-formed argument will do. */
  lemma SpecialMeaning(arg: Expr, s: string, len: Value -> Value)
    ensures ArityOk(Unsupported) && ArityOk(SelfLength()) && (ArityOk(SelfContains(arg)) <==> ArityOk(arg))
    ensures !UsesContains(SelfLength()) && UsesContains(SelfContains(arg))
    ensures !MentionsNone(SelfLength()) && (MentionsNone(SelfContains(arg)) <==> MentionsNone(arg))
    ensures Holds(SelfLength(), StrV(s), len) == len(StrV(s))
    ensures var v := Holds(arg, StrV(s), len);
            v.StrV? ==> Holds(SelfContains(arg), StrV(s), len) == BoolV(exists a, b :: s == a + v.s + b)
  {
    var v := Holds(arg, StrV(s), len);
    if v.StrV? { SubstringIff(s, v.s); }
    assert AllArityOk(MoreExprs(arg, NoExprs)) <==> ArityOk(arg) && AllArityOk(NoExprs);
    assert AnyMentionsNone(MoreExprs(arg, NoExprs)) <==> MentionsNone(arg) || AnyMentionsNone(NoExprs);
    assert ArityOk(Ident("self")) && AllArityOk(NoExprs) && !AnyMentionsNone(NoExprs) && !MentionsNone(Ident("self"));
    assert IsSelfContains(SelfContains(arg)) && IsSelfLength(SelfLength());
  }

  /** `self.contains` of a list is membership. */
  lemma ListMeaning(arg: Expr, l: seq<Value>, len: Value -> Value)
    requires Holds(arg, ListV(l), len) != Stuck
    ensures Holds(SelfContains(arg), ListV(l), len) == BoolV(Holds(arg, ListV(l), len) in l)
  {
    assert IsSelfContains(SelfContains(arg));
  }

  // ------------------------------------------------------------------- results

  /** Python reads the guard's text as the guard it stands for exactly when the constraint is faithful. */
  lemma PythonGuardReadsIff(e: Expr, acc: Term, optional: bool)
    requires IsAccessor(acc) && ArityOk(e)
    ensures Tree(Python, PyGuard(e, Flatten(acc), optional)) == Some(PyGuardTree(e, acc, optional)) <==>
            PythonFaithful(e)
  {
    GuardPrints(e, acc, optional);
    GuardDerivable(e, acc, optional);
    GuardErases(e, acc, optional);
    ReadsBackIff(Python, PyGuardLayout(e, acc, optional));
  }

  /** On a faithful constraint the Python guard text fires exactly on a present value that violates it. */
  lemma PythonGuardFires(e: Expr, acc: Term, optional: bool, self: Value, len: Value -> Value)
    requires IsAccessor(acc) && ArityOk(e) && PythonFaithful(e)
    requires self != Stuck && (self.NoneV? ==> optional)
    requires !self.NoneV? ==> Holds(e, self, len).BoolV?
    ensures var t := Tree(Python, PyGuard(e, Flatten(acc), optional));
            t.Some? && PyEval(t.value, acc, self, len) == BoolV(!self.NoneV? && !Holds(e, self, len).b)
  {
    PythonGuardReadsIff(e, acc, optional);
    PyGuardRuns(e, acc, optional, self, len);
  }

  /**
   * The Python and the Go guard, each read by its own language, reject the same
   * field values; an optional field is a nil-able pointer in Go.
   */
  lemma TargetsAgree(e: Expr, pyAcc: Term, goAcc: Term, nullable: bool, self: Value, len: Value -> Value)
    requires IsAccessor(pyAcc) && IsAccessor(goAcc) && goAcc != Name("nil")
    requires ArityOk(e) && PythonFaithful(e) && !MentionsNone(e) && ContainsOnText(e, self) && IsMeasure(len)
    requires if self.NoneV? then nullable else Plain(self)
    requires !self.NoneV? ==> Holds(e, self, len).BoolV?
    ensures var py := Tree(Python, PyGuard(e, Flatten(pyAcc), nullable));
            var go := Tree(Prec, GoGuard(e, Flatten(goAcc), nullable));
            py.Some? && go.Some?
            && PyEval(py.value, pyAcc, self, len) == GoEval(go.value, goAcc, GoField(self, nullable), len)
            && GoEval(go.value, goAcc, GoField(self, nullable), len) == BoolV(!self.NoneV? && !Holds(e, self, len).b)
  {
    PythonGuardFires(e, pyAcc, nullable, self, len);
    GoGuardReads(e, goAcc, nullable);
    GoGuardRuns(e, goAcc, nullable, self, len);
  }

  /** `self.contains` on a list: the Python guard decides it, the Go guard calls a string function on the list. */
  lemma {:induction false} ListContainsParts(e: Expr, pyAcc: Term, goAcc: Term, nullable: bool, self: Value,
                                             len: Value -> Value)
    requires IsAccessor(pyAcc) && IsAccessor(goAcc) && goAcc != Name("nil")
    requires ArityOk(e) && PythonFaithful(e) && !MentionsNone(e) && IsMeasure(len)
    requires self.ListV? && Holds(e, self, len).BoolV? && Reaches(ListContains, e, self, len)
    ensures var py := Tree(Python, PyGuard(e, Flatten(pyAcc), nullable));
            py.Some? && PyEval(py.value, pyAcc, self, len) == BoolV(!Holds(e, self, len).b)
    ensures var go := Tree(Prec, GoGuard(e, Flatten(goAcc), nullable));
            go.Some? && GoEval(go.value, goAcc, GoField(self, nullable), len) == Stuck
  {
    PythonGuardFires(e, pyAcc, nullable, self, len);
    GoGuardReads(e, goAcc, nullable);
    ListGuardStuck(e, goAcc, nullable, self, len);
  }

  lemma ListGuardStuck(e: Expr, acc: Term, isPtr: bool, self: Value, len: Value -> Value)
    requires IsAccessor(acc) && acc != Name("nil") && GoReady(e, self, len) && Reaches(ListContains, e, self, len)
    ensures GoEval(GoGuardTree(e, acc, isPtr), acc, GoField(self, isPtr), len) == Stuck
  {
    if isPtr { NilTestRuns(acc, self, len); }
    NeverPointer(e, self, len);
    GoMeaning(ListContains, e, acc, isPtr, self, GoField(self, isPtr), len);
    assert GoEval(Un(Not, TranslateGo(e, acc, isPtr)), acc, GoField(self, isPtr), len) == Stuck;
  }

  // ----------------------------------------------- outside the faithful fragment

  /** `(self == n) == false` */
  function Chained(n: int): Expr {
    Binary(Cmp(Eq), Binary(Cmp(Eq), Ident("self"), Literal(IntLit(n))), Literal(BoolLit(false)))
  }

  /** What is printed for it, as Python reads it. */
  function ChainedTree(acc: Term, n: int): Term {
    Chain(Bin(Cmp(Eq), acc, Const(IntLit(n))), Cmp(Eq), Const(BoolLit(false)))
  }

  lemma {:induction false} ChainedPrints(acc: Term, n: int)
    requires IsAccessor(acc)
    ensures PyGuard(Chained(n), Flatten(acc), false) == Flatten(Un(Not, Paren(ChainedTree(acc, n))))
  {
    var chain := ChainedTree(acc, n);
    assert Print(Chained(n).left, Flatten(acc)) == Printed(Flatten(chain.prev), PREC_CMP);
    assert Print(Chained(n), Flatten(acc)) == Printed(Flatten(chain), PREC_CMP);
  }

  lemma {:induction false} ChainedReads(acc: Term, n: int)
    requires IsAccessor(acc)
    ensures Tree(Python, Flatten(Un(Not, Paren(ChainedTree(acc, n))))) == Some(Un(Not, ChainedTree(acc, n)))
  {
    var chain := ChainedTree(acc, n);
    PresencePlain(Python, Eq, acc, Const(IntLit(n)));
    assert Derivable(Python, Const(BoolLit(false)));
    assert Derivable(Python, chain) && Erase(chain) == chain;
    assert Derivable(Python, Paren(chain)) && Erase(Paren(chain)) == chain;
    ReadsBackIff(Python, Un(Not, Paren(chain)));
  }

  /** It is printed as `acc == n == False`, which Python chains. */
  lemma ChainedText(acc: Term, n: int)
    requires IsAccessor(acc)
    ensures !PythonFaithful(Chained(n))
    ensures Tree(Python, PyGuard(Chained(n), Flatten(acc), false)) == Some(Un(Not, ChainedTree(acc, n)))
  {
    ChainedPrints(acc, n);
    ChainedReads(acc, n);
  }

  // Both guards on a number: Go's does what the constraint says, Python's what the chain says.
  lemma {:induction false} ChainedGuards(acc: Term, goAcc: Term, n: int, i: int, len: Value -> Value)
    requires IsAccessor(acc) && IsAccessor(goAcc) && goAcc != Name("nil") && IsMeasure(len)
    ensures Holds(Chained(n), IntV(i), len) == BoolV(i != n)
    ensures var py := Tree(Python, PyGuard(Chained(n), Flatten(acc), false));
            py.Some? && PyEval(py.value, acc, IntV(i), len) == BoolV(!(i == n == 0))
    ensures var go := Tree(Prec, GoGuard(Chained(n), Flatten(goAcc), false));
            go.Some? && GoEval(go.value, goAcc, IntV(i), len) == BoolV(i == n)
  {
    ChainedFacts(n, i, len);
    ChainedText(acc, n);
    ChainedRun(acc, n, i, len);
    GoGuardReads(Chained(n), goAcc, false);
    GoGuardRuns(Chained(n), goAcc, false, IntV(i), len);
  }

  /** With `n` 1 the Python guard rejects the valid value 0, which the Go guard accepts. */
  lemma ChainRejectsValidValue(acc: Term, goAcc: Term, len: Value -> Value)
    requires IsAccessor(acc) && IsAccessor(goAcc) && goAcc != Name("nil") && IsMeasure(len)
    ensures Holds(Chained(1), IntV(0), len) == BoolV(true)
    ensures var py := Tree(Python, PyGuard(Chained(1), Flatten(acc), false));
            py.Some? && PyEval(py.value, acc, IntV(0), len) == BoolV(true)
    ensures var go := Tree(Prec, GoGuard(Chained(1), Flatten(goAcc), false));
            go.Some? && GoEval(go.value, goAcc, IntV(0), len) == BoolV(false)
  {
    ChainedGuards(acc, goAcc, 1, 0, len);
  }

  /** With `n` 0 it accepts the invalid value 0, since `0 == False` holds in Python; the Go guard rejects it. */
  lemma ChainAcceptsInvalidValue(acc: Term, goAcc: Term, len: Value -> Value)
    requires IsAccessor(acc) && IsAccessor(goAcc) && goAcc != Name("nil") && IsMeasure(len)
    ensures Holds(Chained(0), IntV(0), len) == BoolV(false)
    ensures var py := Tree(Python, PyGuard(Chained(0), Flatten(acc), false));
            py.Some? && PyEval(py.value, acc, IntV(0), len) == BoolV(false)
    ensures var go := Tree(Prec, GoGuard(Chained(0), Flatten(goAcc), false));
            go.Some? && GoEval(go.value, goAcc, IntV(0), len) == BoolV(true)
  {
    ChainedGuards(acc, goAcc, 0, 0, len);
  }

  lemma ChainedFacts(n: int, i: int, len: Value -> Value)
    ensures ArityOk(Chained(n)) && !MentionsNone(Chained(n)) && Holds(Chained(n), IntV(i), len) == BoolV(i != n)
  {
    var equal, no, self, num := Chained(n).left, Literal(BoolLit(false)), Ident("self"), Literal(IntLit(n));
    assert equal == Binary(Cmp(Eq), self, num) && Chained(n) == Binary(Cmp(Eq), equal, no);
    assert !MentionsNone(self) && !MentionsNone(num) && !MentionsNone(no);
    assert ArityOk(self) && ArityOk(num) && ArityOk(no);
    assert !MentionsNone(equal) && ArityOk(equal);
    assert Holds(self, IntV(i), len) == IntV(i) && Holds(num, IntV(i), len) == IntV(n);
    assert Holds(equal, IntV(i), len) == BoolV(i == n) && Holds(no, IntV(i), len) == BoolV(false);
  }

  lemma {:induction false} ChainedRun(acc: Term, n: int, i: int, len: Value -> Value)
    requires IsAccessor(acc)
    ensures PyEval(Un(Not, ChainedTree(acc, n)), acc, IntV(i), len) == BoolV(!(i == n == 0))
  {
    var first := ChainedTree(acc, n).prev;
    assert PyEval(first, acc, IntV(i), len) == BoolV(i == n) by {
      assert PyEval(acc, acc, IntV(i), len) == IntV(i);
      assert PyEval(Const(IntLit(n)), acc, IntV(i), len) == IntV(n);
    }
    assert PyEval(ChainedTree(acc, n), acc, IntV(i), len) == BoolV(i == n == 0);
  }
}
