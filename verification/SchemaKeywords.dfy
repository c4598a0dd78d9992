// JSON Schema keywords extracted from a constraint: a weakening of the constraint.
module SchemaKeywords {
  import opened Options
  import opened Grammar
  import opened Constraints
  import opened Guards
  import opened Intervals

  datatype Keyword = Minimum | Maximum | ExclusiveMinimum | ExclusiveMaximum | MinLength | MaxLength

  type Keywords = map<Keyword, real>

  // --------------------------------------------------------------- extraction

  datatype Bound = Bound(keyword: Keyword, limit: real)

  /** `self op N` */
  function NumericBound(op: SourceOp, right: Expr): Option<Bound> {
    if !right.Literal? || !(right.lit.IntLit? || right.lit.FloatLit?) then None
    else
      var n := if right.lit.IntLit? then right.lit.i as real else right.lit.r;
      match op
      case Cmp(GtEq) => Some(Bound(Minimum, n))
      case Cmp(LtEq) => Some(Bound(Maximum, n))
      case Cmp(Gt) => Some(Bound(ExclusiveMinimum, n))
      case Cmp(Lt) => Some(Bound(ExclusiveMaximum, n))
      case _ => None
  }

  /** `self.length op N`; lengths are whole numbers, so strict bounds move by one. */
  function LengthBound(op: SourceOp, right: Expr): Option<Bound> {
    if !right.Literal? || !right.lit.IntLit? then None
    else
      var n := right.lit.i;
      match op
      case Cmp(GtEq) => Some(Bound(MinLength, n as real))
      case Cmp(LtEq) => Some(Bound(MaxLength, n as real))
      case Cmp(Gt) => Some(Bound(MinLength, (n + 1) as real))
      case Cmp(Lt) => Some(Bound(MaxLength, (n - 1) as real))
      case _ => None
  }

  function BoundOf(e: Expr): Option<Bound> {
    if !e.Binary? || e.op.And? then None
    else if IsSelf(e.left) then NumericBound(e.op, e.right)
    else if IsSelfLength(e.left) then LengthBound(e.op, e.right)
    else None
  }

  /** The map after extraction; a later bound overwrites an earlier one of the same keyword. */
  function Extracted(e: Expr, schema: Keywords): Keywords {
    if e.Binary? && e.op.And? then Extracted(e.right, Extracted(e.left, schema))
    else match BoundOf(e)
         case None => schema
         case Some(b) => schema[b.keyword := b.limit]
  }

  class SchemaObject {
    var keywords: Keywords

    constructor ()
      ensures keywords == map[]
    {
      keywords := map[];
    }

    method Insert(b: Bound)
      modifies this
      ensures keywords == old(keywords)[b.keyword := b.limit]
    {
      keywords := keywords[b.keyword := b.limit];
    }
  }

  method ExtractSchemaConstraints(e: Expr, schema: SchemaObject)
    modifies schema
    ensures schema.keywords == Extracted(e, old(schema.keywords))
    decreases e
  {
    if e.Binary? && e.op.And? {
      ExtractSchemaConstraints(e.left, schema);
      ExtractSchemaConstraints(e.right, schema);
    } else if BoundOf(e).Some? {
      schema.Insert(BoundOf(e).value);
    }
  }

  // ------------------------------------------------------------------ meaning

  /** Does an instance meet one keyword?  A keyword says nothing about other kinds of value. */
  predicate Meets(b: Bound, v: Value, len: Value -> Value) {
    match b.keyword
    case Minimum => IsNumber(v) ==> AsReal(v) >= b.limit
    case Maximum => IsNumber(v) ==> AsReal(v) <= b.limit
    case ExclusiveMinimum => IsNumber(v) ==> AsReal(v) > b.limit
    case ExclusiveMaximum => IsNumber(v) ==> AsReal(v) < b.limit
    case MinLength => v.StrV? ==> len(v).IntV? && len(v).i as real >= b.limit
    case MaxLength => v.StrV? ==> len(v).IntV? && len(v).i as real <= b.limit
  }

  predicate IsNumber(v: Value) { v.IntV? || v.RealV? }

  function AsReal(v: Value): real
    requires IsNumber(v)
  {
    if v.IntV? then v.i as real else v.r
  }

  predicate Accepts(schema: Keywords, v: Value, len: Value -> Value) {
    forall k :: k in schema ==> Meets(Bound(k, schema[k]), v, len)
  }

  /** A conjunct that yields a bound implies it. */
  lemma BoundImplied(e: Expr, v: Value, len: Value -> Value)
    requires BoundOf(e).Some? && Holds(e, v, len) == BoolV(true)
    ensures Meets(BoundOf(e).value, v, len)
  {
    assert Holds(e.right, v, len) == LitValue(e.right.lit);
  }

  /** Every value that satisfies the constraint meets every extracted keyword, overwritten ones included. */
  lemma {:induction false} ExtractionIsSound(e: Expr, schema: Keywords, v: Value, len: Value -> Value)
    requires Holds(e, v, len) == BoolV(true) && Accepts(schema, v, len)
    ensures Accepts(Extracted(e, schema), v, len)
    decreases e
  {
    if e.Binary? && e.op.And? {
      ExtractionIsSound(e.left, schema, v, len);
      ExtractionIsSound(e.right, Extracted(e.left, schema), v, len);
    } else if BoundOf(e).Some? {
      BoundImplied(e, v, len);
    }
  }

  // ------------------------------------------------------------- when it is exact

  /**
   * A conjunct that has a keyword, by its form: `self` against an integer or a
   * float, or `self.length` against an integer, with one of `>=`, `<=`, `>`, `<`.
   */
  predicate Recognised(e: Expr) {
    && e.Binary? && e.op in {Cmp(GtEq), Cmp(LtEq), Cmp(Gt), Cmp(Lt)} && e.right.Literal?
    && ((e.left == Ident("self") && (e.right.lit.IntLit? || e.right.lit.FloatLit?))
        || (e.left == FieldAccess(Ident("self"), "length") && e.right.lit.IntLit?))
  }

  /** Exactly these conjuncts yield a bound; everything else is skipped. */
  lemma RecognisedIff(e: Expr)
    ensures BoundOf(e).Some? <==> Recognised(e)
  {}

  /** Each form with its keyword and limit. */
  lemma WrittenKeywords(n: int, r: real)
    ensures var self, whole, float := Ident("self"), Literal(IntLit(n)), Literal(FloatLit(r));
            && BoundOf(Binary(Cmp(GtEq), self, whole)) == Some(Bound(Minimum, n as real))
            && BoundOf(Binary(Cmp(LtEq), self, whole)) == Some(Bound(Maximum, n as real))
            && BoundOf(Binary(Cmp(Gt), self, whole)) == Some(Bound(ExclusiveMinimum, n as real))
            && BoundOf(Binary(Cmp(Lt), self, whole)) == Some(Bound(ExclusiveMaximum, n as real))
            && BoundOf(Binary(Cmp(GtEq), self, float)) == Some(Bound(Minimum, r))
            && BoundOf(Binary(Cmp(LtEq), self, float)) == Some(Bound(Maximum, r))
            && BoundOf(Binary(Cmp(Gt), self, float)) == Some(Bound(ExclusiveMinimum, r))
            && BoundOf(Binary(Cmp(Lt), self, float)) == Some(Bound(ExclusiveMaximum, r))
    ensures var length, whole := FieldAccess(Ident("self"), "length"), Literal(IntLit(n));
            && BoundOf(Binary(Cmp(GtEq), length, whole)) == Some(Bound(MinLength, n as real))
            && BoundOf(Binary(Cmp(LtEq), length, whole)) == Some(Bound(MaxLength, n as real))
            && BoundOf(Binary(Cmp(Gt), length, whole)) == Some(Bound(MinLength, (n + 1) as real))
            && BoundOf(Binary(Cmp(Lt), length, whole)) == Some(Bound(MaxLength, (n - 1) as real))
  {}

  /** A conjunction of bounds only. */
  predicate OnlyBounds(e: Expr) {
    if e.Binary? && e.op.And? then OnlyBounds(e.left) && OnlyBounds(e.right) else Recognised(e)
  }

  /** `b` is no looser than `a`. */
  predicate NoLooser(k: Keyword, b: real, a: real) {
    match k
    case Minimum => b >= a
    case ExclusiveMinimum => b >= a
    case MinLength => b >= a
    case _ => b <= a
  }

  /** Whenever a keyword is written again, the new bound is no looser than the one it replaces. */
  predicate Tightens(e: Expr, schema: Keywords) {
    if e.Binary? && e.op.And? then Tightens(e.left, schema) && Tightens(e.right, Extracted(e.left, schema))
    else match BoundOf(e)
         case None => true
         case Some(b) => b.keyword in schema ==> NoLooser(b.keyword, b.limit, schema[b.keyword])
  }

  // What the constrained field is: `self.length` measures strings and lists alike.
  datatype Shape = ScalarField | ListField

  /** On a value of the right kind a bound says the same as its conjunct. */
  lemma BoundExact(e: Expr, v: Value, len: Value -> Value)
    requires BoundOf(e).Some? && Holds(e, v, len).BoolV? && (IsSelfLength(e.left) ==> v.StrV?)
    ensures Meets(BoundOf(e).value, v, len) <==> Holds(e, v, len) == BoolV(true)
  {}

  /**
   * Typed: the value is of the field's shape, lengths are taken of strings or lists, and
   * every conjunct has a truth value.
   */
  predicate Typed(shape: Shape, e: Expr, v: Value, len: Value -> Value) {
    if e.Binary? && e.op.And? then Typed(shape, e.left, v, len) && Typed(shape, e.right, v, len)
    else
      && (shape.ListField? <==> v.ListV?)
      && Holds(e, v, len).BoolV?
      && (shape.ScalarField? && e.Binary? && IsSelfLength(e.left) ==> v.StrV?)
  }

  lemma {:induction false} HoldsConjunction(shape: Shape, e: Expr, v: Value, len: Value -> Value)
    requires Typed(shape, e, v, len)
    ensures Holds(e, v, len).BoolV?
    decreases e
  {
    if e.Binary? && e.op.And? {
      HoldsConjunction(shape, e.left, v, len);
      HoldsConjunction(shape, e.right, v, len);
    }
  }

  /**
   * A conjunction of bounds whose repeated keywords only tighten is exactly its
   * schema; on a list field, one that every list meets is.
   */
  lemma {:induction false} ExtractionIsExact(shape: Shape, e: Expr, schema: Keywords, v: Value, len: Value -> Value)
    requires OnlyBounds(e) && Typed(shape, e, v, len) && Measures(len)
    requires if shape.ListField? then MetByEveryList(e) else Tightens(e, schema)
    ensures Accepts(Extracted(e, schema), v, len) <==> Accepts(schema, v, len) && Holds(e, v, len) == BoolV(true)
    decreases e
  {
    if shape.ListField? {
      TypedList(e, v, len);
      ListAccepted(schema, v, len);
      ListAccepted(Extracted(e, schema), v, len);
      ListBounds(e, v, len);
    } else if e.Binary? && e.op.And? {
      HoldsConjunction(shape, e.left, v, len);
      HoldsConjunction(shape, e.right, v, len);
      ExtractionIsExact(shape, e.left, schema, v, len);
      ExtractionIsExact(shape, e.right, Extracted(e.left, schema), v, len);
    } else {
      BoundExact(e, v, len);
      WriteBound(schema, BoundOf(e).value, v, len);
    }
  }

  // --------------------------------------------------------------- fields of lists

  /** No keyword says anything about a list. */
  lemma ListAccepted(kept: Keywords, v: Value, len: Value -> Value)
    requires v.ListV?
    ensures Accepts(kept, v, len)
  {}

  /** A bound that every list meets: at least so many elements, where the number is not positive. */
  predicate Vacuous(b: Bound) { b.keyword.MinLength? && b.limit <= 0.0 }

  predicate MetByEveryList(e: Expr) { forall b :: b in AllBounds(e) ==> Vacuous(b) }

  /** What a list field's conjunct says: a bound on the number of elements. */
  predicate Counts(b: Bound, n: nat) {
    match b.keyword
    case MinLength => n as real >= b.limit
    case MaxLength => n as real <= b.limit
    case _ => false
  }

  lemma {:induction false} TypedList(e: Expr, v: Value, len: Value -> Value)
    requires Typed(ListField, e, v, len)
    ensures v.ListV?
    decreases e
  {
    if e.Binary? && e.op.And? { TypedList(e.left, v, len); }
  }

  /** On a list a conjunction of bounds is that of its bounds on the number of elements. */
  lemma {:induction false} ListBounds(e: Expr, v: Value, len: Value -> Value)
    requires OnlyBounds(e) && Typed(ListField, e, v, len) && v.ListV? && Measures(len)
    ensures Holds(e, v, len).BoolV? && OfKind(e, Lengths)
    ensures Holds(e, v, len) == BoolV(true) <==> forall b :: b in AllBounds(e) ==> Counts(b, |v.l|)
    decreases e
  {
    if e.op.And? {
      ListBounds(e.left, v, len);
      ListBounds(e.right, v, len);
    } else {
      assert Holds(e.right, v, len) == LitValue(e.right.lit);
      NumbersOnly(e, v, len);
      ListBound(e, v, len);
      assert AllBounds(e) == [BoundOf(e).value];
    }
  }

  /** `self op N` has no truth value on a list. */
  lemma NumbersOnly(e: Expr, v: Value, len: Value -> Value)
    requires BoundOf(e).Some? && Holds(e, v, len).BoolV?
    ensures IsSelf(e.left) ==> IsNumber(v)
  {
    assert IsSelf(e.left) ==> Holds(e.left, v, len) == v;
    assert Holds(e.right, v, len) == LitValue(e.right.lit);
  }

  lemma ListBound(e: Expr, v: Value, len: Value -> Value)
    requires BoundOf(e).Some? && IsSelfLength(e.left) && v.ListV? && Measures(len)
    ensures Holds(e, v, len) == BoolV(Counts(BoundOf(e).value, |v.l|))
  {
    var n := e.right.lit.i;
    assert Holds(e.right, v, len) == IntV(n);
    assert v == ListV(v.l) && Holds(e.left, v, len) == IntV(|v.l|);
  }

  /** A length bound takes every list. */
  lemma {:induction false} ListTyped(e: Expr, v: Value, len: Value -> Value)
    requires OfKind(e, Lengths) && v.ListV? && Measures(len)
    ensures OnlyBounds(e) && Typed(ListField, e, v, len)
    decreases e
  {
    if e.Binary? && e.op.And? {
      ListTyped(e.left, v, len);
      ListTyped(e.right, v, len);
    } else {
      assert Holds(e.right, v, len) == LitValue(e.right.lit);
      assert v == ListV(v.l);
    }
  }

  /** A list the constraint rejects: the empty one, or one element more than allowed. */
  lemma LostList(e: Expr, b: Bound, len: Value -> Value) returns (v: Value)
    requires OfKind(e, Lengths) && Measures(len) && b in AllBounds(e) && !Vacuous(b)
    ensures OnlyBounds(e) && Typed(ListField, e, v, len)
    ensures Accepts(Extracted(e, map[]), v, len) && Holds(e, v, len) == BoolV(false)
  {
    v := ListV([]);
    if b.keyword.MaxLength? && b.limit >= 0.0 {
      var n: nat := b.limit.Floor + 1;
      v := ListV(seq(n, _ => NoneV));
    }
    KeptFits(e, Lengths, map[]);
    ListTyped(e, v, len);
    ListBounds(e, v, len);
    ListAccepted(Extracted(e, map[]), v, len);
    assert !Counts(b, |v.l|);
  }

  lemma WriteBound(schema: Keywords, b: Bound, v: Value, len: Value -> Value)
    requires b.keyword in schema ==> NoLooser(b.keyword, b.limit, schema[b.keyword])
    ensures Accepts(schema[b.keyword := b.limit], v, len) <==> Accepts(schema, v, len) && Meets(b, v, len)
  {
    var after := schema[b.keyword := b.limit];
    assert after[b.keyword] == b.limit;
    if Accepts(after, v, len) {
      assert Meets(b, v, len);
      forall k | k in schema ensures Meets(Bound(k, schema[k]), v, len) {
        assert Meets(Bound(k, after[k]), v, len);
      }
    }
    if Accepts(schema, v, len) && Meets(b, v, len) {
      forall k | k in after ensures Meets(Bound(k, after[k]), v, len) {
        if k != b.keyword { assert Meets(Bound(k, schema[k]), v, len); }
      }
    }
  }

  // ---------------------------------------------------------- exactly when it is

  // What a bound is about; the literals of one constraint are of one kind, or no value fits it.
  datatype Kind = WholeNumbers | Reals | Lengths

  function KindOf(e: Expr): Kind
    requires Recognised(e)
  {
    if IsSelfLength(e.left) then Lengths else if e.right.lit.IntLit? then WholeNumbers else Reals
  }

  function FirstKind(e: Expr): Kind
    requires OnlyBounds(e)
  {
    if e.op.And? then FirstKind(e.left) else KindOf(e)
  }

  predicate OfKind(e: Expr, kind: Kind) {
    if e.Binary? && e.op.And? then OfKind(e.left, kind) && OfKind(e.right, kind)
    else Recognised(e) && KindOf(e) == kind
  }

  /** The bounds written in a constraint, in order. */
  function AllBounds(e: Expr): seq<Bound> {
    if e.Binary? && e.op.And? then AllBounds(e.left) + AllBounds(e.right)
    else match BoundOf(e) case Some(b) => [b] case None => []
  }

  predicate IsLower(k: Keyword) { k.Minimum? || k.ExclusiveMinimum? || k.MinLength? }

  /** A bound as a half-line, upper bounds mirrored; strict bounds on whole numbers move by one. */
  function CutOf(kind: Kind, b: Bound): Cut {
    match b.keyword
    case Minimum | MinLength => Cut(b.limit, false)
    case Maximum | MaxLength => Cut(-b.limit, false)
    case ExclusiveMinimum => if kind.WholeNumbers? then Cut(b.limit + 1.0, false) else Cut(b.limit, true)
    case ExclusiveMaximum => if kind.WholeNumbers? then Cut(1.0 - b.limit, false) else Cut(-b.limit, true)
  }

  function KeptCut(kind: Kind, kept: Keywords, k: Keyword): Option<Cut> {
    if k in kept then Some(CutOf(kind, Bound(k, kept[k]))) else None
  }

  /** The strongest lower and upper bound kept; no length is negative. */
  function Lowest(kind: Kind, kept: Keywords): Option<Cut> {
    Stronger(Stronger(Stronger(if kind.Lengths? then Some(Cut(0.0, false)) else None, KeptCut(kind, kept, Minimum)),
                      KeptCut(kind, kept, ExclusiveMinimum)), KeptCut(kind, kept, MinLength))
  }

  function Highest(kind: Kind, kept: Keywords): Option<Cut> {
    Stronger(Stronger(KeptCut(kind, kept, Maximum), KeptCut(kind, kept, ExclusiveMaximum)),
        KeptCut(kind, kept, MaxLength))
  }

  predicate BoundImpliedBy(kind: Kind, b: Bound, kept: Keywords) {
    Implied(CutOf(kind, b), if IsLower(b.keyword) then Lowest(kind, kept) else Highest(kind, kept))
  }

  /**
   * Decidable from the literals: the kept bounds contradict each other, or they
   * imply every bound that was written. (Or the literals are of different kinds.)
   * On a list field every bound that can fail is lost.
   */
  predicate Lossless(shape: Shape, e: Expr)
    requires OnlyBounds(e)
  {
    if shape.ListField? then !OfKind(e, Lengths) || MetByEveryList(e) else KeepsAll(e)
  }

  predicate KeepsAll(e: Expr)
    requires OnlyBounds(e)
  {
    var kind, kept := FirstKind(e), Extracted(e, map[]);
    || !OfKind(e, kind)
    || Empty(Lowest(kind, kept), Highest(kind, kept))
    || forall b :: b in AllBounds(e) ==> BoundImpliedBy(kind, b, kept)
  }

  predicate ValueOf(kind: Kind, v: Value, len: Value -> Value) {
    match kind
    case WholeNumbers => v.IntV?
    case Reals => v.RealV?
    case Lengths => v.StrV? && len(v).IntV? && len(v).i >= 0
  }

  /** The number a bound of the kind compares. */
  function Point(kind: Kind, v: Value, len: Value -> Value): real
    requires ValueOf(kind, v, len)
  {
    match kind
    case WholeNumbers => v.i as real
    case Reals => v.r
    case Lengths => len(v).i as real
  }

  /**
   * `len` measures strings by natural numbers, each of which is some string's
   * length, and lists by the number of their elements.
   */
  ghost predicate Measures(len: Value -> Value) {
    && (forall s: string :: len(StrV(s)).IntV? && len(StrV(s)).i >= 0)
    && (forall n: nat :: IsSomeLength(len, n))
    && (forall l: seq<Value> :: len(ListV(l)) == IntV(|l|))
  }

  ghost predicate IsSomeLength(len: Value -> Value, n: nat) { exists s: string :: len(StrV(s)) == IntV(n) }

  predicate FitsKind(kind: Kind, b: Bound) {
    && (kind.Lengths? <==> b.keyword.MinLength? || b.keyword.MaxLength?)
    && (!kind.Reals? ==> IsWhole(b.limit))
  }

  lemma BoundFits(e: Expr)
    requires BoundOf(e).Some?
    ensures FitsKind(KindOf(e), BoundOf(e).value)
  {}

  /** On a value of the kind a bound is its half-line. */
  lemma MeetsIsCut(kind: Kind, b: Bound, v: Value, len: Value -> Value)
    requires FitsKind(kind, b) && ValueOf(kind, v, len)
    ensures var x := Point(kind, v, len);
            Meets(b, v, len) <==> Above(if IsLower(b.keyword) then x else -x, CutOf(kind, b))
  {
    if kind.WholeNumbers? {
      assert b.limit == b.limit.Floor as real;
      assert (v.i as real > b.limit) <==> v.i >= b.limit.Floor + 1;
      assert (v.i as real < b.limit) <==> v.i <= b.limit.Floor - 1;
    }
  }

  lemma CutIsWhole(kind: Kind, b: Bound)
    requires FitsKind(kind, b) && !kind.Reals?
    ensures WholeCut(CutOf(kind, b))
  {
    WholeNegated(b.limit);
    WholeSucc(b.limit);
    WholeSucc(-b.limit);
  }

  lemma LowestIsAll(kind: Kind, kept: Keywords, x: real)
    ensures AboveAll(x, Lowest(kind, kept)) <==>
            && (kind.Lengths? ==> x >= 0.0)
            && forall k :: k in kept && IsLower(k) ==> Above(x, CutOf(kind, Bound(k, kept[k])))
  {
    assert forall k :: IsLower(k) <==> k == Minimum || k == ExclusiveMinimum || k == MinLength;
  }

  lemma HighestIsAll(kind: Kind, kept: Keywords, x: real)
    ensures AboveAll(x, Highest(kind, kept)) <==>
            forall k :: k in kept && !IsLower(k) ==> Above(x, CutOf(kind, Bound(k, kept[k])))
  {
    assert forall k :: !IsLower(k) <==> k == Maximum || k == ExclusiveMaximum || k == MaxLength;
  }

  /** What the kept keywords accept is an interval. */
  lemma AcceptsIsBetween(kind: Kind, kept: Keywords, v: Value, len: Value -> Value)
    requires ValueOf(kind, v, len) && forall k :: k in kept ==> FitsKind(kind, Bound(k, kept[k]))
    ensures Accepts(kept, v, len) <==> Between(Point(kind, v, len), Lowest(kind, kept), Highest(kind, kept))
  {
    var x := Point(kind, v, len);
    LowestIsAll(kind, kept, x);
    HighestIsAll(kind, kept, -x);
    forall k | k in kept
      ensures Meets(Bound(k, kept[k]), v, len) <==> Above(if IsLower(k) then x else -x, CutOf(kind, Bound(k, kept[k])))
    {
      MeetsIsCut(kind, Bound(k, kept[k]), v, len);
    }
  }

  lemma {:induction false} KeptFits(e: Expr, kind: Kind, schema: Keywords)
    requires OfKind(e, kind) && forall k :: k in schema ==> FitsKind(kind, Bound(k, schema[k]))
    ensures forall k :: k in Extracted(e, schema) ==> FitsKind(kind, Bound(k, Extracted(e, schema)[k]))
    ensures forall b :: b in AllBounds(e) ==> FitsKind(kind, b)
    decreases e
  {
    if e.Binary? && e.op.And? {
      KeptFits(e.left, kind, schema);
      KeptFits(e.right, kind, Extracted(e.left, schema));
    } else {
      BoundFits(e);
    }
  }

  /** The constraint is the conjunction of its bounds. */
  lemma {:induction false} HoldsIsAllBounds(e: Expr, kind: Kind, v: Value, len: Value -> Value)
    requires OfKind(e, kind) && ValueOf(kind, v, len)
    ensures Typed(ScalarField, e, v, len) && Holds(e, v, len).BoolV?
    ensures Holds(e, v, len) == BoolV(true) <==> forall b :: b in AllBounds(e) ==> Meets(b, v, len)
    decreases e
  {
    if e.Binary? && e.op.And? {
      HoldsIsAllBounds(e.left, kind, v, len);
      HoldsIsAllBounds(e.right, kind, v, len);
    } else {
      BoundTyped(e, v, len);
      BoundExact(e, v, len);
    }
  }

  lemma BoundTyped(e: Expr, v: Value, len: Value -> Value)
    requires BoundOf(e).Some? && ValueOf(KindOf(e), v, len)
    ensures Typed(ScalarField, e, v, len) && Holds(e, v, len).BoolV?
  {
    assert Holds(e.right, v, len) == LitValue(e.right.lit);
  }

  /** A value the constraint is typed for is of the kind of all its bounds. */
  lemma {:induction false} TypedIsOfKind(e: Expr, v: Value, len: Value -> Value)
    requires OnlyBounds(e) && Typed(ScalarField, e, v, len) && Measures(len)
    ensures OfKind(e, FirstKind(e)) && ValueOf(FirstKind(e), v, len)
    decreases e
  {
    if e.op.And? {
      TypedIsOfKind(e.left, v, len);
      TypedIsOfKind(e.right, v, len);
      assert FirstKind(e.left) == FirstKind(e.right);
    } else {
      assert Holds(e.right, v, len) == LitValue(e.right.lit);
      if IsSelf(e.left) {
        assert Holds(e.left, v, len) == v;
        assert SameKind(v, LitValue(e.right.lit));
      } else {
        assert v == StrV(v.s);
      }
    }
  }

  ghost predicate Exact(shape: Shape, e: Expr, len: Value -> Value) {
    forall v :: Typed(shape, e, v, len) ==> (Accepts(Extracted(e, map[]), v, len) <==> Holds(e, v, len) == BoolV(true))
  }

  /**
   * For a conjunction of bounds the schema says what the constraint says, on every value
   * of the field, exactly when it is lossless.
   */
  lemma ExactIffLossless(shape: Shape, e: Expr, len: Value -> Value)
    requires OnlyBounds(e) && Measures(len)
    ensures Exact(shape, e, len) <==> Lossless(shape, e)
  {
    if Lossless(shape, e) {
      forall v | Typed(shape, e, v, len)
        ensures Accepts(Extracted(e, map[]), v, len) <==> Holds(e, v, len) == BoolV(true)
      {
        if shape.ListField? {
          TypedList(e, v, len);
          ListBounds(e, v, len);
          ExtractionIsExact(shape, e, map[], v, len);
        } else {
          LosslessIsExact(e, v, len);
        }
      }
    } else if shape.ListField? {
      var b :| b in AllBounds(e) && !Vacuous(b);
      var v := LostList(e, b, len);
    } else {
      var kind, kept := FirstKind(e), Extracted(e, map[]);
      var b :| b in AllBounds(e) && !BoundImpliedBy(kind, b, kept);
      var v := LostValue(e, b, len);
    }
  }

  lemma LosslessIsExact(e: Expr, v: Value, len: Value -> Value)
    requires OnlyBounds(e) && Measures(len) && KeepsAll(e) && Typed(ScalarField, e, v, len)
    ensures Accepts(Extracted(e, map[]), v, len) <==> Holds(e, v, len) == BoolV(true)
  {
    var kind, kept := FirstKind(e), Extracted(e, map[]);
    TypedIsOfKind(e, v, len);
    KeptFits(e, kind, map[]);
    HoldsIsAllBounds(e, kind, v, len);
    AcceptsIsBetween(kind, kept, v, len);
    if Holds(e, v, len) == BoolV(true) {
      ExtractionIsSound(e, map[], v, len);
    } else if Accepts(kept, v, len) {
      var x := Point(kind, v, len);
      if Empty(Lowest(kind, kept), Highest(kind, kept)) {
        EmptyHasNone(Lowest(kind, kept), Highest(kind, kept), x);
      }
      forall b | b in AllBounds(e) ensures Meets(b, v, len) {
        MeetsIsCut(kind, b, v, len);
        if IsLower(b.keyword) {
          ImpliedHolds(CutOf(kind, b), Lowest(kind, kept), x);
        } else {
          ImpliedHolds(CutOf(kind, b), Highest(kind, kept), -x);
        }
      }
    }
  }

  /** A written bound that the kept ones do not imply admits a value the constraint rejects. */
  lemma LostValue(e: Expr, b: Bound, len: Value -> Value) returns (v: Value)
    requires OnlyBounds(e) && Measures(len)
    requires var kind, kept := FirstKind(e), Extracted(e, map[]);
             && OfKind(e, kind) && !Empty(Lowest(kind, kept), Highest(kind, kept))
             && b in AllBounds(e) && !BoundImpliedBy(kind, b, kept)
    ensures Typed(ScalarField, e, v, len) && Accepts(Extracted(e, map[]), v, len) && Holds(e, v, len) == BoolV(false)
  {
    var kind, kept := FirstKind(e), Extracted(e, map[]);
    KeptFits(e, kind, map[]);
    var x := LostPoint(kind, kept, b);
    match kind {
      case WholeNumbers => v := IntV(x.Floor);
      case Reals => v := RealV(x);
      case Lengths =>
        assert x >= 0.0;
        var n: nat := x.Floor;
        assert IsSomeLength(len, n);
        var s: string :| len(StrV(s)) == IntV(n);
        v := StrV(s);
    }
    assert Point(kind, v, len) == x;
    HoldsIsAllBounds(e, kind, v, len);
    AcceptsIsBetween(kind, kept, v, len);
    MeetsIsCut(kind, b, v, len);
  }

  lemma LostPoint(kind: Kind, kept: Keywords, b: Bound) returns (x: real)
    requires FitsKind(kind, b) && !BoundImpliedBy(kind, b, kept)
    requires forall k :: k in kept ==> FitsKind(kind, Bound(k, kept[k]))
    requires !Empty(Lowest(kind, kept), Highest(kind, kept))
    ensures Between(x, Lowest(kind, kept), Highest(kind, kept)) && (!kind.Reals? ==> IsWhole(x))
            && (kind.Lengths? ==> x >= 0.0)
    ensures !Above(if IsLower(b.keyword) then x else -x, CutOf(kind, b))
  {
    var lo, hi, whole := Lowest(kind, kept), Highest(kind, kept), !kind.Reals?;
    if whole {
      CutIsWhole(kind, b);
      forall k | k in kept ensures WholeCut(CutOf(kind, Bound(k, kept[k]))) { CutIsWhole(kind, Bound(k, kept[k])); }
    }
    if IsLower(b.keyword) {
      x := PointBelow(whole, lo, hi, CutOf(kind, b));
    } else {
      var y := PointBelow(whole, hi, lo, CutOf(kind, b));
      if whole { WholeNegated(y); }
      x := -y;
      assert -x == y;
    }
    if kind.Lengths? { assert AboveAll(x, lo); }
  }

  /** Writing the same bound twice is no loosening. */
  lemma RepeatTightens(e: Expr)
    requires Recognised(e)
    ensures OnlyBounds(Binary(And, e, e)) && Tightens(Binary(And, e, e), map[])
  {
    var b := BoundOf(e).value;
    assert Extracted(e, map[]) == map[b.keyword := b.limit];
  }

  /** On a scalar field bounds that only tighten, in particular bounds that never repeat a keyword, lose nothing. */
  lemma TightensIsLossless(e: Expr, len: Value -> Value)
    requires OnlyBounds(e) && Tightens(e, map[]) && Measures(len)
    ensures Lossless(ScalarField, e)
  {
    forall v | Typed(ScalarField, e, v, len)
      ensures Accepts(Extracted(e, map[]), v, len) <==> Holds(e, v, len) == BoolV(true)
    {
      ExtractionIsExact(ScalarField, e, map[], v, len);
    }
    ExactIffLossless(ScalarField, e, len);
  }

  const NON_EMPTY: Expr := Binary(Cmp(GtEq), FieldAccess(Ident("self"), "length"), Literal(IntLit(1)))

  lemma NonEmptyBounds()
    ensures OnlyBounds(NON_EMPTY) && Tightens(NON_EMPTY, map[]) && AllBounds(NON_EMPTY) == [Bound(MinLength, 1.0)]
    ensures OfKind(NON_EMPTY, Lengths)
  {
    assert BoundOf(NON_EMPTY) == Some(Bound(MinLength, 1.0));
  }

  /** `self.length >= 1` repeats no keyword; on a list field its bound is lost all the same. */
  lemma ListLosesLength(len: Value -> Value)
    requires Measures(len)
    ensures OnlyBounds(NON_EMPTY) && Tightens(NON_EMPTY, map[])
    ensures Lossless(ScalarField, NON_EMPTY) && !Lossless(ListField, NON_EMPTY)
    ensures Accepts(Extracted(NON_EMPTY, map[]), ListV([]), len) && Holds(NON_EMPTY, ListV([]), len) == BoolV(false)
  {
    NonEmptyBounds();
    TightensIsLossless(NON_EMPTY, len);
    assert !Vacuous(AllBounds(NON_EMPTY)[0]);
    ListBound(NON_EMPTY, ListV([]), len);
    ListAccepted(Extracted(NON_EMPTY, map[]), ListV([]), len);
  }

  function AtLeast(n: int): Expr { Binary(Cmp(GtEq), Ident("self"), Literal(IntLit(n))) }

  /** `self >= 5 and self >= 3 and self >= 7` loosens on the way and still loses nothing. */
  lemma LoosenedAndTightened()
    ensures var e := Binary(And, Binary(And, AtLeast(5), AtLeast(3)), AtLeast(7));
            OnlyBounds(e) && !Tightens(e, map[]) && Lossless(ScalarField, e)
  {
    var l := Binary(And, AtLeast(5), AtLeast(3));
    var e := Binary(And, l, AtLeast(7));
    assert BoundOf(AtLeast(5)) == Some(Bound(Minimum, 5.0)) && BoundOf(AtLeast(3)) == Some(Bound(Minimum, 3.0));
    assert BoundOf(AtLeast(7)) == Some(Bound(Minimum, 7.0));
    assert Extracted(AtLeast(5), map[]) == map[Minimum := 5.0];
    assert Extracted(l, map[]) == map[Minimum := 3.0];
    assert Extracted(e, map[]) == map[Minimum := 7.0];
    assert AllBounds(l) == [Bound(Minimum, 5.0), Bound(Minimum, 3.0)];
    assert AllBounds(e) == [Bound(Minimum, 5.0), Bound(Minimum, 3.0), Bound(Minimum, 7.0)];
    assert Lowest(WholeNumbers, map[Minimum := 7.0]) == Some(Cut(7.0, false));
  }

  /** `self >= 5 and self >= 3` loses its first bound: the schema admits 4, the constraint does not. */
  lemma LooserRepeatLosesBound(len: Value -> Value)
    ensures var five := Binary(Cmp(GtEq), Ident("self"), Literal(IntLit(5)));
            var three := Binary(Cmp(GtEq), Ident("self"), Literal(IntLit(3)));
            var e := Binary(And, five, three);
            && Accepts(Extracted(e, map[]), IntV(4), len)
            && Holds(e, IntV(4), len) == BoolV(false)
  {}
}
