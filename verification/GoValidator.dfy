// The generated Go validators: the statements emitted, what they do when run,
// and what a valid value is.
//
// Emission is a function to statement trees, and the methods that write them into a
// buffer are proved against it; an interpreter runs the statements.
module GoValidator {
  import opened Options
  import Constraints
  import opened Schema
  import opened TypeScan

  type Expr = Constraints.Expr

  // ------------------------------------------------------------ emitted subset

  datatype Matcher = UuidRe | DecimalRe | UrlRe

  // `s.<Field>` or the range variable `e<depth>`.
  datatype Access = OfField(field: string) | LoopVar(depth: nat)

  datatype Operand = Direct(a: Access) | Deref(a: Access)

  datatype Cond =
    | NotNil(a: Access)
    | Mismatch(re: Matcher, op: Operand)
    | Violates(constraint: Expr, op: Operand)
    | Both(l: Cond, r: Cond)

  datatype GoError =
    | ConstraintViolated(tag: string)
    | InvalidFormat(tag: string, re: Matcher)
    | Wrapped(tag: string, inner: GoError)
    | InvalidAmount
    | InvalidCurrency

  datatype Stmt =
    | If(cond: Cond, body: seq<Stmt>)
    | Fail(error: GoError)
    | CallValidate(a: Access, callee: Type, tag: string)  // if err := a.Validate(); err != nil { return tag: err }
    | Range(depth: nat, over: Operand, body: seq<Stmt>)

  /** The `Validate()` methods of a generated package, by struct name. */
  type Methods = map<string, seq<Stmt>>

  // -------------------------------------------------------------------- values

  // A Go value.  `Opaque` is anything no validator looks into; a map is the
  // sequence of its values in the order a range loop happens to visit them.
  // `Nil` is a nil pointer, `NilSlice` a nil slice or map.
  datatype Val =
    | Opaque
    | Text(s: string)
    | MoneyVal(amount: string, currency: string)
    | Nil
    | NilSlice
    | Ptr(target: Val)
    | Slice(items: seq<Val>)
    | Dict(items: seq<Val>)
    | Record(name: string, fields: seq<Val>)

  // What the model does not look into: regular expressions, the currency table, constraint arithmetic.
  datatype Oracles = Oracles(matches: (Matcher, string) -> bool, currency: string -> bool, holds: (Expr, Val) -> bool)

  predicate NamedOption(ty: Type) { ty.Generic? && ty.ctor == "Option" }

  /** Is the Go field a pointer? `partial` and `Option` share one pointer. */
  predicate PtrField(f: Field) { f.optional || NamedOption(f.ty) }

  /** `v` is a value of the Go type generated for `ty`. */
  predicate HasType(s: Schema, v: Val, ty: Type)
    decreases v, 1
  {
    if IsOption(ty) then ty.args[0].File? || v.Nil? || (v.Ptr? && HasType(s, v.target, ty.args[0]))
    else if IsList(ty) then
      v.NilSlice? || (v.Slice? && forall i :: 0 <= i < |v.items| ==> HasType(s, v.items[i], ty.args[0]))
    else if IsMap(ty) then
      v.NilSlice? || (v.Dict? && forall i :: 0 <= i < |v.items| ==> HasType(s, v.items[i], ty.args[1]))
    else match ty
         case Uuid | Decimal | Url => v.Text?
         case Money => v.MoneyVal?
         case Named(n) => n in s ==> RecordOf(s, v, n)
         case _ => true
  }

  predicate FieldsFit(s: Schema, v: Val, n: string) {
    n in s && v.Record? && v.name == n && |v.fields| == |s[n].fields|
  }

  predicate RecordOf(s: Schema, v: Val, n: string)
    decreases v, 0
  {
    && FieldsFit(s, v, n)
    && forall i :: 0 <= i < |v.fields| ==> HasFieldType(s, v.fields[i], s[n].fields[i].ty, s[n].fields[i].optional)
  }

  /** A field that `partial` made optional is a pointer to its type. */
  predicate HasFieldType(s: Schema, v: Val, ty: Type, optional: bool)
    decreases v, 2
  {
    if optional && !IsOption(ty) then v.Nil? || (v.Ptr? && HasType(s, v.target, ty)) else HasType(s, v, ty)
  }

  // ------------------------------------------------------------- what is valid

  function RegexOf(ty: Type): Option<Matcher> {
    match ty
    case Uuid => Some(UuidRe)
    case Decimal => Some(DecimalRe)
    case Url => Some(UrlRe)
    case _ => None
  }

  predicate MoneyOk(o: Oracles, v: Val)
    requires v.MoneyVal?
  {
    o.matches(DecimalRe, v.amount) && o.currency(v.currency)
  }

  /** Validity, by recursion on the value alone. */
  predicate Valid(s: Schema, o: Oracles, v: Val, ty: Type)
    requires HasType(s, v, ty)
    decreases v, 1
  {
    if IsOption(ty) then ty.args[0].File? || v.Nil? || Valid(s, o, v.target, ty.args[0])
    else if IsList(ty) then v.NilSlice? || forall i :: 0 <= i < |v.items| ==> Valid(s, o, v.items[i], ty.args[0])
    else if IsMap(ty) then v.NilSlice? || forall i :: 0 <= i < |v.items| ==> Valid(s, o, v.items[i], ty.args[1])
    else match ty
         case Uuid => o.matches(UuidRe, v.s)
         case Decimal => o.matches(DecimalRe, v.s)
         case Url => o.matches(UrlRe, v.s)
         case Money => MoneyOk(o, v)
         case Named(n) => n in s ==> ValidRecord(s, o, v, n)
         case _ => true
  }

  predicate ValidRecord(s: Schema, o: Oracles, v: Val, n: string)
    requires RecordOf(s, v, n)
    decreases v, 0
  {
    forall i :: 0 <= i < |v.fields| ==>
      Satisfies(o, v.fields[i], s[n].fields[i])
      && ValidField(s, o, v.fields[i], s[n].fields[i].ty, s[n].fields[i].optional)
  }

  predicate ValidField(s: Schema, o: Oracles, v: Val, ty: Type, optional: bool)
    requires HasFieldType(s, v, ty, optional)
    decreases v, 2
  {
    if optional && !IsOption(ty) then v.Nil? || Valid(s, o, v.target, ty) else Valid(s, o, v, ty)
  }

  /** An absent optional field satisfies its constraint; a present one is judged by its inner value. */
  predicate Satisfies(o: Oracles, v: Val, f: Field) {
    f.constraint.Some? ==>
      if f.optional || IsOption(f.ty) then v.Ptr? ==> o.holds(f.constraint.value, v.target)
      else o.holds(f.constraint.value, v)
  }

  function Elem(ty: Type): (e: Type)
    requires IsList(ty) || IsMap(ty)
    ensures e < ty
  {
    ty.args[|ty.args| - 1]
  }

  /** `Option` directly inside `Option`: the emitted code folds one layer and stops at the other. */
  predicate Blind(ty: Type) { IsOption(ty) && IsOption(ty.args[0]) }

  // The error to report: the first problem in emission order, labelled with its
  // field, except that nothing is looked for where the emitted code is blind.
  // (No error is ever reported for a value that is not of the type.)
  function Problem(s: Schema, o: Oracles, v: Val, ty: Type, tag: string): Option<GoError>
    decreases v, 1, 0
  {
    if IsOption(ty) then
      if v.Ptr? && !ty.args[0].File? && !Blind(ty) then Problem(s, o, v.target, ty.args[0], tag) else None
    else if IsList(ty) || IsMap(ty) then
      if v.Slice? || v.Dict? then ItemsProblem(s, o, v, Elem(ty), tag, 0) else None
    else match ty
         case Uuid => TextProblem(o, v, UuidRe, tag)
         case Decimal => TextProblem(o, v, DecimalRe, tag)
         case Url => TextProblem(o, v, UrlRe, tag)
         case Money => if v.MoneyVal? then Relabel(tag, MoneyProblem(o, v)) else None
         case Named(n) => if FieldsFit(s, v, n) then Relabel(tag, RecordProblem(s, o, v, n)) else None
         case _ => None
  }

  function TextProblem(o: Oracles, v: Val, re: Matcher, tag: string): Option<GoError> {
    if v.Text? && !o.matches(re, v.s) then Some(InvalidFormat(tag, re)) else None
  }

  function Relabel(tag: string, e: Option<GoError>): Option<GoError> {
    match e
    case None => None
    case Some(inner) => Some(Wrapped(tag, inner))
  }

  function MoneyProblem(o: Oracles, v: Val): Option<GoError>
    requires v.MoneyVal?
  {
    if !o.matches(DecimalRe, v.amount) then Some(InvalidAmount)
    else if !o.currency(v.currency) then Some(InvalidCurrency)
    else None
  }

  function ItemsProblem(s: Schema, o: Oracles, v: Val, elem: Type, tag: string, i: nat): Option<GoError>
    requires (v.Slice? || v.Dict?) && i <= |v.items|
    decreases v, 0, |v.items| - i
  {
    if i == |v.items| then None
    else match Problem(s, o, v.items[i], elem, tag)
         case Some(e) => Some(e)
         case None => ItemsProblem(s, o, v, elem, tag, i + 1)
  }

  /** Constraints of all fields first, then the fields' own contents. */
  function RecordProblem(s: Schema, o: Oracles, v: Val, n: string): Option<GoError>
    requires FieldsFit(s, v, n)
    decreases v, 0, |v.fields| + 1
  {
    match ConstraintProblem(o, s[n].fields, v.fields, 0)
    case Some(e) => Some(e)
    case None => ContentProblem(s, o, v, n, 0)
  }

  function ConstraintProblem(o: Oracles, fields: seq<Field>, vals: seq<Val>, i: nat): Option<GoError>
    requires |fields| == |vals| && i <= |fields|
    decreases |fields| - i
  {
    if i == |fields| then None
    else if Satisfies(o, vals[i], fields[i]) then ConstraintProblem(o, fields, vals, i + 1)
    else Some(ConstraintViolated(fields[i].name))
  }

  function ContentProblem(s: Schema, o: Oracles, v: Val, n: string, i: nat): Option<GoError>
    requires FieldsFit(s, v, n) && i <= |v.fields|
    decreases v, 0, |v.fields| - i
  {
    if i == |v.fields| then None
    else
      var f := s[n].fields[i];
      match FieldProblem(s, o, v.fields[i], f.ty, f.optional, f.name)
      case Some(e) => Some(e)
      case None => ContentProblem(s, o, v, n, i + 1)
  }

  function FieldProblem(s: Schema, o: Oracles, v: Val, ty: Type, optional: bool, tag: string): Option<GoError>
    decreases v, 2, 0
  {
    if optional && !IsOption(ty) then (if v.Ptr? then Problem(s, o, v.target, ty, tag) else None)
    else Problem(s, o, v, ty, tag)
  }

  /** Does the value hold an invalid one where the emitted code is blind? */
  predicate Hides(s: Schema, o: Oracles, v: Val, ty: Type)
    requires HasType(s, v, ty)
    decreases v, 1
  {
    if IsOption(ty) then
      && !ty.args[0].File? && v.Ptr?
      && if Blind(ty) then !Valid(s, o, v.target, ty.args[0]) else Hides(s, o, v.target, ty.args[0])
    else if IsList(ty) then v.Slice? && exists i :: 0 <= i < |v.items| && Hides(s, o, v.items[i], ty.args[0])
    else if IsMap(ty) then v.Dict? && exists i :: 0 <= i < |v.items| && Hides(s, o, v.items[i], ty.args[1])
    else ty.Named? && ty.name in s && HidesRecord(s, o, v, ty.name)
  }

  predicate HidesRecord(s: Schema, o: Oracles, v: Val, n: string)
    requires RecordOf(s, v, n)
    decreases v, 0
  {
    exists i :: 0 <= i < |v.fields| && HidesField(s, o, v.fields[i], s[n].fields[i].ty, s[n].fields[i].optional)
  }

  predicate HidesField(s: Schema, o: Oracles, v: Val, ty: Type, optional: bool)
    requires HasFieldType(s, v, ty, optional)
    decreases v, 2
  {
    if optional && !IsOption(ty) then v.Ptr? && Hides(s, o, v.target, ty) else Hides(s, o, v, ty)
  }

  // ---------------------------------------------------------- running the code

  // `Crash` is a nil dereference, a missing variable or a call to a method that was not emitted.
  datatype Outcome = Next | Returned(error: GoError) | Crash

  datatype Test = Yes | No | Panic

  function FieldIndex(fields: seq<Field>, name: string): (i: nat)
    ensures i <= |fields|
    ensures i < |fields| ==> fields[i].name == name
    ensures forall k :: 0 <= k < i ==> fields[k].name != name
  {
    if fields == [] || fields[0].name == name then 0 else 1 + FieldIndex(fields[1..], name)
  }

  function Load(s: Schema, self: Val, locals: map<nat, Val>, a: Access): (r: Option<Val>)
    requires forall d :: d in locals ==> locals[d] < self
    ensures r.Some? ==> r.value < self
  {
    match a
    case LoopVar(d) => if d in locals then Some(locals[d]) else None
    case OfField(f) =>
      if self.Record? && self.name in s then
        var i := FieldIndex(s[self.name].fields, f);
        if i < |s[self.name].fields| && i < |self.fields| then Some(self.fields[i]) else None
      else None
  }

  function LoadOperand(s: Schema, self: Val, locals: map<nat, Val>, op: Operand): (r: Option<Val>)
    requires forall d :: d in locals ==> locals[d] < self
    ensures r.Some? ==> r.value < self
  {
    match op
    case Direct(a) => Load(s, self, locals, a)
    case Deref(a) =>
      match Load(s, self, locals, a)
      case Some(Ptr(v)) => Some(v)
      case _ => None
  }

  function Check(s: Schema, o: Oracles, self: Val, locals: map<nat, Val>, c: Cond): Test
    requires forall d :: d in locals ==> locals[d] < self
    decreases c
  {
    match c
    case NotNil(a) =>
      (match Load(s, self, locals, a)
       case None => Panic
       case Some(v) => if v.Nil? || v.NilSlice? then No else Yes)
    case Mismatch(re, op) =>
      (match LoadOperand(s, self, locals, op)
       case Some(Text(t)) => if o.matches(re, t) then No else Yes
       case _ => Panic)
    case Violates(e, op) =>
      (match LoadOperand(s, self, locals, op)
       case Some(v) => if o.holds(e, v) then No else Yes
       case None => Panic)
    case Both(l, r) =>
      (match Check(s, o, self, locals, l)
       case Yes => Check(s, o, self, locals, r)
       case t => t)
  }

  function Exec(s: Schema, o: Oracles, ms: Methods, self: Val, locals: map<nat, Val>, stmts: seq<Stmt>): Outcome
    requires forall d :: d in locals ==> locals[d] < self
    decreases self, stmts, 0
  {
    if stmts == [] then Next
    else match ExecOne(s, o, ms, self, locals, stmts[0])
         case Next => Exec(s, o, ms, self, locals, stmts[1..])
         case r => r
  }

  function ExecOne(s: Schema, o: Oracles, ms: Methods, self: Val, locals: map<nat, Val>, stmt: Stmt): Outcome
    requires forall d :: d in locals ==> locals[d] < self
    decreases self, stmt, 0
  {
    match stmt
    case If(c, body) =>
      (match Check(s, o, self, locals, c)
       case Yes => Exec(s, o, ms, self, locals, body)
       case No => Next
       case Panic => Crash)
    case Fail(e) => Returned(e)
    case CallValidate(a, _, tag) =>
      (match Load(s, self, locals, a)
       case None => Crash
       case Some(v) =>
         match CallOn(s, o, ms, v)
         case Returned(e) => Returned(Wrapped(tag, e))
         case r => r)
    case Range(d, op, body) =>
      (match LoadOperand(s, self, locals, op)
       case Some(Slice(items)) => ExecItems(s, o, ms, self, locals, d, items, body)
       case Some(Dict(items)) => ExecItems(s, o, ms, self, locals, d, items, body)
       case Some(NilSlice) => Next
       case _ => Crash)
  }

  function ExecItems(s: Schema, o: Oracles, ms: Methods, self: Val, locals: map<nat, Val>, d: nat, items: seq<Val>,
                     body: seq<Stmt>): Outcome
    requires forall k :: k in locals ==> locals[k] < self
    requires forall i :: 0 <= i < |items| ==> items[i] < self
    decreases self, body, 1 + |items|
  {
    if items == [] then Next
    else match Exec(s, o, ms, self, locals[d := items[0]], body)
         case Next => ExecItems(s, o, ms, self, locals, d, items[1..], body)
         case r => r
  }

  /** `v.Validate()`; Go dereferences a pointer receiver, and panics on a nil one. */
  function CallOn(s: Schema, o: Oracles, ms: Methods, v: Val): Outcome
    decreases v
  {
    match v
    case Ptr(t) => CallOn(s, o, ms, t)
    case MoneyVal(amount, currency) =>
      if !o.matches(DecimalRe, amount) then Returned(InvalidAmount)
      else if !o.currency(currency) then Returned(InvalidCurrency)
      else Next
    case Record(n, _) => if n in ms then Exec(s, o, ms, v, map[], ms[n]) else Crash
    case _ => Crash
  }

  function Report(e: Option<GoError>): Outcome {
    match e
    case None => Next
    case Some(err) => Returned(err)
  }

  // ------------------------------------------------------------------ emission

  // The three shapes of emitted check; a nullable access is nil-guarded and dereferenced.
  function FormatCheck(a: Access, re: Matcher, nullable: bool, tag: string): Stmt {
    If(if nullable then Both(NotNil(a), Mismatch(re, Deref(a))) else Mismatch(re, Direct(a)),
       [Fail(InvalidFormat(tag, re))])
  }

  function NestedCall(a: Access, callee: Type, nullable: bool, tag: string): Stmt {
    if nullable then If(NotNil(a), [CallValidate(a, callee, tag)]) else CallValidate(a, callee, tag)
  }

  function ElementLoop(a: Access, nullable: bool, depth: nat, body: seq<Stmt>): Stmt {
    if nullable then If(NotNil(a), [Range(depth, Deref(a), body)]) else Range(depth, Direct(a), body)
  }

  /** A single `Option` is folded into the pointer flag. */
  function Folded(ty: Type): Type { if IsOption(ty) then ty.args[0] else ty }

  predicate CallsValidate(s: Schema, ty: Type) {
    ty.Money? || (ty.Named? && ScanStruct(NeedsValidation, s, ty.name, {}).hit)
  }

  function EmitValue(s: Schema, a: Access, ty0: Type, nullable0: bool, tag: string, depth: nat): seq<Stmt>
    decreases ty0
  {
    var ty := Folded(ty0);
    var nullable := IsOption(ty0) || nullable0;
    if RegexOf(ty).Some? then [FormatCheck(a, RegexOf(ty).value, nullable, tag)]
    else if CallsValidate(s, ty) then [NestedCall(a, ty, nullable, tag)]
    else if IsList(ty) || IsMap(ty) then
      if !Needs(NeedsValidation, s, Elem(ty)) then []
      else [ElementLoop(a, nullable, depth, EmitValue(s, LoopVar(depth), Elem(ty), false, tag, depth + 1))]
    else []
  }

  datatype Constrained = Constrained(name: string, constraint: Expr, isPtr: bool)
  datatype Nested = Nested(name: string, ty: Type, isPtr: bool)

  function EmitConstraint(c: Constrained): Stmt {
    var a := OfField(c.name);
    If(if c.isPtr then Both(NotNil(a), Violates(c.constraint, Deref(a))) else Violates(c.constraint, Direct(a)),
       [Fail(ConstraintViolated(c.name))])
  }

  function EmitConstraints(cs: seq<Constrained>): seq<Stmt> {
    if cs == [] then [] else [EmitConstraint(cs[0])] + EmitConstraints(cs[1..])
  }

  function EmitNested(s: Schema, ns: seq<Nested>): seq<Stmt> {
    if ns == [] then []
    else EmitValue(s, OfField(ns[0].name), ns[0].ty, ns[0].isPtr, ns[0].name, 0) + EmitNested(s, ns[1..])
  }

  function ValidateBody(s: Schema, cs: seq<Constrained>, ns: seq<Nested>): seq<Stmt> {
    EmitConstraints(cs) + EmitNested(s, ns)
  }

  /** The matchers a statement list refers to. */
  function MatchersOf(stmts: seq<Stmt>): set<Matcher> {
    if stmts == [] then {} else MatchersOfOne(stmts[0]) + MatchersOf(stmts[1..])
  }

  function MatchersOfOne(stmt: Stmt): set<Matcher> {
    match stmt
    case If(c, body) => MatchersOfCond(c) + MatchersOf(body)
    case Range(_, _, body) => MatchersOf(body)
    case _ => {}
  }

  function MatchersOfCond(c: Cond): set<Matcher> {
    match c
    case Mismatch(re, _) => {re}
    case Both(l, r) => MatchersOfCond(l) + MatchersOfCond(r)
    case _ => {}
  }

  lemma {:induction false} MatchersAppend(a: seq<Stmt>, b: seq<Stmt>)
    ensures MatchersOf(a + b) == MatchersOf(a) + MatchersOf(b)
    decreases |a|
  {
    if a == [] {
      assert a + b == b;
    } else {
      MatchersAppend(a[1..], b);
      assert (a + b)[1..] == a[1..] + b;
    }
  }

  /** The buffer and the matcher set that emission writes to. */
  class Sink {
    var out: seq<Stmt>
    var regexVars: set<Matcher>

    constructor ()
      ensures out == [] && regexVars == {}
    {
      out, regexVars := [], {};
    }

    method Push(stmt: Stmt)
      modifies this`out
      ensures out == old(out) + [stmt]
    {
      out := out + [stmt];
    }
  }

  method EmitValueValidate(sink: Sink, s: Schema, a: Access, ty0: Type, nullable0: bool, tag: string, depth: nat)
    modifies sink
    ensures sink.out == old(sink.out) + EmitValue(s, a, ty0, nullable0, tag, depth)
    ensures sink.regexVars == old(sink.regexVars) + MatchersOf(EmitValue(s, a, ty0, nullable0, tag, depth))
    decreases ty0, 1
  {
    var ty, nullable := Folded(ty0), IsOption(ty0) || nullable0;
    if RegexOf(ty).Some? {
      var re := RegexOf(ty).value;
      sink.regexVars := sink.regexVars + {re};
      sink.Push(FormatCheck(a, re, nullable, tag));
      FormatCheckMatchers(a, re, nullable, tag);
      return;
    }
    var callsValidate := ty.Money?;
    if ty.Named? {
      var visited := new VisitedSet();
      callsValidate := StructNeeds(NeedsValidation, s, ty.name, visited);
    }
    if callsValidate {
      sink.Push(NestedCall(a, ty, nullable, tag));
      NestedCallMatchers(a, ty, nullable, tag);
      return;
    }
    if IsList(ty) || IsMap(ty) {
      EmitElementLoop(sink, s, a, ty, nullable, tag, depth);
    }
  }

  lemma EmitCollection(s: Schema, a: Access, ty: Type, nullable: bool, tag: string, depth: nat)
    requires IsList(ty) || IsMap(ty)
    ensures EmitValue(s, a, ty, nullable, tag, depth)
         == if !Needs(NeedsValidation, s, Elem(ty)) then []
            else [ElementLoop(a, nullable, depth, EmitValue(s, LoopVar(depth), Elem(ty), false, tag, depth + 1))]
  {
    assert Folded(ty) == ty && RegexOf(ty).None? && !CallsValidate(s, ty);
  }

  /** The list and map arm: a loop, unless the elements need no validation. */
  method EmitElementLoop(sink: Sink, s: Schema, a: Access, ty: Type, nullable: bool, tag: string, depth: nat)
    requires IsList(ty) || IsMap(ty)
    modifies sink
    ensures sink.out == old(sink.out) + EmitValue(s, a, ty, nullable, tag, depth)
    ensures sink.regexVars == old(sink.regexVars) + MatchersOf(EmitValue(s, a, ty, nullable, tag, depth))
    decreases ty, 0
  {
    EmitCollection(s, a, ty, nullable, tag, depth);
    var visited := new VisitedSet();
    var needed := TypeNeeds(NeedsValidation, s, Elem(ty), visited);
    if !needed {
      return;
    }
    var before := sink.out;
    sink.out := [];
    EmitValueValidate(sink, s, LoopVar(depth), Elem(ty), false, tag, depth + 1);
    var body := sink.out;
    assert body == EmitValue(s, LoopVar(depth), Elem(ty), false, tag, depth + 1);
    sink.out := before;
    sink.Push(ElementLoop(a, nullable, depth, body));
    ElementLoopMatchers(a, nullable, depth, body);
  }

  lemma {:induction false} FormatCheckMatchers(a: Access, re: Matcher, nullable: bool, tag: string)
    ensures MatchersOf([FormatCheck(a, re, nullable, tag)]) == {re}
  {
    MatchersOfSingle(Fail(InvalidFormat(tag, re)));
    MatchersOfSingle(FormatCheck(a, re, nullable, tag));
    assert MatchersOfCond(NotNil(a)) == {} && MatchersOfCond(Mismatch(re, Deref(a))) == {re};
  }

  lemma {:induction false} NestedCallMatchers(a: Access, callee: Type, nullable: bool, tag: string)
    ensures MatchersOf([NestedCall(a, callee, nullable, tag)]) == {}
  {
    MatchersOfSingle(CallValidate(a, callee, tag));
    MatchersOfSingle(NestedCall(a, callee, nullable, tag));
  }

  lemma {:induction false} ElementLoopMatchers(a: Access, nullable: bool, depth: nat, body: seq<Stmt>)
    ensures MatchersOf([ElementLoop(a, nullable, depth, body)]) == MatchersOf(body)
  {
    var loop := Range(depth, if nullable then Deref(a) else Direct(a), body);
    MatchersOfSingle(loop);
    MatchersOfSingle(ElementLoop(a, nullable, depth, body));
  }

  method RenderConstraints(sink: Sink, cs: seq<Constrained>)
    modifies sink`out
    ensures sink.out == old(sink.out) + EmitConstraints(cs)
  {
    assert cs[0..] == cs;
    for i := 0 to |cs|
      invariant sink.out + EmitConstraints(cs[i..]) == old(sink.out) + EmitConstraints(cs)
    {
      ConstraintStep(cs, i);
      Regroup(sink.out, [EmitConstraint(cs[i])], EmitConstraints(cs[i + 1..]));
      sink.Push(EmitConstraint(cs[i]));
    }
  }

  method RenderNested(sink: Sink, s: Schema, ns: seq<Nested>)
    modifies sink
    ensures sink.out == old(sink.out) + EmitNested(s, ns)
    ensures sink.regexVars == old(sink.regexVars) + MatchersOf(EmitNested(s, ns))
  {
    assert ns[0..] == ns;
    for i := 0 to |ns|
      invariant sink.out + EmitNested(s, ns[i..]) == old(sink.out) + EmitNested(s, ns)
      invariant sink.regexVars + MatchersOf(EmitNested(s, ns[i..]))
                == old(sink.regexVars) + MatchersOf(EmitNested(s, ns))
    {
      var n := ns[i];
      ghost var here := EmitValue(s, OfField(n.name), n.ty, n.isPtr, n.name, 0);
      NestedStep(s, ns, i);
      Regroup(sink.out, here, EmitNested(s, ns[i + 1..]));
      EmitValueValidate(sink, s, OfField(n.name), n.ty, n.isPtr, n.name, 0);
    }
  }

  lemma Regroup<T>(a: seq<T>, b: seq<T>, c: seq<T>)
    ensures a + (b + c) == (a + b) + c
  {}

  /** The body of one `Validate()`: constraint checks, then the checks of the fields' contents. */
  method RenderValidateFn(sink: Sink, s: Schema, cs: seq<Constrained>, ns: seq<Nested>)
    modifies sink
    ensures sink.out == old(sink.out) + ValidateBody(s, cs, ns)
    ensures sink.regexVars == old(sink.regexVars) + MatchersOf(ValidateBody(s, cs, ns))
  {
    RenderConstraints(sink, cs);
    RenderNested(sink, s, ns);
    ConstraintsUseNoMatcher(cs);
    MatchersAppend(EmitConstraints(cs), EmitNested(s, ns));
    Regroup(old(sink.out), EmitConstraints(cs), EmitNested(s, ns));
  }

  lemma {:induction false} ConstraintStep(cs: seq<Constrained>, i: nat)
    requires i < |cs|
    ensures EmitConstraints(cs[i..]) == [EmitConstraint(cs[i])] + EmitConstraints(cs[i + 1..])
  {
    assert cs[i..][1..] == cs[i + 1..];
  }

  lemma {:induction false} NestedStep(s: Schema, ns: seq<Nested>, i: nat)
    requires i < |ns|
    ensures var here := EmitValue(s, OfField(ns[i].name), ns[i].ty, ns[i].isPtr, ns[i].name, 0);
            && EmitNested(s, ns[i..]) == here + EmitNested(s, ns[i + 1..])
            && MatchersOf(EmitNested(s, ns[i..])) == MatchersOf(here) + MatchersOf(EmitNested(s, ns[i + 1..]))
  {
    assert ns[i..][1..] == ns[i + 1..];
    MatchersAppend(EmitValue(s, OfField(ns[i].name), ns[i].ty, ns[i].isPtr, ns[i].name, 0), EmitNested(s, ns[i + 1..]));
  }

  lemma {:induction false} ConstraintsUseNoMatcher(cs: seq<Constrained>)
    ensures MatchersOf(EmitConstraints(cs)) == {}
  {
    if cs != [] {
      ConstraintsUseNoMatcher(cs[1..]);
      MatchersAppend([EmitConstraint(cs[0])], EmitConstraints(cs[1..]));
      MatchersOfSingle(EmitConstraint(cs[0]));
      MatchersOfSingle(Fail(ConstraintViolated(cs[0].name)));
      assert MatchersOfCond(EmitConstraint(cs[0]).cond) == {};
    }
  }

  lemma MatchersOfSingle(stmt: Stmt)
    ensures MatchersOf([stmt]) == MatchersOfOne(stmt)
  {
    assert [stmt][1..] == [];
  }
}
