// The generated types.go as a whole: calls resolve, matchers exist, and exactly
// which field types escape validation.
module GoPackage {
  import Constraints
  import opened Options
  import opened Schema
  import opened TypeScan
  import opened GoValidator
  import opened GoValidatorCorrect

  // ---------------------------------------------------------------- emission

  predicate MentionsMoney(ty: Type) {
    ty.Money? || (ty.Generic? && exists i :: 0 <= i < |ty.args| && MentionsMoney(ty.args[i]))
  }

  predicate StructUsesMoney(info: StructInfo) { exists f :: f in info.fields && MentionsMoney(f.ty) }

  // The response type, the pagination item type, and the types of the query and
  // header parameters of an endpoint; its body type is a derived struct of the schema.
  datatype Endpoint = Endpoint(response: Option<Type>, pageItem: Option<Type>, params: seq<Type>)

  predicate EndpointUsesMoney(ep: Endpoint) {
    (ep.response.Some? && MentionsMoney(ep.response.value)) || (ep.pageItem.Some? && MentionsMoney(ep.pageItem.value))
  }

  lemma {:induction false} MentionsIsContains(ty: Type)
    ensures MentionsMoney(ty) <==> Contains(ty, Money)
    decreases ty
  {
    ContainsInArgs(ty, Money);
    if ty.Generic? {
      forall i | 0 <= i < |ty.args| ensures MentionsMoney(ty.args[i]) <==> Contains(ty.args[i], Money) {
        MentionsIsContains(ty.args[i]);
      }
    }
  }

  /** A type in which the generated Go would name `Money`: of a field, a response or a page item. */
  predicate NamedIn(s: Schema, eps: seq<Endpoint>, ty: Type) {
    || (exists n, i :: n in s && 0 <= i < |s[n].fields| && s[n].fields[i].ty == ty)
    || exists ep :: ep in eps && (ep.response == Some(ty) || ep.pageItem == Some(ty))
  }

  /** The built-in `Money` type, with its `Validate()`, is emitted exactly for such schemas and endpoints. */
  ghost predicate UsesMoney(s: Schema, eps: seq<Endpoint>) { exists ty :: NamedIn(s, eps, ty) && Contains(ty, Money) }

  lemma UsesMoneyIff(s: Schema, eps: seq<Endpoint>)
    ensures UsesMoney(s, eps) <==>
            (exists n :: n in s && StructUsesMoney(s[n])) || exists ep :: ep in eps && EndpointUsesMoney(ep)
  {
    forall ty ensures MentionsMoney(ty) <==> Contains(ty, Money) { MentionsIsContains(ty); }
    forall n, f | n in s && f in s[n].fields ensures NamedIn(s, eps, f.ty) {
      var i :| 0 <= i < |s[n].fields| && s[n].fields[i] == f;
    }
    forall ep | ep in eps
      ensures ep.response.Some? ==> NamedIn(s, eps, ep.response.value)
      ensures ep.pageItem.Some? ==> NamedIn(s, eps, ep.pageItem.value)
    {}
  }

  /** One `Option` or `List` around a parameter is looked through. */
  function ParamScalar(ty: Type): Type { if IsOption(ty) || IsList(ty) then ty.args[0] else ty }

  /** What a matcher is for. */
  function Checks(re: Matcher): Type {
    match re
    case UuidRe => Uuid
    case DecimalRe => Decimal
    case UrlRe => Url
  }

  /**
   * The server checks a parameter of this type against `re`: the scalar, an option or a
   * list of it, or of an option.
   */
  predicate ParamUses(ty: Type, re: Matcher) {
    var scalar := Checks(re);
    var option := Generic("Option", [scalar]);
    || ty == scalar || ty == option || ty == Generic("List", [scalar])
    || ty == Generic("Option", [option]) || ty == Generic("List", [option])
  }

  lemma ParamUsesIff(ty: Type, re: Matcher)
    ensures ParamUses(ty, re) <==> RegexOf(Folded(ParamScalar(ty))) == Some(re)
  {
    var inner := ParamScalar(ty);
    if inner != ty { assert ty == Generic(ty.ctor, [inner]); }
    if IsOption(inner) { assert inner == Generic("Option", [inner.args[0]]); }
  }

  predicate ParamsUse(params: seq<Type>, re: Matcher) { exists ty :: ty in params && ParamUses(ty, re) }

  predicate ParamRefers(eps: seq<Endpoint>, re: Matcher) { exists ep :: ep in eps && ParamsUse(ep.params, re) }

  /** The matchers of a package: those of its parameters, of its methods, and of `Money` where it is emitted. */
  ghost predicate Refers(s: Schema, eps: seq<Endpoint>, re: Matcher) {
    || ParamRefers(eps, re) || (UsesMoney(s, eps) && re.DecimalRe?)
    || exists n :: n in Program(s) && re in MatchersOf(Program(s)[n])
  }

  /** The matchers of parameters are registered before types.go is composed. */
  method RegisterParamMatchers(sink: Sink, eps: seq<Endpoint>)
    modifies sink`regexVars
    ensures forall re :: re in sink.regexVars <==> re in old(sink.regexVars) || ParamRefers(eps, re)
  {
    for i := 0 to |eps|
      invariant forall re :: re in sink.regexVars <==> re in old(sink.regexVars) || ParamRefers(eps[..i], re)
    {
      RegisterMatchers(sink, eps[i].params);
      forall re ensures ParamRefers(eps[..i + 1], re) <==> ParamRefers(eps[..i], re) || ParamsUse(eps[i].params, re) {
        RefersSnoc(eps, i, re);
      }
    }
    assert eps[..|eps|] == eps;
  }

  lemma RefersSnoc(eps: seq<Endpoint>, i: nat, re: Matcher)
    requires i < |eps|
    ensures ParamRefers(eps[..i + 1], re) <==> ParamRefers(eps[..i], re) || ParamsUse(eps[i].params, re)
  {
    assert eps[..i + 1] == eps[..i] + [eps[i]];
  }

  method RegisterMatchers(sink: Sink, params: seq<Type>)
    modifies sink`regexVars
    ensures forall re :: re in sink.regexVars <==> re in old(sink.regexVars) || ParamsUse(params, re)
  {
    for i := 0 to |params|
      invariant forall re :: re in sink.regexVars <==> re in old(sink.regexVars) || ParamsUse(params[..i], re)
    {
      forall re ensures ParamsUse(params[..i + 1], re) <==> ParamsUse(params[..i], re) || ParamUses(params[i], re) {
        UseSnoc(params, i, re);
      }
      var found := RegexOf(Folded(ParamScalar(params[i])));
      forall re ensures ParamUses(params[i], re) <==> found == Some(re) { ParamUsesIff(params[i], re); }
      if found.Some? {
        sink.regexVars := sink.regexVars + {found.value};
      }
    }
    assert params[..|params|] == params;
  }

  lemma UseSnoc(params: seq<Type>, i: nat, re: Matcher)
    requires i < |params|
    ensures ParamsUse(params[..i + 1], re) <==> ParamsUse(params[..i], re) || ParamUses(params[i], re)
  {
    assert params[..i + 1] == params[..i] + [params[i]];
  }

  /** The validator of one struct or body type, if it has anything to check. */
  method EmitValidateMethod(sink: Sink, s: Schema, n: string, ms0: Methods) returns (ms: Methods)
    requires n in s
    modifies sink
    ensures ms == if HasMethod(s, n) then ms0[n := StructBody(s, n)] else ms0
    ensures sink.regexVars == old(sink.regexVars) + (if HasMethod(s, n) then MatchersOf(StructBody(s, n)) else {})
  {
    ms := ms0;
    var info := s[n];
    if info.derived || !info.fileBearing {
      var cs := ConstrainedFields(info.fields);
      var ns := NestedFields(s, info.fields, info.derived);
      if cs != [] || ns != [] {
        sink.out := [];
        RenderValidateFn(sink, s, cs, ns);
        assert sink.out == StructBody(s, n);
        ms := ms[n := sink.out];
      }
    }
  }

  method SchemaUsesMoney(s: Schema, eps: seq<Endpoint>, decls: seq<string>) returns (r: bool)
    requires forall n :: n in decls <==> n in s
    ensures r == UsesMoney(s, eps)
  {
    UsesMoneyIff(s, eps);
    for i := 0 to |decls|
      invariant forall n :: n in decls[..i] ==> !StructUsesMoney(s[n])
    {
      if exists f :: f in s[decls[i]].fields && MentionsMoney(f.ty) {
        return true;
      }
    }
    assert decls[..|decls|] == decls;
    return exists ep :: ep in eps && EndpointUsesMoney(ep);
  }

  function AllMatchers(s: Schema, decls: seq<string>): set<Matcher> {
    if decls == [] then {}
    else
      AllMatchers(s, decls[..|decls| - 1])
      + (if HasMethod(s, decls[|decls| - 1]) then MatchersOf(StructBody(s, decls[|decls| - 1])) else {})
  }

  lemma {:induction false} AllMatchersMember(s: Schema, decls: seq<string>, re: Matcher)
    ensures re in AllMatchers(s, decls) <==>
            exists n :: n in decls && HasMethod(s, n) && re in MatchersOf(StructBody(s, n))
    decreases |decls|
  {
    if decls != [] {
      AllMatchersMember(s, decls[..|decls| - 1], re);
      assert decls == decls[..|decls| - 1] + [decls[|decls| - 1]];
    }
  }

  function MethodsOf(s: Schema, decls: seq<string>): Methods
    requires forall n :: n in decls ==> n in s
  {
    if decls == [] then map[]
    else
      var before, n := MethodsOf(s, decls[..|decls| - 1]), decls[|decls| - 1];
      if HasMethod(s, n) then before[n := StructBody(s, n)] else before
  }

  lemma {:induction false} MethodsOfAll(s: Schema, decls: seq<string>)
    requires forall n :: n in decls ==> n in s
    ensures MethodsOf(s, decls) == map n | n in decls && HasMethod(s, n) :: StructBody(s, n)
    decreases |decls|
  {
    if decls != [] {
      MethodsOfAll(s, decls[..|decls| - 1]);
      assert decls == decls[..|decls| - 1] + [decls[|decls| - 1]];
    }
  }

  method EmitMethods(sink: Sink, s: Schema, decls: seq<string>) returns (ms: Methods)
    requires forall n :: n in decls ==> n in s
    modifies sink
    ensures ms == MethodsOf(s, decls)
    ensures sink.regexVars == old(sink.regexVars) + AllMatchers(s, decls)
  {
    ms := map[];
    for i := 0 to |decls|
      invariant ms == MethodsOf(s, decls[..i])
      invariant sink.regexVars == old(sink.regexVars) + AllMatchers(s, decls[..i])
    {
      assert decls[..i + 1][..i] == decls[..i];
      ms := EmitValidateMethod(sink, s, decls[i], ms);
    }
    assert decls[..|decls|] == decls;
  }

  /**
   * Registers the parameters' matchers and emits `Money`, where used, and the
   * validators of all declarations through one matcher set: every matcher the
   * package refers to is declared, and no other.
   */
  method EmitPackage(s: Schema, eps: seq<Endpoint>, decls: seq<string>)
    returns (ms: Methods, moneyType: bool, regexVars: set<Matcher>)
    requires forall n :: n in decls <==> n in s
    ensures ms == Program(s) && moneyType == UsesMoney(s, eps)
    ensures forall re :: re in regexVars <==> Refers(s, eps, re)
  {
    var sink := new Sink();
    RegisterParamMatchers(sink, eps);
    moneyType := SchemaUsesMoney(s, eps, decls);
    if moneyType {
      sink.regexVars := sink.regexVars + {DecimalRe};
    }
    ms := EmitMethods(sink, s, decls);
    MethodsOfAll(s, decls);
    assert ms == Program(s);
    regexVars := sink.regexVars;
    forall re ensures re in regexVars <==> Refers(s, eps, re) { PackageMatcher(s, eps, decls, re); }
  }

  lemma PackageMatcher(s: Schema, eps: seq<Endpoint>, decls: seq<string>, re: Matcher)
    requires forall n :: n in decls <==> n in s
    ensures Refers(s, eps, re) <==>
            ParamRefers(eps, re) || (UsesMoney(s, eps) && re.DecimalRe?) || re in AllMatchers(s, decls)
  {
    AllMatchersMember(s, decls, re);
    if n :| n in decls && HasMethod(s, n) && re in MatchersOf(StructBody(s, n)) { assert n in Program(s); }
  }

  // ----------------------------------------------------------- calls resolve

  /** The types on whose values a statement list calls `Validate()`. */
  function CalleesOf(stmts: seq<Stmt>): set<Type> {
    if stmts == [] then {} else CalleesOfOne(stmts[0]) + CalleesOf(stmts[1..])
  }

  function CalleesOfOne(stmt: Stmt): set<Type> {
    match stmt
    case If(_, body) => CalleesOf(body)
    case Range(_, _, body) => CalleesOf(body)
    case CallValidate(_, callee, _) => {callee}
    case Fail(_) => {}
  }

  /** The sample of a map of lists of `Money` calls `Validate()` on `Money`. */
  lemma SampleCallees(s: Schema, tag: string)
    ensures CalleesOf(EmitValue(s, OfField(tag), Generic("Map", [String, Generic("List", [Money])]), false, tag, 0))
            == {Money}
  {
    CollectionSample(s, tag);
    CalleesSingle(CallValidate(LoopVar(1), Money, tag));
    var inner := Range(1, Direct(LoopVar(0)), [CallValidate(LoopVar(1), Money, tag)]);
    CalleesSingle(inner);
    CalleesSingle(Range(0, Direct(OfField(tag)), [inner]));
  }

  lemma {:induction false} CalleesAppend(a: seq<Stmt>, b: seq<Stmt>)
    ensures CalleesOf(a + b) == CalleesOf(a) + CalleesOf(b)
    decreases |a|
  {
    if a == [] {
      assert a + b == b;
    } else {
      CalleesAppend(a[1..], b);
      assert (a + b)[1..] == a[1..] + b;
    }
  }

  lemma CalleesSingle(stmt: Stmt)
    ensures CalleesOf([stmt]) == CalleesOfOne(stmt)
  {
    assert [stmt][1..] == [];
  }

  /** `callee` has a `Validate()` in the package. */
  ghost predicate HasTarget(s: Schema, eps: seq<Endpoint>, callee: Type) {
    if callee.Money? then UsesMoney(s, eps) else callee.Named? && callee.name in Program(s)
  }

  lemma {:induction false} EmittedCallees(s: Schema, eps: seq<Endpoint>, a: Access, ty: Type, nullable: bool,
                                          tag: string, depth: nat)
    requires NamesEmitted(s, ty) && (MentionsMoney(ty) ==> UsesMoney(s, eps))
    ensures forall callee :: callee in CalleesOf(EmitValue(s, a, ty, nullable, tag, depth)) ==>
            HasTarget(s, eps, callee)
    decreases ty, 0
  {
    var inner := Folded(ty);
    var ptr := IsOption(ty) || nullable;
    FoldKeepsNames(s, ty);
    assert MentionsMoney(inner) ==> MentionsMoney(ty);
    if RegexOf(inner).Some? {
      EmitsFormatCheck(s, a, ty, nullable, tag, depth);
      CalleesSingle(Fail(InvalidFormat(tag, RegexOf(inner).value)));
      CalleesSingle(FormatCheck(a, RegexOf(inner).value, ptr, tag));
    } else if CallsValidate(s, inner) {
      EmitsCall(s, a, ty, nullable, tag, depth);
      CalleesSingle(CallValidate(a, inner, tag));
      CalleesSingle(NestedCall(a, inner, ptr, tag));
      if inner.Named? {
        EmitGateIsCallGate(s, inner.name);
        NeedsStruct(NeedsValidation, s, inner.name);
        assert inner.name in Mentions(NeedsValidation, inner);
      }
    } else if (IsList(inner) || IsMap(inner)) && Needs(NeedsValidation, s, Elem(inner)) {
      EmitsLoop(s, a, ty, nullable, tag, depth);
      assert MentionsMoney(Elem(inner)) ==> MentionsMoney(inner);
      LoopCallees(s, eps, a, Elem(inner), ptr, tag, depth);
    } else {
      EmitsNothing(s, a, ty, nullable, tag, depth);
    }
  }

  lemma {:induction false} LoopCallees(s: Schema, eps: seq<Endpoint>, a: Access, elem: Type, ptr: bool, tag: string,
                                       depth: nat)
    requires NamesEmitted(s, elem) && (MentionsMoney(elem) ==> UsesMoney(s, eps))
    ensures var body := EmitValue(s, LoopVar(depth), elem, false, tag, depth + 1);
            forall callee :: callee in CalleesOf([ElementLoop(a, ptr, depth, body)]) ==> HasTarget(s, eps, callee)
    decreases elem, 1
  {
    var body := EmitValue(s, LoopVar(depth), elem, false, tag, depth + 1);
    EmittedCallees(s, eps, LoopVar(depth), elem, false, tag, depth + 1);
    CalleesSingle(Range(depth, if ptr then Deref(a) else Direct(a), body));
    CalleesSingle(ElementLoop(a, ptr, depth, body));
  }

  lemma {:induction false} NestedCallees(s: Schema, eps: seq<Endpoint>, fields: seq<Field>, derived: bool)
    requires forall f :: f in fields ==> NamesEmitted(s, f.ty) && (MentionsMoney(f.ty) ==> UsesMoney(s, eps))
    ensures forall callee :: callee in CalleesOf(EmitNested(s, NestedFields(s, fields, derived))) ==>
            HasTarget(s, eps, callee)
  {
    if fields != [] {
      NestedCallees(s, eps, fields[1..], derived);
      var f := fields[0];
      if Needs(NeedsValidation, s, f.ty) {
        var rest := NestedFields(s, fields[1..], derived);
        var ptr := derived && PtrField(f);
        assert ([Nested(f.name, f.ty, ptr)] + rest)[1..] == rest;
        EmittedCallees(s, eps, OfField(f.name), f.ty, ptr, f.name, 0);
        CalleesAppend(EmitValue(s, OfField(f.name), f.ty, ptr, f.name, 0), EmitNested(s, rest));
      }
    }
  }

  lemma {:induction false} ConstraintsCallNothing(cs: seq<Constrained>)
    ensures CalleesOf(EmitConstraints(cs)) == {}
  {
    if cs != [] {
      ConstraintsCallNothing(cs[1..]);
      CalleesAppend([EmitConstraint(cs[0])], EmitConstraints(cs[1..]));
      CalleesSingle(EmitConstraint(cs[0]));
      CalleesSingle(Fail(ConstraintViolated(cs[0].name)));
    }
  }

  /** Every emitted `.Validate()` call, on a struct or on `Money`, targets a method the package has. */
  lemma NoDanglingCall(s: Schema, eps: seq<Endpoint>, n: string)
    requires Checked(s) && n in Program(s)
    ensures forall callee :: callee in CalleesOf(Program(s)[n]) ==> HasTarget(s, eps, callee)
  {
    var fields := s[n].fields;
    UsesMoneyIff(s, eps);
    forall f | f in fields ensures NamesEmitted(s, f.ty) && (MentionsMoney(f.ty) ==> UsesMoney(s, eps)) {
      assert CheckedField(s, f, s[n].derived);
      if MentionsMoney(f.ty) { assert StructUsesMoney(s[n]); }
    }
    NestedCallees(s, eps, fields, s[n].derived);
    ConstraintsCallNothing(ConstrainedFields(fields));
    CalleesAppend(EmitConstraints(ConstrainedFields(fields)), EmitNested(s, NestedFields(s, fields, s[n].derived)));
  }

  /**
   * Whether the route of an endpoint calls `Validate()` on its body: the route has
   * its own copy of the gate, which holds exactly where the body type has the method.
   */
  method RouteValidatesBody(s: Schema, n: string) returns (calls: bool)
    requires n in s && s[n].derived
    ensures calls <==> n in Program(s)
  {
    var fields := s[n].fields;
    ConstrainedNonEmpty(fields);
    NestedNonEmpty(s, fields, true);
    var hasValidatable := false;
    for i := 0 to |fields|
      invariant !hasValidatable && forall j :: 0 <= j < i ==> !Needs(NeedsValidation, s, fields[j].ty)
    {
      var visited := new VisitedSet();
      hasValidatable := TypeNeeds(NeedsValidation, s, fields[i].ty, visited);
      if hasValidatable {
        break;
      }
    }
    calls := (exists f :: f in fields && f.constraint.Some?) || hasValidatable;
  }

  // ------------------------------------------------- what escapes validation

  /** Can a statement list report anything? */
  predicate CanReport(stmts: seq<Stmt>) {
    stmts != [] && (CanReportOne(stmts[0]) || CanReport(stmts[1..]))
  }

  predicate CanReportOne(stmt: Stmt) {
    match stmt
    case If(_, body) => CanReport(body)
    case Range(_, _, body) => CanReport(body)
    case _ => true
  }

  lemma ReportSingle(stmt: Stmt)
    ensures CanReport([stmt]) == CanReportOne(stmt)
  {
    assert [stmt][1..] == [];
  }

  /** A type the gate admits is given a check exactly when no `Option` is doubled in it. */
  lemma {:induction false} CheckedIffNotDoubled(s: Schema, a: Access, ty: Type, nullable: bool, tag: string, depth: nat)
    requires Needs(NeedsValidation, s, ty)
    ensures CanReport(EmitValue(s, a, ty, nullable, tag, depth)) <==> !Doubled(ty)
    decreases ty
  {
    var inner := Folded(ty);
    var ptr := IsOption(ty) || nullable;
    if IsOption(ty) {
      NeedsWrapper(NeedsValidation, s, ty);
      assert Kids(NeedsValidation, ty)[0] == inner;
      assert Needs(NeedsValidation, s, inner);
    }
    if RegexOf(inner).Some? {
      ReportSingle(Fail(InvalidFormat(tag, RegexOf(inner).value)));
      ReportSingle(FormatCheck(a, RegexOf(inner).value, ptr, tag));
    } else if CallsValidate(s, inner) {
      ReportSingle(CallValidate(a, inner, tag));
      ReportSingle(NestedCall(a, inner, ptr, tag));
    } else if IsList(inner) || IsMap(inner) {
      NeedsWrapper(NeedsValidation, s, inner);
      assert Kids(NeedsValidation, inner)[0] == Elem(inner);
      CheckedIffNotDoubled(s, LoopVar(depth), Elem(inner), false, tag, depth + 1);
      var body := EmitValue(s, LoopVar(depth), Elem(inner), false, tag, depth + 1);
      ReportSingle(Range(depth, if ptr then Deref(a) else Direct(a), body));
      ReportSingle(ElementLoop(a, ptr, depth, body));
    } else if !IsOption(inner) && !inner.Named? {
      NeedsWrapper(NeedsValidation, s, inner);
    }
  }

  /** Every method with something to check has a non-empty body. */
  lemma {:induction false} MethodNotEmpty(s: Schema, n: string)
    requires SingleOptions(s) && HasMethod(s, n)
    ensures StructBody(s, n) != []
  {
    var fields := s[n].fields;
    if ConstrainedFields(fields) == [] {
      NestedNonEmpty(s, fields, s[n].derived);
      var ns := NestedFields(s, fields, s[n].derived);
      NestedAreNeeded(s, fields, s[n].derived);
      var k :| 0 <= k < |fields| && fields[k].ty == ns[0].ty && Needs(NeedsValidation, s, fields[k].ty);
      CheckedIffNotDoubled(s, OfField(ns[0].name), ns[0].ty, ns[0].isPtr, ns[0].name, 0);
    }
  }

  lemma {:induction false} NestedAreNeeded(s: Schema, fields: seq<Field>, derived: bool)
    ensures var ns := NestedFields(s, fields, derived);
            ns != [] ==>
              exists k :: 0 <= k < |fields| && fields[k].ty == ns[0].ty && Needs(NeedsValidation, s, fields[k].ty)
  {
    if fields != [] && !Needs(NeedsValidation, s, fields[0].ty) {
      NestedAreNeeded(s, fields[1..], derived);
      var ns := NestedFields(s, fields, derived);
      if ns != [] {
        var k :| 0 <= k < |fields[1..]|
              && fields[1..][k].ty == ns[0].ty && Needs(NeedsValidation, s, fields[1..][k].ty);
        assert fields[k + 1] == fields[1..][k];
      }
    }
  }

  // ------------------------------------------------------------ what Go compiles

  predicate CondUses(c: Cond, d: nat) {
    match c
    case NotNil(a) => a == LoopVar(d)
    case Mismatch(_, op) => op.a == LoopVar(d)
    case Violates(_, op) => op.a == LoopVar(d)
    case Both(l, r) => CondUses(l, d) || CondUses(r, d)
  }

  /** Does a statement list mention the range variable `e<d>` of an enclosing loop? */
  predicate UsesVar(stmts: seq<Stmt>, d: nat) {
    stmts != [] && (UsesVarOne(stmts[0], d) || UsesVar(stmts[1..], d))
  }

  predicate UsesVarOne(stmt: Stmt, d: nat) {
    match stmt
    case If(c, body) => CondUses(c, d) || UsesVar(body, d)
    case Range(inner, op, body) => op.a == LoopVar(d) || (inner != d && UsesVar(body, d))
    case CallValidate(a, _, _) => a == LoopVar(d)
    case Fail(_) => false
  }

  /** Go rejects a range variable that its loop body does not use. */
  predicate LoopsUsed(stmts: seq<Stmt>) {
    stmts == [] || (LoopsUsedOne(stmts[0]) && LoopsUsed(stmts[1..]))
  }

  predicate LoopsUsedOne(stmt: Stmt) {
    match stmt
    case If(_, body) => LoopsUsed(body)
    case Range(d, _, body) => UsesVar(body, d) && LoopsUsed(body)
    case _ => true
  }

  /** Each check formats its error with `fmt`, which every method imports and Go rejects if unused. */
  ghost predicate FmtUsed(s: Schema, eps: seq<Endpoint>) {
    UsesMoney(s, eps) || exists n :: n in Program(s) && CanReport(Program(s)[n])
  }

  ghost predicate Compiles(s: Schema, eps: seq<Endpoint>) {
    (forall n :: n in Program(s) ==> LoopsUsed(Program(s)[n])) && (Program(s) == map[] || FmtUsed(s, eps))
  }

  /** An `Option` stands directly in an `Option` as the element of a list or map. */
  predicate BlindElement(ty: Type) {
    var inner := Folded(ty);
    (IsList(inner) || IsMap(inner)) && (Blind(Elem(inner)) || BlindElement(Elem(inner)))
  }

  lemma UsesSingle(stmt: Stmt, d: nat)
    ensures UsesVar([stmt], d) == UsesVarOne(stmt, d) && LoopsUsed([stmt]) == LoopsUsedOne(stmt)
  {
    assert [stmt][1..] == [];
  }

  lemma {:induction false} LoopsUsedAppend(a: seq<Stmt>, b: seq<Stmt>)
    ensures LoopsUsed(a + b) == (LoopsUsed(a) && LoopsUsed(b))
    ensures CanReport(a + b) == (CanReport(a) || CanReport(b))
    decreases |a|
  {
    if a == [] {
      assert a + b == b;
    } else {
      LoopsUsedAppend(a[1..], b);
      assert (a + b)[1..] == a[1..] + b;
    }
  }

  /** What the gate of a type says about its folded form. */
  lemma NeededShape(s: Schema, ty: Type)
    requires Needs(NeedsValidation, s, ty) && !Blind(ty)
    ensures var inner := Folded(ty);
            || RegexOf(inner).Some? || CallsValidate(s, inner)
            || ((IsList(inner) || IsMap(inner)) && Needs(NeedsValidation, s, Elem(inner)))
  {
    var inner := Folded(ty);
    if IsOption(ty) {
      NeedsWrapper(NeedsValidation, s, ty);
      assert Kids(NeedsValidation, ty)[0] == inner;
    }
    if !inner.Named? {
      NeedsWrapper(NeedsValidation, s, inner);
      if IsList(inner) || IsMap(inner) { assert Kids(NeedsValidation, inner) == [Elem(inner)]; }
    }
  }

  /** The code for an element uses the element, unless the element type doubles an `Option`. */
  lemma ElementUsed(s: Schema, elem: Type, tag: string, depth: nat)
    requires Needs(NeedsValidation, s, elem)
    ensures UsesVar(EmitValue(s, LoopVar(depth), elem, false, tag, depth + 1), depth) <==> !Blind(elem)
  {
    var inner, a, d, ptr := Folded(elem), LoopVar(depth), depth + 1, IsOption(elem);
    if !Blind(elem) {
      NeededShape(s, elem);
      if RegexOf(inner).Some? {
        EmitsFormatCheck(s, a, elem, false, tag, d);
        UsesSingle(FormatCheck(a, RegexOf(inner).value, ptr, tag), depth);
        assert CondUses(Mismatch(RegexOf(inner).value, if ptr then Deref(a) else Direct(a)), depth);
      } else if CallsValidate(s, inner) {
        EmitsCall(s, a, elem, false, tag, d);
        UsesSingle(CallValidate(a, inner, tag), depth);
        UsesSingle(NestedCall(a, inner, ptr, tag), depth);
      } else {
        EmitsLoop(s, a, elem, false, tag, d);
        var body := EmitValue(s, LoopVar(d), Elem(inner), false, tag, d + 1);
        var loop := Range(d, if ptr then Deref(a) else Direct(a), body);
        UsesSingle(loop, depth);
        UsesSingle(if ptr then If(NotNil(a), [loop]) else loop, depth);
      }
    }
  }

  /** The code for a type compiles exactly when no list or map in it has a doubled `Option` as its element. */
  lemma {:induction false} ValueCompilesIff(s: Schema, a: Access, ty: Type, nullable: bool, tag: string, depth: nat)
    requires Needs(NeedsValidation, s, ty)
    ensures LoopsUsed(EmitValue(s, a, ty, nullable, tag, depth)) <==> !BlindElement(ty)
    decreases ty
  {
    var inner, ptr := Folded(ty), IsOption(ty) || nullable;
    if !Blind(ty) {
      NeededShape(s, ty);
      if RegexOf(inner).Some? {
        EmitsFormatCheck(s, a, ty, nullable, tag, depth);
        UsesSingle(Fail(InvalidFormat(tag, RegexOf(inner).value)), 0);
        UsesSingle(FormatCheck(a, RegexOf(inner).value, ptr, tag), 0);
      } else if CallsValidate(s, inner) {
        EmitsCall(s, a, ty, nullable, tag, depth);
        UsesSingle(CallValidate(a, inner, tag), 0);
        UsesSingle(NestedCall(a, inner, ptr, tag), 0);
      } else {
        EmitsLoop(s, a, ty, nullable, tag, depth);
        var body := EmitValue(s, LoopVar(depth), Elem(inner), false, tag, depth + 1);
        ElementUsed(s, Elem(inner), tag, depth);
        ValueCompilesIff(s, LoopVar(depth), Elem(inner), false, tag, depth + 1);
        UsesSingle(Range(depth, if ptr then Deref(a) else Direct(a), body), 0);
        UsesSingle(ElementLoop(a, ptr, depth, body), 0);
      }
    }
  }

  /** A doubled `Option` in code that compiles is the field's own type, and nothing is checked there. */
  lemma DoubledPasses(s: Schema, o: Oracles, self: Val, locals: map<nat, Val>, a: Access, ty: Type, nullable: bool,
                      tag: string, depth: nat)
    requires Doubled(ty) && Needs(NeedsValidation, s, ty) && LoopsUsed(EmitValue(s, a, ty, nullable, tag, depth))
    requires forall d :: d in locals ==> locals[d] < self
    ensures Blind(ty) && Exec(s, o, Program(s), self, locals, EmitValue(s, a, ty, nullable, tag, depth)) == Next
  {
    ValueCompilesIff(s, a, ty, nullable, tag, depth);
    DoubledInElement(ty);
  }

  lemma {:induction false} DoubledInElement(ty: Type)
    ensures Doubled(ty) <==> Blind(ty) || BlindElement(ty)
  {
    var inner := Folded(ty);
    if !Blind(ty) && (IsList(inner) || IsMap(inner)) { DoubledInElement(Elem(inner)); }
  }

  // One struct's method, field by field.
  lemma {:induction false} NestedCompileIff(s: Schema, fields: seq<Field>, derived: bool)
    ensures LoopsUsed(EmitNested(s, NestedFields(s, fields, derived))) <==>
            forall f :: f in fields && Needs(NeedsValidation, s, f.ty) ==> !BlindElement(f.ty)
    ensures CanReport(EmitNested(s, NestedFields(s, fields, derived))) <==>
            exists f :: f in fields && Needs(NeedsValidation, s, f.ty) && !Doubled(f.ty)
  {
    if fields != [] {
      NestedCompileIff(s, fields[1..], derived);
      var f := fields[0];
      assert fields == [f] + fields[1..];
      if Needs(NeedsValidation, s, f.ty) {
        var rest := NestedFields(s, fields[1..], derived);
        var ptr := derived && PtrField(f);
        assert ([Nested(f.name, f.ty, ptr)] + rest)[1..] == rest;
        ValueCompilesIff(s, OfField(f.name), f.ty, ptr, f.name, 0);
        CheckedIffNotDoubled(s, OfField(f.name), f.ty, ptr, f.name, 0);
        LoopsUsedAppend(EmitValue(s, OfField(f.name), f.ty, ptr, f.name, 0), EmitNested(s, rest));
      }
    }
  }

  lemma {:induction false} ConstraintsCompile(cs: seq<Constrained>)
    ensures LoopsUsed(EmitConstraints(cs)) && (CanReport(EmitConstraints(cs)) <==> cs != [])
  {
    if cs != [] {
      ConstraintsCompile(cs[1..]);
      LoopsUsedAppend([EmitConstraint(cs[0])], EmitConstraints(cs[1..]));
      UsesSingle(EmitConstraint(cs[0]), 0);
      UsesSingle(Fail(ConstraintViolated(cs[0].name)), 0);
      ReportSingle(EmitConstraint(cs[0]));
      ReportSingle(Fail(ConstraintViolated(cs[0].name)));
    }
  }

  /** A field whose check can report: a constraint, or content with no doubled `Option`. */
  predicate ReportingField(s: Schema, f: Field) {
    f.constraint.Some? || (Needs(NeedsValidation, s, f.ty) && !Doubled(f.ty))
  }

  lemma StructCompilesIff(s: Schema, n: string)
    requires n in s
    ensures LoopsUsed(StructBody(s, n)) <==>
            forall f :: f in s[n].fields && Needs(NeedsValidation, s, f.ty) ==> !BlindElement(f.ty)
    ensures CanReport(StructBody(s, n)) <==> exists f :: f in s[n].fields && ReportingField(s, f)
  {
    var fields := s[n].fields;
    ConstrainedNonEmpty(fields);
    assert ConstrainedFields(fields) != [] <==> exists f :: f in fields && f.constraint.Some?;
    ConstraintsCompile(ConstrainedFields(fields));
    NestedCompileIff(s, fields, s[n].derived);
    LoopsUsedAppend(EmitConstraints(ConstrainedFields(fields)), EmitNested(s, NestedFields(s, fields, s[n].derived)));
  }

  /**
   * Go compiles the validators exactly when no validated field has a doubled
   * `Option` as a list or map element, and, if there is a method at all, some
   * check is emitted somewhere.
   */
  lemma CompilesIff(s: Schema, eps: seq<Endpoint>)
    ensures Compiles(s, eps) <==>
            && (forall n, f :: HasMethod(s, n) && f in s[n].fields && Needs(NeedsValidation, s, f.ty) ==>
                  !BlindElement(f.ty))
            && ((exists n :: HasMethod(s, n)) ==>
                  UsesMoney(s, eps) || exists n, f :: HasMethod(s, n) && f in s[n].fields && ReportingField(s, f))
  {
    forall n | HasMethod(s, n)
      ensures LoopsUsed(StructBody(s, n)) <==>
              forall f :: f in s[n].fields && Needs(NeedsValidation, s, f.ty) ==> !BlindElement(f.ty)
      ensures CanReport(StructBody(s, n)) <==> exists f :: f in s[n].fields && ReportingField(s, f)
    {
      StructCompilesIff(s, n);
    }
    assert forall n :: n in Program(s) <==> HasMethod(s, n);
    assert Program(s) == map[] <==> !exists n :: HasMethod(s, n) by {
      if n :| HasMethod(s, n) { assert n in Program(s); }
    }
  }

  // ---------------------------------------------------------- the exact condition

  /**
   * The code for one field decides its validity exactly unless all that is wrong
   * with the value is hidden where an `Option` stands directly in an `Option`.
   */
  lemma AgreesIffNotHidden(s: Schema, o: Oracles, self: Val, locals: map<nat, Val>, a: Access,
                           v: Val, ty: Type, nullable: bool, tag: string, depth: nat)
    requires Checked(s) && NamesEmitted(s, ty)
    requires forall d :: d in locals ==> locals[d] < self
    requires InScope(a, depth) && Load(s, self, locals, a) == Some(v) && HasFieldType(s, v, ty, nullable)
    ensures (Exec(s, o, Program(s), self, locals, EmitValue(s, a, ty, nullable, tag, depth)) == Next
             <==> ValidField(s, o, v, ty, nullable))
            <==> FieldProblem(s, o, v, ty, nullable, tag).Some? || !HidesField(s, o, v, ty, nullable)
  {
    EmittedFindsProblem(s, o, self, locals, a, v, ty, nullable, tag, depth);
    if !nullable || IsOption(ty) {
      ValidIffClean(s, o, v, ty, tag);
    } else if v.Ptr? {
      ValidIffClean(s, o, v.target, ty, tag);
    }
  }

  // struct T { id: Option<Option<Uuid>>, age: Int where .. }, and a value of it with an ill-formed id.
  const ID := Field("id", Generic("Option", [Generic("Option", [Uuid])]), None, false)
  const AGE := Field("age", Int, Some(Constraints.Ident("self")), false)
  const DOUBLED: Schema := map["T" := StructInfo([ID, AGE], false, false)]
  const BAD := Record("T", [Ptr(Ptr(Text("not a uuid"))), Opaque])
  const NOTHING_MATCHES := Oracles((_, _) => false, _ => false, (_, _) => true)

  lemma {:induction false} DoubledChecked()
    ensures Checked(DOUBLED) && HasMethod(DOUBLED, "T")
  {
    MentionsKid(ID.ty);
    MentionsKid(ID.ty.args[0]);
    assert Mentions(NeedsValidation, Uuid) == {} && Mentions(NeedsValidation, Int) == {};
    assert CheckedField(DOUBLED, ID, false) && CheckedField(DOUBLED, AGE, false);
    ConstrainedNonEmpty([ID, AGE]);
    assert [ID, AGE][1].constraint.Some?;
  }

  lemma {:induction false} DoubledCompiles()
    ensures Compiles(DOUBLED, [])
  {
    DoubledChecked();
    CompilesIff(DOUBLED, []);
    assert AGE in DOUBLED["T"].fields && ReportingField(DOUBLED, AGE);
    assert !BlindElement(ID.ty) && !BlindElement(AGE.ty);
  }

  // The same struct without its second field.
  const ONLY_ID: Schema := map["T" := StructInfo([ID], false, false)]
  const PRICED := Endpoint(Some(Money), None, [])

  lemma {:induction false} OnlyIdHasMethod()
    ensures HasMethod(ONLY_ID, "T")
  {
    var s, ty := ONLY_ID, ID.ty;
    NeedsWrapper(NeedsValidation, s, ty);
    NeedsWrapper(NeedsValidation, s, ty.args[0]);
    assert Kids(NeedsValidation, ty)[0] == ty.args[0] && Kids(NeedsValidation, ty.args[0])[0] == Uuid;
    NestedNonEmpty(s, [ID], false);
    assert [ID][0] == ID;
  }

  lemma {:induction false} OnlyIdNeverReports(n: string, f: Field)
    requires n in ONLY_ID && f in ONLY_ID[n].fields
    ensures !ReportingField(ONLY_ID, f) && !BlindElement(f.ty) && !MentionsMoney(f.ty)
  {
    assert f == ID;
  }

  /** With the doubled field alone nothing uses `fmt`, unless an endpoint makes the package carry `Money`. */
  lemma {:induction false} MoneyResponseUsesFmt()
    ensures !Compiles(ONLY_ID, []) && Compiles(ONLY_ID, [PRICED])
  {
    OnlyIdHasMethod();
    forall n, f | n in ONLY_ID && f in ONLY_ID[n].fields
      ensures !ReportingField(ONLY_ID, f) && !BlindElement(f.ty) && !MentionsMoney(f.ty)
    {
      OnlyIdNeverReports(n, f);
    }
    UsesMoneyIff(ONLY_ID, []);
    UsesMoneyIff(ONLY_ID, [PRICED]);
    CompilesIff(ONLY_ID, []);
    CompilesIff(ONLY_ID, [PRICED]);
    assert PRICED in [PRICED] && EndpointUsesMoney(PRICED);
  }

  lemma {:induction false} DoubledInvalid()
    ensures RecordOf(DOUBLED, BAD, "T") && !ValidRecord(DOUBLED, NOTHING_MATCHES, BAD, "T")
    ensures RecordProblem(DOUBLED, NOTHING_MATCHES, BAD, "T") == None
  {
    var s, o, text, ty := DOUBLED, NOTHING_MATCHES, Text("not a uuid"), ID.ty;
    assert HasType(s, text, Uuid) && HasType(s, Ptr(text), ty.args[0]) && HasType(s, BAD.fields[0], ty);
    assert HasFieldType(s, BAD.fields[0], ty, false) && HasFieldType(s, BAD.fields[1], Int, false);
    assert !Valid(s, o, text, Uuid) && !Valid(s, o, Ptr(text), ty.args[0]) && !Valid(s, o, BAD.fields[0], ty);
    assert !ValidField(s, o, BAD.fields[0], s["T"].fields[0].ty, s["T"].fields[0].optional);
    assert Satisfies(o, BAD.fields[0], ID) && Satisfies(o, BAD.fields[1], AGE);
    assert FieldProblem(s, o, BAD.fields[0], ty, false, "id") == None
        && FieldProblem(s, o, BAD.fields[1], Int, false, "age") == None;
    assert ConstraintProblem(o, s["T"].fields, BAD.fields, 2) == None;
    assert ConstraintProblem(o, s["T"].fields, BAD.fields, 1) == None;
    assert ContentProblem(s, o, BAD, "T", 2) == None;
    assert ContentProblem(s, o, BAD, "T", 1) == None;
  }

  /** A package that Go compiles, whose method accepts a record with an ill-formed UUID. */
  lemma {:induction false} DoubledOptionAccepted()
    ensures Checked(DOUBLED) && Compiles(DOUBLED, []) && HasMethod(DOUBLED, "T") && RecordOf(DOUBLED, BAD, "T")
    ensures !ValidRecord(DOUBLED, NOTHING_MATCHES, BAD, "T")
    ensures CallOn(DOUBLED, NOTHING_MATCHES, Program(DOUBLED), BAD) == Next
  {
    DoubledChecked();
    DoubledCompiles();
    DoubledInvalid();
    ValidateDecides(DOUBLED, NOTHING_MATCHES, BAD, "T");
  }
}
