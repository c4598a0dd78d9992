// Running the emitted validators is deciding validity.
module GoValidatorCorrect {
  import opened Options
  import opened Schema
  import opened TypeScan
  import opened GoValidator

  // --------------------------------------------------------------- the program

  function ConstrainedFields(fields: seq<Field>): seq<Constrained> {
    if fields == [] then []
    else
      var rest := ConstrainedFields(fields[1..]);
      var f := fields[0];
      if f.constraint.Some? then [Constrained(f.name, f.constraint.value, PtrField(f))] + rest else rest
  }

  // A source struct passes `false` for the pointer flag and leaves `Option` to the emitter;
  // a derived body passes the field's pointer-ness.
  function NestedFields(s: Schema, fields: seq<Field>, derived: bool): seq<Nested> {
    if fields == [] then []
    else
      var rest := NestedFields(s, fields[1..], derived);
      var f := fields[0];
      if Needs(NeedsValidation, s, f.ty) then [Nested(f.name, f.ty, derived && PtrField(f))] + rest else rest
  }

  /** A type gets a `Validate()` when it has something to check; a file-bearing source struct is not emitted at all. */
  predicate HasMethod(s: Schema, n: string) {
    && n in s && (s[n].derived || !s[n].fileBearing)
    && (ConstrainedFields(s[n].fields) != [] || NestedFields(s, s[n].fields, s[n].derived) != [])
  }

  function StructBody(s: Schema, n: string): seq<Stmt>
    requires n in s
  {
    ValidateBody(s, ConstrainedFields(s[n].fields), NestedFields(s, s[n].fields, s[n].derived))
  }

  function Program(s: Schema): Methods {
    map n | n in s && HasMethod(s, n) :: StructBody(s, n)
  }

  // ------------------------------------------------------------- preconditions

  /** An `Option` stands directly inside an `Option` on the way to the validated part of the type. */
  predicate Doubled(ty: Type) {
    if IsOption(ty) then IsOption(ty.args[0]) || Doubled(ty.args[0])
    else if IsList(ty) || IsMap(ty) then Doubled(Elem(ty))
    else false
  }

  /** Named types in `ty` are emitted as Go types. */
  predicate NamesEmitted(s: Schema, ty: Type) {
    forall n :: n in Mentions(NeedsValidation, ty) && n in s ==> s[n].derived || !s[n].fileBearing
  }

  /** What the type checker guarantees of a field. */
  predicate CheckedField(s: Schema, f: Field, derived: bool) {
    && (f.optional ==> derived)
    && (NamedOption(f.ty) ==> IsOption(f.ty))
    && (f.constraint.Some? && IsOption(f.ty) ==> !f.ty.args[0].File?)
    && NamesEmitted(s, f.ty)
  }

  /** What the type checker guarantees of a schema; field names are distinct. */
  predicate Checked(s: Schema) {
    forall n :: n in s ==>
      && (forall i, j :: 0 <= i < j < |s[n].fields| ==> s[n].fields[i].name != s[n].fields[j].name)
      && (forall i :: 0 <= i < |s[n].fields| ==> CheckedField(s, s[n].fields[i], s[n].derived))
  }

  /** No validated field type doubles an `Option`. */
  predicate SingleOptions(s: Schema) {
    forall n, i :: n in s && 0 <= i < |s[n].fields| && Needs(NeedsValidation, s, s[n].fields[i].ty) ==>
        !Doubled(s[n].fields[i].ty)
  }

  // ------------------------------------------------------------- the gates agree

  lemma {:induction false} ConstrainedNonEmpty(fields: seq<Field>)
    ensures ConstrainedFields(fields) != [] <==> exists i :: 0 <= i < |fields| && fields[i].constraint.Some?
  {
    if fields != [] {
      ConstrainedNonEmpty(fields[1..]);
      assert forall i :: 1 <= i < |fields| ==> fields[i] == fields[1..][i - 1];
    }
  }

  lemma {:induction false} NestedNonEmpty(s: Schema, fields: seq<Field>, derived: bool)
    ensures NestedFields(s, fields, derived) != [] <==>
            exists i :: 0 <= i < |fields| && Needs(NeedsValidation, s, fields[i].ty)
  {
    if fields != [] {
      NestedNonEmpty(s, fields[1..], derived);
      assert forall i :: 1 <= i < |fields| ==> fields[i] == fields[1..][i - 1];
    }
  }

  /** The emit gate on a struct and the call gate on its name are the same condition. */
  lemma EmitGateIsCallGate(s: Schema, n: string)
    ensures HasMethod(s, n) <==>
            n in s && (s[n].derived || !s[n].fileBearing) && ScanStruct(NeedsValidation, s, n, {}).hit
  {
    NeedsStruct(NeedsValidation, s, n);
    if n in s {
      ConstrainedNonEmpty(s[n].fields);
      NestedNonEmpty(s, s[n].fields, s[n].derived);
    }
  }

  // ------------------------------------------------ nothing to check, no problem

  lemma {:induction false} UnneededIsValid(s: Schema, o: Oracles, v: Val, ty: Type)
    requires HasType(s, v, ty) && !Needs(NeedsValidation, s, ty)
    ensures Valid(s, o, v, ty)
    decreases v, 1
  {
    if ty.Named? {
      NeedsStruct(NeedsValidation, s, ty.name);
      if ty.name in s { UnneededRecordIsValid(s, o, v, ty.name); }
    } else {
      NeedsWrapper(NeedsValidation, s, ty);
      if IsOption(ty) {
        assert Kids(NeedsValidation, ty)[0] == ty.args[0];
        if v.Ptr? && !ty.args[0].File? { UnneededIsValid(s, o, v.target, ty.args[0]); }
      } else if (IsList(ty) || IsMap(ty)) && !v.NilSlice? {
        assert Kids(NeedsValidation, ty)[0] == Elem(ty);
        forall i | 0 <= i < |v.items|
          ensures Valid(s, o, v.items[i], Elem(ty))
        {
          UnneededIsValid(s, o, v.items[i], Elem(ty));
        }
      }
    }
  }

  lemma {:induction false} UnneededRecordIsValid(s: Schema, o: Oracles, v: Val, n: string)
    requires RecordOf(s, v, n)
    requires forall i :: 0 <= i < |s[n].fields| ==>
      s[n].fields[i].constraint.None? && !Needs(NeedsValidation, s, s[n].fields[i].ty)
    ensures ValidRecord(s, o, v, n)
    decreases v, 0
  {
    forall i | 0 <= i < |v.fields| ensures ValidField(s, o, v.fields[i], s[n].fields[i].ty, s[n].fields[i].optional) {
      UnneededFieldIsValid(s, o, v.fields[i], s[n].fields[i]);
    }
  }

  lemma {:induction false} UnneededFieldIsValid(s: Schema, o: Oracles, v: Val, f: Field)
    requires HasFieldType(s, v, f.ty, f.optional) && !Needs(NeedsValidation, s, f.ty)
    ensures ValidField(s, o, v, f.ty, f.optional)
    decreases v, 2
  {
    if !f.optional || IsOption(f.ty) {
      UnneededIsValid(s, o, v, f.ty);
    } else if v.Ptr? {
      UnneededIsValid(s, o, v.target, f.ty);
    }
  }

  // --------------------------------------- validity is no problem and nothing hidden

  /** A value is valid exactly when it has no problem the emitted code can see and hides none. */
  lemma {:induction false} ValidIffClean(s: Schema, o: Oracles, v: Val, ty: Type, tag: string)
    requires HasType(s, v, ty)
    ensures Valid(s, o, v, ty) <==> Problem(s, o, v, ty, tag).None? && !Hides(s, o, v, ty)
    decreases v, 1, 0
  {
    if IsOption(ty) {
      if v.Ptr? && !ty.args[0].File? { ValidIffClean(s, o, v.target, ty.args[0], tag); }
    } else if IsList(ty) || IsMap(ty) {
      if !v.NilSlice? { ItemsValidIffClean(s, o, v, Elem(ty), tag, 0); }
    } else if ty.Named? && ty.name in s {
      RecordValidIffClean(s, o, v, ty.name);
    }
  }

  lemma {:induction false} ItemsValidIffClean(s: Schema, o: Oracles, v: Val, elem: Type, tag: string, i: nat)
    requires (v.Slice? || v.Dict?) && i <= |v.items|
    requires forall k :: 0 <= k < |v.items| ==> HasType(s, v.items[k], elem)
    ensures (forall k :: i <= k < |v.items| ==> Valid(s, o, v.items[k], elem)) <==>
            && ItemsProblem(s, o, v, elem, tag, i).None?
            && forall k :: i <= k < |v.items| ==> !Hides(s, o, v.items[k], elem)
    decreases v, 0, |v.items| - i
  {
    if i < |v.items| {
      ValidIffClean(s, o, v.items[i], elem, tag);
      ItemsValidIffClean(s, o, v, elem, tag, i + 1);
      assert ItemsProblem(s, o, v, elem, tag, i).None? <==>
             Problem(s, o, v.items[i], elem, tag).None? && ItemsProblem(s, o, v, elem, tag, i + 1).None?;
    }
  }

  lemma {:induction false} RecordValidIffClean(s: Schema, o: Oracles, v: Val, n: string)
    requires RecordOf(s, v, n)
    ensures ValidRecord(s, o, v, n) <==> RecordProblem(s, o, v, n).None? && !HidesRecord(s, o, v, n)
    decreases v, 0, |v.fields| + 1
  {
    FirstViolation(o, s[n].fields, v.fields, 0);
    FirstBadContent(s, o, v, n, 0);
    forall k | 0 <= k < |v.fields|
      ensures FieldValid(s, o, v, n, k) <==> FieldClean(s, o, v, n, k) && !FieldHides(s, o, v, n, k)
    {
      FieldValidIffClean(s, o, v, n, k);
    }
    ValidRecordByField(s, o, v, n);
  }

  lemma {:induction false} FieldValidIffClean(s: Schema, o: Oracles, v: Val, n: string, k: nat)
    requires RecordOf(s, v, n) && k < |v.fields|
    ensures FieldValid(s, o, v, n, k) <==> FieldClean(s, o, v, n, k) && !FieldHides(s, o, v, n, k)
    decreases v, 0, 0
  {
    var f := s[n].fields[k];
    if !f.optional || IsOption(f.ty) {
      ValidIffClean(s, o, v.fields[k], f.ty, f.name);
    } else if v.fields[k].Ptr? {
      ValidIffClean(s, o, v.fields[k].target, f.ty, f.name);
    }
  }

  predicate FieldValid(s: Schema, o: Oracles, v: Val, n: string, k: nat)
    requires RecordOf(s, v, n) && k < |v.fields|
  {
    ValidField(s, o, v.fields[k], s[n].fields[k].ty, s[n].fields[k].optional)
  }

  predicate FieldHides(s: Schema, o: Oracles, v: Val, n: string, k: nat)
    requires RecordOf(s, v, n) && k < |v.fields|
  {
    HidesField(s, o, v.fields[k], s[n].fields[k].ty, s[n].fields[k].optional)
  }

  predicate FieldClean(s: Schema, o: Oracles, v: Val, n: string, k: nat)
    requires FieldsFit(s, v, n) && k < |v.fields|
  {
    FieldProblem(s, o, v.fields[k], s[n].fields[k].ty, s[n].fields[k].optional, s[n].fields[k].name).None?
  }

  lemma ValidRecordByField(s: Schema, o: Oracles, v: Val, n: string)
    requires RecordOf(s, v, n)
    ensures ValidRecord(s, o, v, n) <==>
            (forall k :: 0 <= k < |v.fields| ==> Satisfies(o, v.fields[k], s[n].fields[k]) && FieldValid(s, o, v, n, k))
  {}

  predicate IsFirstViolation(o: Oracles, fields: seq<Field>, vals: seq<Val>, i: nat, k: nat) {
    && i <= k < |fields| == |vals|
    && !Satisfies(o, vals[k], fields[k])
    && forall j :: i <= j < k ==> Satisfies(o, vals[j], fields[j])
  }

  // The constraint error names the first field whose constraint is violated.
  lemma {:induction false} FirstViolation(o: Oracles, fields: seq<Field>, vals: seq<Val>, i: nat)
    requires |fields| == |vals| && i <= |fields|
    ensures var p := ConstraintProblem(o, fields, vals, i);
            && (p.None? <==> forall k :: i <= k < |fields| ==> Satisfies(o, vals[k], fields[k]))
            && (p.Some? ==>
                  exists k: nat :: IsFirstViolation(o, fields, vals, i, k)
                                   && p.value == ConstraintViolated(fields[k].name))
    decreases |fields| - i
  {
    if i < |fields| && Satisfies(o, vals[i], fields[i]) {
      FirstViolation(o, fields, vals, i + 1);
    }
  }

  function TagOf(e: GoError): string {
    match e
    case ConstraintViolated(t) => t
    case InvalidFormat(t, _) => t
    case Wrapped(t, _) => t
    case _ => ""
  }

  lemma {:induction false} ProblemTag(s: Schema, o: Oracles, v: Val, ty: Type, tag: string)
    ensures Problem(s, o, v, ty, tag).Some? ==> TagOf(Problem(s, o, v, ty, tag).value) == tag
    decreases v, 1, 0
  {
    if IsOption(ty) {
      if v.Ptr? { ProblemTag(s, o, v.target, ty.args[0], tag); }
    } else if (IsList(ty) || IsMap(ty)) && (v.Slice? || v.Dict?) {
      ItemsTag(s, o, v, Elem(ty), tag, 0);
    }
  }

  lemma {:induction false} ItemsTag(s: Schema, o: Oracles, v: Val, elem: Type, tag: string, i: nat)
    requires (v.Slice? || v.Dict?) && i <= |v.items|
    ensures var p := ItemsProblem(s, o, v, elem, tag, i); p.Some? ==> TagOf(p.value) == tag
    decreases v, 0, |v.items| - i
  {
    if i < |v.items| {
      ProblemTag(s, o, v.items[i], elem, tag);
      ItemsTag(s, o, v, elem, tag, i + 1);
    }
  }

  predicate IsFirstUnclean(s: Schema, o: Oracles, v: Val, n: string, i: nat, k: nat)
    requires FieldsFit(s, v, n)
  {
    i <= k < |v.fields| && !FieldClean(s, o, v, n, k) && forall j :: i <= j < k ==> FieldClean(s, o, v, n, j)
  }

  // The content error names the first field with a problem in its content.
  lemma {:induction false} FirstBadContent(s: Schema, o: Oracles, v: Val, n: string, i: nat)
    requires FieldsFit(s, v, n) && i <= |v.fields|
    ensures var p := ContentProblem(s, o, v, n, i);
            && (p.None? <==> forall k :: i <= k < |v.fields| ==> FieldClean(s, o, v, n, k))
            && (p.Some? ==> exists k: nat :: IsFirstUnclean(s, o, v, n, i, k) && TagOf(p.value) == s[n].fields[k].name)
    decreases |v.fields| - i
  {
    if i < |v.fields| {
      var f := s[n].fields[i];
      if !f.optional || IsOption(f.ty) {
        ProblemTag(s, o, v.fields[i], f.ty, f.name);
      } else if v.fields[i].Ptr? {
        ProblemTag(s, o, v.fields[i].target, f.ty, f.name);
      }
      FirstBadContent(s, o, v, n, i + 1);
      if FieldClean(s, o, v, n, i) {
        assert ContentProblem(s, o, v, n, i) == ContentProblem(s, o, v, n, i + 1);
      } else {
        assert IsFirstUnclean(s, o, v, n, i, i);
      }
    }
  }

  // ----------------------------------------------------- emitted code, one value

  /** Variables in scope are those of the enclosing loops. */
  predicate InScope(a: Access, depth: nat) { a.LoopVar? ==> a.depth < depth }

  lemma ExecSingle(s: Schema, o: Oracles, ms: Methods, self: Val, locals: map<nat, Val>, stmt: Stmt)
    requires forall d :: d in locals ==> locals[d] < self
    ensures Exec(s, o, ms, self, locals, [stmt]) == ExecOne(s, o, ms, self, locals, stmt)
  {
    assert [stmt][1..] == [];
  }

  lemma {:induction false} ExecAppend(s: Schema, o: Oracles, ms: Methods, self: Val, locals: map<nat, Val>,
                                      a: seq<Stmt>, b: seq<Stmt>)
    requires forall d :: d in locals ==> locals[d] < self
    ensures Exec(s, o, ms, self, locals, a + b) ==
            match Exec(s, o, ms, self, locals, a)
            case Next => Exec(s, o, ms, self, locals, b)
            case r => r
    decreases |a|
  {
    if a == [] {
      assert a + b == b;
    } else {
      ExecAppend(s, o, ms, self, locals, a[1..], b);
      assert (a + b)[1..] == a[1..] + b;
    }
  }

  // Value `v` at access `a`: the emitted statements report exactly its problem.
  lemma {:induction false} EmittedFindsProblem(s: Schema, o: Oracles, self: Val, locals: map<nat, Val>, a: Access,
                                               v: Val, ty: Type, nullable: bool, tag: string, depth: nat)
    requires Checked(s) && NamesEmitted(s, ty)
    requires forall d :: d in locals ==> locals[d] < self
    requires InScope(a, depth) && Load(s, self, locals, a) == Some(v)
    requires HasFieldType(s, v, ty, nullable)
    ensures Exec(s, o, Program(s), self, locals, EmitValue(s, a, ty, nullable, tag, depth))
         == Report(FieldProblem(s, o, v, ty, nullable, tag))
    decreases self, 0, ty, 5
  {
    if IsOption(Folded(ty)) || Folded(ty).File? {
      BlindChecksNothing(s, o, a, v, ty, nullable, tag, depth);
    } else if (IsOption(ty) || nullable) && v.Nil? {
      NilPasses(s, o, self, locals, a, ty, nullable, tag, depth);
    } else {
      PresentRuns(s, o, self, locals, a, v, ty, nullable, tag, depth);
    }
  }

  lemma {:induction false} PresentRuns(s: Schema, o: Oracles, self: Val, locals: map<nat, Val>, a: Access,
                                       v: Val, ty: Type, nullable: bool, tag: string, depth: nat)
    requires Checked(s) && NamesEmitted(s, ty) && !IsOption(Folded(ty)) && !Folded(ty).File?
    requires forall d :: d in locals ==> locals[d] < self
    requires InScope(a, depth) && Load(s, self, locals, a) == Some(v)
    requires HasFieldType(s, v, ty, nullable) && ((IsOption(ty) || nullable) ==> !v.Nil?)
    ensures Exec(s, o, Program(s), self, locals, EmitValue(s, a, ty, nullable, tag, depth))
         == Report(FieldProblem(s, o, v, ty, nullable, tag))
    decreases self, 0, ty, 4
  {
    FoldKeepsNames(s, ty);
    FoldedProblem(s, o, v, ty, nullable, tag);
    TargetRuns(s, o, self, locals, a, v, ty, IsOption(ty) || nullable, nullable, tag, depth);
  }

  // The same for what the access stands for: `v`, or what the pointer `v` points to.
  lemma {:induction false} TargetRuns(s: Schema, o: Oracles, self: Val, locals: map<nat, Val>, a: Access,
                                      v: Val, ty: Type, ptr: bool, nullable: bool, tag: string, depth: nat)
    requires Checked(s) && NamesEmitted(s, Folded(ty)) && !IsOption(Folded(ty)) && ptr == (IsOption(ty) || nullable)
    requires IsList(Folded(ty)) || IsMap(Folded(ty)) ==> NamesEmitted(s, Elem(Folded(ty)))
    requires forall d :: d in locals ==> locals[d] < self
    requires InScope(a, depth) && Load(s, self, locals, a) == Some(v)
    requires (ptr ==> v.Ptr?) && HasType(s, if ptr then v.target else v, Folded(ty))
    ensures Exec(s, o, Program(s), self, locals, EmitValue(s, a, ty, nullable, tag, depth))
         == Report(Problem(s, o, if ptr then v.target else v, Folded(ty), tag))
    decreases self, 0, ty, 3
  {
    var inner := Folded(ty);
    if RegexOf(inner).Some? {
      EmitsFormatCheck(s, a, ty, nullable, tag, depth);
      FormatCheckRuns(s, o, self, locals, a, v, inner, ptr, tag);
    } else if CallsValidate(s, inner) {
      CallCase(s, o, self, locals, a, v, ty, ptr, nullable, tag, depth);
    } else if (IsList(inner) || IsMap(inner)) && Needs(NeedsValidation, s, Elem(inner)) {
      LoopCase(s, o, self, locals, a, v, ty, ptr, nullable, tag, depth);
    } else {
      EmitsNothing(s, a, ty, nullable, tag, depth);
      NothingToCheck(s, o, if ptr then v.target else v, inner, tag);
    }
  }

  lemma {:induction false} CallCase(s: Schema, o: Oracles, self: Val, locals: map<nat, Val>, a: Access,
                                    v: Val, ty: Type, ptr: bool, nullable: bool, tag: string, depth: nat)
    requires Checked(s) && NamesEmitted(s, Folded(ty)) && ptr == (IsOption(ty) || nullable)
    requires forall d :: d in locals ==> locals[d] < self
    requires Load(s, self, locals, a) == Some(v) && (ptr ==> v.Ptr?)
    requires CallsValidate(s, Folded(ty)) && HasType(s, if ptr then v.target else v, Folded(ty))
    ensures Exec(s, o, Program(s), self, locals, EmitValue(s, a, ty, nullable, tag, depth))
         == Report(Problem(s, o, if ptr then v.target else v, Folded(ty), tag))
    decreases self, 0, ty, 2
  {
    EmitsCall(s, a, ty, nullable, tag, depth);
    NestedCallRuns(s, o, self, locals, a, v, Folded(ty), ptr, tag);
  }

  lemma {:induction false} LoopCase(s: Schema, o: Oracles, self: Val, locals: map<nat, Val>, a: Access,
                                    v: Val, ty: Type, ptr: bool, nullable: bool, tag: string, depth: nat)
    requires Checked(s) && ptr == (IsOption(ty) || nullable) && (IsList(Folded(ty)) || IsMap(Folded(ty)))
    requires NamesEmitted(s, Elem(Folded(ty))) && Needs(NeedsValidation, s, Elem(Folded(ty)))
    requires forall d :: d in locals ==> locals[d] < self
    requires InScope(a, depth) && Load(s, self, locals, a) == Some(v) && (ptr ==> v.Ptr?)
    requires HasType(s, if ptr then v.target else v, Folded(ty))
    ensures Exec(s, o, Program(s), self, locals, EmitValue(s, a, ty, nullable, tag, depth))
         == Report(Problem(s, o, if ptr then v.target else v, Folded(ty), tag))
    decreases self, 0, ty, 2
  {
    EmitsLoop(s, a, ty, nullable, tag, depth);
    ElementLoopRuns(s, o, self, locals, a, v, ty, Folded(ty), ptr, tag, depth);
  }

  // What is emitted, case by case.
  lemma EmitsFormatCheck(s: Schema, a: Access, ty: Type, nullable: bool, tag: string, depth: nat)
    requires RegexOf(Folded(ty)).Some?
    ensures EmitValue(s, a, ty, nullable, tag, depth)
            == [FormatCheck(a, RegexOf(Folded(ty)).value, IsOption(ty) || nullable, tag)]
  {}

  lemma EmitsCall(s: Schema, a: Access, ty: Type, nullable: bool, tag: string, depth: nat)
    requires CallsValidate(s, Folded(ty))
    ensures EmitValue(s, a, ty, nullable, tag, depth) == [NestedCall(a, Folded(ty), IsOption(ty) || nullable, tag)]
  {}

  lemma EmitsLoop(s: Schema, a: Access, ty: Type, nullable: bool, tag: string, depth: nat)
    requires (IsList(Folded(ty)) || IsMap(Folded(ty))) && Needs(NeedsValidation, s, Elem(Folded(ty)))
    ensures EmitValue(s, a, ty, nullable, tag, depth)
         == [ElementLoop(a, IsOption(ty) || nullable, depth,
                         EmitValue(s, LoopVar(depth), Elem(Folded(ty)), false, tag, depth + 1))]
  {}

  lemma EmitsNothing(s: Schema, a: Access, ty: Type, nullable: bool, tag: string, depth: nat)
    requires RegexOf(Folded(ty)).None? && !CallsValidate(s, Folded(ty))
    requires IsList(Folded(ty)) || IsMap(Folded(ty)) ==> !Needs(NeedsValidation, s, Elem(Folded(ty)))
    ensures EmitValue(s, a, ty, nullable, tag, depth) == []
  {}

  lemma BlindChecksNothing(s: Schema, o: Oracles, a: Access, v: Val, ty: Type, nullable: bool, tag: string, depth: nat)
    requires IsOption(Folded(ty)) || Folded(ty).File?
    ensures EmitValue(s, a, ty, nullable, tag, depth) == []
    ensures FieldProblem(s, o, v, ty, nullable, tag) == None
  {}

  lemma {:induction false} NothingToCheck(s: Schema, o: Oracles, v: Val, inner: Type, tag: string)
    requires HasType(s, v, inner) && !IsOption(inner) && RegexOf(inner).None? && !CallsValidate(s, inner)
    requires IsList(inner) || IsMap(inner) ==> !Needs(NeedsValidation, s, Elem(inner))
    ensures Problem(s, o, v, inner, tag) == None
  {
    if inner.Named? || IsList(inner) || IsMap(inner) {
      assert !Needs(NeedsValidation, s, inner) by {
        if inner.Named? {
          NeedsStruct(NeedsValidation, s, inner.name);
        } else {
          NeedsWrapper(NeedsValidation, s, inner);
          assert Kids(NeedsValidation, inner) == [Elem(inner)];
        }
      }
      UnneededIsValid(s, o, v, inner);
      ValidIffClean(s, o, v, inner, tag);
    }
  }

  lemma {:induction false} FoldedProblem(s: Schema, o: Oracles, v: Val, ty: Type, nullable: bool, tag: string)
    requires HasFieldType(s, v, ty, nullable) && !Folded(ty).File? && !IsOption(Folded(ty))
    requires (IsOption(ty) || nullable) ==> !v.Nil?
    ensures var ptr := IsOption(ty) || nullable;
            && (ptr ==> v.Ptr?)
            && HasType(s, if ptr then v.target else v, Folded(ty))
            && FieldProblem(s, o, v, ty, nullable, tag) == Problem(s, o, if ptr then v.target else v, Folded(ty), tag)
  {}

  lemma FoldKeepsNames(s: Schema, ty: Type)
    requires NamesEmitted(s, ty)
    ensures NamesEmitted(s, Folded(ty))
    ensures IsList(Folded(ty)) || IsMap(Folded(ty)) ==> NamesEmitted(s, Elem(Folded(ty)))
  {
    MentionsKid(ty);
    MentionsKid(Folded(ty));
  }

  lemma MentionsKid(ty: Type)
    ensures IsOption(ty) || IsList(ty) || IsMap(ty) ==>
            Mentions(NeedsValidation, ty) == Mentions(NeedsValidation, ty.args[|ty.args| - 1])
  {
    if IsOption(ty) || IsList(ty) || IsMap(ty) {
      assert |Kids(NeedsValidation, ty)| == 1;
      assert MentionsFrom(NeedsValidation, ty, 1) == {};
      assert MentionsFrom(NeedsValidation, ty, 0)
          == Mentions(NeedsValidation, Kids(NeedsValidation, ty)[0]) + MentionsFrom(NeedsValidation, ty, 1);
    }
  }

  lemma NilGuarded(s: Schema, o: Oracles, self: Val, locals: map<nat, Val>, a: Access, rest: Cond, body: seq<Stmt>)
    requires forall d :: d in locals ==> locals[d] < self
    requires Load(s, self, locals, a) == Some(Nil)
    ensures ExecOne(s, o, Program(s), self, locals, If(NotNil(a), body)) == Next
    ensures ExecOne(s, o, Program(s), self, locals, If(Both(NotNil(a), rest), body)) == Next
  {
    assert Check(s, o, self, locals, NotNil(a)) == No;
  }

  lemma {:induction false} NilPasses(s: Schema, o: Oracles, self: Val, locals: map<nat, Val>, a: Access,
                                     ty: Type, nullable: bool, tag: string, depth: nat)
    requires forall d :: d in locals ==> locals[d] < self
    requires Load(s, self, locals, a) == Some(Nil) && (IsOption(ty) || nullable)
    ensures Exec(s, o, Program(s), self, locals, EmitValue(s, a, ty, nullable, tag, depth)) == Next
  {
    var stmts := EmitValue(s, a, ty, nullable, tag, depth);
    if stmts != [] {
      assert stmts == [stmts[0]];
      ExecSingle(s, o, Program(s), self, locals, stmts[0]);
      NilGuarded(s, o, self, locals, a, if stmts[0].cond.Both? then stmts[0].cond.r else NotNil(a), stmts[0].body);
    }
  }

  lemma {:induction false} FormatCheckRuns(s: Schema, o: Oracles, self: Val, locals: map<nat, Val>, a: Access,
                                           v: Val, inner: Type, ptr: bool, tag: string)
    requires forall d :: d in locals ==> locals[d] < self
    requires Load(s, self, locals, a) == Some(v) && (ptr ==> v.Ptr?)
    requires RegexOf(inner).Some? && HasType(s, if ptr then v.target else v, inner)
    ensures Exec(s, o, Program(s), self, locals, [FormatCheck(a, RegexOf(inner).value, ptr, tag)])
         == Report(Problem(s, o, if ptr then v.target else v, inner, tag))
  {
    var re := RegexOf(inner).value;
    ExecSingle(s, o, Program(s), self, locals, FormatCheck(a, re, ptr, tag));
    ExecSingle(s, o, Program(s), self, locals, Fail(InvalidFormat(tag, re)));
    FormatTested(s, o, self, locals, a, v, re, ptr);
  }

  lemma FormatTested(s: Schema, o: Oracles, self: Val, locals: map<nat, Val>, a: Access, v: Val, re: Matcher, ptr: bool)
    requires forall d :: d in locals ==> locals[d] < self
    requires Load(s, self, locals, a) == Some(v) && (ptr ==> v.Ptr?) && (if ptr then v.target else v).Text?
    ensures Check(s, o, self, locals, if ptr then Both(NotNil(a), Mismatch(re, Deref(a))) else Mismatch(re, Direct(a)))
         == if o.matches(re, (if ptr then v.target else v).s) then No else Yes
  {
    if ptr {
      assert Check(s, o, self, locals, NotNil(a)) == Yes;
      assert LoadOperand(s, self, locals, Deref(a)) == Some(v.target);
    }
  }

  lemma {:induction false} NestedCallRuns(s: Schema, o: Oracles, self: Val, locals: map<nat, Val>, a: Access,
                                          v: Val, inner: Type, ptr: bool, tag: string)
    requires Checked(s) && NamesEmitted(s, inner)
    requires forall d :: d in locals ==> locals[d] < self
    requires Load(s, self, locals, a) == Some(v) && (ptr ==> v.Ptr?)
    requires CallsValidate(s, inner) && HasType(s, if ptr then v.target else v, inner)
    ensures Exec(s, o, Program(s), self, locals, [NestedCall(a, inner, ptr, tag)])
         == Report(Problem(s, o, if ptr then v.target else v, inner, tag))
    decreases self, 0, inner, 1
  {
    var target := if ptr then v.target else v;
    ExecSingle(s, o, Program(s), self, locals, CallValidate(a, inner, tag));
    ExecSingle(s, o, Program(s), self, locals, NestedCall(a, inner, ptr, tag));
    assert CallOn(s, o, Program(s), v) == CallOn(s, o, Program(s), target) by {
      if ptr { assert CallOn(s, o, Program(s), v) == CallOn(s, o, Program(s), v.target); }
    }
    if inner.Named? {
      NeedsStruct(NeedsValidation, s, inner.name);
      EmitGateIsCallGate(s, inner.name);
      assert inner.name in Mentions(NeedsValidation, inner);
      ValidateDecides(s, o, target, inner.name);
    }
  }

  // The loop statement runs its body on each item; a nil slice has none.
  lemma LoopUnrolls(s: Schema, o: Oracles, ms: Methods, self: Val, locals: map<nat, Val>, a: Access,
                    v: Val, ptr: bool, depth: nat, body: seq<Stmt>)
    requires forall d :: d in locals ==> locals[d] < self
    requires Load(s, self, locals, a) == Some(v) && (ptr ==> v.Ptr?)
    requires var target := if ptr then v.target else v; target.Slice? || target.Dict? || target.NilSlice?
    ensures var target := if ptr then v.target else v;
            Exec(s, o, ms, self, locals, [ElementLoop(a, ptr, depth, body)])
            == if target.NilSlice? then Next else ExecItems(s, o, ms, self, locals, depth, target.items, body)
  {
    ExecSingle(s, o, ms, self, locals, Range(depth, if ptr then Deref(a) else Direct(a), body));
    ExecSingle(s, o, ms, self, locals, ElementLoop(a, ptr, depth, body));
  }

  lemma {:induction false} ElementLoopRuns(s: Schema, o: Oracles, self: Val, locals: map<nat, Val>, a: Access,
                                           v: Val, ty: Type, inner: Type, ptr: bool, tag: string, depth: nat)
    requires Checked(s) && (inner == ty || inner < ty) && (IsList(inner) || IsMap(inner))
    requires NamesEmitted(s, Elem(inner))
    requires forall d :: d in locals ==> locals[d] < self
    requires InScope(a, depth) && Load(s, self, locals, a) == Some(v) && (ptr ==> v.Ptr?)
    requires HasType(s, if ptr then v.target else v, inner)
    ensures Exec(s, o, Program(s), self, locals,
                 [ElementLoop(a, ptr, depth, EmitValue(s, LoopVar(depth), Elem(inner), false, tag, depth + 1))])
         == Report(Problem(s, o, if ptr then v.target else v, inner, tag))
    decreases self, 0, ty, 1
  {
    var target := if ptr then v.target else v;
    LoopUnrolls(s, o, Program(s), self, locals, a, v, ptr, depth,
        EmitValue(s, LoopVar(depth), Elem(inner), false, tag, depth + 1));
    if !target.NilSlice? {
      ItemsRun(s, o, self, locals, target, ty, Elem(inner), tag, depth, 0);
      assert target.items[0..] == target.items;
    }
  }

  lemma {:induction false} ItemsRun(s: Schema, o: Oracles, self: Val, locals: map<nat, Val>, coll: Val,
                                    ty: Type, elem: Type, tag: string, depth: nat, i: nat)
    requires Checked(s) && elem < ty && NamesEmitted(s, elem)
    requires forall d :: d in locals ==> locals[d] < self
    requires (coll.Slice? || coll.Dict?) && i <= |coll.items| && coll < self
    requires forall k :: 0 <= k < |coll.items| ==> HasType(s, coll.items[k], elem)
    ensures ExecItems(s, o, Program(s), self, locals, depth, coll.items[i..],
                      EmitValue(s, LoopVar(depth), elem, false, tag, depth + 1))
         == Report(ItemsProblem(s, o, coll, elem, tag, i))
    decreases self, 0, ty, 0, |coll.items| - i
  {
    var body := EmitValue(s, LoopVar(depth), elem, false, tag, depth + 1);
    if i == |coll.items| {
      assert coll.items[i..] == [];
    } else {
      ItemRuns(s, o, self, locals, coll.items[i], elem, tag, depth);
      ItemsRun(s, o, self, locals, coll, ty, elem, tag, depth, i + 1);
      ItemsStep(s, o, Program(s), self, locals, depth, coll, elem, tag, body, i);
    }
  }

  lemma {:induction false} ItemRuns(s: Schema, o: Oracles, self: Val, locals: map<nat, Val>, item: Val, elem: Type,
                                    tag: string, depth: nat)
    requires Checked(s) && NamesEmitted(s, elem)
    requires forall d :: d in locals ==> locals[d] < self
    requires item < self && HasType(s, item, elem)
    ensures Exec(s, o, Program(s), self, locals[depth := item],
                 EmitValue(s, LoopVar(depth), elem, false, tag, depth + 1))
         == Report(Problem(s, o, item, elem, tag))
    decreases self, 0, elem, 6
  {
    EmittedFindsProblem(s, o, self, locals[depth := item], LoopVar(depth), item, elem, false, tag, depth + 1);
  }

  lemma {:induction false} ItemsStep(s: Schema, o: Oracles, ms: Methods, self: Val, locals: map<nat, Val>, d: nat,
                                     coll: Val, elem: Type, tag: string, body: seq<Stmt>, i: nat)
    requires forall k :: k in locals ==> locals[k] < self
    requires (coll.Slice? || coll.Dict?) && i < |coll.items| && coll < self
    requires Exec(s, o, ms, self, locals[d := coll.items[i]], body) == Report(Problem(s, o, coll.items[i], elem, tag))
    requires ExecItems(s, o, ms, self, locals, d, coll.items[i + 1..], body)
             == Report(ItemsProblem(s, o, coll, elem, tag, i + 1))
    ensures ExecItems(s, o, ms, self, locals, d, coll.items[i..], body)
            == Report(ItemsProblem(s, o, coll, elem, tag, i))
  {
    assert coll.items[i..][1..] == coll.items[i + 1..];
  }

  // ---------------------------------------------------- emitted code, one struct

  lemma FieldLoads(s: Schema, v: Val, n: string, i: nat)
    requires Checked(s) && RecordOf(s, v, n) && i < |v.fields|
    ensures Load(s, v, map[], OfField(s[n].fields[i].name)) == Some(v.fields[i])
  {}

  lemma {:induction false} ConstraintsRun(s: Schema, o: Oracles, v: Val, n: string, i: nat)
    requires Checked(s) && RecordOf(s, v, n) && i <= |v.fields|
    ensures Exec(s, o, Program(s), v, map[], EmitConstraints(ConstrainedFields(s[n].fields[i..])))
         == Report(ConstraintProblem(o, s[n].fields, v.fields, i))
    decreases |v.fields| - i
  {
    var fields := s[n].fields;
    if i < |fields| {
      assert fields[i..][1..] == fields[i + 1..];
      ConstraintsRun(s, o, v, n, i + 1);
      var f := fields[i];
      if f.constraint.Some? {
        var c := Constrained(f.name, f.constraint.value, PtrField(f));
        var rest := EmitConstraints(ConstrainedFields(fields[i + 1..]));
        assert ([c] + ConstrainedFields(fields[i + 1..]))[1..] == ConstrainedFields(fields[i + 1..]);
        ExecAppend(s, o, Program(s), v, map[], [EmitConstraint(c)], rest);
        ExecSingle(s, o, Program(s), v, map[], EmitConstraint(c));
        ConstraintRuns(s, o, v, n, i);
      }
    }
  }

  lemma {:induction false} ConstraintRuns(s: Schema, o: Oracles, v: Val, n: string, i: nat)
    requires Checked(s) && RecordOf(s, v, n) && i < |v.fields| && s[n].fields[i].constraint.Some?
    ensures var f := s[n].fields[i];
            ExecOne(s, o, Program(s), v, map[], EmitConstraint(Constrained(f.name, f.constraint.value, PtrField(f))))
            == if Satisfies(o, v.fields[i], f) then Next else Returned(ConstraintViolated(f.name))
  {
    var f := s[n].fields[i];
    FieldLoads(s, v, n, i);
    assert CheckedField(s, f, s[n].derived);
    ExecSingle(s, o, Program(s), v, map[], Fail(ConstraintViolated(f.name)));
    var a := OfField(f.name);
    if PtrField(f) {
      assert HasFieldType(s, v.fields[i], f.ty, f.optional);
      assert v.fields[i].Nil? || v.fields[i].Ptr? by {
        if IsOption(f.ty) { assert HasType(s, v.fields[i], f.ty); }
      }
      assert Check(s, o, v, map[], NotNil(a)) == if v.fields[i].Nil? then No else Yes;
      assert Check(s, o, v, map[], Both(NotNil(a), Violates(f.constraint.value, Deref(a))))
          == if v.fields[i].Nil? then No else Check(s, o, v, map[], Violates(f.constraint.value, Deref(a)));
    }
  }

  // Whether the pointer flag says `partial` or any pointer, the same code is emitted.
  lemma {:induction false} ContentRuns(s: Schema, o: Oracles, v: Val, n: string, i: nat)
    requires Checked(s) && RecordOf(s, v, n) && i < |v.fields|
    ensures var f := s[n].fields[i];
            Exec(s, o, Program(s), v, map[],
                 EmitValue(s, OfField(f.name), f.ty, s[n].derived && PtrField(f), f.name, 0))
            == Report(FieldProblem(s, o, v.fields[i], f.ty, f.optional, f.name))
    decreases v, 1, 0, 0
  {
    var f := s[n].fields[i];
    FieldLoads(s, v, n, i);
    assert CheckedField(s, f, s[n].derived);
    EmittedFindsProblem(s, o, v, map[], OfField(f.name), v.fields[i], f.ty, f.optional, f.name, 0);
    assert EmitValue(s, OfField(f.name), f.ty, f.optional, f.name, 0)
        == EmitValue(s, OfField(f.name), f.ty, s[n].derived && PtrField(f), f.name, 0);
  }

  lemma {:induction false} ContentsRun(s: Schema, o: Oracles, v: Val, n: string, i: nat)
    requires Checked(s) && RecordOf(s, v, n) && i <= |v.fields|
    ensures Exec(s, o, Program(s), v, map[], EmitNested(s, NestedFields(s, s[n].fields[i..], s[n].derived)))
         == Report(ContentProblem(s, o, v, n, i))
    decreases v, 1, 1, |v.fields| - i
  {
    var fields := s[n].fields;
    if i < |fields| {
      assert fields[i..][1..] == fields[i + 1..];
      ContentsRun(s, o, v, n, i + 1);
      var f := fields[i];
      if Needs(NeedsValidation, s, f.ty) {
        var rest := NestedFields(s, fields[i + 1..], s[n].derived);
        var ptr := s[n].derived && PtrField(f);
        assert ([Nested(f.name, f.ty, ptr)] + rest)[1..] == rest;
        ContentRuns(s, o, v, n, i);
        ExecAppend(s, o, Program(s), v, map[], EmitValue(s, OfField(f.name), f.ty, ptr, f.name, 0),
            EmitNested(s, rest));
      } else {
        UnneededFieldIsValid(s, o, v.fields[i], f);
        FieldValidIffClean(s, o, v, n, i);
      }
    }
  }

  /** Calling `Validate()` reports exactly the first problem of the record, and never crashes. */
  lemma {:induction false} ValidateDecides(s: Schema, o: Oracles, v: Val, n: string)
    requires Checked(s) && HasMethod(s, n) && RecordOf(s, v, n)
    ensures CallOn(s, o, Program(s), v) == Report(RecordProblem(s, o, v, n))
    decreases v, 2
  {
    var fields := s[n].fields;
    assert fields[0..] == fields;
    ConstraintsRun(s, o, v, n, 0);
    ContentsRun(s, o, v, n, 0);
    ExecAppend(s, o, Program(s), v, map[], EmitConstraints(ConstrainedFields(fields)),
        EmitNested(s, NestedFields(s, fields, s[n].derived)));
  }

  // ------------------------------------------------------------------ results

  /**
   * Whatever the struct graph, the compiled validator never crashes, it rejects
   * invalid values only, and it decides validity exactly unless all that is wrong
   * with the value is hidden where an `Option` stands directly in an `Option`.
   */
  lemma ValidatorAcceptsIffValid(s: Schema, o: Oracles, v: Val, n: string)
    requires Checked(s) && HasMethod(s, n) && RecordOf(s, v, n)
    ensures CallOn(s, o, Program(s), v) != Crash
    ensures CallOn(s, o, Program(s), v).Returned? ==> !ValidRecord(s, o, v, n)
    ensures (CallOn(s, o, Program(s), v) == Next <==> ValidRecord(s, o, v, n))
            <==> RecordProblem(s, o, v, n).Some? || !HidesRecord(s, o, v, n)
  {
    ValidateDecides(s, o, v, n);
    RecordValidIffClean(s, o, v, n);
  }

  /** Where no validated type doubles an `Option` nothing is hidden, and acceptance is validity. */
  lemma SingleOptionsDecide(s: Schema, o: Oracles, v: Val, n: string)
    requires Checked(s) && SingleOptions(s) && HasMethod(s, n) && RecordOf(s, v, n)
    ensures CallOn(s, o, Program(s), v) == Next <==> ValidRecord(s, o, v, n)
  {
    ValidatorAcceptsIffValid(s, o, v, n);
    NothingHiddenInRecord(s, o, v, n);
  }

  lemma {:induction false} NothingHidden(s: Schema, o: Oracles, v: Val, ty: Type)
    requires SingleOptions(s) && HasType(s, v, ty) && (Needs(NeedsValidation, s, ty) ==> !Doubled(ty))
    ensures !Hides(s, o, v, ty)
    decreases v, 1
  {
    if !Needs(NeedsValidation, s, ty) {
      UnneededIsValid(s, o, v, ty);
      ValidIffClean(s, o, v, ty, "");
    } else if IsOption(ty) {
      if v.Ptr? && !ty.args[0].File? { NothingHidden(s, o, v.target, ty.args[0]); }
    } else if IsList(ty) || IsMap(ty) {
      if !v.NilSlice? {
        forall i | 0 <= i < |v.items|
          ensures !Hides(s, o, v.items[i], Elem(ty))
        {
          NothingHidden(s, o, v.items[i], Elem(ty));
        }
      }
    } else if ty.Named? && ty.name in s {
      NothingHiddenInRecord(s, o, v, ty.name);
    }
  }

  lemma {:induction false} NothingHiddenInRecord(s: Schema, o: Oracles, v: Val, n: string)
    requires SingleOptions(s) && RecordOf(s, v, n)
    ensures !HidesRecord(s, o, v, n)
    decreases v, 0
  {
    forall i | 0 <= i < |v.fields| ensures !HidesField(s, o, v.fields[i], s[n].fields[i].ty, s[n].fields[i].optional) {
      var f := s[n].fields[i];
      if !f.optional || IsOption(f.ty) {
        NothingHidden(s, o, v.fields[i], f.ty);
      } else if v.fields[i].Ptr? {
        NothingHidden(s, o, v.fields[i].target, f.ty);
      }
    }
  }

  /** A type without a method has nothing to validate: each of its values is valid. */
  lemma NoMethodNoInvalidValue(s: Schema, o: Oracles, v: Val, n: string)
    requires n in s && (s[n].derived || !s[n].fileBearing) && !HasMethod(s, n) && RecordOf(s, v, n)
    ensures ValidRecord(s, o, v, n)
  {
    EmitGateIsCallGate(s, n);
    NeedsStruct(NeedsValidation, s, n);
    UnneededRecordIsValid(s, o, v, n);
  }

  /**
   * Field `k` is at fault first: by its constraint if any constraint is violated,
   * else by its content, those before it being valid or at fault only where hidden.
   */
  predicate IsFirstFault(s: Schema, o: Oracles, v: Val, n: string, k: nat)
    requires RecordOf(s, v, n)
  {
    if exists j :: 0 <= j < |v.fields| && !Satisfies(o, v.fields[j], s[n].fields[j])
    then IsFirstViolation(o, s[n].fields, v.fields, 0, k)
    else
      && k < |v.fields| && !FieldValid(s, o, v, n, k)
      && forall j :: 0 <= j < k ==> FieldValid(s, o, v, n, j) || FieldHides(s, o, v, n, j)
  }

  /** The error returned names the first field, in emission order, that is at fault. */
  lemma ErrorNamesFirstBadField(s: Schema, o: Oracles, v: Val, n: string)
    requires Checked(s) && HasMethod(s, n) && RecordOf(s, v, n) && CallOn(s, o, Program(s), v).Returned?
    ensures var fs := s[n].fields;
            exists k: nat :: k < |fs| && TagOf(CallOn(s, o, Program(s), v).error) == fs[k].name
                && IsFirstFault(s, o, v, n, k)
  {
    ValidateDecides(s, o, v, n);
    var fs := s[n].fields;
    FirstViolation(o, fs, v.fields, 0);
    if ConstraintProblem(o, fs, v.fields, 0).Some? {
      var k: nat :| IsFirstViolation(o, fs, v.fields, 0, k)
                    && ConstraintProblem(o, fs, v.fields, 0).value == ConstraintViolated(fs[k].name);
      assert IsFirstFault(s, o, v, n, k);
    } else {
      var k := FirstBadField(s, o, v, n);
    }
  }

  lemma FirstBadField(s: Schema, o: Oracles, v: Val, n: string) returns (k: nat)
    requires RecordOf(s, v, n) && ConstraintProblem(o, s[n].fields, v.fields, 0).None?
    requires ContentProblem(s, o, v, n, 0).Some?
    ensures k < |v.fields| && TagOf(ContentProblem(s, o, v, n, 0).value) == s[n].fields[k].name
    ensures IsFirstFault(s, o, v, n, k)
  {
    FirstViolation(o, s[n].fields, v.fields, 0);
    FirstBadContent(s, o, v, n, 0);
    k :| IsFirstUnclean(s, o, v, n, 0, k) && TagOf(ContentProblem(s, o, v, n, 0).value) == s[n].fields[k].name;
    forall j | 0 <= j <= k
      ensures FieldValid(s, o, v, n, j) <==> FieldClean(s, o, v, n, j) && !FieldHides(s, o, v, n, j)
    {
      FieldValidIffClean(s, o, v, n, j);
    }
  }

  // -------------------------------------------------------------------- samples

  /** The statements emitted for a scalar, an optional scalar and an optional struct. */
  lemma ScalarSamples(s: Schema, n: string, tag: string)
    requires ScanStruct(NeedsValidation, s, n, {}).hit
    ensures var a := OfField(tag);
            && EmitValue(s, a, Uuid, false, tag, 0)
               == [If(Mismatch(UuidRe, Direct(a)), [Fail(InvalidFormat(tag, UuidRe))])]
            && EmitValue(s, a, Decimal, false, tag, 0)
            == [If(Mismatch(DecimalRe, Direct(a)), [Fail(InvalidFormat(tag, DecimalRe))])]
            && EmitValue(s, a, Generic("Option", [Url]), false, tag, 0)
            == [If(Both(NotNil(a), Mismatch(UrlRe, Deref(a))), [Fail(InvalidFormat(tag, UrlRe))])]
            && EmitValue(s, a, Generic("Option", [Named(n)]), false, tag, 0)
            == [If(NotNil(a), [CallValidate(a, Named(n), tag)])]
  {}

  /** And for a map of lists of `Money`. */
  lemma CollectionSample(s: Schema, tag: string)
    ensures EmitValue(s, OfField(tag), Generic("Map", [String, Generic("List", [Money])]), false, tag, 0)
         == [Range(0, Direct(OfField(tag)), [Range(1, Direct(LoopVar(0)), [CallValidate(LoopVar(1), Money, tag)])])]
  {
    var list := Generic("List", [Money]);
    NeedsWrapper(NeedsValidation, s, Money);
    NeedsWrapper(NeedsValidation, s, list);
    assert Kids(NeedsValidation, list)[0] == Money;
    assert EmitValue(s, LoopVar(0), list, false, tag, 1)
        == [Range(1, Direct(LoopVar(0)), [CallValidate(LoopVar(1), Money, tag)])];
  }
}
