// Which structs can be wrongly accepted: a condition on the schema alone.
module Hiding {
  import opened Options
  import opened Schema
  import opened TypeScan
  import opened GoValidator
  import opened GoValidatorCorrect

  // A record is accepted although invalid only where an `Option` stands directly in
  // an `Option` above something to validate.  Conversely, wherever the schema has
  // such a place, a record is built here that the generated code wrongly accepts.

  // ------------------------------------------------------------ places in a type

  // A place is given by the fields passed on the way to it, each by its index.
  type Path = seq<nat>

  /** The path leads to a doubled `Option` above something to validate. */
  predicate HidesAt(s: Schema, ty: Type, path: Path)
    decreases |path|, ty
  {
    if IsOption(ty) then
      if Blind(ty) then path == [] && Needs(NeedsValidation, s, ty.args[0]) else HidesAt(s, ty.args[0], path)
    else if IsList(ty) || IsMap(ty) then HidesAt(s, Elem(ty), path)
    else ty.Named? && ty.name in s && path != [] && path[0] < |s[ty.name].fields|
         && HidesAt(s, s[ty.name].fields[path[0]].ty, path[1..])
  }

  /** The path leads to a checked text, a `Money` or a constrained field. */
  predicate LeadsTo(s: Schema, ty: Type, path: Path)
    decreases |path|, 1, ty, 0
  {
    if IsOption(ty) then LeadsTo(s, ty.args[0], path)
    else if IsList(ty) || IsMap(ty) then LeadsTo(s, Elem(ty), path)
    else if ty.Named? then LeadsInside(s, ty.name, path)
    else Leaf(NeedsValidation, ty) && path == []
  }

  predicate LeadsInside(s: Schema, n: string, path: Path)
    decreases |path|, 0
  {
    n in s && path != [] && path[0] < |s[n].fields| && LeadsOn(s, s[n].fields[path[0]], path[1..])
  }

  predicate LeadsOn(s: Schema, f: Field, rest: Path)
    decreases |rest|, 1, f.ty, 1
  {
    LeadsTo(s, f.ty, rest) || (f.constraint.Some? && rest == [])
  }

  /** The path leads to such a thing through a doubled `Option`. */
  predicate Exposes(s: Schema, ty: Type, path: Path)
    decreases |path|, ty
  {
    if IsOption(ty) then if Blind(ty) then LeadsTo(s, ty.args[0], path) else Exposes(s, ty.args[0], path)
    else if IsList(ty) || IsMap(ty) then Exposes(s, Elem(ty), path)
    else ty.Named? && ty.name in s && path != [] && path[0] < |s[ty.name].fields|
         && Exposes(s, s[ty.name].fields[path[0]].ty, path[1..])
  }

  lemma {:induction false} ExposesLeads(s: Schema, ty: Type, path: Path)
    requires Exposes(s, ty, path)
    ensures LeadsTo(s, ty, path)
    decreases |path|, ty
  {
    if IsOption(ty) {
      if !Blind(ty) { ExposesLeads(s, ty.args[0], path); }
    } else if IsList(ty) || IsMap(ty) {
      ExposesLeads(s, Elem(ty), path);
    } else {
      ExposesLeads(s, s[ty.name].fields[path[0]].ty, path[1..]);
    }
  }

  // What the gate finds is at the end of a path.
  lemma {:induction false} NeededLeads(s: Schema, ty: Type, visited: set<string>) returns (path: Path)
    requires ScanType(NeedsValidation, s, ty, visited).hit
    ensures LeadsTo(s, ty, path)
    decreases s.Keys - visited, 1, ty
  {
    if ty.Named? {
      var fields := s[ty.name].fields;
      assert ty.name in s.Keys - visited && ty.name !in s.Keys - (visited + {ty.name});
      var i, rest := NeededFieldLeads(s, fields, visited + {ty.name});
      path := [i] + rest;
      assert path[1..] == rest;
    } else if Leaf(NeedsValidation, ty) {
      path := [];
    } else {
      var kid := ScanType(NeedsValidation, s, Kids(NeedsValidation, ty)[0], visited);
      assert !ScanKids(NeedsValidation, s, ty, 1, kid.visited).hit;
      path := NeededLeads(s, Kids(NeedsValidation, ty)[0], visited);
    }
  }

  lemma {:induction false} NeededFieldLeads(s: Schema, fields: seq<Field>, visited: set<string>)
    returns (i: nat, rest: Path)
    requires ScanFields(NeedsValidation, s, fields, visited).hit
    ensures i < |fields| && LeadsOn(s, fields[i], rest)
    decreases s.Keys - visited, 2, fields
  {
    var first := ScanType(NeedsValidation, s, fields[0].ty, visited);
    if FieldHit(NeedsValidation, fields[0]) {
      i, rest := 0, [];
    } else if first.hit {
      rest := NeededLeads(s, fields[0].ty, visited);
      i := 0;
    } else {
      i, rest := NeededFieldLeads(s, fields[1..], first.visited);
      i := i + 1;
    }
  }

  lemma {:induction false} HiddenExposes(s: Schema, ty: Type, path: Path) returns (full: Path)
    requires HidesAt(s, ty, path)
    ensures Exposes(s, ty, full)
    decreases |path|, ty
  {
    if IsOption(ty) {
      if Blind(ty) { full := NeededLeads(s, ty.args[0], {}); } else { full := HiddenExposes(s, ty.args[0], path); }
    } else if IsList(ty) || IsMap(ty) {
      full := HiddenExposes(s, Elem(ty), path);
    } else {
      var rest := HiddenExposes(s, s[ty.name].fields[path[0]].ty, path[1..]);
      full := [path[0]] + rest;
      assert full[1..] == rest;
    }
  }

  // ------------------------------------------------------- hidden values have a place

  lemma {:induction false} HiddenHasPlace(s: Schema, o: Oracles, v: Val, ty: Type) returns (path: Path)
    requires HasType(s, v, ty) && Hides(s, o, v, ty)
    ensures HidesAt(s, ty, path)
    decreases v, 1
  {
    if IsOption(ty) {
      if Blind(ty) {
        path := [];
        if !Needs(NeedsValidation, s, ty.args[0]) { UnneededIsValid(s, o, v.target, ty.args[0]); }
      } else {
        path := HiddenHasPlace(s, o, v.target, ty.args[0]);
      }
    } else if IsList(ty) || IsMap(ty) {
      var i :| 0 <= i < |v.items| && Hides(s, o, v.items[i], Elem(ty));
      path := HiddenHasPlace(s, o, v.items[i], Elem(ty));
    } else {
      path := HiddenInRecord(s, o, v, ty.name);
    }
  }

  lemma {:induction false} HiddenInRecord(s: Schema, o: Oracles, v: Val, n: string) returns (path: Path)
    requires RecordOf(s, v, n) && HidesRecord(s, o, v, n)
    ensures HidesAt(s, Named(n), path)
    decreases v, 0
  {
    var i :| 0 <= i < |v.fields| && HidesField(s, o, v.fields[i], s[n].fields[i].ty, s[n].fields[i].optional);
    var f, rest := s[n].fields[i], [];
    if f.optional && !IsOption(f.ty) {
      rest := HiddenHasPlace(s, o, v.fields[i].target, f.ty);
    } else {
      rest := HiddenHasPlace(s, o, v.fields[i], f.ty);
    }
    path := [i] + rest;
    assert path[1..] == rest;
  }

  // -------------------------------------------------------------- values of a type

  /**
   * No struct contains itself by value (Go accepts no other): `rank` falls along
   * fields that are neither pointers nor collections.
   */
  ghost predicate Grounded(s: Schema, rank: string -> nat) {
    forall n, f :: n in s && f in s[n].fields && f.ty.Named? && f.ty.name in s && !f.optional ==>
        rank(f.ty.name) < rank(n)
  }

  /** The type a constraint speaks of: that of a present value. */
  function Judged(f: Field): Type { if IsOption(f.ty) then f.ty.args[0] else f.ty }

  /** Constraints stand on scalar, list and map fields. */
  predicate PlainConstraints(s: Schema) {
    forall n, f :: n in s && f in s[n].fields && f.constraint.Some? && Judged(f).Named? ==> Judged(f).name !in s
  }

  /** A value that no default value equals, in a field or under its pointer. */
  predicate Odd(w: Val) {
    w.Ptr? || w.Slice? || w.Dict? || (w.MoneyVal? && w.amount == "bad") || w == Text("bad")
  }

  // An unremarkable value of each type: absent, empty or with well-formed texts.
  function Default(s: Schema, rank: string -> nat, ty: Type): (v: Val)
    requires Grounded(s, rank)
    ensures !Odd(v)
    decreases if ty.Named? && ty.name in s then rank(ty.name) + 1 else 0, 1
  {
    if IsOption(ty) then Nil
    else if IsList(ty) || IsMap(ty) then NilSlice
    else match ty
         case Uuid | Decimal | Url => Text("ok")
         case Money => MoneyVal("ok", "")
         case Named(n) => if n in s then DefaultRecord(s, rank, n) else Opaque
         case _ => Opaque
  }

  function DefaultRecord(s: Schema, rank: string -> nat, n: string): Val
    requires Grounded(s, rank) && n in s
    decreases rank(n) + 1, 0
  {
    Record(n, seq(|s[n].fields|, i requires 0 <= i < |s[n].fields| => DefaultField(s, rank, n, i)))
  }

  function DefaultField(s: Schema, rank: string -> nat, n: string, i: nat): Val
    requires Grounded(s, rank) && n in s && i < |s[n].fields|
    decreases rank(n), 2
  {
    var f := s[n].fields[i];
    assert f in s[n].fields;
    if f.optional then Nil else Default(s, rank, f.ty)
  }

  function OddOf(s: Schema, rank: string -> nat, ty: Type): (w: Val)
    requires Grounded(s, rank)
    ensures Odd(w)
  {
    if IsOption(ty) then Ptr(Default(s, rank, ty.args[0]))
    else if IsList(ty) then Slice([Default(s, rank, Elem(ty))])
    else if IsMap(ty) then Dict([Default(s, rank, Elem(ty))])
    else if ty.Money? then MoneyVal("bad", "")
    else Text("bad")
  }

  // The value that holds an odd value at the end of the path, and is default elsewhere.
  function Along(s: Schema, rank: string -> nat, ty: Type, path: Path): Val
    requires Grounded(s, rank) && LeadsTo(s, ty, path)
    decreases |path|, 1, ty, 0
  {
    if IsOption(ty) then Ptr(Along(s, rank, ty.args[0], path))
    else if IsList(ty) then Slice([Along(s, rank, Elem(ty), path)])
    else if IsMap(ty) then Dict([Along(s, rank, Elem(ty), path)])
    else if ty.Named? then AlongRecord(s, rank, ty.name, path)
    else OddOf(s, rank, ty)
  }

  function AlongRecord(s: Schema, rank: string -> nat, n: string, path: Path): Val
    requires Grounded(s, rank) && LeadsInside(s, n, path)
    decreases |path|, 0
  {
    Record(n, DefaultRecord(s, rank, n).fields[path[0] := AlongField(s, rank, s[n].fields[path[0]], path[1..])])
  }

  function AlongField(s: Schema, rank: string -> nat, f: Field, rest: Path): Val
    requires Grounded(s, rank) && LeadsOn(s, f, rest)
    decreases |rest|, 1, f.ty, 1
  {
    if !LeadsTo(s, f.ty, rest) then if PtrField(f) then Ptr(OddOf(s, rank, Judged(f))) else OddOf(s, rank, Judged(f))
    else if f.optional && !IsOption(f.ty) then Ptr(Along(s, rank, f.ty, rest))
    else Along(s, rank, f.ty, rest)
  }

  /** The odd value at the end. */
  function Core(s: Schema, rank: string -> nat, ty: Type, path: Path): (w: Val)
    requires Grounded(s, rank) && LeadsTo(s, ty, path)
    ensures Odd(w)
    decreases |path|, 1, ty, 0
  {
    if IsOption(ty) then Core(s, rank, ty.args[0], path)
    else if IsList(ty) || IsMap(ty) then Core(s, rank, Elem(ty), path)
    else if ty.Named? then assert LeadsInside(s, ty.name, path); CoreOn(s, rank, s[ty.name].fields[path[0]], path[1..])
    else OddOf(s, rank, ty)
  }

  function CoreOn(s: Schema, rank: string -> nat, f: Field, rest: Path): (w: Val)
    requires Grounded(s, rank) && LeadsOn(s, f, rest)
    ensures Odd(w)
    decreases |rest|, 1, f.ty, 1
  {
    if LeadsTo(s, f.ty, rest) then Core(s, rank, f.ty, rest) else OddOf(s, rank, Judged(f))
  }

  /** Rejects the text "bad", and the value `w` wherever a constraint stands. */
  function Picky(w: Val): Oracles {
    Oracles((_, t) => t != "bad", _ => true, (_, v) => v != w)
  }

  // -------------------------------------------------------- they are of their types

  lemma {:induction false} DefaultTyped(s: Schema, rank: string -> nat, ty: Type)
    requires Grounded(s, rank)
    ensures HasType(s, Default(s, rank, ty), ty)
    decreases if ty.Named? && ty.name in s then rank(ty.name) + 1 else 0, 1
  {
    if ty.Named? && ty.name in s { DefaultRecordTyped(s, rank, ty.name); }
  }

  lemma {:induction false} DefaultRecordTyped(s: Schema, rank: string -> nat, n: string)
    requires Grounded(s, rank) && n in s
    ensures RecordOf(s, DefaultRecord(s, rank, n), n)
    decreases rank(n) + 1, 0
  {
    var v := DefaultRecord(s, rank, n);
    forall i | 0 <= i < |v.fields| ensures HasFieldType(s, v.fields[i], s[n].fields[i].ty, s[n].fields[i].optional) {
      DefaultFieldTyped(s, rank, n, i);
    }
  }

  lemma {:induction false} DefaultFieldTyped(s: Schema, rank: string -> nat, n: string, i: nat)
    requires Grounded(s, rank) && n in s && i < |s[n].fields|
    ensures var f := s[n].fields[i]; HasFieldType(s, DefaultField(s, rank, n, i), f.ty, f.optional)
    decreases rank(n), 2
  {
    var f := s[n].fields[i];
    assert f in s[n].fields;
    if !f.optional { DefaultTyped(s, rank, f.ty); }
  }

  lemma {:induction false} OddTyped(s: Schema, rank: string -> nat, ty: Type)
    requires Grounded(s, rank) && (ty.Named? ==> ty.name !in s)
    ensures HasType(s, OddOf(s, rank, ty), ty)
  {
    if IsOption(ty) {
      DefaultTyped(s, rank, ty.args[0]);
    } else if IsList(ty) || IsMap(ty) {
      DefaultTyped(s, rank, Elem(ty));
    }
  }

  lemma {:induction false} AlongTyped(s: Schema, rank: string -> nat, ty: Type, path: Path)
    requires Grounded(s, rank) && Checked(s) && PlainConstraints(s) && LeadsTo(s, ty, path)
    ensures HasType(s, Along(s, rank, ty, path), ty)
    decreases |path|, 1, ty, 0
  {
    if IsOption(ty) {
      AlongTyped(s, rank, ty.args[0], path);
    } else if IsList(ty) || IsMap(ty) {
      AlongTyped(s, rank, Elem(ty), path);
    } else if ty.Named? {
      AlongRecordTyped(s, rank, ty.name, path);
    }
  }

  lemma {:induction false} AlongRecordTyped(s: Schema, rank: string -> nat, n: string, path: Path)
    requires Grounded(s, rank) && Checked(s) && PlainConstraints(s) && LeadsInside(s, n, path)
    ensures RecordOf(s, AlongRecord(s, rank, n, path), n)
    decreases |path|, 0
  {
    var v := AlongRecord(s, rank, n, path);
    forall i | 0 <= i < |v.fields| ensures HasFieldType(s, v.fields[i], s[n].fields[i].ty, s[n].fields[i].optional) {
      if i == path[0] { AlongFieldTyped(s, rank, n, i, path[1..]); } else { DefaultFieldTyped(s, rank, n, i); }
    }
  }

  lemma {:induction false} AlongFieldTyped(s: Schema, rank: string -> nat, n: string, i: nat, rest: Path)
    requires Grounded(s, rank) && Checked(s) && PlainConstraints(s)
    requires n in s && i < |s[n].fields| && LeadsOn(s, s[n].fields[i], rest)
    ensures var f := s[n].fields[i]; HasFieldType(s, AlongField(s, rank, f, rest), f.ty, f.optional)
    decreases |rest|, 1, s[n].fields[i].ty, 1
  {
    var f := s[n].fields[i];
    assert CheckedField(s, f, s[n].derived);
    if LeadsTo(s, f.ty, rest) { AlongTyped(s, rank, f.ty, rest); } else { OddTyped(s, rank, Judged(f)); }
  }

  // ------------------------------------------- default values are valid, odd ones not

  lemma {:induction false} DefaultValid(s: Schema, rank: string -> nat, w: Val, ty: Type)
    requires Grounded(s, rank) && Checked(s) && Odd(w) && HasType(s, Default(s, rank, ty), ty)
    ensures Valid(s, Picky(w), Default(s, rank, ty), ty)
    decreases if ty.Named? && ty.name in s then rank(ty.name) + 1 else 0, 1
  {
    if ty.Named? && ty.name in s { DefaultRecordValid(s, rank, w, ty.name); }
  }

  lemma {:induction false} DefaultRecordValid(s: Schema, rank: string -> nat, w: Val, n: string)
    requires Grounded(s, rank) && Checked(s) && Odd(w) && n in s && RecordOf(s, DefaultRecord(s, rank, n), n)
    ensures ValidRecord(s, Picky(w), DefaultRecord(s, rank, n), n)
    decreases rank(n) + 1, 0
  {
    var v := DefaultRecord(s, rank, n);
    forall i | 0 <= i < |v.fields|
      ensures Satisfies(Picky(w), v.fields[i], s[n].fields[i])
      ensures ValidField(s, Picky(w), v.fields[i], s[n].fields[i].ty, s[n].fields[i].optional)
    {
      DefaultFieldValid(s, rank, w, n, i);
    }
  }

  lemma {:induction false} DefaultFieldValid(s: Schema, rank: string -> nat, w: Val, n: string, i: nat)
    requires Grounded(s, rank) && Checked(s) && Odd(w) && n in s && i < |s[n].fields|
    requires HasFieldType(s, DefaultField(s, rank, n, i), s[n].fields[i].ty, s[n].fields[i].optional)
    ensures var f := s[n].fields[i];
            && Satisfies(Picky(w), DefaultField(s, rank, n, i), f)
            && ValidField(s, Picky(w), DefaultField(s, rank, n, i), f.ty, f.optional)
    decreases rank(n), 2
  {
    var f := s[n].fields[i];
    assert f in s[n].fields && CheckedField(s, f, s[n].derived);
    if !f.optional { DefaultValid(s, rank, w, f.ty); }
  }

  // Below a pointer, list or record the odd value is a proper part of the value.
  lemma {:induction false} CoreInside(s: Schema, rank: string -> nat, ty: Type, path: Path)
    requires Grounded(s, rank) && LeadsTo(s, ty, path)
    ensures var w, v := Core(s, rank, ty, path), Along(s, rank, ty, path);
            (w == v && Leaf(NeedsValidation, ty)) || w < v
    decreases |path|, 1, ty, 0
  {
    if IsOption(ty) {
      CoreInside(s, rank, ty.args[0], path);
    } else if IsList(ty) || IsMap(ty) {
      CoreInside(s, rank, Elem(ty), path);
      var v := Along(s, rank, ty, path);
      assert v.items[0] == Along(s, rank, Elem(ty), path);
    } else if ty.Named? {
      assert LeadsInside(s, ty.name, path);
      var f, rest, v := s[ty.name].fields[path[0]], path[1..], Along(s, rank, ty, path);
      assert v == AlongRecord(s, rank, ty.name, path);
      if LeadsTo(s, f.ty, rest) { CoreInside(s, rank, f.ty, rest); }
      assert v.fields[path[0]] == AlongField(s, rank, f, rest);
    }
  }

  lemma {:induction false} AlongInvalid(s: Schema, rank: string -> nat, ty: Type, path: Path)
    requires Grounded(s, rank) && Checked(s) && LeadsTo(s, ty, path) && HasType(s, Along(s, rank, ty, path), ty)
    ensures !Valid(s, Picky(Core(s, rank, ty, path)), Along(s, rank, ty, path), ty)
    decreases |path|, 1, ty, 0
  {
    if IsOption(ty) {
      AlongInvalid(s, rank, ty.args[0], path);
    } else if IsList(ty) || IsMap(ty) {
      var v := Along(s, rank, ty, path);
      assert v.items[0] == Along(s, rank, Elem(ty), path);
      assert HasType(s, v.items[0], Elem(ty));
      AlongInvalid(s, rank, Elem(ty), path);
    } else if ty.Named? {
      AlongRecordInvalid(s, rank, ty.name, path);
    }
  }

  lemma {:induction false} AlongRecordInvalid(s: Schema, rank: string -> nat, n: string, path: Path)
    requires Grounded(s, rank) && Checked(s) && LeadsInside(s, n, path) && RecordOf(s, AlongRecord(s, rank, n, path), n)
    ensures !ValidRecord(s, Picky(CoreOn(s, rank, s[n].fields[path[0]], path[1..])), AlongRecord(s, rank, n, path), n)
    decreases |path|, 0
  {
    var f, rest, v := s[n].fields[path[0]], path[1..], AlongRecord(s, rank, n, path);
    assert CheckedField(s, f, s[n].derived);
    assert v.fields[path[0]] == AlongField(s, rank, f, rest);
    assert HasFieldType(s, v.fields[path[0]], f.ty, f.optional);
    if LeadsTo(s, f.ty, rest) { AlongInvalid(s, rank, f.ty, rest); }
  }

  // ------------------------------------------ and nothing of it is seen by the code

  // A constraint on the way is asked about something of which the odd value is a proper part.
  lemma {:induction false} WayPointSatisfies(s: Schema, rank: string -> nat, n: string, k: nat, rest: Path)
    requires Grounded(s, rank) && Checked(s) && n in s && k < |s[n].fields| && Exposes(s, s[n].fields[k].ty, rest)
    ensures LeadsTo(s, s[n].fields[k].ty, rest)
    ensures var f := s[n].fields[k];
            Satisfies(Picky(Core(s, rank, f.ty, rest)), AlongField(s, rank, f, rest), f)
  {
    var f := s[n].fields[k];
    assert CheckedField(s, f, s[n].derived);
    ExposesLeads(s, f.ty, rest);
    CoreInside(s, rank, f.ty, rest);
    if IsOption(f.ty) {
      CoreInside(s, rank, f.ty.args[0], rest);
    }
  }

  lemma {:induction false} AlongUnseen(s: Schema, rank: string -> nat, ty: Type, path: Path, tag: string)
    requires Grounded(s, rank) && Checked(s) && Exposes(s, ty, path)
    ensures LeadsTo(s, ty, path)
    ensures Problem(s, Picky(Core(s, rank, ty, path)), Along(s, rank, ty, path), ty, tag) == None
    decreases |path|, 1, ty, 0
  {
    ExposesLeads(s, ty, path);
    if IsOption(ty) {
      if !Blind(ty) { AlongUnseen(s, rank, ty.args[0], path, tag); }
    } else if IsList(ty) || IsMap(ty) {
      AlongUnseen(s, rank, Elem(ty), path, tag);
      var v := Along(s, rank, ty, path);
      assert ItemsProblem(s, Picky(Core(s, rank, ty, path)), v, Elem(ty), tag, 1) == None;
      assert v.items[0] == Along(s, rank, Elem(ty), path);
    } else {
      AlongRecordUnseen(s, rank, ty.name, path);
    }
  }

  lemma {:induction false} AlongRecordUnseen(s: Schema, rank: string -> nat, n: string, path: Path)
    requires Grounded(s, rank) && Checked(s) && Exposes(s, Named(n), path)
    ensures LeadsTo(s, Named(n), path)
    ensures var w, v := Core(s, rank, Named(n), path), AlongRecord(s, rank, n, path);
            FieldsFit(s, v, n) && RecordProblem(s, Picky(w), v, n) == None
    decreases |path|, 0
  {
    ExposesLeads(s, Named(n), path);
    var k, rest, w, v := path[0], path[1..], Core(s, rank, Named(n), path), AlongRecord(s, rank, n, path);
    assert LeadsInside(s, n, path);
    WayPointClean(s, rank, n, k, rest);
    assert w == CoreOn(s, rank, s[n].fields[k], rest) == Core(s, rank, s[n].fields[k].ty, rest);
    forall i | 0 <= i < |v.fields|
      ensures Satisfies(Picky(w), v.fields[i], s[n].fields[i]) && FieldClean(s, Picky(w), v, n, i)
    {
      if i != k { DefaultFieldClean(s, rank, w, n, i); }
    }
    FirstViolation(Picky(w), s[n].fields, v.fields, 0);
    FirstBadContent(s, Picky(w), v, n, 0);
  }

  lemma {:induction false} WayPointClean(s: Schema, rank: string -> nat, n: string, k: nat, rest: Path)
    requires Grounded(s, rank) && Checked(s) && n in s && k < |s[n].fields| && Exposes(s, s[n].fields[k].ty, rest)
    ensures LeadsTo(s, s[n].fields[k].ty, rest)
    ensures var f := s[n].fields[k];
            var w, v := Core(s, rank, f.ty, rest), AlongField(s, rank, f, rest);
            Satisfies(Picky(w), v, f) && FieldProblem(s, Picky(w), v, f.ty, f.optional, f.name) == None
    decreases |rest|, 1, s[n].fields[k].ty, 1
  {
    var f := s[n].fields[k];
    WayPointSatisfies(s, rank, n, k, rest);
    AlongUnseen(s, rank, f.ty, rest, f.name);
  }

  lemma {:induction false} DefaultFieldClean(s: Schema, rank: string -> nat, w: Val, n: string, i: nat)
    requires Grounded(s, rank) && Checked(s) && Odd(w) && n in s && i < |s[n].fields|
    ensures var f := s[n].fields[i];
            var v := DefaultField(s, rank, n, i);
            Satisfies(Picky(w), v, f) && FieldProblem(s, Picky(w), v, f.ty, f.optional, f.name) == None
  {
    var f := s[n].fields[i];
    DefaultFieldTyped(s, rank, n, i);
    DefaultFieldValid(s, rank, w, n, i);
    if !f.optional || IsOption(f.ty) { ValidIffClean(s, Picky(w), DefaultField(s, rank, n, i), f.ty, f.name); }
  }

  // --------------------------------------------------------------------- the result

  /** Some path of fields leads from `n` to a doubled `Option` above something to validate. */
  ghost predicate CanHide(s: Schema, n: string) { exists path :: HidesAt(s, Named(n), path) }

  /** The generated validator of `n` accepts `v` exactly if it is valid. */
  predicate Decides(s: Schema, o: Oracles, v: Val, n: string) {
    RecordOf(s, v, n) ==> (CallOn(s, o, Program(s), v) == Next <==> ValidRecord(s, o, v, n))
  }

  /** A struct from which no such place is reachable has a validator that decides validity. */
  lemma DecidesWhereNothingHides(s: Schema, o: Oracles, v: Val, n: string)
    requires Checked(s) && HasMethod(s, n) && !CanHide(s, n)
    ensures Decides(s, o, v, n)
  {
    if !Decides(s, o, v, n) {
      ValidatorAcceptsIffValid(s, o, v, n);
      var path := HiddenInRecord(s, o, v, n);
    }
  }

  /**
   * The generated validator of `n` decides validity of every record, whatever the
   * regular expressions, currencies and constraints answer, exactly when no path of
   * fields leads from `n` to a doubled `Option` above something to validate.
   */
  lemma DecidesIffNothingHidden(s: Schema, rank: string -> nat, n: string)
    requires Checked(s) && HasMethod(s, n) && Grounded(s, rank) && PlainConstraints(s)
    ensures (forall o, v :: Decides(s, o, v, n)) <==> !CanHide(s, n)
  {
    if !CanHide(s, n) {
      forall o, v ensures Decides(s, o, v, n) { DecidesWhereNothingHides(s, o, v, n); }
    }
    if CanHide(s, n) {
      var path :| HidesAt(s, Named(n), path);
      var o, v := WronglyAccepted(s, rank, n, path);
      assert !Decides(s, o, v, n);
    }
  }

  /** The oracle and the record: they exist wherever a path leads to such an `Option`. */
  lemma {:induction false} WronglyAccepted(s: Schema, rank: string -> nat, n: string, path: Path)
    returns (o: Oracles, v: Val)
    requires Checked(s) && HasMethod(s, n) && Grounded(s, rank) && PlainConstraints(s) && HidesAt(s, Named(n), path)
    ensures RecordOf(s, v, n) && CallOn(s, o, Program(s), v) == Next && !ValidRecord(s, o, v, n)
  {
    var full := HiddenExposes(s, Named(n), path);
    AlongRecordUnseen(s, rank, n, full);
    o, v := Picky(Core(s, rank, Named(n), full)), AlongRecord(s, rank, n, full);
    AlongRecordTyped(s, rank, n, full);
    AlongRecordInvalid(s, rank, n, full);
    ValidateDecides(s, o, v, n);
  }
}
