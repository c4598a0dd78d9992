// The import header of the generated Python client, and why every name its
// response decoders use is in scope.
//
// The header is composed of flags for standard-library classes and of the set of model
// names collected from the responses.  The decoders are those of `PyDecode`; a name
// they use is their source, a builtin, or imported.
module ClientImports {
  import opened Options
  import opened Schema
  import opened PyDecode

  // What the header looks at: `inputs` are the types of query parameters, request and
  // response headers, `own` the classes generated for the endpoint that it imports
  // (its body, result, page and envelope classes).
  datatype Endpoint = Endpoint(response: Option<Type>, multiStatus: bool, paginated: bool, binary: bool,
                               inputs: seq<Type>, own: set<string>)

  /** Responses decoded inline. */
  predicate Plain(ep: Endpoint) { !ep.multiStatus && !ep.paginated && !ep.binary }

  const BUILTINS := {"int", "float", "bool", "str"}

  function FreeNames(e: PyExpr): set<string> {
    match e
    case Name(x) => {x}
    case JsonOf(x) => {x}
    case Call(f, arg) => {f.root} + FreeNames(arg)
    case ListComp(el, x, source) => FreeNames(source) + (FreeNames(el) - {x})
    case DictComp(key, value, source) => FreeNames(source) + (FreeNames(key) + FreeNames(value) - {"k", "v"})
    case IfNotNone(body, test) => FreeNames(body) + FreeNames(test)
  }

  /** Whether the leaf type `leaf` occurs in `ty`, not looking through structs. */
  predicate Uses(leaf: Type, ty: Type) {
    ty == leaf || (ty.Generic? && exists i :: 0 <= i < |ty.args| && Uses(leaf, ty.args[i]))
  }

  /** That is: `leaf` is the type or stands somewhere among its generic arguments. */
  lemma {:induction false} UsesIff(leaf: Type, ty: Type)
    ensures Uses(leaf, ty) <==> Contains(ty, leaf)
    decreases ty
  {
    ContainsInArgs(ty, leaf);
    if ty.Generic? {
      forall i | 0 <= i < |ty.args| ensures Uses(leaf, ty.args[i]) <==> Contains(ty.args[i], leaf) {
        UsesIff(leaf, ty.args[i]);
      }
    }
  }

  const CONTAINERS := {"List", "Option", "Map", "Result"}

  /** The names `ty` takes from the models file. */
  function ModelNames(ty: Type): set<string> {
    match ty
    case Named(n) => {n}
    case Money => {"Money"}
    case Url => {"Url"}
    case Bytes => {"Bytes"}
    case Dyn(n) => {n}
    case Generic(ctor, args) =>
      (if ctor in CONTAINERS then {} else {ctor}) + (set i, n | 0 <= i < |args| && n in ModelNames(args[i]) :: n)
    case _ => {}
  }

  /** What one node of a type takes from the models file, its arguments aside. */
  predicate Names(part: Type, n: string) {
    || part == Named(n) || part == Dyn(n)
    || (part == Money && n == "Money") || (part == Url && n == "Url") || (part == Bytes && n == "Bytes")
    || (part.Generic? && part.ctor == n && n != "List" && n != "Option" && n != "Map" && n != "Result")
  }

  lemma {:induction false} ModelNamesIff(ty: Type, n: string)
    ensures n in ModelNames(ty) <==> exists part :: Contains(ty, part) && Names(part, n)
    decreases ty
  {
    forall part ensures Contains(ty, part) <==>
                        ty == part || (ty.Generic? && exists i :: 0 <= i < |ty.args| && Contains(ty.args[i], part))
    {
      ContainsInArgs(ty, part);
    }
    if ty.Generic? {
      forall i | 0 <= i < |ty.args|
        ensures n in ModelNames(ty.args[i]) <==> exists part :: Contains(ty.args[i], part) && Names(part, n)
      {
        ModelNamesIff(ty.args[i], n);
      }
    }
    assert Contains(ty, ty);
  }

  // The set the recursive collector inserts into.
  class NameSet {
    var names: set<string>

    constructor ()
      ensures names == {}
    {
      names := {};
    }

    method Collect(ty: Type)
      modifies this
      ensures names == old(names) + ModelNames(ty)
      decreases ty
    {
      match ty
      case Named(n) => names := names + {n};
      case Money => names := names + {"Money"};
      case Url => names := names + {"Url"};
      case Bytes => names := names + {"Bytes"};
      case Dyn(n) => names := names + {n};
      case Generic(ctor, args) =>
        if ctor !in CONTAINERS {
          names := names + {ctor};
        }
        ghost var before := names;
        for i := 0 to |args|
          invariant names == before + (set j, n | 0 <= j < i && n in ModelNames(args[j]) :: n)
        {
          Collect(args[i]);
        }
        assert names == before + (set i, n | 0 <= i < |args| && n in ModelNames(args[i]) :: n);
      case _ =>
    }
  }

  /** The standard-library names a leaf type's import flag brings in. */
  function StdlibNames(ty: Type): set<string> {
    (if Uses(DateTime, ty) then {"datetime"} else {}) + (if Uses(Uuid, ty) then {"UUID"} else {})
    + (if Uses(Decimal, ty) then {"Decimal"} else {}) + (if Uses(Bytes, ty) then {"base64"} else {})
  }

  function Importable(ty: Type): set<string> { BUILTINS + StdlibNames(ty) + ModelNames(ty) }

  lemma ArgImportable(ty: Type, i: nat)
    requires ty.Generic? && i < |ty.args|
    ensures Importable(ty.args[i]) <= Importable(ty)
  {
    assert forall leaf :: Uses(leaf, ty.args[i]) ==> Uses(leaf, ty);
  }

  lemma LeafImportable(ty: Type)
    requires LeafCallee(ty).Some?
    ensures LeafCallee(ty).value.root in Importable(ty)
  {}

  // A loop variable covers its own uses; `outer` covers the rest of the element's names.
  lemma ListIsClosed(ty: Type, src: PyExpr, outer: set<string>)
    requires IsList(ty) && (src.Name? || src.JsonOf?)
    requires FreeNames(DecodeExpr(ty.args[0], Name("item"))) <= {"item"} + outer
    ensures FreeNames(DecodeExpr(ty, src)) <= {src.id} + outer
  {
  }

  lemma MapIsClosed(ty: Type, src: PyExpr, outer: set<string>)
    requires IsMap(ty) && (src.Name? || src.JsonOf?)
    requires FreeNames(DecodeExpr(ty.args[1], Name("v"))) <= {"v"} + outer
    ensures FreeNames(DecodeExpr(ty, src)) <= {src.id} + outer
  {
  }

  lemma OptionIsClosed(ty: Type, src: PyExpr, outer: set<string>)
    requires IsOption(ty) && (src.Name? || src.JsonOf?)
    requires FreeNames(DecodeExpr(ty.args[0], src)) <= {src.id} + outer
    ensures FreeNames(DecodeExpr(ty, src)) <= {src.id} + outer
  {
  }

  /** The free names of a decoder are its source's and names the type's import flags cover. */
  lemma {:induction false} DecoderIsClosed(ty: Type, src: PyExpr)
    requires src.Name? || src.JsonOf?
    ensures FreeNames(DecodeExpr(ty, src)) <= {src.id} + Importable(ty)
    decreases ty
  {
    if IsList(ty) {
      DecoderIsClosed(ty.args[0], Name("item"));
      ArgImportable(ty, 0);
      ListIsClosed(ty, src, Importable(ty));
    } else if IsMap(ty) {
      DecoderIsClosed(ty.args[1], Name("v"));
      ArgImportable(ty, 1);
      MapIsClosed(ty, src, Importable(ty));
    } else if IsOption(ty) {
      DecoderIsClosed(ty.args[0], src);
      ArgImportable(ty, 0);
      OptionIsClosed(ty, src, Importable(ty));
    } else if LeafCallee(ty).Some? {
      LeafImportable(ty);
    }
  }

  // -------------------------------------------------------------- the right name

  datatype Origin = Builtin | Stdlib | Models

  const STDLIB := {"datetime", "UUID", "Decimal", "base64"}

  /** What the header binds a name to: the models import comes last and hides what was there. */
  function Binding(n: string, stdlib: set<string>, models: set<string>): Option<Origin> {
    if n in models then Some(Models)
    else if n in stdlib then Some(Stdlib)
    else if n in BUILTINS then Some(Builtin)
    else None
  }

  /** The leaf types whose constructors the decoder of `ty` calls. */
  function Leaves(ty: Type): set<Type>
    decreases ty
  {
    if IsList(ty) || IsOption(ty) then Leaves(ty.args[0])
    else if IsMap(ty) then Leaves(ty.args[1])
    else if LeafCallee(ty).Some? then {ty} else {}
  }

  /** The callees of an expression. */
  function Called(e: PyExpr): set<Callee> {
    match e
    case Call(f, arg) => {f} + Called(arg)
    case ListComp(element, _, source) => Called(element) + Called(source)
    case DictComp(key, value, source) => Called(key) + Called(value) + Called(source)
    case IfNotNone(body, test) => Called(body) + Called(test)
    case _ => {}
  }

  lemma {:induction false} LeavesAreCalled(ty: Type, src: PyExpr)
    requires src.Name? || src.JsonOf?
    ensures forall f :: f in Called(DecodeExpr(ty, src)) <==>
            exists leaf :: leaf in Leaves(ty) && LeafCallee(leaf) == Some(f)
    decreases ty
  {
    if IsList(ty) {
      LeavesAreCalled(ty.args[0], Name("item"));
    } else if IsMap(ty) {
      LeavesAreCalled(ty.args[1], Name("v"));
    } else if IsOption(ty) {
      LeavesAreCalled(ty.args[0], src);
    }
  }

  lemma ArgNames(ty: Type, k: nat)
    requires ty.Generic? && k < |ty.args|
    ensures StdlibNames(ty.args[k]) <= StdlibNames(ty) && ModelNames(ty.args[k]) <= ModelNames(ty)
  {
    assert forall t :: Uses(t, ty.args[k]) ==> Uses(t, ty);
  }

  lemma {:induction false} LeafNames(ty: Type, leaf: Type)
    requires leaf in Leaves(ty)
    ensures LeafCallee(leaf).Some? && StdlibNames(leaf) <= StdlibNames(ty) && ModelNames(leaf) <= ModelNames(ty)
    decreases ty
  {
    if IsList(ty) || IsOption(ty) || IsMap(ty) {
      var k := |ty.args| - 1;
      LeafNames(ty.args[k], leaf);
      ArgNames(ty, k);
    }
  }

  /**
   * A model class is always bound to its model; a constructor from the standard
   * library or a builtin is the one meant exactly when no model has its name.
   */
  predicate BoundRight(leaf: Type, stdlib: set<string>, models: set<string>)
    requires LeafCallee(leaf).Some?
  {
    var root := LeafCallee(leaf).value.root;
    var origin := Binding(root, stdlib, models);
    if leaf.Named? || leaf.Money? then origin == Some(Models)
    else if leaf.DateTime? || leaf.Uuid? || leaf.Decimal? || leaf.Bytes? then
      origin == Some(Stdlib) <==> root !in models
    else origin == Some(Builtin) <==> root !in models
  }

  lemma LeafBoundIff(leaf: Type, stdlib: set<string>, models: set<string>)
    requires LeafCallee(leaf).Some? && StdlibNames(leaf) <= stdlib <= STDLIB && ModelNames(leaf) <= models
    ensures BoundRight(leaf, stdlib, models)
  {
    if leaf.DateTime? || leaf.Uuid? || leaf.Decimal? || leaf.Bytes? { assert Uses(leaf, leaf); }
  }

  predicate BindsRight(ty: Type, stdlib: set<string>, models: set<string>) {
    forall leaf :: leaf in Leaves(ty) ==> LeafCallee(leaf).Some? && BoundRight(leaf, stdlib, models)
  }

  lemma HeaderBindsRight(ty: Type, stdlib: set<string>, models: set<string>)
    requires StdlibNames(ty) <= stdlib <= STDLIB && ModelNames(ty) <= models
    ensures BindsRight(ty, stdlib, models)
  {
    forall leaf | leaf in Leaves(ty) ensures LeafCallee(leaf).Some? && BoundRight(leaf, stdlib, models) {
      LeafNames(ty, leaf);
      LeafBoundIff(leaf, stdlib, models);
    }
  }

  /** Whether some plain response uses `leaf`: the import gate of its standard-library name. */
  method BareResponseUses(eps: seq<Endpoint>, leaf: Type) returns (r: bool)
    ensures r <==> exists ep :: ep in eps && Plain(ep) && ep.response.Some? && Uses(leaf, ep.response.value)
  {
    for i := 0 to |eps|
      invariant forall j :: 0 <= j < i ==>
                !(Plain(eps[j]) && eps[j].response.Some? && Uses(leaf, eps[j].response.value))
    {
      var ep := eps[i];
      if !ep.multiStatus && !ep.binary && !ep.paginated && ep.response.Some? && Uses(leaf, ep.response.value) {
        return true;
      }
    }
    return false;
  }

  /** Some parameter or header uses `leaf`. */
  predicate InputUses(ep: Endpoint, leaf: Type) { exists i :: 0 <= i < |ep.inputs| && Uses(leaf, ep.inputs[i]) }

  method InputsUse(eps: seq<Endpoint>, leaf: Type) returns (r: bool)
    ensures r <==> exists ep :: ep in eps && InputUses(ep, leaf)
  {
    for i := 0 to |eps|
      invariant forall j :: 0 <= j < i ==> !InputUses(eps[j], leaf)
    {
      if exists k :: 0 <= k < |eps[i].inputs| && Uses(leaf, eps[i].inputs[k]) {
        assert eps[i] in eps && InputUses(eps[i], leaf);
        return true;
      }
    }
    return false;
  }

  predicate BareUses(eps: seq<Endpoint>, leaf: Type) {
    exists ep :: ep in eps && Plain(ep) && ep.response.Some? && Uses(leaf, ep.response.value)
  }

  /** Something in the client file mentions `leaf` by its standard-library name. */
  predicate Mentioned(eps: seq<Endpoint>, leaf: Type) {
    BareUses(eps, leaf) || exists ep :: ep in eps && InputUses(ep, leaf)
  }

  /** Which endpoints' response types the models import looks at. */
  predicate NamesResponse(ep: Endpoint) { ep.response.Some? && (ep.multiStatus || !(ep.paginated || ep.binary)) }

  /** What one endpoint imports from the models file. */
  function Imported(ep: Endpoint): set<string> {
    ep.own + (if NamesResponse(ep) then ModelNames(ep.response.value) else {}) + NamesOfAll(ep.inputs)
  }

  function NamesOfAll(tys: seq<Type>): set<string> { set i, n | 0 <= i < |tys| && n in ModelNames(tys[i]) :: n }

  /**
   * The imports of the client file. Every name a response decoder reads is the
   * response itself, a builtin, or imported.
   */
  method EmitClientImports(eps: seq<Endpoint>) returns (stdlib: set<string>, models: set<string>)
    ensures forall ep :: ep in eps && Plain(ep) && ep.response.Some? ==>
              FreeNames(DecodeExpr(ep.response.value, JsonOf("response"))) <= {"response"} + BUILTINS + stdlib + models
    ensures forall n :: n in models <==> exists ep :: ep in eps && n in Imported(ep)
    ensures stdlib <= STDLIB && ("base64" in stdlib <==> BareUses(eps, Bytes))
    ensures ("datetime" in stdlib <==> Mentioned(eps, DateTime)) && ("UUID" in stdlib <==> Mentioned(eps, Uuid))
    ensures "Decimal" in stdlib <==> Mentioned(eps, Decimal)
    // and each constructor is the one meant, unless a model of the same name hides it
    ensures forall ep :: ep in eps && Plain(ep) && ep.response.Some? ==> BindsRight(ep.response.value, stdlib, models)
  {
    stdlib := EmitStdlib(eps);
    models := CollectModels(eps);
    forall ep | ep in eps && Plain(ep) && ep.response.Some?
      ensures FreeNames(DecodeExpr(ep.response.value, JsonOf("response"))) <= {"response"} + BUILTINS + stdlib + models
      ensures BindsRight(ep.response.value, stdlib, models)
    {
      assert NamesResponse(ep) && ModelNames(ep.response.value) <= Imported(ep) <= models;
      NamesMentioned(eps, ep, stdlib);
      DecoderIsClosed(ep.response.value, JsonOf("response"));
      HeaderBindsRight(ep.response.value, stdlib, models);
    }
  }

  lemma NamesMentioned(eps: seq<Endpoint>, ep: Endpoint, stdlib: set<string>)
    requires ep in eps && Plain(ep) && ep.response.Some?
    requires "base64" in stdlib <==> BareUses(eps, Bytes)
    requires ("datetime" in stdlib <==> Mentioned(eps, DateTime)) && ("UUID" in stdlib <==> Mentioned(eps, Uuid))
    requires "Decimal" in stdlib <==> Mentioned(eps, Decimal)
    ensures StdlibNames(ep.response.value) <= stdlib
  {
    assert forall leaf :: Uses(leaf, ep.response.value) ==> BareUses(eps, leaf);
  }

  /** The standard-library imports: parameters, headers and inline decoders call for them. */
  method EmitStdlib(eps: seq<Endpoint>) returns (stdlib: set<string>)
    ensures stdlib <= STDLIB && ("base64" in stdlib <==> BareUses(eps, Bytes))
    ensures ("datetime" in stdlib <==> Mentioned(eps, DateTime)) && ("UUID" in stdlib <==> Mentioned(eps, Uuid))
    ensures "Decimal" in stdlib <==> Mentioned(eps, Decimal)
  {
    stdlib := {};
    var needsDatetime := NeedsImport(eps, DateTime);
    if needsDatetime { stdlib := stdlib + {"datetime"}; }
    var needsUuid := NeedsImport(eps, Uuid);
    if needsUuid { stdlib := stdlib + {"UUID"}; }
    var needsDecimal := NeedsImport(eps, Decimal);
    if needsDecimal { stdlib := stdlib + {"Decimal"}; }
    var needsBase64 := BareResponseUses(eps, Bytes);
    if needsBase64 { stdlib := stdlib + {"base64"}; }
  }

  method NeedsImport(eps: seq<Endpoint>, leaf: Type) returns (r: bool)
    ensures r <==> Mentioned(eps, leaf)
  {
    r := InputsUse(eps, leaf);
    if !r {
      r := BareResponseUses(eps, leaf);
    }
  }

  method CollectModels(eps: seq<Endpoint>) returns (models: set<string>)
    ensures forall n :: n in models <==> exists ep :: ep in eps && n in Imported(ep)
  {
    var imports := new NameSet();
    for i := 0 to |eps|
      invariant fresh(imports)
      invariant forall n :: n in imports.names <==> exists ep :: ep in eps[..i] && n in Imported(ep)
    {
      CollectEndpoint(imports, eps[i]);
      assert eps[..i + 1] == eps[..i] + [eps[i]];
    }
    assert eps[..|eps|] == eps;
    return imports.names;
  }

  method CollectEndpoint(imports: NameSet, ep: Endpoint)
    modifies imports
    ensures imports.names == old(imports.names) + Imported(ep)
  {
    imports.names := imports.names + ep.own;
    if ep.multiStatus {
      if ep.response.Some? {
        imports.Collect(ep.response.value);
      }
    } else if !ep.paginated && ep.response.Some? && !ep.binary {
      imports.Collect(ep.response.value);
    }
    ghost var before := imports.names;
    for i := 0 to |ep.inputs|
      invariant imports.names == before + NamesOfAll(ep.inputs[..i])
    {
      imports.Collect(ep.inputs[i]);
      NamesSnoc(ep.inputs, i);
    }
    assert ep.inputs[..|ep.inputs|] == ep.inputs;
  }

  lemma NamesSnoc(tys: seq<Type>, i: nat)
    requires i < |tys|
    ensures NamesOfAll(tys[..i + 1]) == NamesOfAll(tys[..i]) + ModelNames(tys[i])
  {
    var tys' := tys[..i + 1];
    assert tys' == tys[..i] + [tys[i]];
    assert forall n :: n in ModelNames(tys[i]) ==> n in ModelNames(tys'[i]);
  }
}
