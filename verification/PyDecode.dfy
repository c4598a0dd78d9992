// The Python client's response decoder: an expression generated from the
// response type, in which every nesting level reuses the names `item`, `k`, `v`.
module PyDecode {
  import opened Options
  import opened Schema

  // JSON values, and whatever Python values are built from them (`Other`).
  datatype Value = Null | Text(s: string) | Other(code: int) | Items(items: seq<Value>) | Dict(entries: seq<Entry>)
  datatype Entry = Entry(key: string, value: Value)

  // `root.attr(x)`, or `root(**x)` when `splat`; `attr` may be empty.
  datatype Callee = Callee(root: string, attr: string, splat: bool)

  // What calling a callee on a value returns; `None` when it raises.
  type Calls = (Callee, Value) -> Option<Value>

  datatype PyExpr =
    | Name(id: string)
    | JsonOf(id: string)                                        // id.json()
    | Call(f: Callee, arg: PyExpr)
    | ListComp(element: PyExpr, x: string, source: PyExpr)      // [element for x in source]
    | DictComp(key: PyExpr, value: PyExpr, source: PyExpr)      // {key: value for k, v in source.items()}
    | IfNotNone(body: PyExpr, test: PyExpr)                     // body if test is not None else None

  // --------------------------------------------------------------- Python scoping

  type Env = map<string, Value>

  /** `f(**v)` raises before the call unless `v` is a mapping. */
  function Invoke(calls: Calls, f: Callee, v: Value): Option<Value> {
    if f.splat && !v.Dict? then None else calls(f, v)
  }

  /**
   * The value of an expression, `None` when it raises. The source of a
   * comprehension is evaluated outside it, the element inside; a local name
   * hides a class of the same name.
   */
  function Eval(calls: Calls, e: PyExpr, env: Env): Option<Value>
    decreases e, 1
  {
    match e
    case Name(x) => if x in env then Some(env[x]) else None
    case JsonOf(x) => if x in env then Some(env[x]) else None
    case Call(f, arg) =>
      (match Eval(calls, arg, env)
       case Some(v) => if f.root in env then None else Invoke(calls, f, v)
       case None => None)
    case ListComp(_, _, source) =>
      (match Eval(calls, source, env)
       case Some(Items(vs)) => Wrap(EvalEach(calls, e, vs, env), rs => Items(rs))
       case _ => None)
    case DictComp(_, _, source) =>
      (match Eval(calls, source, env)
       case Some(Dict(es)) => Wrap(EvalEntries(calls, e, es, env), rs => Dict(rs))
       case _ => None)
    case IfNotNone(body, test) =>
      (match Eval(calls, test, env)
       case Some(v) => if v.Null? then Some(Null) else Eval(calls, body, env)
       case None => None)
  }

  function Wrap<A, B>(r: Option<A>, f: A -> B): Option<B> {
    match r case Some(x) => Some(f(x)) case None => None
  }

  function EvalEach(calls: Calls, e: PyExpr, vs: seq<Value>, env: Env): Option<seq<Value>>
    requires e.ListComp?
    decreases e, 0, |vs|
  {
    if vs == [] then Some([])
    else
      match Eval(calls, e.element, env[e.x := vs[0]])
      case None => None
      case Some(r) => Wrap(EvalEach(calls, e, vs[1..], env), rs => [r] + rs)
  }

  function EvalEntries(calls: Calls, e: PyExpr, es: seq<Entry>, env: Env): Option<seq<Entry>>
    requires e.DictComp?
    decreases e, 0, |es|
  {
    if es == [] then Some([])
    else
      var inner := env["k" := Text(es[0].key)]["v" := es[0].value];
      match Eval(calls, e.key, inner)
      case Some(Text(s)) =>
        (match Eval(calls, e.value, inner)
         case None => None
         case Some(r) => Wrap(EvalEntries(calls, e, es[1..], env), rs => [Entry(s, r)] + rs))
      case _ => None
  }

  // ----------------------------------------------------------------- the generator

  /** The constructor of a leaf type; the types without one pass through. */
  function LeafCallee(ty: Type): Option<Callee> {
    match ty
    case Int => Some(Callee("int", "", false))
    case Float => Some(Callee("float", "", false))
    case Bool => Some(Callee("bool", "", false))
    case String => Some(Callee("str", "", false))
    case DateTime => Some(Callee("datetime", "fromisoformat", false))
    case Uuid => Some(Callee("UUID", "", false))
    case Decimal => Some(Callee("Decimal", "", false))
    case Money => Some(Callee("Money", "", true))
    case Bytes => Some(Callee("base64", "b64decode", false))
    case Named(n) => Some(Callee(n, "", true))
    case _ => None
  }

  function DecodeExpr(ty: Type, src: PyExpr): PyExpr
    decreases ty
  {
    if IsList(ty) then ListComp(DecodeExpr(ty.args[0], Name("item")), "item", src)
    else if IsMap(ty) then DictComp(Name("k"), DecodeExpr(ty.args[1], Name("v")), src)
    else if IsOption(ty) then IfNotNone(DecodeExpr(ty.args[0], src), src)
    else match LeafCallee(ty) case Some(f) => Call(f, src) case None => src
  }

  // -------------------------------------------------------- what it should compute

  /**
   * What turns the wire form of a leaf into its value. Numbers, booleans and strings
   * go through their own constructor, an instant and bytes through a function of a
   * class or module, an object is unpacked into its class. The wire form of a simple
   * enum is the name of a variant: its class is called on the value itself. `enums`
   * are the names declared as enums.
   */
  function Wanted(enums: set<string>, ty: Type): Option<Callee> {
    if ty.Int? then Some(Plainly("int"))
    else if ty.Float? then Some(Plainly("float"))
    else if ty.Bool? then Some(Plainly("bool"))
    else if ty.String? then Some(Plainly("str"))
    else if ty.Uuid? then Some(Plainly("UUID"))
    else if ty.Decimal? then Some(Plainly("Decimal"))
    else if ty.DateTime? then Some(Callee("datetime", "fromisoformat", false))
    else if ty.Bytes? then Some(Callee("base64", "b64decode", false))
    else if ty.Money? then Some(Unpacked("Money"))
    else if ty.Named? then Some(if ty.name in enums then Plainly(ty.name) else Unpacked(ty.name))
    else None
  }

  function Plainly(root: string): Callee { Callee(root, "", false) }

  function Unpacked(root: string): Callee { Callee(root, "", true) }

  /** The decoding a response type asks for, with no variables in it. */
  function Decode(enums: set<string>, calls: Calls, ty: Type, v: Value): Option<Value>
    decreases ty, 1
  {
    if IsList(ty) then if v.Items? then Wrap(DecodeEach(enums, calls, ty, v.items), rs => Items(rs)) else None
    else if IsMap(ty) then if v.Dict? then Wrap(DecodeEntries(enums, calls, ty, v.entries), rs => Dict(rs)) else None
    else if IsOption(ty) then if v.Null? then Some(Null) else Decode(enums, calls, ty.args[0], v)
    else match Wanted(enums, ty) case Some(f) => Invoke(calls, f, v) case None => Some(v)
  }

  function DecodeEach(enums: set<string>, calls: Calls, ty: Type, vs: seq<Value>): Option<seq<Value>>
    requires IsList(ty)
    decreases ty, 0, |vs|
  {
    if vs == [] then Some([])
    else
      match Decode(enums, calls, ty.args[0], vs[0])
      case None => None
      case Some(r) => Wrap(DecodeEach(enums, calls, ty, vs[1..]), rs => [r] + rs)
  }

  function DecodeEntries(enums: set<string>, calls: Calls, ty: Type, es: seq<Entry>): Option<seq<Entry>>
    requires IsMap(ty)
    decreases ty, 0, |es|
  {
    if es == [] then Some([])
    else
      match Decode(enums, calls, ty.args[1], es[0].value)
      case None => None
      case Some(r) => Wrap(DecodeEntries(enums, calls, ty, es[1..]), rs => [Entry(es[0].key, r)] + rs)
  }

  // ------------------------------------------------------------------- correctness

  /** Some class or module the decoder of `ty` calls is hidden by a local, or by a loop variable around the call. */
  predicate Captured(ty: Type, locals: set<string>)
    decreases ty
  {
    if IsList(ty) then Captured(ty.args[0], locals + {"item"})
    else if IsMap(ty) then Captured(ty.args[1], locals + {"k", "v"})
    else if IsOption(ty) then Captured(ty.args[0], locals)
    else match LeafCallee(ty) case Some(f) => f.root in locals case None => false
  }

  /** The decoder of `ty` ends at an enum. */
  predicate EndsInEnum(enums: set<string>, ty: Type)
    decreases ty
  {
    if IsList(ty) || IsOption(ty) then EndsInEnum(enums, ty.args[0])
    else if IsMap(ty) then EndsInEnum(enums, ty.args[1])
    else ty.Named? && ty.name in enums
  }

  predicate Readable(src: PyExpr, locals: set<string>) { (src.Name? || src.JsonOf?) && src.id in locals }

  lemma {:induction false} EachDecodes(enums: set<string>, calls: Calls, ty: Type, vs: seq<Value>, src: PyExpr,
                                       env: Env)
    requires IsList(ty)
    requires forall v, inner: Env :: inner.Keys == env.Keys + {"item"} && inner["item"] == v ==>
               Eval(calls, DecodeExpr(ty.args[0], Name("item")), inner) == Decode(enums, calls, ty.args[0], v)
    ensures EvalEach(calls, DecodeExpr(ty, src), vs, env) == DecodeEach(enums, calls, ty, vs)
    decreases |vs|
  {
    if vs != [] {
      var inner := env["item" := vs[0]];
      assert inner.Keys == env.Keys + {"item"} && inner["item"] == vs[0];
      EachDecodes(enums, calls, ty, vs[1..], src, env);
    }
  }

  lemma {:induction false} EntriesDecode(enums: set<string>, calls: Calls, ty: Type, es: seq<Entry>, src: PyExpr,
                                         env: Env)
    requires IsMap(ty)
    requires forall v, inner: Env :: inner.Keys == env.Keys + {"k", "v"} && inner["v"] == v ==>
               Eval(calls, DecodeExpr(ty.args[1], Name("v")), inner) == Decode(enums, calls, ty.args[1], v)
    ensures EvalEntries(calls, DecodeExpr(ty, src), es, env) == DecodeEntries(enums, calls, ty, es)
    decreases |es|
  {
    if es != [] {
      var inner := env["k" := Text(es[0].key)]["v" := es[0].value];
      assert inner.Keys == env.Keys + {"k", "v"} && inner["v"] == es[0].value;
      EntriesDecode(enums, calls, ty, es[1..], src, env);
    }
  }

  /** Reusing the loop names at every level is harmless: the expression computes the direct decoding of its source. */
  lemma {:induction false} DecoderComputesDecode(enums: set<string>, calls: Calls, ty: Type, src: PyExpr, env: Env)
    requires Readable(src, env.Keys) && !Captured(ty, env.Keys) && !EndsInEnum(enums, ty)
    ensures Eval(calls, DecodeExpr(ty, src), env) == Decode(enums, calls, ty, env[src.id])
    decreases ty
  {
    if IsList(ty) {
      forall v, inner: Env | inner.Keys == env.Keys + {"item"} && inner["item"] == v
        ensures Eval(calls, DecodeExpr(ty.args[0], Name("item")), inner) == Decode(enums, calls, ty.args[0], v)
      {
        DecoderComputesDecode(enums, calls, ty.args[0], Name("item"), inner);
      }
      if env[src.id].Items? { EachDecodes(enums, calls, ty, env[src.id].items, src, env); }
    } else if IsMap(ty) {
      forall v, inner: Env | inner.Keys == env.Keys + {"k", "v"} && inner["v"] == v
        ensures Eval(calls, DecodeExpr(ty.args[1], Name("v")), inner) == Decode(enums, calls, ty.args[1], v)
      {
        DecoderComputesDecode(enums, calls, ty.args[1], Name("v"), inner);
      }
      if env[src.id].Dict? { EntriesDecode(enums, calls, ty, env[src.id].entries, src, env); }
    } else if IsOption(ty) {
      DecoderComputesDecode(enums, calls, ty.args[0], src, env);
    }
  }

  /** A value that makes the decoder of `ty` reach its leaf, and that the leaf's class takes. */
  function Sample(enums: set<string>, ty: Type): (v: Value)
    ensures !v.Null?
    decreases ty
  {
    if IsList(ty) then Items([Sample(enums, ty.args[0])])
    else if IsMap(ty) then Dict([Entry("", Sample(enums, ty.args[1]))])
    else if IsOption(ty) then Sample(enums, ty.args[0])
    else match Wanted(enums, ty) case Some(f) => if f.splat then Dict([]) else Text("") case None => Text("")
  }

  const ACCEPTING: Calls := (f, v) => Some(v)

  /**
   * A hidden class, or an enum called on its unpacked name, makes the decoder raise on a
   * value that ought to decode.
   */
  lemma {:induction false} CapturedRaises(enums: set<string>, ty: Type, src: PyExpr, env: Env)
    requires Readable(src, env.Keys) && (Captured(ty, env.Keys) || EndsInEnum(enums, ty))
    requires env[src.id] == Sample(enums, ty)
    ensures Decode(enums, ACCEPTING, ty, Sample(enums, ty)).Some? && Eval(ACCEPTING, DecodeExpr(ty, src), env).None?
    decreases ty
  {
    if IsList(ty) {
      var inner := env["item" := Sample(enums, ty.args[0])];
      assert inner.Keys == env.Keys + {"item"};
      CapturedRaises(enums, ty.args[0], Name("item"), inner);
      assert DecodeEach(enums, ACCEPTING, ty, Sample(enums, ty).items[1..]) == Some([]);
    } else if IsMap(ty) {
      var inner := env["k" := Text("")]["v" := Sample(enums, ty.args[1])];
      assert inner.Keys == env.Keys + {"k", "v"};
      CapturedRaises(enums, ty.args[1], Name("v"), inner);
      assert DecodeEntries(enums, ACCEPTING, ty, Sample(enums, ty).entries[1..]) == Some([]);
    } else if IsOption(ty) {
      CapturedRaises(enums, ty.args[0], src, env);
    }
  }

  /**
   * The decoder is right on every value, whatever its constructors do, exactly when
   * it captures no class and does not end at an enum.
   */
  lemma DecoderCorrectIff(enums: set<string>, ty: Type, src: PyExpr, locals: set<string>)
    requires Readable(src, locals)
    ensures !Captured(ty, locals) && !EndsInEnum(enums, ty) <==>
              forall calls: Calls, env: Env :: env.Keys == locals ==>
                Eval(calls, DecodeExpr(ty, src), env) == Decode(enums, calls, ty, env[src.id])
  {
    if !Captured(ty, locals) && !EndsInEnum(enums, ty) {
      forall calls: Calls, env: Env | env.Keys == locals
        ensures Eval(calls, DecodeExpr(ty, src), env) == Decode(enums, calls, ty, env[src.id])
      {
        DecoderComputesDecode(enums, calls, ty, src, env);
      }
    } else {
      var env: Env := map x | x in locals :: Sample(enums, ty);
      assert env.Keys == locals;
      CapturedRaises(enums, ty, src, env);
    }
  }

  /** A type called like the loop variable is captured: decoding one element of a list of them raises. */
  lemma ItemTypeCaptured()
    ensures var ty, env := Generic("List", [Named("item")]), map["response" := Items([Dict([])])];
            && Captured(ty, env.Keys)
            && Decode({}, ACCEPTING, ty, env["response"]).Some?
            && Eval(ACCEPTING, DecodeExpr(ty, JsonOf("response")), env).None?
  {
    var ty, env := Generic("List", [Named("item")]), map["response" := Items([Dict([])])];
    assert !IsList(ty.args[0]) && Sample({}, ty.args[0]) == Dict([]);
    assert env.Keys == {"response"} && Captured(ty.args[0], env.Keys + {"item"});
    CapturedRaises({}, ty, JsonOf("response"), env);
  }

  /** So is a builtin by a parameter of its name: a `String` response beside a parameter `str`. */
  lemma StrParameterCaptures()
    ensures var env := map["response" := Text(""), "str" := Other(1)];
            && Captured(String, env.Keys)
            && Decode({}, ACCEPTING, String, env["response"]).Some?
            && Eval(ACCEPTING, DecodeExpr(String, JsonOf("response")), env).None?
  {
    CapturedRaises({}, String, JsonOf("response"), map["response" := Text(""), "str" := Other(1)]);
  }

  /** No name of a variant decodes as a response of an enum type, whatever the class would make of it. */
  lemma EnumResponseRaises(calls: Calls, n: string, variant: string, env: Env)
    requires "response" in env && env["response"] == Text(variant)
    ensures Eval(calls, DecodeExpr(Named(n), JsonOf("response")), env).None?
    ensures Decode({n}, calls, Named(n), Text(variant)) == calls(Callee(n, "", false), Text(variant))
  {
    assert DecodeExpr(Named(n), JsonOf("response")) == Call(Callee(n, "", true), JsonOf("response"));
  }

  /** The expressions generated for a map of lists of instants and for an optional struct. */
  lemma DecoderSamples(n: string)
    ensures DecodeExpr(Generic("Map", [String, Generic("List", [DateTime])]), JsonOf("response"))
         == DictComp(Name("k"),
                     ListComp(Call(Callee("datetime", "fromisoformat", false), Name("item")), "item", Name("v")),
                     JsonOf("response"))
    ensures DecodeExpr(Generic("Option", [Named(n)]), JsonOf("response"))
         == IfNotNone(Call(Callee(n, "", true), JsonOf("response")), JsonOf("response"))
  {}
}
