// Resolved types and structs of a schema.
module Schema {
  import opened Options
  import Constraints

  datatype Type =
    | Int | Float | String | Bool | File | DateTime | Uuid | Decimal | Money | Url | Bytes | Void
    | Named(name: string)
    | Generic(ctor: string, args: seq<Type>)
    | Dyn(iface: string)

  // `optional` is set by `partial` on the fields of a derived body type.
  datatype Field = Field(name: string, ty: Type, constraint: Option<Constraints.Expr>, optional: bool)

  // A struct declaration, or the body type derived from one for an endpoint.
  datatype StructInfo = StructInfo(fields: seq<Field>, fileBearing: bool, derived: bool)

  type Schema = map<string, StructInfo>

  predicate IsOption(t: Type) { t.Generic? && t.ctor == "Option" && |t.args| == 1 }

  predicate IsList(t: Type) { t.Generic? && t.ctor == "List" && |t.args| == 1 }

  predicate IsMap(t: Type) { t.Generic? && t.ctor == "Map" && |t.args| == 2 }

  /** What stands in a type at the end of a path of generic arguments, each by its index. */
  function At(ty: Type, path: seq<nat>): Option<Type> {
    if path == [] then Some(ty)
    else if ty.Generic? && path[0] < |ty.args| then At(ty.args[path[0]], path[1..])
    else None
  }

  /** `part` is `ty` or stands somewhere among its generic arguments. */
  ghost predicate Contains(ty: Type, part: Type) { exists path :: At(ty, path) == Some(part) }

  lemma ContainsInArgs(ty: Type, part: Type)
    ensures Contains(ty, part) <==>
            ty == part || (ty.Generic? && exists i :: 0 <= i < |ty.args| && Contains(ty.args[i], part))
  {
    if ty == part { assert At(ty, []) == Some(part); }
    if ty.Generic? {
      forall i | 0 <= i < |ty.args| && Contains(ty.args[i], part) ensures Contains(ty, part) {
        var path :| At(ty.args[i], path) == Some(part);
        assert ([i] + path)[1..] == path;
        assert At(ty, [i] + path) == Some(part);
      }
    }
    if path :| At(ty, path) == Some(part) && path != [] {
      assert At(ty.args[path[0]], path[1..]) == Some(part);
    }
  }
}
