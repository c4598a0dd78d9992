// The visited-set searches over the struct graph.
module TypeScan {
  import opened Options
  import opened Schema

  // Does a value of this type reach something that needs validation (Go), or a leaf
  // that forces JSON mode (the three Python scans)?
  datatype Scan = NeedsValidation | UsesDateTime | UsesUuid | UsesDecimal

  predicate Leaf(m: Scan, ty: Type) {
    match m
    case NeedsValidation => ty.Uuid? || ty.Decimal? || ty.Url? || ty.Money?
    case UsesDateTime => ty.DateTime?
    case UsesUuid => ty.Uuid?
    case UsesDecimal => ty.Decimal? || ty.Money?
  }

  /** The type arguments a scan walks into. */
  function Kids(m: Scan, ty: Type): (r: seq<Type>)
    ensures forall i :: 0 <= i < |r| ==> r[i] < ty
  {
    if m.NeedsValidation? then
      if IsOption(ty) || IsList(ty) then [ty.args[0]]
      else if IsMap(ty) then [ty.args[1]]
      else []
    else if ty.Generic? then ty.args
    else []
  }

  /** A `where` clause counts for validation only. */
  predicate FieldHit(m: Scan, f: Field) { m.NeedsValidation? && f.constraint.Some? }

  // ---------------------------------------------------------------- the search

  datatype Outcome = Outcome(hit: bool, visited: set<string>)

  function ScanType(m: Scan, s: Schema, ty: Type, visited: set<string>): (r: Outcome)
    ensures visited <= r.visited
    decreases s.Keys - visited, 1, ty, |Kids(m, ty)| + 1
  {
    if Leaf(m, ty) then Outcome(true, visited)
    else if ty.Named? then ScanStruct(m, s, ty.name, visited)
    else ScanKids(m, s, ty, 0, visited)
  }

  function ScanKids(m: Scan, s: Schema, ty: Type, i: nat, visited: set<string>): (r: Outcome)
    requires i <= |Kids(m, ty)|
    ensures visited <= r.visited
    decreases s.Keys - visited, 1, ty, |Kids(m, ty)| - i
  {
    if i == |Kids(m, ty)| then Outcome(false, visited)
    else
      var first := ScanType(m, s, Kids(m, ty)[i], visited);
      if first.hit then first else ScanKids(m, s, ty, i + 1, first.visited)
  }

  function ScanStruct(m: Scan, s: Schema, n: string, visited: set<string>): (r: Outcome)
    ensures visited <= r.visited
    decreases s.Keys - visited, 0
  {
    if n in visited then Outcome(false, visited)
    else if n !in s then Outcome(false, visited + {n})
    else
      assert n in s.Keys - visited && n !in s.Keys - (visited + {n});
      ScanFields(m, s, s[n].fields, visited + {n})
  }

  function ScanFields(m: Scan, s: Schema, fields: seq<Field>, visited: set<string>): (r: Outcome)
    ensures visited <= r.visited
    decreases s.Keys - visited, 2, fields
  {
    if fields == [] then Outcome(false, visited)
    else if FieldHit(m, fields[0]) then Outcome(true, visited)
    else
      var first := ScanType(m, s, fields[0].ty, visited);
      if first.hit then first else ScanFields(m, s, fields[1..], first.visited)
  }

  // The searches as the generators run them, on one shared set.
  class VisitedSet {
    var names: set<string>
    ghost var calls: seq<Call>  // the type searches made on the set, by their arguments

    constructor ()
      ensures names == {} && calls == []
    {
      names, calls := {}, [];
    }

    method Insert(n: string) returns (isNew: bool)
      modifies this`names
      ensures names == old(names) + {n} && isNew == (n !in old(names))
    {
      isNew := n !in names;
      names := names + {n};
    }
  }

  method TypeNeeds(m: Scan, s: Schema, ty: Type, visited: VisitedSet) returns (hit: bool)
    modifies visited
    ensures Outcome(hit, visited.names) == ScanType(m, s, ty, old(visited.names))
    ensures visited.calls == old(visited.calls) + CallsOfType(m, s, ty, old(visited.names))
    decreases s.Keys - visited.names, 1, ty, 1
  {
    visited.calls := visited.calls + [Call(ty, visited.names)];
    if Leaf(m, ty) {
      return true;
    }
    if ty.Named? {
      hit := StructNeeds(m, s, ty.name, visited);
    } else {
      hit := SomeKidNeeds(m, s, ty, visited);
    }
  }

  /** Whether some walked argument needs it, in order, up to the first that does. */
  method SomeKidNeeds(m: Scan, s: Schema, ty: Type, visited: VisitedSet) returns (hit: bool)
    modifies visited
    ensures Outcome(hit, visited.names) == ScanKids(m, s, ty, 0, old(visited.names))
    ensures visited.calls == old(visited.calls) + CallsOfKids(m, s, ty, 0, old(visited.names))
    decreases s.Keys - visited.names, 1, ty, 0
  {
    ghost var before, made := visited.names, visited.calls;
    var kids := Kids(m, ty);
    for i := 0 to |kids|
      invariant before <= visited.names
      invariant ScanKids(m, s, ty, 0, before) == ScanKids(m, s, ty, i, visited.names)
      invariant visited.calls + CallsOfKids(m, s, ty, i, visited.names) == made + CallsOfKids(m, s, ty, 0, before)
    {
      ghost var sofar := visited.calls;
      KidsCalls(m, s, ty, i, visited.names, sofar);
      hit := TypeNeeds(m, s, kids[i], visited);
      if hit {
        return;
      }
    }
    assert visited.calls + [] == visited.calls;
    return false;
  }

  lemma KidsCalls(m: Scan, s: Schema, ty: Type, i: nat, visited: set<string>, sofar: seq<Call>)
    requires i < |Kids(m, ty)|
    ensures var first, here := ScanType(m, s, Kids(m, ty)[i], visited), CallsOfType(m, s, Kids(m, ty)[i], visited);
            sofar + CallsOfKids(m, s, ty, i, visited)
            == if first.hit then sofar + here else (sofar + here) + CallsOfKids(m, s, ty, i + 1, first.visited)
  {
    var first, here := ScanType(m, s, Kids(m, ty)[i], visited), CallsOfType(m, s, Kids(m, ty)[i], visited);
    if first.hit { assert here + [] == here; }
  }

  method StructNeeds(m: Scan, s: Schema, n: string, visited: VisitedSet) returns (hit: bool)
    modifies visited
    ensures Outcome(hit, visited.names) == ScanStruct(m, s, n, old(visited.names))
    ensures visited.calls == old(visited.calls) + CallsOfStruct(m, s, n, old(visited.names))
    decreases s.Keys - visited.names, 0
  {
    ghost var before, made := visited.names, visited.calls;
    var isNew := visited.Insert(n);
    if !isNew {
      assert before + {n} == before;
      return false;
    }
    if n !in s {
      return false;
    }
    var fields := s[n].fields;
    assert n in s.Keys - before && n !in s.Keys - visited.names;
    assert fields[0..] == fields;
    for i := 0 to |fields|
      invariant before + {n} <= visited.names
      invariant ScanFields(m, s, fields, before + {n}) == ScanFields(m, s, fields[i..], visited.names)
      invariant visited.calls + CallsOfFields(m, s, fields[i..], visited.names)
             == made + CallsOfFields(m, s, fields, before + {n})
    {
      assert fields[i..][1..] == fields[i + 1..];
      if FieldHit(m, fields[i]) {
        assert visited.calls + [] == visited.calls;
        return true;
      }
      ghost var sofar := visited.calls;
      FieldsCalls(m, s, fields[i..], visited.names, sofar);
      hit := TypeNeeds(m, s, fields[i].ty, visited);
      if hit {
        return;
      }
    }
    assert visited.calls + [] == visited.calls;
    return false;
  }

  lemma FieldsCalls(m: Scan, s: Schema, fields: seq<Field>, visited: set<string>, sofar: seq<Call>)
    requires fields != [] && !FieldHit(m, fields[0])
    ensures var first, here := ScanType(m, s, fields[0].ty, visited), CallsOfType(m, s, fields[0].ty, visited);
            sofar + CallsOfFields(m, s, fields, visited)
            == if first.hit then sofar + here else (sofar + here) + CallsOfFields(m, s, fields[1..], first.visited)
  {
    var first, here := ScanType(m, s, fields[0].ty, visited), CallsOfType(m, s, fields[0].ty, visited);
    if first.hit { assert here + [] == here; }
  }

  // ------------------------------------------------------- what it ought to find

  /** Names of the structs mentioned in a type. */
  function Mentions(m: Scan, ty: Type): set<string>
    decreases ty, |Kids(m, ty)| + 1
  {
    if ty.Named? then {ty.name} else MentionsFrom(m, ty, 0)
  }

  function MentionsFrom(m: Scan, ty: Type, i: nat): set<string>
    requires i <= |Kids(m, ty)|
    decreases ty, |Kids(m, ty)| - i
  {
    if i == |Kids(m, ty)| then {} else Mentions(m, Kids(m, ty)[i]) + MentionsFrom(m, ty, i + 1)
  }

  /** Does the type itself contain a leaf, without looking into structs? */
  predicate HasLeaf(m: Scan, ty: Type)
    decreases ty, |Kids(m, ty)| + 1
  {
    Leaf(m, ty) || HasLeafFrom(m, ty, 0)
  }

  predicate HasLeafFrom(m: Scan, ty: Type, i: nat)
    requires i <= |Kids(m, ty)|
    decreases ty, |Kids(m, ty)| - i
  {
    i < |Kids(m, ty)| && (HasLeaf(m, Kids(m, ty)[i]) || HasLeafFrom(m, ty, i + 1))
  }

  predicate FieldIsHit(m: Scan, f: Field) { FieldHit(m, f) || HasLeaf(m, f.ty) }

  predicate StructIsHit(m: Scan, s: Schema, n: string) {
    n in s && exists i :: 0 <= i < |s[n].fields| && FieldIsHit(m, s[n].fields[i])
  }

  predicate Edge(m: Scan, s: Schema, a: string, b: string) {
    a in s && exists i :: 0 <= i < |s[a].fields| && b in Mentions(m, s[a].fields[i].ty)
  }

  /** `p` walks the struct graph outside `avoid` to a struct that counts. */
  ghost predicate HitPath(m: Scan, s: Schema, p: seq<string>, avoid: set<string>) {
    && p != []
    && (forall i :: 0 <= i < |p| ==> p[i] !in avoid)
    && (forall i :: 0 <= i < |p| - 1 ==> Edge(m, s, p[i], p[i + 1]))
    && StructIsHit(m, s, p[|p| - 1])
  }

  ghost predicate NameReaches(m: Scan, s: Schema, n: string, avoid: set<string>) {
    exists p :: HitPath(m, s, p, avoid) && p[0] == n
  }

  ghost predicate TypeReaches(m: Scan, s: Schema, ty: Type, avoid: set<string>) {
    HasLeaf(m, ty) || exists n :: n in Mentions(m, ty) && NameReaches(m, s, n, avoid)
  }

  ghost predicate FieldReaches(m: Scan, s: Schema, f: Field, avoid: set<string>) {
    FieldHit(m, f) || TypeReaches(m, s, f.ty, avoid)
  }

  // ------------------------------------------------------------- a hit is real

  lemma ReachesWeaken(m: Scan, s: Schema, ty: Type, avoid: set<string>, avoid': set<string>)
    requires avoid <= avoid' && TypeReaches(m, s, ty, avoid')
    ensures TypeReaches(m, s, ty, avoid)
  {}

  lemma {:induction false} TypeHitSound(m: Scan, s: Schema, ty: Type, visited: set<string>)
    requires ScanType(m, s, ty, visited).hit
    ensures TypeReaches(m, s, ty, visited)
    decreases s.Keys - visited, 1, ty, |Kids(m, ty)| + 1
  {
    if Leaf(m, ty) {
    } else if ty.Named? {
      StructHitSound(m, s, ty.name, visited);
      assert ty.name in Mentions(m, ty);
    } else {
      KidsHitSound(m, s, ty, 0, visited);
    }
  }

  lemma {:induction false} KidsHitSound(m: Scan, s: Schema, ty: Type, i: nat, visited: set<string>)
    requires i <= |Kids(m, ty)| && ScanKids(m, s, ty, i, visited).hit
    ensures HasLeafFrom(m, ty, i) || exists n :: n in MentionsFrom(m, ty, i) && NameReaches(m, s, n, visited)
    decreases s.Keys - visited, 1, ty, |Kids(m, ty)| - i
  {
    var first := ScanType(m, s, Kids(m, ty)[i], visited);
    if first.hit {
      TypeHitSound(m, s, Kids(m, ty)[i], visited);
    } else {
      KidsHitSound(m, s, ty, i + 1, first.visited);
      if !HasLeafFrom(m, ty, i + 1) {
        var n :| n in MentionsFrom(m, ty, i + 1) && NameReaches(m, s, n, first.visited);
        var p :| HitPath(m, s, p, first.visited) && p[0] == n;
        assert HitPath(m, s, p, visited);
        assert n in MentionsFrom(m, ty, i) && NameReaches(m, s, n, visited);
      }
    }
  }

  lemma {:induction false} StructHitSound(m: Scan, s: Schema, n: string, visited: set<string>)
    requires ScanStruct(m, s, n, visited).hit
    ensures NameReaches(m, s, n, visited)
    decreases s.Keys - visited, 0
  {
    var fields := s[n].fields;
    assert n in s.Keys - visited && n !in s.Keys - (visited + {n});
    var i := FieldsHitSound(m, s, fields, visited + {n});
    if FieldIsHit(m, fields[i]) {
      assert HitPath(m, s, [n], visited);
    } else {
      var k :| k in Mentions(m, fields[i].ty) && NameReaches(m, s, k, visited + {n});
      var p :| HitPath(m, s, p, visited + {n}) && p[0] == k;
      Prepend(m, s, n, p, visited);
    }
  }

  lemma {:induction false} Prepend(m: Scan, s: Schema, n: string, p: seq<string>, avoid: set<string>)
    requires n !in avoid && HitPath(m, s, p, avoid) && Edge(m, s, n, p[0])
    ensures HitPath(m, s, [n] + p, avoid) && NameReaches(m, s, n, avoid)
  {}

  lemma {:induction false} FieldsHitSound(m: Scan, s: Schema, fields: seq<Field>, visited: set<string>) returns (i: nat)
    requires ScanFields(m, s, fields, visited).hit
    ensures i < |fields| && FieldReaches(m, s, fields[i], visited)
    decreases s.Keys - visited, 2, fields
  {
    if FieldHit(m, fields[0]) {
      return 0;
    }
    var first := ScanType(m, s, fields[0].ty, visited);
    if first.hit {
      TypeHitSound(m, s, fields[0].ty, visited);
      return 0;
    }
    var j := FieldsHitSound(m, s, fields[1..], first.visited);
    i := j + 1;
    assert fields[i] == fields[1..][j];
    if !FieldHit(m, fields[i]) {
      ReachesWeaken(m, s, fields[i].ty, visited, first.visited);
    }
  }

  // ------------------------------------------------------- a miss leaves nothing

  /** Every newly visited struct is explored in full and does not count. */
  ghost predicate Explored(m: Scan, s: Schema, visited: set<string>, visited': set<string>) {
    forall n :: n in visited' && n !in visited ==>
      !StructIsHit(m, s, n) && forall k :: Edge(m, s, n, k) ==> k in visited'
  }

  lemma ExploredJoin(m: Scan, s: Schema, a: set<string>, b: set<string>, c: set<string>)
    requires a <= b <= c && Explored(m, s, a, b) && Explored(m, s, b, c)
    ensures Explored(m, s, a, c)
  {}

  lemma {:induction false} TypeMiss(m: Scan, s: Schema, ty: Type, visited: set<string>)
    requires !ScanType(m, s, ty, visited).hit
    ensures var v' := ScanType(m, s, ty, visited).visited;
            !HasLeaf(m, ty) && Mentions(m, ty) <= v' && Explored(m, s, visited, v')
    decreases s.Keys - visited, 1, ty, |Kids(m, ty)| + 1
  {
    if ty.Named? {
      StructMiss(m, s, ty.name, visited);
    } else {
      KidsMiss(m, s, ty, 0, visited);
    }
  }

  lemma {:induction false} KidsMiss(m: Scan, s: Schema, ty: Type, i: nat, visited: set<string>)
    requires i <= |Kids(m, ty)| && !ScanKids(m, s, ty, i, visited).hit
    ensures var v' := ScanKids(m, s, ty, i, visited).visited;
            !HasLeafFrom(m, ty, i) && MentionsFrom(m, ty, i) <= v' && Explored(m, s, visited, v')
    decreases s.Keys - visited, 1, ty, |Kids(m, ty)| - i
  {
    if i < |Kids(m, ty)| {
      var first := ScanType(m, s, Kids(m, ty)[i], visited);
      TypeMiss(m, s, Kids(m, ty)[i], visited);
      KidsMiss(m, s, ty, i + 1, first.visited);
      ExploredJoin(m, s, visited, first.visited, ScanKids(m, s, ty, i, visited).visited);
    }
  }

  lemma {:induction false} StructMiss(m: Scan, s: Schema, n: string, visited: set<string>)
    requires !ScanStruct(m, s, n, visited).hit
    ensures var v' := ScanStruct(m, s, n, visited).visited;
            n in v' && Explored(m, s, visited, v')
    decreases s.Keys - visited, 0
  {
    if n !in visited && n in s {
      assert n in s.Keys - visited && n !in s.Keys - (visited + {n});
      FieldsMiss(m, s, s[n].fields, visited + {n});
    }
  }

  lemma {:induction false} FieldsMiss(m: Scan, s: Schema, fields: seq<Field>, visited: set<string>)
    requires !ScanFields(m, s, fields, visited).hit
    ensures var v' := ScanFields(m, s, fields, visited).visited;
            && Explored(m, s, visited, v')
            && forall i :: 0 <= i < |fields| ==> !FieldIsHit(m, fields[i]) && Mentions(m, fields[i].ty) <= v'
    decreases s.Keys - visited, 2, fields
  {
    if fields != [] {
      var first := ScanType(m, s, fields[0].ty, visited);
      TypeMiss(m, s, fields[0].ty, visited);
      FieldsMiss(m, s, fields[1..], first.visited);
      var v' := ScanFields(m, s, fields, visited).visited;
      ExploredJoin(m, s, visited, first.visited, v');
      forall i | 0 <= i < |fields| ensures !FieldIsHit(m, fields[i]) && Mentions(m, fields[i].ty) <= v' {
        if i > 0 { assert fields[i] == fields[1..][i - 1]; }
      }
    }
  }

  lemma {:induction false} PathStaysExplored(m: Scan, s: Schema, p: seq<string>, visited: set<string>,
                                             visited': set<string>, i: nat)
    requires HitPath(m, s, p, visited) && p[0] in visited' && Explored(m, s, visited, visited') && i < |p|
    ensures p[i] in visited'
    decreases i
  {
    if i > 0 {
      PathStaysExplored(m, s, p, visited, visited', i - 1);
      assert Edge(m, s, p[i - 1], p[i - 1 + 1]);
    }
  }

  // ------------------------------------------------------------------- results

  /** From any visited set, the search hits exactly when a counting struct or leaf is reachable outside the set. */
  lemma ScanIsReachability(m: Scan, s: Schema, ty: Type, visited: set<string>)
    ensures ScanType(m, s, ty, visited).hit <==> TypeReaches(m, s, ty, visited)
  {
    if ScanType(m, s, ty, visited).hit {
      TypeHitSound(m, s, ty, visited);
    } else {
      TypeMiss(m, s, ty, visited);
      var v' := ScanType(m, s, ty, visited).visited;
      forall n, p | n in Mentions(m, ty) && HitPath(m, s, p, visited) && p[0] == n ensures false {
        PathStaysExplored(m, s, p, visited, v', |p| - 1);
      }
    }
  }

  // One call of the type search, by its arguments.
  datatype Call = Call(ty: Type, visited: set<string>)

  /** The calls made while searching a type, the outermost first. */
  function CallsOfType(m: Scan, s: Schema, ty: Type, visited: set<string>): seq<Call>
    decreases s.Keys - visited, 1, ty, |Kids(m, ty)| + 1
  {
    [Call(ty, visited)] +
    if Leaf(m, ty) then []
    else if ty.Named? then CallsOfStruct(m, s, ty.name, visited)
    else CallsOfKids(m, s, ty, 0, visited)
  }

  function CallsOfKids(m: Scan, s: Schema, ty: Type, i: nat, visited: set<string>): seq<Call>
    requires i <= |Kids(m, ty)|
    decreases s.Keys - visited, 1, ty, |Kids(m, ty)| - i
  {
    if i == |Kids(m, ty)| then []
    else
      var first := ScanType(m, s, Kids(m, ty)[i], visited);
      CallsOfType(m, s, Kids(m, ty)[i], visited) + if first.hit then [] else CallsOfKids(m, s, ty, i + 1, first.visited)
  }

  function CallsOfStruct(m: Scan, s: Schema, n: string, visited: set<string>): seq<Call>
    decreases s.Keys - visited, 0
  {
    if n in visited || n !in s then []
    else
      assert n in s.Keys - visited && n !in s.Keys - (visited + {n});
      CallsOfFields(m, s, s[n].fields, visited + {n})
  }

  function CallsOfFields(m: Scan, s: Schema, fields: seq<Field>, visited: set<string>): seq<Call>
    decreases s.Keys - visited, 2, fields
  {
    if fields == [] || FieldHit(m, fields[0]) then []
    else
      var first := ScanType(m, s, fields[0].ty, visited);
      CallsOfType(m, s, fields[0].ty, visited)
      + if first.hit then [] else CallsOfFields(m, s, fields[1..], first.visited)
  }

  /** The call misses, and leaves no more structs visited than `v`. */
  predicate MissesWithin(m: Scan, s: Schema, c: Call, v: set<string>) {
    !ScanType(m, s, c.ty, c.visited).hit && ScanType(m, s, c.ty, c.visited).visited <= v
  }

  lemma MissesWiden(m: Scan, s: Schema, c: Call, v: set<string>, v': set<string>)
    requires MissesWithin(m, s, c, v) && v <= v'
    ensures MissesWithin(m, s, c, v')
  {}

  // A miss is a miss of every call made for it.
  lemma {:induction false} TypeCallsMiss(m: Scan, s: Schema, ty: Type, visited: set<string>, c: Call)
    requires !ScanType(m, s, ty, visited).hit && c in CallsOfType(m, s, ty, visited)
    ensures MissesWithin(m, s, c, ScanType(m, s, ty, visited).visited)
    decreases s.Keys - visited, 1, ty, |Kids(m, ty)| + 1
  {
    if c != Call(ty, visited) {
      if ty.Named? { StructCallsMiss(m, s, ty.name, visited, c); } else { KidsCallsMiss(m, s, ty, 0, visited, c); }
    }
  }

  lemma {:induction false} KidsCallsMiss(m: Scan, s: Schema, ty: Type, i: nat, visited: set<string>, c: Call)
    requires i <= |Kids(m, ty)| && !ScanKids(m, s, ty, i, visited).hit && c in CallsOfKids(m, s, ty, i, visited)
    ensures MissesWithin(m, s, c, ScanKids(m, s, ty, i, visited).visited)
    decreases s.Keys - visited, 1, ty, |Kids(m, ty)| - i
  {
    var first, all := ScanType(m, s, Kids(m, ty)[i], visited), ScanKids(m, s, ty, i, visited);
    assert !first.hit && all == ScanKids(m, s, ty, i + 1, first.visited);
    if c in CallsOfType(m, s, Kids(m, ty)[i], visited) {
      TypeCallsMiss(m, s, Kids(m, ty)[i], visited, c);
      MissesWiden(m, s, c, first.visited, all.visited);
    } else {
      KidsCallsMiss(m, s, ty, i + 1, first.visited, c);
    }
  }

  lemma {:induction false} StructCallsMiss(m: Scan, s: Schema, n: string, visited: set<string>, c: Call)
    requires !ScanStruct(m, s, n, visited).hit && c in CallsOfStruct(m, s, n, visited)
    ensures MissesWithin(m, s, c, ScanStruct(m, s, n, visited).visited)
    decreases s.Keys - visited, 0
  {
    assert n in s.Keys - visited && n !in s.Keys - (visited + {n});
    FieldsCallsMiss(m, s, s[n].fields, visited + {n}, c);
  }

  lemma {:induction false} FieldsCallsMiss(m: Scan, s: Schema, fields: seq<Field>, visited: set<string>, c: Call)
    requires !ScanFields(m, s, fields, visited).hit && c in CallsOfFields(m, s, fields, visited)
    ensures MissesWithin(m, s, c, ScanFields(m, s, fields, visited).visited)
    decreases s.Keys - visited, 2, fields
  {
    var first, all := ScanType(m, s, fields[0].ty, visited), ScanFields(m, s, fields, visited);
    assert !first.hit && all == ScanFields(m, s, fields[1..], first.visited);
    if c in CallsOfType(m, s, fields[0].ty, visited) {
      TypeCallsMiss(m, s, fields[0].ty, visited, c);
      MissesWiden(m, s, c, first.visited, all.visited);
    } else {
      FieldsCallsMiss(m, s, fields[1..], first.visited, c);
    }
  }

  /**
   * Inside one search from an empty set, a call on the threaded set can answer
   * otherwise than a fresh one only if the whole search hits: a closed gate
   * means that every answer on the way was the fresh one.
   */
  lemma NestedDiffersOnlyOnHit(m: Scan, s: Schema, ty: Type, c: Call)
    requires c in CallsOfType(m, s, ty, {})
    requires ScanType(m, s, c.ty, c.visited).hit != ScanType(m, s, c.ty, {}).hit
    ensures ScanType(m, s, ty, {}).hit
  {
    if !ScanType(m, s, ty, {}).hit {
      var v := ScanType(m, s, ty, {}).visited;
      TypeCallsMiss(m, s, ty, {}, c);
      TypeMiss(m, s, ty, {});
      TypeMiss(m, s, c.ty, c.visited);
      TypeHitSound(m, s, c.ty, {});
      forall n, p | n in Mentions(m, c.ty) && HitPath(m, s, p, {}) && p[0] == n ensures false {
        PathStaysExplored(m, s, p, {}, v, |p| - 1);
      }
    }
  }

  /** They can differ: searching a two-struct cycle, a nested call misses what a fresh call finds. */
  lemma ThreadedCanDiffer()
    ensures var s := map["A" := StructInfo([Field("b", Named("B"), None, false), Field("id", Uuid, None, false)],
                                           false, false),
                         "B" := StructInfo([Field("a", Named("A"), None, false)], false, false)];
            && Call(Named("B"), {"A"}) in CallsOfType(NeedsValidation, s, Named("A"), {})
            && ScanType(NeedsValidation, s, Named("B"), {}).hit && !ScanType(NeedsValidation, s, Named("B"), {"A"}).hit
  {
    var s := map["A" := StructInfo([Field("b", Named("B"), None, false), Field("id", Uuid, None, false)], false, false),
                 "B" := StructInfo([Field("a", Named("A"), None, false)], false, false)];
    var m := NeedsValidation;
    assert s["B"].fields[0].ty == Named("A") && s["A"].fields[1].ty == Uuid;
    assert "A" in Mentions(m, Named("A"));
    assert Edge(m, s, "B", "A");
    assert HasLeaf(m, Uuid);
    assert FieldIsHit(m, s["A"].fields[1]);
    assert StructIsHit(m, s, "A");
    assert HitPath(m, s, ["B", "A"], {});
    assert "B" in Mentions(m, Named("B"));
    assert NameReaches(m, s, "B", {}) by { assert ["B", "A"][0] == "B"; }
    ScanIsReachability(m, s, Named("B"), {});
    assert ScanType(m, s, Named("A"), {"A", "B"}) == Outcome(false, {"A", "B"});
    assert {"A"} + {"B"} == {"A", "B"};
    var fs := s["B"].fields;
    assert fs[1..] == [];
    assert ScanFields(m, s, fs, {"A", "B"}) == Outcome(false, {"A", "B"});
    assert {} + {"A"} == {"A"};
    assert Call(Named("B"), {"A"}) in CallsOfType(m, s, Named("B"), {"A"});
    assert Call(Named("B"), {"A"}) in CallsOfFields(m, s, s["A"].fields, {"A"});
  }

  // ------------------------------------------------ the search as an equation

  predicate Needs(m: Scan, s: Schema, ty: Type) { ScanType(m, s, ty, {}).hit }

  /** The gate on a struct: it has a field that counts or whose type does. */
  lemma {:induction false} NeedsStruct(m: Scan, s: Schema, n: string)
    ensures ScanStruct(m, s, n, {}).hit == Needs(m, s, Named(n))
    ensures Needs(m, s, Named(n)) <==>
            && n in s
            && exists i :: 0 <= i < |s[n].fields| && (FieldHit(m, s[n].fields[i]) || Needs(m, s, s[n].fields[i].ty))
  {
    var ty := Named(n);
    ScanIsReachability(m, s, ty, {});
    assert Mentions(m, ty) == {n};
    if Needs(m, s, ty) {
      assert NameReaches(m, s, n, {}) by {
        assert !HasLeaf(m, ty);
      }
      var p :| HitPath(m, s, p, {}) && p[0] == n;
      if |p| == 1 {
        var i :| 0 <= i < |s[n].fields| && FieldIsHit(m, s[n].fields[i]);
        ScanIsReachability(m, s, s[n].fields[i].ty, {});
      } else {
        var q := p[1..];
        assert Edge(m, s, p[0], p[0 + 1]);
        var i :| 0 <= i < |s[n].fields| && q[0] in Mentions(m, s[n].fields[i].ty);
        TailPath(m, s, p);
        ScanIsReachability(m, s, s[n].fields[i].ty, {});
        assert Needs(m, s, s[n].fields[i].ty);
      }
    }
    if n in s {
      forall i | 0 <= i < |s[n].fields| && (FieldHit(m, s[n].fields[i]) || Needs(m, s, s[n].fields[i].ty))
        ensures Needs(m, s, ty)
      {
        var f := s[n].fields[i];
        ScanIsReachability(m, s, f.ty, {});
        if FieldIsHit(m, f) {
          assert HitPath(m, s, [n], {}) && [n][0] == n;
        } else {
          var k :| k in Mentions(m, f.ty) && NameReaches(m, s, k, {});
          var p :| HitPath(m, s, p, {}) && p[0] == k;
          Prepend(m, s, n, p, {});
        }
      }
    }
  }

  lemma TailPath(m: Scan, s: Schema, p: seq<string>)
    requires HitPath(m, s, p, {}) && |p| > 1
    ensures HitPath(m, s, p[1..], {}) && NameReaches(m, s, p[1], {})
  {}

  /** The gate on a wrapper: exactly when one of the walked arguments needs it. */
  lemma {:induction false} NeedsWrapper(m: Scan, s: Schema, ty: Type)
    requires !ty.Named?
    ensures Needs(m, s, ty) <==> Leaf(m, ty) || exists i :: 0 <= i < |Kids(m, ty)| && Needs(m, s, Kids(m, ty)[i])
  {
    ScanIsReachability(m, s, ty, {});
    var kids := Kids(m, ty);
    forall i | 0 <= i < |kids| ensures Needs(m, s, kids[i]) <==> TypeReaches(m, s, kids[i], {}) {
      ScanIsReachability(m, s, kids[i], {});
    }
    WrapperReaches(m, s, ty, 0);
  }

  lemma {:induction false} WrapperReaches(m: Scan, s: Schema, ty: Type, i: nat)
    requires i <= |Kids(m, ty)|
    ensures HasLeafFrom(m, ty, i) || (exists n :: n in MentionsFrom(m, ty, i) && NameReaches(m, s, n, {}))
            <==> exists j :: i <= j < |Kids(m, ty)| && TypeReaches(m, s, Kids(m, ty)[j], {})
    decreases |Kids(m, ty)| - i
  {
    if i < |Kids(m, ty)| {
      WrapperReaches(m, s, ty, i + 1);
    }
  }

  // ------------------------------------------------------ what the Python scans find

  /** What must not be left in a dumped body, by the scan that looks for it. */
  predicate ForcesJson(m: Scan, leaf: Type) {
    match m
    case UsesDateTime => leaf == DateTime
    case UsesUuid => leaf == Uuid
    case UsesDecimal => leaf == Decimal || leaf == Money
    case NeedsValidation => false
  }

  /**
   * `names` leads from struct to struct, by fields whose types contain the next, to a field
   * type that contains `leaf`.
   */
  ghost predicate FieldPath(s: Schema, ty: Type, names: seq<string>, leaf: Type)
    decreases |names|
  {
    if names == [] then Contains(ty, leaf)
    else
      && Contains(ty, Named(names[0])) && names[0] in s
      && exists i :: 0 <= i < |s[names[0]].fields| && FieldPath(s, s[names[0]].fields[i].ty, names[1..], leaf)
  }

  ghost predicate LeadsToLeaf(m: Scan, s: Schema, ty: Type, names: seq<string>) {
    exists leaf :: ForcesJson(m, leaf) && FieldPath(s, ty, names, leaf)
  }

  lemma {:induction false} HasLeafIsContains(m: Scan, ty: Type)
    requires !m.NeedsValidation?
    ensures HasLeaf(m, ty) <==> exists leaf :: ForcesJson(m, leaf) && Contains(ty, leaf)
    decreases ty
  {
    forall leaf ensures Contains(ty, leaf) <==>
                        ty == leaf || (ty.Generic? && exists i :: 0 <= i < |ty.args| && Contains(ty.args[i], leaf))
    {
      ContainsInArgs(ty, leaf);
    }
    forall i | 0 <= i < |Kids(m, ty)|
      ensures HasLeaf(m, Kids(m, ty)[i]) <==> exists leaf :: ForcesJson(m, leaf) && Contains(Kids(m, ty)[i], leaf)
    {
      HasLeafIsContains(m, Kids(m, ty)[i]);
    }
    HasLeafAnywhere(m, ty, 0);
    if HasLeaf(m, ty) {
      if Leaf(m, ty) {
        assert ForcesJson(m, ty) && Contains(ty, ty);
      } else {
        var i :| 0 <= i < |Kids(m, ty)| && HasLeaf(m, Kids(m, ty)[i]);
        var leaf :| ForcesJson(m, leaf) && Contains(Kids(m, ty)[i], leaf);
        assert Contains(ty, leaf);
      }
    }
    if leaf :| ForcesJson(m, leaf) && Contains(ty, leaf) && ty != leaf {
      var i :| 0 <= i < |ty.args| && Contains(ty.args[i], leaf);
      assert Kids(m, ty)[i] == ty.args[i] && HasLeaf(m, Kids(m, ty)[i]);
    }
  }

  lemma {:induction false} HasLeafAnywhere(m: Scan, ty: Type, i: nat)
    requires i <= |Kids(m, ty)|
    ensures HasLeafFrom(m, ty, i) <==> exists j :: i <= j < |Kids(m, ty)| && HasLeaf(m, Kids(m, ty)[j])
    decreases |Kids(m, ty)| - i
  {
    if i < |Kids(m, ty)| { HasLeafAnywhere(m, ty, i + 1); }
  }

  lemma {:induction false} MentionsIsContains(m: Scan, ty: Type, n: string)
    requires !m.NeedsValidation?
    ensures n in Mentions(m, ty) <==> Contains(ty, Named(n))
    decreases ty
  {
    ContainsInArgs(ty, Named(n));
    forall i | 0 <= i < |Kids(m, ty)| ensures n in Mentions(m, Kids(m, ty)[i]) <==> Contains(Kids(m, ty)[i], Named(n)) {
      MentionsIsContains(m, Kids(m, ty)[i], n);
    }
    MentionsAnywhere(m, ty, 0, n);
  }

  lemma {:induction false} MentionsAnywhere(m: Scan, ty: Type, i: nat, n: string)
    requires i <= |Kids(m, ty)|
    ensures n in MentionsFrom(m, ty, i) <==> exists j :: i <= j < |Kids(m, ty)| && n in Mentions(m, Kids(m, ty)[j])
    decreases |Kids(m, ty)| - i
  {
    if i < |Kids(m, ty)| { MentionsAnywhere(m, ty, i + 1, n); }
  }

  /** From a type that mentions its first struct, a hitting path leads to a leaf, and a path to a leaf hits. */
  lemma {:induction false} HitLeads(m: Scan, s: Schema, ty: Type, p: seq<string>)
    requires !m.NeedsValidation? && p != []
    ensures p[0] in Mentions(m, ty) && HitPath(m, s, p, {}) <==> LeadsToLeaf(m, s, ty, p)
    decreases |p|
  {
    MentionsIsContains(m, ty, p[0]);
    if p[0] !in s {
      assert HitPath(m, s, p, {}) && |p| > 1 ==> Edge(m, s, p[0], p[0 + 1]);
    } else {
      var fields := s[p[0]].fields;
      forall i | 0 <= i < |fields|
        ensures FieldIsHit(m, fields[i]) <==> LeadsToLeaf(m, s, fields[i].ty, [])
        ensures |p| > 1 ==>
          (p[1] in Mentions(m, fields[i].ty) && HitPath(m, s, p[1..], {}) <==> LeadsToLeaf(m, s, fields[i].ty, p[1..]))
      {
        HasLeafIsContains(m, fields[i].ty);
        if |p| > 1 { HitLeads(m, s, fields[i].ty, p[1..]); }
      }
      HitStep(m, s, p);
      LeadsStep(m, s, ty, p);
    }
  }

  lemma HitStep(m: Scan, s: Schema, p: seq<string>)
    requires p != [] && p[0] in s
    ensures HitPath(m, s, p, {}) <==>
            if |p| == 1 then StructIsHit(m, s, p[0]) else Edge(m, s, p[0], p[1]) && HitPath(m, s, p[1..], {})
  {
    if |p| > 1 {
      var q := p[1..];
      assert forall i :: 0 <= i < |q| ==> q[i] == p[i + 1];
      if HitPath(m, s, p, {}) {
        assert Edge(m, s, p[0], p[0 + 1]);
        forall i | 0 <= i < |q| - 1 ensures Edge(m, s, q[i], q[i + 1]) { assert Edge(m, s, p[i + 1], p[i + 1 + 1]); }
      }
      if Edge(m, s, p[0], p[1]) && HitPath(m, s, q, {}) {
        forall i | 0 <= i < |p| - 1 ensures Edge(m, s, p[i], p[i + 1]) {
          if i > 0 { assert Edge(m, s, q[i - 1], q[i - 1 + 1]); }
        }
      }
    }
  }

  lemma LeadsStep(m: Scan, s: Schema, ty: Type, p: seq<string>)
    requires p != [] && p[0] in s
    ensures LeadsToLeaf(m, s, ty, p) <==>
            && Contains(ty, Named(p[0]))
            && exists i :: 0 <= i < |s[p[0]].fields| && LeadsToLeaf(m, s, s[p[0]].fields[i].ty, p[1..])
  {}

  /**
   * Each Python scan hits exactly when some path of struct fields, through any
   * generic arguments, ends at a field type that contains what the scan is for.
   */
  lemma PythonScanFinds(m: Scan, s: Schema, ty: Type)
    requires !m.NeedsValidation?
    ensures ScanType(m, s, ty, {}).hit <==> exists names :: LeadsToLeaf(m, s, ty, names)
  {
    ScanIsReachability(m, s, ty, {});
    HasLeafIsContains(m, ty);
    forall p: seq<string> | p != []
      ensures p[0] in Mentions(m, ty) && HitPath(m, s, p, {}) <==> LeadsToLeaf(m, s, ty, p)
    {
      HitLeads(m, s, ty, p);
    }
    assert HasLeaf(m, ty) <==> LeadsToLeaf(m, s, ty, []);
    if n :| n in Mentions(m, ty) && NameReaches(m, s, n, {}) {
      var p :| HitPath(m, s, p, {}) && p[0] == n;
      assert LeadsToLeaf(m, s, ty, p);
    }
    if p :| LeadsToLeaf(m, s, ty, p) && p != [] {
      assert NameReaches(m, s, p[0], {});
    }
  }

  /** A struct with one `DateTime` field is found by the scan for `DateTime` and by no other. */
  lemma DateTimeFieldFound()
    ensures var s := map["Event" := StructInfo([Field("at", DateTime, None, false)], false, false)];
            && ScanType(UsesDateTime, s, Named("Event"), {}).hit
            && !ScanType(UsesUuid, s, Named("Event"), {}).hit && !ScanType(UsesDecimal, s, Named("Event"), {}).hit
  {
    var s := map["Event" := StructInfo([Field("at", DateTime, None, false)], false, false)];
    assert s["Event"].fields[0].ty == DateTime;
    forall m ensures Needs(m, s, Named("Event")) <==> Needs(m, s, DateTime) { NeedsStruct(m, s, "Event"); }
    forall m ensures Needs(m, s, DateTime) <==> Leaf(m, DateTime) { NeedsWrapper(m, s, DateTime); }
  }
}
