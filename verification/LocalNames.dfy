// Names for the locals of a generated Go method, kept apart from the user's
// parameter identifiers and from one another.
//
// Each local has a preferred name.  While a parameter has the name it gets another
// underscore; the choices are made one by one, each looking at the parameters and at
// the names chosen before it.
module LocalNames {
  // Parameter names as they appear in the generated signature.
  datatype Endpoint = Endpoint(pathParams: seq<string>, hasBody: bool, queryParams: seq<string>, headers: seq<string>)

  ghost function ParamIdents(ep: Endpoint): set<string> {
    (set x | x in ep.pathParams) + (if ep.hasBody then {"body"} else {}) + (set x | x in ep.queryParams)
        + (set x | x in ep.headers)
  }

  method EndpointParamIdents(ep: Endpoint) returns (taken: set<string>)
    ensures taken == ParamIdents(ep)
  {
    taken := {};
    for i := 0 to |ep.pathParams|
      invariant forall x :: x in taken <==> x in ep.pathParams[..i]
    {
      taken := taken + {ep.pathParams[i]};
    }
    if ep.hasBody {
      taken := taken + {"body"};
    }
    ghost var before := taken;
    for i := 0 to |ep.queryParams|
      invariant forall x :: x in taken <==> x in before || x in ep.queryParams[..i]
    {
      taken := taken + {ep.queryParams[i]};
    }
    before := taken;
    for i := 0 to |ep.headers|
      invariant forall x :: x in taken <==> x in before || x in ep.headers[..i]
    {
      taken := taken + {ep.headers[i]};
    }
  }

  /** `s` with `n` underscores after it. */
  function Padded(s: string, n: nat): string { if n == 0 then s else Padded(s, n - 1) + "_" }

  /** `name` is `preferred` with the fewest underscores that keep it out of `taken`. */
  ghost predicate Picked(name: string, preferred: string, taken: set<string>) {
    && name !in taken
    && exists n: nat :: name == Padded(preferred, n) && forall m: nat :: m < n ==> Padded(preferred, m) in taken
  }

  lemma PickedUnique(a: string, b: string, preferred: string, taken: set<string>)
    requires Picked(a, preferred, taken) && Picked(b, preferred, taken)
    ensures a == b
  {}

  /** The names still in the way of a candidate of length `n`. */
  ghost function LongNames(taken: set<string>, n: nat): set<string> { set x | x in taken && |x| >= n }

  method PickFreeLocal(preferred: string, taken: set<string>) returns (name: string)
    ensures Picked(name, preferred, taken)
    ensures preferred !in taken ==> name == preferred
  {
    name := preferred;
    ghost var n: nat := 0;
    while name in taken
      invariant name == Padded(preferred, n) && forall m: nat :: m < n ==> Padded(preferred, m) in taken
      decreases LongNames(taken, |name|)
    {
      assert name in LongNames(taken, |name|) && name !in LongNames(taken, |name| + 1);
      assert LongNames(taken, |name| + 1) <= LongNames(taken, |name|);
      name := name + "_";
      n := n + 1;
    }
  }

  // The scope whose names are spoken for.
  class Scope {
    var taken: set<string>

    constructor (taken: set<string>)
      ensures this.taken == taken
    {
      this.taken := taken;
    }

    method Pick(preferred: string) returns (name: string)
      modifies this
      ensures Picked(name, preferred, old(taken)) && taken == old(taken) + {name}
    {
      name := PickFreeLocal(preferred, taken);
      taken := taken + {name};
    }
  }

  predicate NoTail(s: string) { s != "" && s[|s| - 1] != '_' }

  /** Underscores cannot turn one preferred name into another. */
  lemma {:induction false} PaddedApart(a: string, b: string, n: nat, m: nat)
    requires NoTail(a) && NoTail(b) && Padded(a, n) == Padded(b, m)
    ensures a == b && n == m
  {
    if n > 0 && m > 0 {
      var x, y := Padded(a, n - 1), Padded(b, m - 1);
      assert (x + "_")[..|x|] == x && (y + "_")[..|y|] == y;
      PaddedApart(a, b, n - 1, m - 1);
    }
  }

  /** `x` is a fallback of some other preferred name. */
  ghost predicate FallbackOfOther(x: string, preferred: string) {
    exists p: string, k: nat :: NoTail(p) && p != preferred && x == Padded(p, k)
  }

  /** Locals chosen for other preferred names do not influence a choice. */
  lemma PickedIgnoresOthers(name: string, preferred: string, taken: set<string>, params: set<string>)
    requires NoTail(preferred) && Picked(name, preferred, taken) && params <= taken
    requires forall x :: x in taken && x !in params ==> FallbackOfOther(x, preferred)
    ensures Picked(name, preferred, params)
  {
    var n: nat :| name == Padded(preferred, n) && forall m: nat :: m < n ==> Padded(preferred, m) in taken;
    forall m: nat | m < n ensures Padded(preferred, m) in params {
      var x := Padded(preferred, m);
      if x !in params {
        var p: string, k: nat :| NoTail(p) && p != preferred && x == Padded(p, k);
        PaddedApart(preferred, p, m, k);
      }
    }
  }

  // recv, url, query, data, req, resp, result, buf, writer
  const PREFERRED: seq<string> := ["c", "u", "q", "data", "req", "resp", "result", "buf", "writer"]

  lemma PreferredApart()
    ensures forall i :: 0 <= i < |PREFERRED| ==> NoTail(PREFERRED[i])
    ensures forall i, j :: 0 <= i < j < |PREFERRED| ==> PREFERRED[i] != PREFERRED[j]
  {
    assert forall i, j :: 0 <= i < j < |PREFERRED| ==>
        |PREFERRED[i]| != |PREFERRED[j]| || PREFERRED[i][0] != PREFERRED[j][0] || PREFERRED[i][2] != PREFERRED[j][2];
  }

  datatype ClientLocals = ClientLocals(recv: string, url: string, query: string, data: string, req: string,
                                       resp: string, result: string, buf: string, writer: string)

  function NamesOf(c: ClientLocals): seq<string> {
    [c.recv, c.url, c.query, c.data, c.req, c.resp, c.result, c.buf, c.writer]
  }

  /**
   * The nine locals of a client method. They clash neither with a parameter nor
   * with each other, and each depends on the parameters alone: it is its preferred
   * name with the fewest underscores that keep it apart from them.
   */
  method NewClientLocals(ep: Endpoint) returns (c: ClientLocals)
    ensures var taken := ParamIdents(ep);
            && Picked(c.recv, "c", taken) && Picked(c.url, "u", taken) && Picked(c.query, "q", taken)
            && Picked(c.data, "data", taken) && Picked(c.req, "req", taken) && Picked(c.resp, "resp", taken)
            && Picked(c.result, "result", taken) && Picked(c.buf, "buf", taken) && Picked(c.writer, "writer", taken)
    ensures forall i :: 0 <= i < 9 ==> NamesOf(c)[i] !in ParamIdents(ep)
    ensures forall i, j :: 0 <= i < j < 9 ==> NamesOf(c)[i] != NamesOf(c)[j]
    ensures forall i :: 0 <= i < 9 ==> (NamesOf(c)[i] == PREFERRED[i] <==> PREFERRED[i] !in ParamIdents(ep))
  {
    var names := PickLocals(ep);
    c := ClientLocals(names[0], names[1], names[2], names[3], names[4], names[5], names[6], names[7], names[8]);
    assert NamesOf(c) == names;
  }

  /** Picks them in `PREFERRED` order; each keeps its preferred name unless a parameter has it. */
  method PickLocals(ep: Endpoint) returns (locals: seq<string>)
    ensures |locals| == |PREFERRED|
    ensures forall i :: 0 <= i < |locals| ==> Picked(locals[i], PREFERRED[i], ParamIdents(ep))
    ensures forall i :: 0 <= i < |locals| ==> locals[i] !in ParamIdents(ep)
    ensures forall i :: 0 <= i < |locals| ==> (locals[i] == PREFERRED[i] <==> PREFERRED[i] !in ParamIdents(ep))
    ensures forall i, j :: 0 <= i < j < |locals| ==> locals[i] != locals[j]
  {
    var taken := EndpointParamIdents(ep);
    ghost var params := taken;
    var scope := new Scope(taken);
    locals := [];
    PreferredApart();
    for i := 0 to |PREFERRED|
      invariant fresh(scope) && |locals| == i
      invariant forall x :: x in scope.taken <==> x in params || x in locals
      invariant forall j :: 0 <= j < i ==> Picked(locals[j], PREFERRED[j], params)
      invariant forall j, k :: 0 <= j < k < i ==> locals[j] != locals[k]
    {
      ghost var before := scope.taken;
      var name := scope.Pick(PREFERRED[i]);
      forall x | x in before && x !in params ensures FallbackOfOther(x, PREFERRED[i]) {
        var j :| 0 <= j < i && locals[j] == x;
        var k: nat :| x == Padded(PREFERRED[j], k);
      }
      PickedIgnoresOthers(name, PREFERRED[i], before, params);
      locals := locals + [name];
    }
    forall i | 0 <= i < |locals| ensures locals[i] == PREFERRED[i] <==> PREFERRED[i] !in params {
      if PREFERRED[i] !in params {
        assert Padded(PREFERRED[i], 0) == PREFERRED[i];
        assert Picked(PREFERRED[i], PREFERRED[i], params);
        PickedUnique(locals[i], PREFERRED[i], PREFERRED[i], params);
      }
    }
  }
}
