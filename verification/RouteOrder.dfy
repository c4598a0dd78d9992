// Router registration order: a stable sort of the endpoints by the specificity key
// of their paths; the first one of the request's method that matches its path wins.
module RouteOrder {
  import opened MergeSort

  datatype Verb = Get | Post | Put | Patch | Delete

  // An endpoint, as far as registration and matching look at it.
  datatype Route = Route(name: string, verb: Verb, path: string)

  // A request, its path by segments.
  datatype Request = Request(verb: Verb, path: seq<string>)

  // ------------------------------------------------------------ key of a path

  /** The non-empty pieces between slashes. */
  function Segments(path: string): seq<string> { SegmentsFrom(path, "") }

  function SegmentsFrom(path: string, piece: string): seq<string> {
    if path == "" then Keep(piece)
    else if path[0] == '/' then Keep(piece) + SegmentsFrom(path[1..], "")
    else SegmentsFrom(path[1..], piece + [path[0]])
  }

  function Keep(piece: string): seq<string> { if piece == "" then [] else [piece] }

  /** Slashes separate: what stands on both sides of one contributes its own segments. */
  lemma {:induction false} SegmentsSplit(a: string, b: string, piece: string)
    ensures SegmentsFrom(a + "/" + b, piece) == SegmentsFrom(a, piece) + Segments(b)
    decreases |a|
  {
    if a == "" {
      assert (a + "/" + b)[1..] == b;
    } else {
      assert (a + "/" + b)[0] == a[0] && (a + "/" + b)[1..] == a[1..] + "/" + b;
      if a[0] == '/' { SegmentsSplit(a[1..], b, ""); } else { SegmentsSplit(a[1..], b, piece + [a[0]]); }
    }
  }

  lemma {:induction false} SegmentsOfPiece(a: string, piece: string)
    requires '/' !in a
    ensures SegmentsFrom(a, piece) == if piece + a == "" then [] else [piece + a]
    decreases |a|
  {
    if a == "" {
      assert piece + a == piece;
    } else {
      assert '/' !in a[1..] && piece + a == (piece + [a[0]]) + a[1..];
      SegmentsOfPiece(a[1..], piece + [a[0]]);
    }
  }

  /** The segments of a written path, in two laws that determine them. */
  lemma SegmentLaws(a: string, b: string)
    ensures Segments(a + "/" + b) == Segments(a) + Segments(b)
    ensures '/' !in a ==> Segments(a) == if a == "" then [] else [a]
  {
    SegmentsSplit(a, b, "");
    if '/' !in a {
      assert "" + a == a;
      SegmentsOfPiece(a, "");
    }
  }

  predicate IsParam(seg: string) { seg != "" && seg[0] == '{' }

  /** 0 for a literal segment, 1 for a parameter. */
  function KeyOf(segs: seq<string>): seq<nat> {
    seq(|segs|, i requires 0 <= i < |segs| => if IsParam(segs[i]) then 1 else 0)
  }

  function RouteKey(r: Route): seq<nat> { KeyOf(Segments(r.path)) }

  /** Lexicographic comparison of keys; a proper prefix sorts first. */
  function CompareKeys(a: seq<nat>, b: seq<nat>): int {
    if a == [] then (if b == [] then 0 else -1)
    else if b == [] then 1
    else if a[0] < b[0] then -1
    else if a[0] > b[0] then 1
    else CompareKeys(a[1..], b[1..])
  }

  function CompareRoutes(p: Route, q: Route): int { CompareKeys(RouteKey(p), RouteKey(q)) }

  lemma {:induction false} KeysTotal(a: seq<nat>, b: seq<nat>)
    ensures CompareKeys(a, b) <= 0 || CompareKeys(b, a) <= 0
    ensures CompareKeys(a, b) <= 0 && CompareKeys(b, a) <= 0 ==> a == b
    decreases |a|
  {
    if a != [] && b != [] {
      KeysTotal(a[1..], b[1..]);
      assert a == [a[0]] + a[1..] && b == [b[0]] + b[1..];
    }
  }

  lemma {:induction false} KeysTransitive(a: seq<nat>, b: seq<nat>, c: seq<nat>)
    requires CompareKeys(a, b) <= 0 && CompareKeys(b, c) <= 0
    ensures CompareKeys(a, c) <= 0
    decreases |a|
  {
    if a != [] && b != [] && c != [] && a[0] == b[0] == c[0] {
      KeysTransitive(a[1..], b[1..], c[1..]);
    }
  }

  /** At the first difference the smaller entry sorts first, and a proper prefix before what it begins. */
  lemma {:induction false} KeysLexicographic(p: seq<nat>, x: nat, y: nat, a: seq<nat>, b: seq<nat>)
    ensures x < y ==> CompareKeys(p + [x] + a, p + [y] + b) < 0
    ensures CompareKeys(p, p + [x] + a) < 0
    decreases |p|
  {
    if p != [] {
      var p' := p[1..];
      KeysLexicographic(p', x, y, a, b);
      assert (p + [x] + a)[1..] == p' + [x] + a && (p + [y] + b)[1..] == p' + [y] + b;
    }
  }

  lemma RoutesPreordered()
    ensures TotalPreorder(CompareRoutes)
  {
    forall p, q ensures Le(CompareRoutes, p, q) || Le(CompareRoutes, q, p) {
      KeysTotal(RouteKey(p), RouteKey(q));
    }
    forall p, q, r | Le(CompareRoutes, p, q) && Le(CompareRoutes, q, r) ensures Le(CompareRoutes, p, r) {
      KeysTransitive(RouteKey(p), RouteKey(q), RouteKey(r));
    }
  }

  // ---------------------------------------------------------------- matching

  /** A request path, by segments: literals match themselves, a parameter matches anything. */
  predicate Matches(route: seq<string>, request: seq<string>) {
    |route| == |request| && forall i :: 0 <= i < |route| ==> IsParam(route[i]) || route[i] == request[i]
  }

  /** `a` is at least as specific as `b` at every position. */
  predicate Specialises(a: seq<string>, b: seq<string>) {
    |a| == |b| && forall i :: 0 <= i < |a| ==> IsParam(b[i]) || (!IsParam(a[i]) && a[i] == b[i])
  }

  predicate StrictlySpecialises(a: seq<string>, b: seq<string>) { Specialises(a, b) && !Specialises(b, a) }

  /** Segment by segment: a parameter takes anything, a literal itself. */
  lemma MatchLaws(route: seq<string>, seg: string, request: seq<string>, piece: string)
    ensures Matches(route + [seg], request + [piece]) <==> Matches(route, request) && (IsParam(seg) || seg == piece)
    ensures Matches([], request) <==> request == []
  {
    assert forall i :: 0 <= i < |route| ==> (route + [seg])[i] == route[i];
    assert forall i :: 0 <= i < |request| ==> (request + [piece])[i] == request[i];
    assert (route + [seg])[|route|] == seg && (request + [piece])[|request|] == piece;
  }

  /** A request that tells `a` from `b`: what is free in `a` differs from `b`. */
  function Witness(a: seq<string>, b: seq<string>): seq<string> {
    seq(|a|, i requires 0 <= i < |a| =>
      if !IsParam(a[i]) then a[i] else if i < |b| then b[i] + "x" else a[i])
  }

  /** Specialising is exactly matching nothing but what the other route matches. */
  lemma SpecialisesIff(a: seq<string>, b: seq<string>)
    ensures Specialises(a, b) <==> forall request :: Matches(a, request) ==> Matches(b, request)
  {
    var w := Witness(a, b);
    assert Matches(a, w);
    if forall request :: Matches(a, request) ==> Matches(b, request) {
      assert Matches(b, w);
      forall i | 0 <= i < |a| ensures IsParam(b[i]) || (!IsParam(a[i]) && a[i] == b[i]) {
        assert w[i] == if IsParam(a[i]) then b[i] + "x" else a[i];
        assert |b[i] + "x"| != |b[i]|;
      }
    }
    forall request | Specialises(a, b) && Matches(a, request) ensures Matches(b, request) {
      SpecialisedMatchesLess(a, b, request);
    }
  }

  /** Specialising means matching less. */
  lemma {:induction false} SpecialisedMatchesLess(a: seq<string>, b: seq<string>, request: seq<string>)
    requires Specialises(a, b) && Matches(a, request)
    ensures Matches(b, request)
  {}

  lemma {:induction false} SpecialisedKeySmaller(a: seq<string>, b: seq<string>)
    requires Specialises(a, b)
    ensures CompareKeys(KeyOf(a), KeyOf(b)) <= 0
    ensures CompareKeys(KeyOf(a), KeyOf(b)) == 0 ==> Specialises(b, a)
    decreases |a|
  {
    if a != [] {
      var a', b' := a[1..], b[1..];
      assert KeyOf(a)[1..] == KeyOf(a') && KeyOf(b)[1..] == KeyOf(b');
      assert IsParam(b[0]) || (!IsParam(a[0]) && a[0] == b[0]);
      forall i | 0 <= i < |a'| ensures IsParam(b'[i]) || (!IsParam(a'[i]) && a'[i] == b'[i]) {
        assert a'[i] == a[i + 1] && b'[i] == b[i + 1];
      }
      SpecialisedKeySmaller(a', b');
      if CompareKeys(KeyOf(a), KeyOf(b)) == 0 {
        forall i | 0 <= i < |a| ensures IsParam(a[i]) || (!IsParam(b[i]) && a[i] == b[i]) {
          if i > 0 { assert a[i] == a'[i - 1] && b[i] == b'[i - 1]; }
        }
      }
    }
  }

  lemma StrictKeySmaller(a: seq<string>, b: seq<string>)
    requires StrictlySpecialises(a, b)
    ensures CompareKeys(KeyOf(b), KeyOf(a)) > 0
  {
    SpecialisedKeySmaller(a, b);
    KeysTotal(KeyOf(a), KeyOf(b));
    if CompareKeys(KeyOf(b), KeyOf(a)) <= 0 {
      KeyReflexive(KeyOf(a));
    }
  }

  lemma {:induction false} KeyReflexive(a: seq<nat>)
    ensures CompareKeys(a, a) == 0
    decreases |a|
  {
    if a != [] { KeyReflexive(a[1..]); }
  }

  // -------------------------------------------------------------- registration

  /** The route answers the request: same method, matching path. */
  predicate Answers(r: Route, req: Request) { r.verb == req.verb && Matches(Segments(r.path), req.path) }

  /** Of two routes of one method, `p` answers strictly less by its path. */
  predicate MoreSpecific(p: Route, q: Route) {
    p.verb == q.verb && StrictlySpecialises(Segments(p.path), Segments(q.path))
  }

  /** Registration order of the generated router. */
  method OrderRoutes(routes: seq<Route>) returns (ordered: seq<Route>)
    ensures StableSortOf(CompareRoutes, ordered, routes)
    ensures multiset(ordered) == multiset(routes)
  {
    var cmp: (nat, Route, Route) -> Answer<()> := (_, p, q) => Ok(CompareRoutes(p, q));
    var run := MergeSortBy(cmp, routes);
    RoutesPreordered();
    SortIsStable(cmp, CompareRoutes, routes);
    SortPermutes(cmp, routes);
    ordered := run.out;
  }

  /** A route is registered before every route it strictly specialises, of whichever method. */
  lemma SpecificFirst(routes: seq<Route>, ordered: seq<Route>, i: nat, j: nat)
    requires StableSortOf(CompareRoutes, ordered, routes) && i < |ordered| && j < |ordered|
    requires StrictlySpecialises(Segments(ordered[i].path), Segments(ordered[j].path))
    ensures i < j
  {
    KeyReflexive(RouteKey(ordered[i]));
    StrictKeySmaller(Segments(ordered[i].path), Segments(ordered[j].path));
  }

  /** The index of the route a first-registered-wins router picks, or the number of routes. */
  function FirstMatch(ordered: seq<Route>, req: Request): (k: nat)
    ensures k <= |ordered|
    ensures k < |ordered| ==> ordered[k].verb == req.verb && Matches(Segments(ordered[k].path), req.path)
    ensures forall j :: 0 <= j < k ==> !Answers(ordered[j], req)
  {
    if ordered == [] || Answers(ordered[0], req) then 0 else 1 + FirstMatch(ordered[1..], req)
  }

  /** The picked route is never strictly more general than another one that answers the request. */
  lemma FirstMatchIsMaximallySpecific(routes: seq<Route>, ordered: seq<Route>, req: Request, r: Route)
    requires StableSortOf(CompareRoutes, ordered, routes) && multiset(ordered) == multiset(routes)
    requires r in routes && Answers(r, req)
    ensures var k := FirstMatch(ordered, req);
            k < |ordered| && ordered[k] in routes && Answers(ordered[k], req) && !MoreSpecific(r, ordered[k])
  {
    assert r in multiset(ordered);
    var j :| 0 <= j < |ordered| && ordered[j] == r;
    var k := FirstMatch(ordered, req);
    assert ordered[k] in multiset(ordered);
    if MoreSpecific(r, ordered[k]) {
      SpecificFirst(routes, ordered, j, k);
    }
  }

  /** `p` answers at most what `q` answers, judged by their patterns. */
  predicate AtLeastAsSpecific(p: Route, q: Route) {
    p.verb == q.verb && Specialises(Segments(p.path), Segments(q.path))
  }

  /** The routes answering a request are pairwise comparable. */
  predicate Comparable(routes: seq<Route>, req: Request) {
    forall p, q :: p in routes && q in routes && Answers(p, req) && Answers(q, req) ==>
      AtLeastAsSpecific(p, q) || AtLeastAsSpecific(q, p)
  }

  /** No two routes have the same method and the same pattern up to the names of parameters. */
  predicate NoCollision(routes: seq<Route>) {
    forall p, q :: p in routes && q in routes && AtLeastAsSpecific(p, q) && AtLeastAsSpecific(q, p) ==> p == q
  }

  /** Among comparable routes the picked one is the most specific of all that answer the request. */
  lemma FirstMatchIsMostSpecific(routes: seq<Route>, ordered: seq<Route>, req: Request, r: Route)
    requires StableSortOf(CompareRoutes, ordered, routes) && multiset(ordered) == multiset(routes)
    requires Comparable(routes, req) && r in routes && Answers(r, req)
    ensures var k := FirstMatch(ordered, req);
            && k < |ordered| && ordered[k] in routes && Answers(ordered[k], req) && AtLeastAsSpecific(ordered[k], r)
            && forall other :: Answers(ordered[k], other) ==> Answers(r, other)
  {
    FirstMatchIsMaximallySpecific(routes, ordered, req, r);
    var pick := ordered[FirstMatch(ordered, req)];
    assert AtLeastAsSpecific(pick, r) || AtLeastAsSpecific(r, pick);
    SpecialisesIff(Segments(pick.path), Segments(r.path));
  }

  /** Then the order in which the source declares its endpoints does not matter. */
  lemma PickIgnoresSourceOrder(routes: seq<Route>, ordered: seq<Route>, routes': seq<Route>, ordered': seq<Route>,
                               req: Request)
    requires StableSortOf(CompareRoutes, ordered, routes) && multiset(ordered) == multiset(routes)
    requires StableSortOf(CompareRoutes, ordered', routes') && multiset(ordered') == multiset(routes')
    requires multiset(routes) == multiset(routes') && Comparable(routes, req) && NoCollision(routes)
    requires exists r :: r in routes && Answers(r, req)
    ensures var k, k' := FirstMatch(ordered, req), FirstMatch(ordered', req);
            k < |ordered| && k' < |ordered'| && ordered[k] == ordered'[k']
  {
    assert forall r :: r in routes <==> r in multiset(routes);
    assert forall r :: r in routes' <==> r in multiset(routes');
    var r :| r in routes && Answers(r, req);
    FirstMatchIsMostSpecific(routes, ordered, req, r);
    FirstMatchIsMostSpecific(routes', ordered', req, r);
    FirstMatchIsMostSpecific(routes, ordered, req, ordered'[FirstMatch(ordered', req)]);
    FirstMatchIsMostSpecific(routes', ordered', req, ordered[FirstMatch(ordered, req)]);
  }

  /** The routes with one key, in order. */
  function WithKey(key: seq<nat>, routes: seq<Route>): seq<Route> {
    if routes == [] then [] else (if RouteKey(routes[0]) == key then [routes[0]] else []) + WithKey(key, routes[1..])
  }

  lemma {:induction false} TiesAreWithKey(r: Route, routes: seq<Route>)
    ensures Ties(CompareRoutes, r, routes) == WithKey(RouteKey(r), routes)
  {
    if routes != [] {
      TiesAreWithKey(r, routes[1..]);
      KeysTotal(RouteKey(r), RouteKey(routes[0]));
      KeyReflexive(RouteKey(r));
    }
  }

  lemma {:induction false} SomeWithKey(key: seq<nat>, routes: seq<Route>)
    requires WithKey(key, routes) != []
    ensures RouteKey(WithKey(key, routes)[0]) == key
  {
    if RouteKey(routes[0]) != key { SomeWithKey(key, routes[1..]); }
  }

  /**
   * Routes of equal key keep their source order: of each key the same routes stand in both
   * lists, in the same order.
   */
  lemma EqualKeysKeepSourceOrder(routes: seq<Route>, ordered: seq<Route>, key: seq<nat>)
    requires StableSortOf(CompareRoutes, ordered, routes)
    ensures WithKey(key, ordered) == WithKey(key, routes)
  {
    var found := WithKey(key, ordered) + WithKey(key, routes);
    if found != [] {
      if WithKey(key, ordered) != [] { SomeWithKey(key, ordered); } else { SomeWithKey(key, routes); }
      TiesAreWithKey(found[0], ordered);
      TiesAreWithKey(found[0], routes);
    }
  }

  lemma UnderPosts(last: string)
    requires last != "" && '/' !in last
    ensures Segments("/api/posts" + "/" + last) == ["api", "posts", last]
  {
    SegmentLaws("/api/posts", last);
    SegmentLaws(last, "");
    assert "/api/posts" == "/api" + "/" + "posts" && "/api" == "" + "/" + "api";
    SegmentLaws("/api", "posts");
    SegmentLaws("posts", "");
    SegmentLaws("", "api");
    SegmentLaws("api", "");
  }

  /**
   * The documented pair: the literal route has the key `[0, 0, 0]`, and the parametric
   * one `[0, 0, 1]`, which sorts later.
   */
  lemma DocumentedKeys(name: string, verb: Verb)
    ensures var paged := Route(name, verb, "/api/posts" + "/" + "paged");
            var id := Route(name, verb, "/api/posts" + "/" + "{id}");
            RouteKey(paged) == [0, 0, 0] && RouteKey(id) == [0, 0, 1] && CompareRoutes(paged, id) < 0
  {
    UnderPosts("paged");
    UnderPosts("{id}");
    KeysLexicographic([0, 0], 0, 1, [], []);
    assert [0, 0, 0] == [0, 0] + [0] + [] && [0, 0, 1] == [0, 0] + [1] + [];
  }

  /** The key is a heuristic: of two overlapping, incomparable routes it may pick either. */
  lemma IncomparableOverlap()
    ensures var a, b := ["a", "{x}", "c"], ["a", "b", "{y}"];
            && Matches(a, ["a", "b", "c"]) && Matches(b, ["a", "b", "c"])
            && !Specialises(a, b) && !Specialises(b, a) && CompareKeys(KeyOf(b), KeyOf(a)) < 0
  {
    var a, b := ["a", "{x}", "c"], ["a", "b", "{y}"];
    assert IsParam(a[1]) && !IsParam(b[1]) && IsParam(b[2]) && !IsParam(a[2]);
    assert KeyOf(a) == [0, 1, 0] && KeyOf(b) == [0, 0, 1];
    assert KeyOf(a)[1..] == [1, 0] && KeyOf(b)[1..] == [0, 1];
  }
}
