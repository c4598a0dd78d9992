// OpenAPI component schemas: dropping those no operation can reach through `$ref`s.
module Pruning {
  import opened Options

  datatype Json =
    | Null
    | Bool(b: bool)
    | Number(n: real)
    | String(s: string)
    | Array(elems: seq<Json>)
    | Object(members: seq<Member>)

  datatype Member = Member(key: string, val: Json)

  const REF_PREFIX := "#/components/schemas/"

  /** The component a reference string names. */
  function RefName(v: Json): Option<string> {
    if v.String? && REF_PREFIX <= v.s then Some(v.s[|REF_PREFIX|..]) else None
  }

  /** Component names referenced under `v`, in document order, repeats included. */
  function CollectRefs(v: Json): seq<string>
    decreases v, 0
  {
    match v
    case Object(members) => CollectMembers(members)
    case Array(elems) => CollectElems(elems)
    case _ => []
  }

  function CollectMembers(members: seq<Member>): seq<string>
    decreases members, 0
  {
    if members == [] then []
    else
      var m := members[0];
      (if m.key == "$ref" && RefName(m.val).Some? then [RefName(m.val).value] else CollectRefs(m.val))
      + CollectMembers(members[1..])
  }

  function CollectElems(elems: seq<Json>): seq<string>
    decreases elems, 0
  {
    if elems == [] then [] else CollectRefs(elems[0]) + CollectElems(elems[1..])
  }

  type Components = map<string, Json>

  // ------------------------------------------------------------ reachability

  predicate Refers(c: Components, a: string, b: string) { a in c && b in CollectRefs(c[a]) }

  /** `p` leads from a reference in `paths` through present schemas. */
  ghost predicate RefPath(paths: Json, c: Components, p: seq<string>) {
    && p != [] && p[0] in CollectRefs(paths)
    && forall i :: 0 <= i < |p| - 1 ==> Refers(c, p[i], p[i + 1])
  }

  ghost predicate Reachable(paths: Json, c: Components, n: string) {
    exists p :: RefPath(paths, c, p) && p[|p| - 1] == n
  }

  predicate NoOperations(paths: Json) { !paths.Object? || paths.members == [] }

  // ------------------------------------------------------------- the worklist

  /** `names` have joined the reachable set, the new ones among them, once each, also the queue. */
  ghost predicate Enqueued(names: seq<string>, reachable0: set<string>, queue0: seq<string>,
                           reachable: set<string>, queue: seq<string>) {
    && reachable == reachable0 + (set n | n in names)
    && queue0 <= queue && (forall n :: n in queue[|queue0|..] <==> n in names && n !in reachable0)
    && |queue| - |queue0| == |reachable - reachable0|
  }

  /** Adds each new name to the reachable set and to the queue. */
  method Enqueue(names: seq<string>, reachable0: set<string>, queue0: seq<string>)
    returns (reachable: set<string>, queue: seq<string>)
    ensures Enqueued(names, reachable0, queue0, reachable, queue)
  {
    reachable, queue := reachable0, queue0;
    for i := 0 to |names|
      invariant reachable == reachable0 + (set n | n in names[..i])
      invariant queue0 <= queue && forall n :: n in queue[|queue0|..] <==> n in names[..i] && n !in reachable0
      invariant |queue| - |queue0| == |reachable - reachable0|
    {
      var n := names[i];
      assert names[..i + 1] == names[..i] + [n];
      if n !in reachable {
        assert (reachable + {n}) - reachable0 == (reachable - reachable0) + {n};
        assert (queue + [n])[|queue0|..] == queue[|queue0|..] + [n];
        reachable := reachable + {n};
        queue := queue + [n];
      }
    }
    assert names[..|names|] == names;
  }

  /** All names a search can meet. */
  function Universe(paths: Json, c: Components): set<string> {
    (set n | n in CollectRefs(paths)) + (set a, n | a in c && n in CollectRefs(c[a]) :: n)
  }

  /** How many names a search may still find. */
  ghost function Unfound(paths: Json, c: Components, reachable: set<string>): nat { |Universe(paths, c) - reachable| }

  method Prune(paths: Json, c: Components) returns (kept: Components)
    ensures !paths.Object? || paths == Object([]) ==> kept == c
    ensures paths.Object? && paths != Object([]) ==>
      (forall n :: n in kept <==> n in c && Reachable(paths, c, n)) && (forall n :: n in kept ==> kept[n] == c[n])
  {
    if NoOperations(paths) {
      return c;
    }
    var reachable := Search(paths, c);
    return map n | n in c && n in reachable :: c[n];
  }

  /** The worklist loop. */
  method Search(paths: Json, c: Components) returns (reachable: set<string>)
    ensures forall n :: n in reachable <==> Reachable(paths, c, n)
  {
    var queue: seq<string>;
    reachable, queue := Enqueue(CollectRefs(paths), {}, []);
    FrontierStart(paths, c, reachable, queue);
    while queue != []
      invariant Frontier(paths, c, reachable, queue)
      decreases Unfound(paths, c, reachable), |queue|
    {
      reachable, queue := Explore(paths, c, reachable, queue);
    }
    FrontierDone(paths, c, reachable);
  }

  /** Takes a name off the queue and follows its references, if it is a present schema. */
  method Explore(ghost paths: Json, c: Components, reachable0: set<string>, queue0: seq<string>)
    returns (reachable: set<string>, queue: seq<string>)
    requires queue0 != [] && Frontier(paths, c, reachable0, queue0)
    ensures Frontier(paths, c, reachable, queue)
    ensures Unfound(paths, c, reachable) < Unfound(paths, c, reachable0)
            || (reachable == reachable0 && |queue| < |queue0|)
  {
    var rest, name := queue0[..|queue0| - 1], queue0[|queue0| - 1];
    assert queue0 == rest + [name];
    if name in c {
      reachable, queue := Enqueue(CollectRefs(c[name]), reachable0, rest);
      FrontierStep(paths, c, reachable0, rest, name, reachable, queue);
      Progress(paths, c, CollectRefs(c[name]), reachable0, rest, reachable, queue);
    } else {
      reachable, queue := reachable0, rest;
      FrontierDrop(paths, c, reachable, queue, name);
    }
  }

  /** Between iterations: what is found is reachable, and only queued names are unexplored. */
  ghost predicate Frontier(paths: Json, c: Components, reachable: set<string>, queue: seq<string>) {
    && reachable <= Universe(paths, c) && (set n | n in CollectRefs(paths)) <= reachable
    && (forall n :: n in queue ==> n in reachable)
    && (forall n :: n in reachable ==> Reachable(paths, c, n))
    && (forall a, b :: a in reachable && a !in queue && Refers(c, a, b) ==> b in reachable)
  }

  lemma FrontierStart(paths: Json, c: Components, reachable: set<string>, queue: seq<string>)
    requires Enqueued(CollectRefs(paths), {}, [], reachable, queue)
    ensures Frontier(paths, c, reachable, queue)
  {
    assert queue[0..] == queue;
    forall n | n in CollectRefs(paths) ensures Reachable(paths, c, n) {
      assert RefPath(paths, c, [n]) && [n][0] == n;
    }
  }

  lemma FrontierDone(paths: Json, c: Components, reachable: set<string>)
    requires Frontier(paths, c, reachable, [])
    ensures forall n :: n in reachable <==> Reachable(paths, c, n)
  {
    forall n | Reachable(paths, c, n) ensures n in reachable {
      var p :| RefPath(paths, c, p) && p[|p| - 1] == n;
      PathStaysIn(paths, c, p, reachable, |p| - 1);
    }
  }

  lemma FrontierStep(paths: Json, c: Components, before: set<string>, rest: seq<string>, name: string,
                     after: set<string>, queue: seq<string>)
    requires Frontier(paths, c, before, rest + [name]) && name in c
    requires Enqueued(CollectRefs(c[name]), before, rest, after, queue)
    ensures Frontier(paths, c, after, queue) && after <= Universe(paths, c)
  {
    var added := queue[|rest|..];
    assert queue == rest + added;
    assert name in rest + [name];
    forall n | n in CollectRefs(c[name]) ensures Reachable(paths, c, n) && n in Universe(paths, c) {
      ExtendPath(paths, c, name, n);
    }
    forall a, b | a in after && a !in queue && Refers(c, a, b) ensures b in after {
      if a != name { assert a !in rest + [name]; }
    }
  }

  lemma Progress(paths: Json, c: Components, names: seq<string>, before: set<string>, rest: seq<string>,
                 after: set<string>, queue: seq<string>)
    requires after <= Universe(paths, c) && Enqueued(names, before, rest, after, queue)
    ensures Unfound(paths, c, after) < Unfound(paths, c, before) || (after == before && |queue| == |rest|)
  {}

  lemma FrontierDrop(paths: Json, c: Components, reachable: set<string>, rest: seq<string>, name: string)
    requires Frontier(paths, c, reachable, rest + [name]) && name !in c
    ensures Frontier(paths, c, reachable, rest)
  {}

  lemma ExtendPath(paths: Json, c: Components, a: string, b: string)
    requires Reachable(paths, c, a) && Refers(c, a, b)
    ensures Reachable(paths, c, b)
  {
    var p :| RefPath(paths, c, p) && p[|p| - 1] == a;
    var q := p + [b];
    forall i | 0 <= i < |q| - 1 ensures Refers(c, q[i], q[i + 1]) {
      if i < |p| - 1 { assert q[i] == p[i] && q[i + 1] == p[i + 1]; }
    }
    assert RefPath(paths, c, q);
  }

  lemma {:induction false} PathStaysIn(paths: Json, c: Components, p: seq<string>, closed: set<string>, i: nat)
    requires RefPath(paths, c, p) && i < |p| && (set n | n in CollectRefs(paths)) <= closed
    requires forall a, b :: a in closed && Refers(c, a, b) ==> b in closed
    ensures p[i] in closed
  {
    if i > 0 {
      PathStaysIn(paths, c, p, closed, i - 1);
      assert Refers(c, p[i - 1], p[i - 1 + 1]);
    }
  }

  // ------------------------------------------------------------------- results

  /** What `Prune` keeps when there are operations. */
  ghost predicate IsPruned(paths: Json, c: Components, kept: Components) {
    && (forall n :: n in kept <==> n in c && Reachable(paths, c, n))
    && (forall n :: n in kept ==> kept[n] == c[n])
  }

  // A path of `c` that starts at a root runs through kept schemas, so it is a path of `kept`.
  lemma {:induction false} PathSurvives(paths: Json, c: Components, kept: Components, p: seq<string>)
    requires IsPruned(paths, c, kept) && RefPath(paths, c, p)
    ensures RefPath(paths, kept, p)
  {
    forall i | 0 <= i < |p| - 1 ensures Refers(kept, p[i], p[i + 1]) {
      assert Refers(c, p[i], p[i + 1]);
      var q := p[..i + 1];
      forall k | 0 <= k < |q| - 1 ensures Refers(c, q[k], q[k + 1]) {
        assert Refers(c, p[k], p[k + 1]);
      }
      assert RefPath(paths, c, q) && q[|q| - 1] == p[i];
      assert Reachable(paths, c, p[i]);
    }
  }

  /** Pruning keeps reachability as it was. */
  lemma SameReachable(paths: Json, c: Components, kept: Components, n: string)
    requires IsPruned(paths, c, kept)
    ensures Reachable(paths, kept, n) <==> Reachable(paths, c, n)
  {
    if Reachable(paths, c, n) {
      var p :| RefPath(paths, c, p) && p[|p| - 1] == n;
      PathSurvives(paths, c, kept, p);
    }
    if Reachable(paths, kept, n) {
      var p :| RefPath(paths, kept, p) && p[|p| - 1] == n;
      forall i | 0 <= i < |p| - 1 ensures Refers(c, p[i], p[i + 1]) {
        assert Refers(kept, p[i], p[i + 1]);
      }
      assert RefPath(paths, c, p);
    }
  }

  /** Pruning a pruned set removes nothing. */
  lemma PruneTwice(paths: Json, c: Components, kept: Components, again: Components)
    requires IsPruned(paths, c, kept) && IsPruned(paths, kept, again)
    ensures again == kept
  {
    forall n ensures n in again <==> n in kept {
      SameReachable(paths, c, kept, n);
    }
  }

  /** `paths` and the components refer only to present components. */
  ghost predicate Resolves(paths: Json, c: Components) {
    && (forall n :: n in CollectRefs(paths) ==> n in c)
    && (forall a, b :: Refers(c, a, b) ==> b in c)
  }

  /** References that resolved still resolve, and every schema left is reachable among those left. */
  lemma PrunedIsClosed(paths: Json, c: Components, kept: Components)
    requires IsPruned(paths, c, kept) && Resolves(paths, c)
    ensures Resolves(paths, kept)
    ensures forall n :: n in kept ==> Reachable(paths, kept, n)
  {
    forall n | n in CollectRefs(paths) ensures n in kept {
      assert RefPath(paths, c, [n]) && [n][0] == n;
    }
    forall a, b | Refers(kept, a, b) ensures b in kept {
      assert Refers(c, a, b);
      ExtendPath(paths, c, a, b);
    }
    forall n | n in kept ensures Reachable(paths, kept, n) {
      SameReachable(paths, c, kept, n);
    }
  }

  /** The kept set is the least one: any set with the roots and closed under references contains it. */
  lemma PrunedIsLeast(paths: Json, c: Components, kept: Components, closed: set<string>)
    requires IsPruned(paths, c, kept) && (set n | n in CollectRefs(paths)) <= closed
    requires forall a, b :: a in closed && Refers(c, a, b) ==> b in closed
    ensures kept.Keys <= closed
  {
    forall n | n in kept ensures n in closed {
      var p :| RefPath(paths, c, p) && p[|p| - 1] == n;
      PathStaysIn(paths, c, p, closed, |p| - 1);
    }
  }

  // ----------------------------------------------------------- what counts as a reference

  /** `n` is the target of a `$ref` member somewhere inside `v`. */
  predicate Mentions(v: Json, n: string)
    decreases v
  {
    match v
    case Object(members) =>
      exists i :: 0 <= i < |members| &&
        (Mentions(members[i].val, n)
         || (members[i].key == "$ref" && members[i].val == String("#/components/schemas/" + n)))
    case Array(elems) => exists i :: 0 <= i < |elems| && Mentions(elems[i], n)
    case _ => false
  }

  lemma {:induction false} CollectIsMentions(v: Json, n: string)
    ensures n in CollectRefs(v) <==> Mentions(v, n)
    decreases v, 0
  {
    match v
    case Object(members) => CollectMembersMention(members, n);
    case Array(elems) => CollectElemsMention(elems, n);
    case _ =>
  }

  lemma RefNameIff(v: Json, n: string)
    ensures RefName(v) == Some(n) <==> v == String("#/components/schemas/" + n)
  {
    if v == String(REF_PREFIX + n) { assert v.s[|REF_PREFIX|..] == n; }
    if RefName(v) == Some(n) { assert v.s == REF_PREFIX + n; }
  }

  predicate MemberMentions(m: Member, n: string) {
    Mentions(m.val, n) || (m.key == "$ref" && m.val == String("#/components/schemas/" + n))
  }

  lemma {:induction false} CollectMembersMention(members: seq<Member>, n: string)
    ensures n in CollectMembers(members) <==> exists i :: 0 <= i < |members| && MemberMentions(members[i], n)
    decreases members, 0
  {
    if members != [] {
      CollectIsMentions(members[0].val, n);
      RefNameIff(members[0].val, n);
      CollectMembersMention(members[1..], n);
      assert forall i :: 1 <= i < |members| ==> members[i] == members[1..][i - 1];
    }
  }

  lemma {:induction false} CollectElemsMention(elems: seq<Json>, n: string)
    ensures n in CollectElems(elems) <==> exists i :: 0 <= i < |elems| && Mentions(elems[i], n)
    decreases elems, 0
  {
    if elems != [] {
      CollectIsMentions(elems[0], n);
      CollectElemsMention(elems[1..], n);
      assert forall i :: 1 <= i < |elems| ==> elems[i] == elems[1..][i - 1];
    }
  }
}
