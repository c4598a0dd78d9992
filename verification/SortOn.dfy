// Sorting with a comparator that is orderly on the elements sorted, whatever it does elsewhere.
module SortOn {
  import opened MergeSort

  /** `c` orders the elements of `s`, whatever it does elsewhere. */
  ghost predicate OrderlyOn<V>(c: (V, V) -> int, s: seq<V>) {
    && (forall a, b :: a in s && b in s ==> Le(c, a, b) || Le(c, b, a))
    && (forall x, y, z :: x in s && y in s && z in s && Le(c, x, y) && Le(c, y, z) ==> Le(c, x, z))
  }

  ghost predicate AnswersOn<V, E(!new)>(cmp: Comparator<V, E>, c: (V, V) -> int, s: seq<V>) {
    forall k, a, b :: a in s && b in s ==> cmp(k, a, b) == Ok(c(a, b))
  }

  ghost predicate Agree<V, E(!new)>(f: Comparator<V, E>, g: Comparator<V, E>, s: seq<V>) {
    forall k, a, b :: a in s && b in s ==> f(k, a, b) == g(k, a, b)
  }

  predicate Within<V(==)>(t: seq<V>, s: seq<V>) { forall x :: x in t ==> x in s }

  /** The same order with all other values tied, after the elements of `s`. */
  function Extended<V(==)>(c: (V, V) -> int, s: seq<V>): (V, V) -> int {
    (a, b) => if a in s then (if b in s then c(a, b) else -1) else if b in s then 1 else 0
  }

  lemma ExtendedTransitive<V(!new)>(c: (V, V) -> int, s: seq<V>, x: V, y: V, z: V)
    requires OrderlyOn(c, s) && Le(Extended(c, s), x, y) && Le(Extended(c, s), y, z)
    ensures Le(Extended(c, s), x, z)
  {
    if x in s && y in s && z in s { assert Le(c, x, y) && Le(c, y, z); }
  }

  lemma ExtendedOrders<V(!new)>(c: (V, V) -> int, s: seq<V>)
    requires OrderlyOn(c, s)
    ensures TotalPreorder(Extended(c, s))
  {
    var c' := Extended(c, s);
    forall a, b ensures Le(c', a, b) || Le(c', b, a) {
      if a in s && b in s { assert Le(c, a, b) || Le(c, b, a); }
    }
    forall x, y, z | Le(c', x, y) && Le(c', y, z) ensures Le(c', x, z) { ExtendedTransitive(c, s, x, y, z); }
  }

  lemma {:induction false} MergeAgrees<V, E(!new)>(f: Comparator<V, E>, g: Comparator<V, E>, s: seq<V>, l: seq<V>,
                                                   r: seq<V>, calls: seq<(V, V)>)
    requires Agree(f, g, s) && Within(l, s) && Within(r, s)
    ensures Merge(f, l, r, calls) == Merge(g, l, r, calls)
    decreases |l| + |r|
  {
    if l != [] && r != [] {
      assert f(|calls|, l[0], r[0]) == g(|calls|, l[0], r[0]);
      MergeAgrees(f, g, s, l[1..], r, calls + [(l[0], r[0])]);
      MergeAgrees(f, g, s, l, r[1..], calls + [(l[0], r[0])]);
    }
  }

  lemma {:induction false} PassAgrees<V, E(!new)>(f: Comparator<V, E>, g: Comparator<V, E>, s: seq<V>, t: seq<V>,
                                                  width: nat, calls: seq<(V, V)>)
    requires Agree(f, g, s) && Within(t, s) && width > 0
    ensures Pass(f, t, width, calls) == Pass(g, t, width, calls)
    decreases |t|
  {
    if t != [] {
      var mid, end := Min(width, |t|), Min(2 * width, |t|);
      MergeAgrees(f, g, s, t[..mid], t[mid..end], calls);
      var m := Merge(f, t[..mid], t[mid..end], calls);
      if m.Done? { PassAgrees(f, g, s, t[end..], width, m.calls); }
    }
  }

  lemma {:induction false} PassesAgree<V, E(!new)>(f: Comparator<V, E>, g: Comparator<V, E>, s: seq<V>, t: seq<V>,
                                                   width: nat, calls: seq<(V, V)>)
    requires Agree(f, g, s) && Within(t, s) && width > 0
    ensures Passes(f, t, width, calls) == Passes(g, t, width, calls)
    decreases |t| - width
  {
    if width < |t| {
      PassAgrees(f, g, s, t, width, calls);
      PassKeepsElements(f, t, width, calls);
      var p := Pass(f, t, width, calls);
      if p.Done? {
        assert forall x :: x in p.out ==> x in multiset(p.out);
        PassesAgree(f, g, s, p.out, 2 * width, p.calls);
      }
    }
  }

  lemma {:induction false} ExtendedTies<V>(c: (V, V) -> int, s: seq<V>, x: V, t: seq<V>)
    requires x in s && Within(t, s)
    ensures Ties(Extended(c, s), x, t) == Ties(c, x, t)
  {
    if t != [] { ExtendedTies(c, s, x, t[1..]); }
  }

  /** It is enough that the comparator is orderly on the elements sorted. */
  lemma SortIsStableOn<V(!new), E(!new)>(cmp: Comparator<V, E>, c: (V, V) -> int, items: seq<V>)
    requires OrderlyOn(c, items) && AnswersOn(cmp, c, items)
    ensures var r := SortRun(cmp, items);
            r.Done? && Ascending(c, r.out) && multiset(r.out) == multiset(items)
            && forall x :: x in items ==> Ties(c, x, r.out) == Ties(c, x, items)
  {
    var c' := Extended(c, items);
    var cmp': Comparator<V, E> := (k, a, b) => Ok(c'(a, b));
    ExtendedOrders(c, items);
    SortIsStable(cmp', c', items);
    PassesAgree(cmp, cmp', items, items, 1, []);
    SortPermutes(cmp, items);
    var t := SortRun(cmp, items).out;
    assert Within(t, items) by { assert forall x :: x in t ==> x in multiset(t); }
    forall x | x in items ensures Ties(c, x, t) == Ties(c, x, items) {
      ExtendedTies(c, items, x, t);
      ExtendedTies(c, items, x, items);
    }
    forall i, j | 0 <= i < j < |t| ensures Le(c, t[i], t[j]) { assert Le(c', t[i], t[j]); }
  }
}
