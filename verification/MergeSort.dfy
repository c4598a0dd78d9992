// Bottom-up merge sort with a fallible, stateful comparator.
module MergeSort {
  datatype Answer<+E> = Ok(order: int) | Err(error: E)

  // A comparator that may change its mind is a function of the call's number: call
  // `k` on `(a, b)` yields `cmp(k, a, b)`.  Every sequence of answers a mutable
  // comparator can give in one run is given by some such function.
  type Comparator<!V, +E> = (nat, V, V) -> Answer<E>

  // A finished or aborted stretch of the run; `calls` are the comparisons made so far.
  datatype Run<V, +E> = Done(out: seq<V>, calls: seq<(V, V)>) | Aborted(error: E, calls: seq<(V, V)>)

  // ------------------------------------------------------------- specification

  /** Merges two blocks; a zero or negative answer takes the left element. */
  function Merge<V, E>(cmp: Comparator<V, E>, l: seq<V>, r: seq<V>, calls: seq<(V, V)>): Run<V, E>
    decreases |l| + |r|
  {
    if l == [] then Done(r, calls)
    else if r == [] then Done(l, calls)
    else
      var calls' := calls + [(l[0], r[0])];
      match cmp(|calls|, l[0], r[0])
      case Err(e) => Aborted(e, calls')
      case Ok(c) =>
        if c <= 0 then Prefixed([l[0]], Merge(cmp, l[1..], r, calls'))
        else Prefixed([r[0]], Merge(cmp, l, r[1..], calls'))
  }

  function Prefixed<V, E>(front: seq<V>, rest: Run<V, E>): Run<V, E> {
    match rest
    case Done(out, calls) => Done(front + out, calls)
    case Aborted(_, _) => rest
  }

  function Min(a: nat, b: nat): nat { if a < b then a else b }

  /** One pass: merges neighbouring blocks of `width`, left to right. */
  function Pass<V, E>(cmp: Comparator<V, E>, s: seq<V>, width: nat, calls: seq<(V, V)>): Run<V, E>
    requires width > 0
    decreases |s|
  {
    if s == [] then Done([], calls)
    else
      var mid := Min(width, |s|);
      var end := Min(2 * width, |s|);
      match Merge(cmp, s[..mid], s[mid..end], calls)
      case Aborted(e, calls') => Aborted(e, calls')
      case Done(block, calls') => Prefixed(block, Pass(cmp, s[end..], width, calls'))
  }

  /** Passes of doubling width until one block is left. */
  function Passes<V, E>(cmp: Comparator<V, E>, s: seq<V>, width: nat, calls: seq<(V, V)>): Run<V, E>
    requires width > 0
    decreases |s| - width
  {
    if width >= |s| then Done(s, calls)
    else
      PassKeepsLength(cmp, s, width, calls);
      match Pass(cmp, s, width, calls)
      case Aborted(e, calls') => Aborted(e, calls')
      case Done(s', calls') => Passes(cmp, s', 2 * width, calls')
  }

  function SortRun<V, E>(cmp: Comparator<V, E>, items: seq<V>): Run<V, E> { Passes(cmp, items, 1, []) }

  lemma {:induction false} MergeKeepsElements<V, E>(cmp: Comparator<V, E>, l: seq<V>, r: seq<V>, calls: seq<(V, V)>)
    ensures var m := Merge(cmp, l, r, calls);
            m.Done? ==> multiset(m.out) == multiset(l) + multiset(r) && |m.out| == |l| + |r|
    decreases |l| + |r|
  {
    if l != [] && r != [] {
      var calls' := calls + [(l[0], r[0])];
      assert l == [l[0]] + l[1..] && r == [r[0]] + r[1..];
      MergeKeepsElements(cmp, l[1..], r, calls');
      MergeKeepsElements(cmp, l, r[1..], calls');
    }
  }

  lemma ThreeParts<V>(s: seq<V>, mid: nat, end: nat)
    requires mid <= end <= |s|
    ensures multiset(s) == multiset(s[..mid]) + multiset(s[mid..end]) + multiset(s[end..])
  {
    assert s == s[..mid] + s[mid..end] + s[end..];
  }

  lemma {:induction false} PassKeepsElements<V, E>(cmp: Comparator<V, E>, s: seq<V>, width: nat, calls: seq<(V, V)>)
    requires width > 0
    ensures var p := Pass(cmp, s, width, calls); p.Done? ==> multiset(p.out) == multiset(s) && |p.out| == |s|
    decreases |s|
  {
    if s != [] {
      var mid, end := Min(width, |s|), Min(2 * width, |s|);
      MergeKeepsElements(cmp, s[..mid], s[mid..end], calls);
      var m := Merge(cmp, s[..mid], s[mid..end], calls);
      if m.Done? {
        PassKeepsElements(cmp, s[end..], width, m.calls);
        ThreeParts(s, mid, end);
      }
    }
  }

  lemma PassKeepsLength<V, E>(cmp: Comparator<V, E>, s: seq<V>, width: nat, calls: seq<(V, V)>)
    requires width > 0
    ensures var p := Pass(cmp, s, width, calls); p.Done? ==> |p.out| == |s|
  {
    PassKeepsElements(cmp, s, width, calls);
  }

  // ----------------------------------------------------------- the array program

  datatype Status<+E> = Continue | Stop(error: E)

  /** Merges `src[start..mid]` and `src[mid..end]` into `aux[start..end]`. */
  method MergeBlock<V, E>(cmp: Comparator<V, E>, src: array<V>, aux: array<V>, start: nat, mid: nat, end: nat,
                          calls0: seq<(V, V)>)
    returns (status: Status<E>, calls: seq<(V, V)>)
    requires src != aux && src.Length == aux.Length && start <= mid <= end <= src.Length
    modifies aux
    ensures aux[..start] == old(aux[..start])
    ensures Merge(cmp, src[start..mid], src[mid..end], calls0)
         == if status.Stop? then Aborted(status.error, calls) else Done(aux[start..end], calls)
  {
    var i, j, k;
    status, calls, i, j, k := MergeHeads(cmp, src, aux, start, mid, end, calls0);
    if status.Stop? {
      return;
    }
    ghost var s0 := aux[..];
    CopyRun(src, aux, i, mid, k);
    CopyRun(src, aux, j, end, k + (mid - i));
    CopiedTwice(s0, start, k, src[i..mid], src[j..end]);
    assert aux[..start] == aux[..][..start] && aux[start..end] == aux[..][start..end];
    assert aux[..start] == s0[..start] && aux[start..end] == s0[start..k] + src[i..mid] + src[j..end];
  }

  /** `s` with `run` written over it from `k` on. */
  function Copied<V>(s: seq<V>, k: nat, run: seq<V>): (r: seq<V>)
    requires k + |run| <= |s|
    ensures |r| == |s|
  {
    s[..k] + run + s[k + |run|..]
  }

  lemma CopiedOne<V>(s: seq<V>, k: nat, run: seq<V>, x: V)
    requires k + |run| < |s|
    ensures Copied(s, k, run)[k + |run| := x] == Copied(s, k, run + [x])
  {}

  /** Two runs copied behind one another. */
  lemma CopiedTwice<V>(s: seq<V>, start: nat, k: nat, l: seq<V>, r: seq<V>)
    requires start <= k && k + |l| + |r| <= |s|
    ensures var t := Copied(Copied(s, k, l), k + |l|, r);
            t[..start] == s[..start] && t[start..k + |l| + |r|] == s[start..k] + l + r
  {}

  /** The comparing loop: until one block is used up. */
  method MergeHeads<V, E>(cmp: Comparator<V, E>, src: array<V>, aux: array<V>, start: nat, mid: nat, end: nat,
                          calls0: seq<(V, V)>)
    returns (status: Status<E>, calls: seq<(V, V)>, i: nat, j: nat, k: nat)
    requires src != aux && src.Length == aux.Length && start <= mid <= end <= src.Length
    modifies aux
    ensures aux[..start] == old(aux[..start])
    ensures start <= i <= mid <= j <= end && k == i + j - mid
    ensures Merge(cmp, src[start..mid], src[mid..end], calls0)
         == if status.Stop? then Aborted(status.error, calls)
            else Done(aux[start..k] + src[i..mid] + src[j..end], calls)
  {
    ghost var s, out := src[..], [];
    status, calls := Continue, calls0;
    i, j, k := start, mid, start;
    while i < mid && j < end
      invariant start <= i <= mid <= j <= end && k == i + j - mid
      invariant aux[..start] == old(aux[..start]) && aux[start..k] == out
      invariant Prefixed(out, MergeFrom(cmp, s, i, mid, j, end, calls))
                == MergeFrom(cmp, s, start, mid, mid, end, calls0)
    {
      var answer := cmp(|calls|, src[i], src[j]);
      MergeStep(cmp, out, s, i, mid, j, end, calls);
      calls := calls + [(src[i], src[j])];
      if answer.Err? {
        status := Stop(answer.error);
        return;
      }
      if answer.order <= 0 {
        aux[k] := src[i];
        i := i + 1;
      } else {
        aux[k] := src[j];
        j := j + 1;
      }
      k := k + 1;
      out := out + [aux[k - 1]];
    }
    MergeRest(cmp, out, s[i..mid], s[j..end], calls);
    assert s[i..mid] == src[i..mid] && s[j..end] == src[j..end];
  }

  lemma MergeRest<V, E>(cmp: Comparator<V, E>, out: seq<V>, l: seq<V>, r: seq<V>, calls: seq<(V, V)>)
    requires l == [] || r == []
    ensures Prefixed(out, Merge(cmp, l, r, calls)) == Done(out + l + r, calls)
  {}

  lemma SplitAt<V>(a: array<V>, lo: nat, mid: nat, hi: nat)
    requires lo <= mid <= hi <= a.Length
    ensures a[lo..hi] == a[lo..mid] + a[mid..hi]
  {}

  /** Copies `src[i..hi]` to `aux[k..]`: what is left of one block when the other is used up. */
  method CopyRun<V>(src: array<V>, aux: array<V>, i0: nat, hi: nat, k0: nat)
    requires src != aux && i0 <= hi <= src.Length && k0 + (hi - i0) <= aux.Length
    modifies aux
    ensures aux[..] == Copied(old(aux[..]), k0, src[i0..hi])
  {
    var i, k := i0, k0;
    while i < hi
      invariant i0 <= i <= hi && k - k0 == i - i0
      invariant aux[..] == Copied(old(aux[..]), k0, src[i0..i])
    {
      CopiedOne(old(aux[..]), k0, src[i0..i], src[i]);
      assert src[i0..i + 1] == src[i0..i] + [src[i]];
      aux[k] := src[i];
      i := i + 1;
      k := k + 1;
    }
  }

  /** What is left to merge when the heads stand at `i` and `j`. */
  function MergeFrom<V, E>(cmp: Comparator<V, E>, s: seq<V>, i: nat, mid: nat, j: nat, end: nat,
                           calls: seq<(V, V)>): Run<V, E>
    requires i <= mid <= j <= end <= |s|
  {
    Merge(cmp, s[i..mid], s[j..end], calls)
  }

  lemma MergeStep<V, E>(cmp: Comparator<V, E>, out: seq<V>, s: seq<V>, i: nat, mid: nat, j: nat, end: nat,
                        calls: seq<(V, V)>)
    requires i < mid <= j < end <= |s|
    ensures var answer, calls' := cmp(|calls|, s[i], s[j]), calls + [(s[i], s[j])];
            Prefixed(out, MergeFrom(cmp, s, i, mid, j, end, calls)) ==
            if answer.Err? then Aborted(answer.error, calls')
            else if answer.order <= 0
            then Prefixed(out + [s[i]], MergeFrom(cmp, s, i + 1, mid, j, end, calls'))
            else Prefixed(out + [s[j]], MergeFrom(cmp, s, i, mid, j + 1, end, calls'))
  {}

  lemma PrefixedTwice<V, E>(a: seq<V>, b: seq<V>, rest: Run<V, E>)
    ensures Prefixed(a, Prefixed(b, rest)) == Prefixed(a + b, rest)
  {
    if rest.Done? { assert a + (b + rest.out) == (a + b) + rest.out; }
  }

  /** One pass over the whole array, from `src` into `aux`. */
  method OnePass<V, E>(cmp: Comparator<V, E>, src: array<V>, aux: array<V>, width: nat, calls0: seq<(V, V)>)
    returns (status: Status<E>, calls: seq<(V, V)>)
    requires src != aux && src.Length == aux.Length && 0 < width < src.Length && PowerOfTwo(width)
    modifies aux
    ensures Pass(cmp, src[..], width, calls0)
         == if status.Stop? then Aborted(status.error, calls) else Done(aux[..], calls)
  {
    var len := src.Length;
    var start := 0;
    calls := calls0;
    ghost var s, done := src[..], [];
    PassFromStart(cmp, s, width, calls);
    while start < len
      invariant aux[..Min(start, len)] == done
      invariant Prefixed(done, PassFrom(cmp, s, start, width, calls)) == Pass(cmp, s, width, calls0)
      decreases len - start
    {
      IndexArithmeticFits(len, width, start);
      var mid := Min(start + width, len);
      var end := Min(start + 2 * width, len);
      PassStep(cmp, s, start, width, calls, done);
      status, calls := MergeBlock(cmp, src, aux, start, mid, end, calls);
      assert s[start..mid] == src[start..mid] && s[mid..end] == src[mid..end];
      if status.Stop? {
        return;
      }
      SplitAt(aux, 0, start, end);
      done := done + aux[start..end];
      start := start + 2 * width;
    }
    assert aux[..len] == aux[..];
    PassOfNothing(cmp, s, start, width, calls, done);
    status := Continue;
  }

  lemma PassFromStart<V, E>(cmp: Comparator<V, E>, s: seq<V>, width: nat, calls: seq<(V, V)>)
    requires width > 0
    ensures Prefixed([], PassFrom(cmp, s, 0, width, calls)) == Pass(cmp, s, width, calls)
  {
    assert s[0..] == s;
    var rest := Pass(cmp, s, width, calls);
    if rest.Done? { assert [] + rest.out == rest.out; }
  }

  lemma PassOfNothing<V, E>(cmp: Comparator<V, E>, s: seq<V>, start: nat, width: nat, calls: seq<(V, V)>, done: seq<V>)
    requires start >= |s| && width > 0
    ensures Prefixed(done, PassFrom(cmp, s, start, width, calls)) == Done(done, calls)
  {
    assert done + [] == done;
  }

  /** The pass over what is left from `start` on. */
  function PassFrom<V, E>(cmp: Comparator<V, E>, s: seq<V>, start: nat, width: nat, calls: seq<(V, V)>): Run<V, E>
    requires width > 0
  {
    Pass(cmp, s[Min(start, |s|)..], width, calls)
  }

  lemma PassStep<V, E>(cmp: Comparator<V, E>, s: seq<V>, start: nat, width: nat, calls: seq<(V, V)>, done: seq<V>)
    requires start < |s| && width > 0
    ensures var mid := Min(start + width, |s|);
            var end := Min(start + 2 * width, |s|);
            Prefixed(done, PassFrom(cmp, s, start, width, calls)) ==
            match Merge(cmp, s[start..mid], s[mid..end], calls)
            case Aborted(e, calls') => Aborted(e, calls')
            case Done(block, calls') => Prefixed(done + block, PassFrom(cmp, s, start + 2 * width, width, calls'))
  {
    var t := s[start..];
    var mid, end := Min(start + width, |s|), Min(start + 2 * width, |s|);
    assert t[..Min(width, |t|)] == s[start..mid];
    assert t[Min(width, |t|)..Min(2 * width, |t|)] == s[mid..end];
    assert t[Min(2 * width, |t|)..] == s[end..];
    var m := Merge(cmp, s[start..mid], s[mid..end], calls);
    if m.Done? {
      PrefixedTwice(done, m.out, Pass(cmp, s[end..], width, m.calls));
    }
  }

  /** The sort as written: two buffers swapped after each pass. */
  method MergeSortBy<V, E>(cmp: Comparator<V, E>, items: seq<V>) returns (r: Run<V, E>)
    ensures r == SortRun(cmp, items)
  {
    var len := |items|;
    if len < 2 {
      return Done(items, []);
    }
    var src := new V[len](i requires 0 <= i < len => items[i]);
    var aux := new V[len](_ => items[0]);
    assert src[..] == items;
    var width := 1;
    var calls := [];
    assert Pow2(0) == 1;
    while width < len
      invariant width > 0 && PowerOfTwo(width) && fresh(src) && fresh(aux)
      invariant src != aux && src.Length == aux.Length == len
      invariant Passes(cmp, src[..], width, calls) == SortRun(cmp, items)
      decreases len - width
    {
      var status;
      status, calls := OnePass(cmp, src, aux, width, calls);
      if status.Stop? {
        return Aborted(status.error, calls);
      }
      src, aux := aux, src;
      ghost var p: nat :| width == Pow2(p);
      assert 2 * width == Pow2(p + 1);
      width := 2 * width;
    }
    r := Done(src[..], calls);
  }

  // ------------------------------------------------------------ index arithmetic

  const USIZE_LIMIT: nat := 0x1_0000_0000_0000_0000
  const VEC_LIMIT: nat := 0x8000_0000_0000_0000

  function Pow2(p: nat): nat { if p == 0 then 1 else 2 * Pow2(p - 1) }

  ghost predicate PowerOfTwo(w: nat) { exists p: nat :: w == Pow2(p) }

  lemma {:induction false} Pow2Add(p: nat, q: nat)
    ensures Pow2(p + q) == Pow2(p) * Pow2(q)
    decreases q
  {
    if q > 0 { Pow2Add(p, q - 1); }
  }

  lemma {:induction false} Pow2Monotone(p: nat, q: nat)
    requires p <= q
    ensures Pow2(p) <= Pow2(q)
    decreases q
  {
    if p < q { Pow2Monotone(p, q - 1); }
  }

  lemma Pow2Of63()
    ensures Pow2(63) == VEC_LIMIT
  {
    assert Pow2(7) == 128 && Pow2(14) == 16384 by { Pow2Add(7, 7); }
    assert Pow2(28) == 268435456 by { Pow2Add(14, 14); }
    assert Pow2(56) == 72057594037927936 by { Pow2Add(28, 28); }
    Pow2Add(56, 7);
  }

  /** For a vector of fewer than 2^63 elements no index expression of a pass leaves 64 bits. */
  lemma IndexArithmeticFits(len: nat, width: nat, start: nat)
    requires width < len && start < len && PowerOfTwo(width)
    ensures len < VEC_LIMIT ==> start + width < USIZE_LIMIT && start + 2 * width < USIZE_LIMIT
  {
    if len < VEC_LIMIT {
      var p: nat :| width == Pow2(p);
      Pow2Of63();
      if p >= 63 { Pow2Monotone(63, p); }
      assert p <= 62;
      Pow2Monotone(p, 62);
      assert Pow2(63) == 2 * Pow2(62);
    }
  }

  // ----------------------------------------------- any comparator, however odd

  /** Whatever the comparator answers, a finished run permutes the input. */
  lemma {:induction false} PassesPermute<V, E>(cmp: Comparator<V, E>, s: seq<V>, width: nat, calls: seq<(V, V)>)
    requires width > 0
    ensures var p := Passes(cmp, s, width, calls); p.Done? ==> multiset(p.out) == multiset(s)
    decreases |s| - width
  {
    if width < |s| {
      PassKeepsElements(cmp, s, width, calls);
      var p := Pass(cmp, s, width, calls);
      if p.Done? { PassesPermute(cmp, p.out, 2 * width, p.calls); }
    }
  }

  lemma SortPermutes<V, E>(cmp: Comparator<V, E>, items: seq<V>)
    ensures var r := SortRun(cmp, items); r.Done? ==> multiset(r.out) == multiset(items)
  {
    PassesPermute(cmp, items, 1, []);
  }

  /** All calls but possibly the last were answered, and an error is the answer to the last call. */
  predicate Faithful<V(==), E(==)>(cmp: Comparator<V, E>, r: Run<V, E>) {
    var n := |r.calls|;
    if r.Done? then forall k :: 0 <= k < n ==> cmp(k, r.calls[k].0, r.calls[k].1).Ok?
    else
      && n > 0
      && cmp(n - 1, r.calls[n - 1].0, r.calls[n - 1].1) == Err(r.error)
      && forall k :: 0 <= k < n - 1 ==> cmp(k, r.calls[k].0, r.calls[k].1).Ok?
  }

  lemma {:induction false} MergeFaithful<V, E>(cmp: Comparator<V, E>, l: seq<V>, r: seq<V>, calls: seq<(V, V)>)
    requires Faithful<V, E>(cmp, Done([], calls))
    ensures var m := Merge(cmp, l, r, calls);
            Faithful(cmp, m) && |m.calls| <= |calls| + |l| + |r|
    decreases |l| + |r|
  {
    if l != [] && r != [] {
      var calls' := calls + [(l[0], r[0])];
      if cmp(|calls|, l[0], r[0]).Ok? {
        MergeFaithful(cmp, l[1..], r, calls');
        MergeFaithful(cmp, l, r[1..], calls');
      }
    }
  }

  lemma {:induction false} PassFaithful<V, E>(cmp: Comparator<V, E>, s: seq<V>, width: nat, calls: seq<(V, V)>)
    requires width > 0 && Faithful<V, E>(cmp, Done([], calls))
    ensures var p := Pass(cmp, s, width, calls);
            Faithful(cmp, p) && |p.calls| <= |calls| + |s|
    decreases |s|
  {
    if s != [] {
      var mid, end := Min(width, |s|), Min(2 * width, |s|);
      MergeFaithful(cmp, s[..mid], s[mid..end], calls);
      var m := Merge(cmp, s[..mid], s[mid..end], calls);
      if m.Done? {
        PassFaithful(cmp, s[end..], width, m.calls);
      }
    }
  }

  lemma {:induction false} PassesFaithful<V, E>(cmp: Comparator<V, E>, s: seq<V>, width: nat, rounds: nat,
                                                calls: seq<(V, V)>)
    requires width > 0 && Faithful<V, E>(cmp, Done([], calls)) && |s| <= width * Pow2(rounds)
    ensures var p := Passes(cmp, s, width, calls);
            Faithful(cmp, p) && |p.calls| <= |calls| + |s| * rounds
    decreases |s| - width
  {
    if width < |s| {
      Halve(|s|, width, rounds);
      PassFaithful(cmp, s, width, calls);
      PassKeepsLength(cmp, s, width, calls);
      var p := Pass(cmp, s, width, calls);
      if p.Done? {
        PassesFaithful(cmp, p.out, 2 * width, rounds - 1, p.calls);
      }
    }
  }

  lemma Halve(len: nat, width: nat, rounds: nat)
    requires width < len <= width * Pow2(rounds)
    ensures rounds > 0 && len <= 2 * width * Pow2(rounds - 1)
    ensures len * rounds == len + len * (rounds - 1) && len * (rounds - 1) >= 0
  {}

  /** The first comparator error ends the run and is returned; at most n * ceil(log2 n) calls are made. */
  lemma ErrorsAndCalls<V, E>(cmp: Comparator<V, E>, items: seq<V>, rounds: nat)
    requires |items| <= Pow2(rounds)
    ensures var r := SortRun(cmp, items);
            Faithful(cmp, r) && |r.calls| <= |items| * rounds
  {
    PassesFaithful(cmp, items, 1, rounds, []);
  }

  // ------------------------------------------------------ a total preorder: stability

  predicate Le<V>(c: (V, V) -> int, a: V, b: V) { c(a, b) <= 0 }

  /** `c` orders all values: total and transitive (ties allowed). */
  ghost predicate TotalPreorder<V(!new)>(c: (V, V) -> int) {
    && (forall a, b :: Le(c, a, b) || Le(c, b, a))
    && (forall a, b, d :: Le(c, a, b) && Le(c, b, d) ==> Le(c, a, d))
  }

  /** The comparator always answers, and by `c`. */
  ghost predicate Answers<V(!new), E(!new)>(cmp: Comparator<V, E>, c: (V, V) -> int) {
    forall k, a, b :: cmp(k, a, b) == Ok(c(a, b))
  }

  ghost predicate Ascending<V>(c: (V, V) -> int, s: seq<V>) {
    forall i, j :: 0 <= i < j < |s| ==> Le(c, s[i], s[j])
  }

  predicate Tied<V>(c: (V, V) -> int, a: V, b: V) { Le(c, a, b) && Le(c, b, a) }

  /** The elements of `s` tied with `x`, in order. */
  function Ties<V>(c: (V, V) -> int, x: V, s: seq<V>): seq<V> {
    if s == [] then [] else (if Tied(c, x, s[0]) then [s[0]] else []) + Ties(c, x, s[1..])
  }

  /** `t` is the stable sort of `s`. */
  ghost predicate StableSortOf<V(!new)>(c: (V, V) -> int, t: seq<V>, s: seq<V>) {
    Ascending(c, t) && forall x :: Ties(c, x, t) == Ties(c, x, s)
  }

  lemma TiesCons<V>(c: (V, V) -> int, x: V, s: seq<V>)
    requires s != []
    ensures Ties(c, x, s) == Ties(c, x, [s[0]]) + Ties(c, x, s[1..])
  {
    assert [s[0]][1..] == [];
  }

  lemma {:induction false} TiesAppend<V>(c: (V, V) -> int, x: V, a: seq<V>, b: seq<V>)
    ensures Ties(c, x, a + b) == Ties(c, x, a) + Ties(c, x, b)
    decreases |a|
  {
    if a == [] {
      assert a + b == b;
    } else {
      TiesAppend(c, x, a[1..], b);
      assert (a + b)[0] == a[0] && (a + b)[1..] == a[1..] + b;
      TiesCons(c, x, a);
      TiesCons(c, x, a + b);
    }
  }

  lemma {:induction false} TiesEmpty<V>(c: (V, V) -> int, x: V, s: seq<V>)
    requires forall i :: 0 <= i < |s| ==> !Tied(c, x, s[i])
    ensures Ties(c, x, s) == []
  {
    if s != [] { TiesEmpty(c, x, s[1..]); }
  }

  lemma {:induction false} MergeSorts<V(!new), E(!new)>(cmp: Comparator<V, E>, c: (V, V) -> int, l: seq<V>, r: seq<V>,
                                                        calls: seq<(V, V)>)
    requires TotalPreorder(c) && Answers(cmp, c) && Ascending(c, l) && Ascending(c, r)
    ensures var m := Merge(cmp, l, r, calls);
            m.Done? && StableSortOf(c, m.out, l + r)
            && forall z :: z in m.out ==> z in l || z in r
    decreases |l| + |r|
  {
    if l == [] {
      assert l + r == r;
    } else if r == [] {
      assert l + r == l;
    } else {
      var calls' := calls + [(l[0], r[0])];
      assert l == [l[0]] + l[1..] && r == [r[0]] + r[1..];
      if c(l[0], r[0]) <= 0 {
        MergeSorts(cmp, c, l[1..], r, calls');
        TakeLeft(c, l, r, Merge(cmp, l[1..], r, calls').out);
      } else {
        MergeSorts(cmp, c, l, r[1..], calls');
        TakeRight(c, l, r, Merge(cmp, l, r[1..], calls').out);
      }
    }
  }

  lemma {:induction false} TakeLeft<V(!new)>(c: (V, V) -> int, l: seq<V>, r: seq<V>, rest: seq<V>)
    requires TotalPreorder(c) && Ascending(c, l) && Ascending(c, r) && l != [] && r != [] && Le(c, l[0], r[0])
    requires StableSortOf(c, rest, l[1..] + r) && forall z :: z in rest ==> z in l[1..] || z in r
    ensures StableSortOf(c, [l[0]] + rest, l + r)
  {
    var out := [l[0]] + rest;
    HeadLeast(c, l, r);
    forall x ensures Ties(c, x, out) == Ties(c, x, l + r) {
      assert l + r == [l[0]] + (l[1..] + r);
      TiesAppend(c, x, [l[0]], rest);
      TiesAppend(c, x, [l[0]], l[1..] + r);
    }
    forall i, j | 0 <= i < j < |out| ensures Le(c, out[i], out[j]) {
      assert out[j] == rest[j - 1];
      if i > 0 { assert out[i] == rest[i - 1]; } else { assert rest[j - 1] in rest; }
    }
  }

  lemma Reflexive<V(!new)>(c: (V, V) -> int, x: V)
    requires TotalPreorder(c)
    ensures Le(c, x, x)
  {}

  // A least left head is below every other element of both blocks.
  lemma HeadLeast<V(!new)>(c: (V, V) -> int, l: seq<V>, r: seq<V>)
    requires TotalPreorder(c) && Ascending(c, l) && Ascending(c, r) && l != [] && r != [] && Le(c, l[0], r[0])
    ensures forall z :: z in l[1..] || z in r ==> Le(c, l[0], z)
  {}

  lemma {:induction false} TakeRight<V(!new)>(c: (V, V) -> int, l: seq<V>, r: seq<V>, rest: seq<V>)
    requires TotalPreorder(c) && Ascending(c, l) && Ascending(c, r) && l != [] && r != [] && !Le(c, l[0], r[0])
    requires StableSortOf(c, rest, l + r[1..]) && forall z :: z in rest ==> z in l || z in r[1..]
    ensures StableSortOf(c, [r[0]] + rest, l + r)
  {
    var out := [r[0]] + rest;
    assert Le(c, r[0], l[0]);
    HeadLeast(c, r, l);
    LeftAllAbove(c, l, r[0]);
    forall x ensures Ties(c, x, out) == Ties(c, x, l + r) {
      LeftDoesNotTie(c, x, l, r[0]);
      TiesTakeRight(c, x, l, r, rest);
    }
    forall i, j | 0 <= i < j < |out| ensures Le(c, out[i], out[j]) {
      assert out[j] == rest[j - 1];
      if i > 0 { assert out[i] == rest[i - 1]; } else { assert rest[j - 1] in rest; }
    }
  }

  // No remaining left element ties with what the right head ties with.
  lemma LeftDoesNotTie<V(!new)>(c: (V, V) -> int, x: V, l: seq<V>, y: V)
    requires TotalPreorder(c) && forall i :: 0 <= i < |l| ==> !Le(c, l[i], y)
    ensures Tied(c, x, y) ==> Ties(c, x, l) == []
  {}

  lemma {:induction false} TiesTakeRight<V>(c: (V, V) -> int, x: V, l: seq<V>, r: seq<V>, rest: seq<V>)
    requires r != [] && (Tied(c, x, r[0]) ==> Ties(c, x, l) == [])
    requires Ties(c, x, rest) == Ties(c, x, l + r[1..])
    ensures Ties(c, x, [r[0]] + rest) == Ties(c, x, l + r)
  {
    assert r == [r[0]] + r[1..];
    TiesAppend(c, x, [r[0]], rest);
    TiesAppend(c, x, [r[0]], r[1..]);
    TiesAppend(c, x, l, r[1..]);
    TiesAppend(c, x, l, r);
    var head, left, right := Ties(c, x, [r[0]]), Ties(c, x, l), Ties(c, x, r[1..]);
    assert head == [] || left == [];
    assert head + (left + right) == left + (head + right);
  }

  // When the right head goes first it is strictly below every remaining left element.
  lemma LeftAllAbove<V(!new)>(c: (V, V) -> int, l: seq<V>, y: V)
    requires TotalPreorder(c) && Ascending(c, l) && l != [] && !Le(c, l[0], y)
    ensures forall i :: 0 <= i < |l| ==> !Le(c, l[i], y)
  {}

  /** Each block of `width` is ascending. */
  ghost predicate BlocksAscend<V>(c: (V, V) -> int, s: seq<V>, width: nat)
    requires width > 0
    decreases |s|
  {
    s == [] || (Ascending(c, s[..Min(width, |s|)]) && BlocksAscend(c, s[Min(width, |s|)..], width))
  }

  lemma {:induction false} SingletonsAscend<V>(c: (V, V) -> int, s: seq<V>)
    ensures BlocksAscend(c, s, 1)
    decreases |s|
  {
    if s != [] { SingletonsAscend(c, s[1..]); }
  }

  lemma {:induction false} PassSorts<V(!new), E(!new)>(cmp: Comparator<V, E>, c: (V, V) -> int, s: seq<V>, width: nat,
                                                       calls: seq<(V, V)>)
    requires TotalPreorder(c) && Answers(cmp, c) && width > 0 && BlocksAscend(c, s, width)
    ensures var p := Pass(cmp, s, width, calls);
            && p.Done? && |p.out| == |s| && BlocksAscend(c, p.out, 2 * width)
            && forall x :: Ties(c, x, p.out) == Ties(c, x, s)
    decreases |s|
  {
    if s != [] {
      var mid, end := Min(width, |s|), Min(2 * width, |s|);
      FirstBlocks(cmp, c, s, width, calls);
      var m := Merge(cmp, s[..mid], s[mid..end], calls);
      PassSorts(cmp, c, s[end..], width, m.calls);
      PassUnfolds(cmp, s, width, calls);
      JoinBlocks(c, s, m.out, Pass(cmp, s[end..], width, m.calls).out, end, width);
    }
  }

  lemma FirstBlocks<V(!new), E(!new)>(cmp: Comparator<V, E>, c: (V, V) -> int, s: seq<V>, width: nat,
                                      calls: seq<(V, V)>)
    requires TotalPreorder(c) && Answers(cmp, c) && width > 0 && s != [] && BlocksAscend(c, s, width)
    ensures var mid, end := Min(width, |s|), Min(2 * width, |s|);
            var m := Merge(cmp, s[..mid], s[mid..end], calls);
            && BlocksAscend(c, s[end..], width)
            && m.Done? && |m.out| == end && StableSortOf(c, m.out, s[..end])
  {
    var mid, end := Min(width, |s|), Min(2 * width, |s|);
    SecondBlock(c, s, width);
    assert s[..mid] + s[mid..end] == s[..end];
    MergeSorts(cmp, c, s[..mid], s[mid..end], calls);
    MergeKeepsLength(cmp, s[..mid], s[mid..end], calls);
  }

  lemma MergeKeepsLength<V, E>(cmp: Comparator<V, E>, l: seq<V>, r: seq<V>, calls: seq<(V, V)>)
    ensures var m := Merge(cmp, l, r, calls); m.Done? ==> |m.out| == |l| + |r|
  {
    MergeKeepsElements(cmp, l, r, calls);
  }

  lemma PassUnfolds<V, E>(cmp: Comparator<V, E>, s: seq<V>, width: nat, calls: seq<(V, V)>)
    requires s != [] && width > 0
    ensures var mid, end := Min(width, |s|), Min(2 * width, |s|);
            var m := Merge(cmp, s[..mid], s[mid..end], calls);
            m.Done? ==> Pass(cmp, s, width, calls) == Prefixed(m.out, Pass(cmp, s[end..], width, m.calls))
  {}

  lemma FirstBlock<V>(c: (V, V) -> int, s: seq<V>, width: nat)
    requires width > 0 && s != [] && BlocksAscend(c, s, width)
    ensures Ascending(c, s[..Min(width, |s|)]) && BlocksAscend(c, s[Min(width, |s|)..], width)
  {}

  lemma SecondBlock<V>(c: (V, V) -> int, s: seq<V>, width: nat)
    requires width > 0 && s != [] && BlocksAscend(c, s, width)
    ensures var mid, end := Min(width, |s|), Min(2 * width, |s|);
            Ascending(c, s[..mid]) && Ascending(c, s[mid..end]) && BlocksAscend(c, s[end..], width)
  {
    var mid, end := Min(width, |s|), Min(2 * width, |s|);
    var t := s[mid..];
    FirstBlock(c, s, width);
    if t == [] {
      assert s[end..] == [];
    } else {
      FirstBlock(c, t, width);
      assert t[..Min(width, |t|)] == s[mid..end] && t[Min(width, |t|)..] == s[end..];
    }
  }

  lemma JoinAscends<V>(c: (V, V) -> int, block: seq<V>, rest: seq<V>, width: nat)
    requires width > 0 && block != [] && Ascending(c, block) && BlocksAscend(c, rest, width)
    requires |block| == width || (|block| < width && rest == [])
    ensures BlocksAscend(c, block + rest, width)
  {
    assert (block + rest)[..|block|] == block && (block + rest)[|block|..] == rest;
  }

  lemma JoinTies<V>(c: (V, V) -> int, x: V, block: seq<V>, rest: seq<V>, s: seq<V>, end: nat)
    requires end <= |s| && Ties(c, x, block) == Ties(c, x, s[..end]) && Ties(c, x, rest) == Ties(c, x, s[end..])
    ensures Ties(c, x, block + rest) == Ties(c, x, s)
  {
    TiesAppend(c, x, block, rest);
    TiesAppend(c, x, s[..end], s[end..]);
    assert s == s[..end] + s[end..];
  }

  lemma JoinBlocks<V(!new)>(c: (V, V) -> int, s: seq<V>, block: seq<V>, rest: seq<V>, end: nat, width: nat)
    requires width > 0 && s != [] && end == Min(2 * width, |s|)
    requires |block| == end && StableSortOf(c, block, s[..end])
    requires |rest| == |s| - end && BlocksAscend(c, rest, 2 * width)
    requires forall x :: Ties(c, x, rest) == Ties(c, x, s[end..])
    ensures BlocksAscend(c, block + rest, 2 * width) && forall x :: Ties(c, x, block + rest) == Ties(c, x, s)
  {
    JoinAscends(c, block, rest, 2 * width);
    forall x ensures Ties(c, x, block + rest) == Ties(c, x, s) { JoinTies(c, x, block, rest, s, end); }
  }

  lemma {:induction false} PassesSort<V(!new), E(!new)>(cmp: Comparator<V, E>, c: (V, V) -> int, s: seq<V>, width: nat,
                                                        calls: seq<(V, V)>)
    requires TotalPreorder(c) && Answers(cmp, c) && width > 0 && BlocksAscend(c, s, width)
    ensures var p := Passes(cmp, s, width, calls); p.Done? && StableSortOf(c, p.out, s)
    decreases |s| - width
  {
    if width >= |s| {
      assert s[..Min(width, |s|)] == s;
    } else {
      PassSorts(cmp, c, s, width, calls);
      var p := Pass(cmp, s, width, calls);
      PassesSort(cmp, c, p.out, 2 * width, p.calls);
    }
  }

  /** With a total preorder the sort succeeds and returns the stable sort of its input. */
  lemma SortIsStable<V(!new), E(!new)>(cmp: Comparator<V, E>, c: (V, V) -> int, items: seq<V>)
    requires TotalPreorder(c) && Answers(cmp, c)
    ensures var r := SortRun(cmp, items); r.Done? && StableSortOf(c, r.out, items)
  {
    SingletonsAscend(c, items);
    PassesSort(cmp, c, items, 1, []);
  }

  /** There is only one stable sort: ascending order and the order within ties leave no choice. */
  lemma {:induction false} StableSortUnique<V(!new)>(c: (V, V) -> int, t: seq<V>, u: seq<V>)
    requires TotalPreorder(c) && Ascending(c, t) && Ascending(c, u)
    requires forall x :: Ties(c, x, t) == Ties(c, x, u)
    ensures t == u
    decreases |t|
  {
    if t == [] {
      if u != [] {
        var none := Ties(c, u[0], t);
        FirstTie(c, u);
      }
    } else {
      assert Tied(c, t[0], t[0]);
      assert Ties(c, t[0], t)[0] == t[0];
      assert u != [];
      SmallestFirst(c, t, u);
      SmallestFirst(c, u, t);
      assert Tied(c, t[0], u[0]);
      assert Ties(c, t[0], u)[0] == u[0];
      forall x ensures Ties(c, x, t[1..]) == Ties(c, x, u[1..]) {
        assert Ties(c, x, t) == Ties(c, x, u);
        assert Ties(c, x, t[1..]) == if Tied(c, x, t[0]) then Ties(c, x, t)[1..] else Ties(c, x, t);
        assert Ties(c, x, u[1..]) == if Tied(c, x, u[0]) then Ties(c, x, u)[1..] else Ties(c, x, u);
      }
      StableSortUnique(c, t[1..], u[1..]);
      assert t == [t[0]] + t[1..] && u == [u[0]] + u[1..];
    }
  }

  lemma FirstTie<V(!new)>(c: (V, V) -> int, s: seq<V>)
    requires TotalPreorder(c) && s != []
    ensures Ties(c, s[0], s) != [] && Ties(c, s[0], s)[0] == s[0]
  {
    Reflexive(c, s[0]);
  }

  lemma SmallestFirst<V(!new)>(c: (V, V) -> int, t: seq<V>, u: seq<V>)
    requires TotalPreorder(c) && Ascending(c, u) && t != [] && u != []
    requires forall x :: Ties(c, x, t) == Ties(c, x, u)
    ensures Le(c, u[0], t[0])
  {
    assert Tied(c, t[0], t[0]);
    assert Ties(c, t[0], u) == Ties(c, t[0], t) != [];
    if forall i :: 0 <= i < |u| ==> !Tied(c, t[0], u[i]) { TiesEmpty(c, t[0], u); assert false; }
    var i :| 0 <= i < |u| && Tied(c, t[0], u[i]);
    if i > 0 { assert Le(c, u[0], u[i]); }
  }
}
