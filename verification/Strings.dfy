// Decimal numbers and the standard string functions the baseline files go through.
//
// Printing and parsing of unsigned 64-bit numbers; and `trim`, `trim_matches` on bars,
// `split` and `lines`, with the facts about them that reading a written line back
// needs: what trimming leaves alone, where a text is split, and that no piece contains
// its separator.
//
// White space is the Unicode property `White_Space`.
module Strings {
  import opened Options

  type U64 = n: nat | n < 0x1_0000_0000_0000_0000

  // ------------------------------------------------------------ unsigned decimals

  predicate AllDigits(s: string) { forall i :: 0 <= i < |s| ==> '0' <= s[i] <= '9' }

  function Decimal(n: nat): string {
    (if n < 10 then "" else Decimal(n / 10)) + ['0' + (n % 10) as char]
  }

  function DigitsValue(s: string): nat
    requires AllDigits(s)
  {
    if s == "" then 0 else 10 * DigitsValue(s[..|s| - 1]) + (s[|s| - 1] - '0') as nat
  }

  /** `str::parse::<u64>`: an optional plus, then digits whose value fits. */
  function ParseU64(s: string): Option<U64> {
    var digits := if s != "" && s[0] == '+' then s[1..] else s;
    if digits != "" && AllDigits(digits) && DigitsValue(digits) < 0x1_0000_0000_0000_0000 then
      Some(DigitsValue(digits))
    else None
  }

  lemma ValueSnoc(s: string, d: nat)
    requires AllDigits(s) && d < 10
    ensures AllDigits(s + ['0' + d as char]) && DigitsValue(s + ['0' + d as char]) == 10 * DigitsValue(s) + d
  {
    assert (s + ['0' + d as char])[..|s|] == s;
  }

  lemma {:induction false} DecimalValue(n: nat)
    ensures Decimal(n) != "" && AllDigits(Decimal(n)) && DigitsValue(Decimal(n)) == n
  {
    if n < 10 {
      ValueSnoc("", n);
    } else {
      DecimalValue(n / 10);
      ValueSnoc(Decimal(n / 10), n % 10);
    }
  }

  lemma DecimalReadsBack(n: nat)
    ensures AllDigits(Decimal(n)) && DigitsValue(Decimal(n)) == n
    ensures n < 0x1_0000_0000_0000_0000 ==> ParseU64(Decimal(n)) == Some(n)
  {
    DecimalValue(n);
  }

  /** Nothing else parses: no empty text, no sign alone, no number of 64 bits or more. */
  lemma ParseEdges(s: string)
    ensures ParseU64("") == None && ParseU64("+") == None && ParseU64("-1") == None
    ensures AllDigits(s) && s != "" ==> ParseU64("+" + s) == ParseU64(s)
    ensures AllDigits(s) && DigitsValue(s) >= 0x1_0000_0000_0000_0000 ==> ParseU64(s) == None
  {
    assert ("+")[1..] == "" && ("+" + s)[1..] == s;
    assert ("-1")[0] == '-';
  }

  // ------------------------------------------------------- standard string functions

  predicate IsSpace(c: char) {
    '\t' <= c <= '\r' || c == ' ' || c == '\U{85}' || c == '\U{A0}' || c == '\U{1680}' || '\U{2000}' <= c <= '\U{200A}'
    || c == '\U{2028}' || c == '\U{2029}' || c == '\U{202F}' || c == '\U{205F}' || c == '\U{3000}'
  }

  lemma SpaceCodes(c: char)
    ensures IsSpace(c) <==>
            || (9 <= c as int <= 13) || c as int in {0x20, 0x85, 0xA0, 0x1680, 0x2028, 0x2029, 0x202F, 0x205F, 0x3000}
            || (0x2000 <= c as int <= 0x200A)
  {}

  function DropWhile(p: char -> bool, s: string): string {
    if s != "" && p(s[0]) then DropWhile(p, s[1..]) else s
  }

  function DropWhileEnd(p: char -> bool, s: string): string {
    if s != "" && p(s[|s| - 1]) then DropWhileEnd(p, s[..|s| - 1]) else s
  }

  lemma {:induction false} DropWhileLeaves(p: char -> bool, s: string)
    ensures var r := DropWhile(p, s);
            |r| <= |s| && r == s[|s| - |r|..] && (r != "" ==> !p(r[0])) && (s != "" && p(s[0]) ==> |r| < |s|)
  {
    if s != "" && p(s[0]) { DropWhileLeaves(p, s[1..]); }
  }

  lemma {:induction false} DropWhileEndLeaves(p: char -> bool, s: string)
    ensures var r := DropWhileEnd(p, s);
            |r| <= |s| && r == s[..|r|] && (r != "" ==> !p(r[|r| - 1])) && (s != "" && p(s[|s| - 1]) ==> |r| < |s|)
  {
    if s != "" && p(s[|s| - 1]) { DropWhileEndLeaves(p, s[..|s| - 1]); }
  }

  function Trim(s: string): string { DropWhileEnd(IsSpace, DropWhile(IsSpace, s)) }

  predicate IsBar(c: char) { c == '|' }

  /** The pieces of `s` between the occurrences of `c`. */
  function SplitOn(c: char, s: string): (r: seq<string>)
    ensures |r| >= 1
  {
    if s == "" then [""]
    else
      var rest := SplitOn(c, s[1..]);
      if s[0] == c then [""] + rest else [[s[0]] + rest[0]] + rest[1..]
  }

  /**
   * `str::lines`: pieces between newlines, without a final empty one and without a carriage
   * return before the newline.
   */
  function Lines(s: string): seq<string> {
    var pieces := SplitOn('\n', s);
    WithoutReturns(if pieces[|pieces| - 1] == "" then pieces[..|pieces| - 1] else pieces)
  }

  function WithoutReturns(lines: seq<string>): seq<string> {
    if lines == [] then []
    else
      var line := lines[0];
      [if line != "" && line[|line| - 1] == '\r' then line[..|line| - 1] else line] + WithoutReturns(lines[1..])
  }

  /** A carriage return before the newline belongs to the line's end, one elsewhere to the line. */
  lemma LineEnds(line: string)
    ensures WithoutReturns([line + "\r"]) == [line] && WithoutReturns([line + "\r" + "x"]) == [line + "\r" + "x"]
  {
    var a, b := line + "\r", line + "\r" + "x";
    var none: seq<string> := [];
    assert a[..|a| - 1] == line && [a][1..] == none && [b][1..] == none;
  }

  lemma {:induction false} SplitAt(c: char, a: string, b: string)
    requires c !in a
    ensures SplitOn(c, a + [c] + b) == [a] + SplitOn(c, b)
  {
    if a == "" {
      assert (a + [c] + b)[1..] == b;
    } else {
      assert (a + [c] + b)[1..] == a[1..] + [c] + b;
      SplitAt(c, a[1..], b);
      assert a == [a[0]] + a[1..] && (a + [c] + b)[0] == a[0];
    }
  }

  lemma {:induction false} SplitNone(c: char, a: string)
    requires c !in a
    ensures SplitOn(c, a) == [a]
  {
    if a != "" {
      SplitNone(c, a[1..]);
      assert a == [a[0]] + a[1..];
    }
  }

  /** A piece never contains the separator. */
  lemma {:induction false} PiecesAreClean(c: char, s: string)
    ensures forall piece :: piece in SplitOn(c, s) ==> c !in piece && forall d :: d in piece ==> d in s
  {
    if s != "" {
      PiecesAreClean(c, s[1..]);
      var rest := SplitOn(c, s[1..]);
      assert rest[0] in rest;
      forall piece | piece in SplitOn(c, s) ensures c !in piece && forall d :: d in piece ==> d in s {
        assert piece == "" || piece in rest || (s[0] != c && piece == [s[0]] + rest[0]);
      }
    }
  }

  predicate Trimmed(s: string) { s != "" ==> !IsSpace(s[0]) && !IsSpace(s[|s| - 1]) }

  lemma TrimFixed(s: string)
    ensures Trimmed(Trim(s))
    ensures Trim(s) == s <==> Trimmed(s)
  {
    var d := DropWhile(IsSpace, s);
    var t := DropWhileEnd(IsSpace, d);
    DropWhileLeaves(IsSpace, s);
    DropWhileEndLeaves(IsSpace, d);
    if t != "" { assert t[0] == d[0]; }
    assert Trimmed(t);
    if s != "" && Trimmed(s) { assert d == s && t == s; }
  }

  lemma TrimNoLonger(s: string)
    ensures |Trim(s)| <= |s|
  {
    DropWhileLeaves(IsSpace, s);
    DropWhileEndLeaves(IsSpace, DropWhile(IsSpace, s));
  }

  /** Trimming undoes the padding of a cell. */
  lemma TrimPadded(s: string)
    ensures Trim(" " + s + " ") == Trim(s)
  {
    DropWhileSnoc(s, ' ');
    var d := DropWhile(IsSpace, s);
    assert DropWhile(IsSpace, " " + s + " ") == DropWhile(IsSpace, s + " ") by {
      assert (" " + s + " ")[1..] == s + " ";
    }
    if d != "" {
      assert DropWhileEnd(IsSpace, d + " ") == DropWhileEnd(IsSpace, d) by {
        assert (d + " ")[..|d|] == d;
      }
    }
  }

  lemma {:induction false} DropWhileSnoc(s: string, c: char)
    requires IsSpace(c)
    ensures DropWhile(IsSpace, s + [c]) == if DropWhile(IsSpace, s) == "" then "" else DropWhile(IsSpace, s) + [c]
  {
    if s == "" {
      assert (s + [c])[1..] == "";
    } else {
      assert (s + [c])[1..] == s[1..] + [c];
      DropWhileSnoc(s[1..], c);
    }
  }

  // ---------------------------------------------------------------------- sequences

  /** The results of `f` on the elements it accepts. */
  function FilterMap<A, B>(f: A -> Option<B>, xs: seq<A>): seq<B> {
    if xs == [] then []
    else
      match f(xs[0])
      case Some(y) => [y] + FilterMap(f, xs[1..])
      case None => FilterMap(f, xs[1..])
  }

  lemma {:induction false} FilterMapAppend<A, B>(f: A -> Option<B>, xs: seq<A>, ys: seq<A>)
    ensures FilterMap(f, xs + ys) == FilterMap(f, xs) + FilterMap(f, ys)
  {
    if xs == [] {
      assert xs + ys == ys;
    } else {
      assert (xs + ys)[1..] == xs[1..] + ys;
      FilterMapAppend(f, xs[1..], ys);
    }
  }

  lemma FilterMapSnoc<A, B>(f: A -> Option<B>, xs: seq<A>, i: nat)
    requires i < |xs|
    ensures FilterMap(f, xs[..i + 1]) == FilterMap(f, xs[..i]) + (match f(xs[i]) case Some(y) => [y] case None => [])
  {
    assert xs[..i + 1] == xs[..i] + [xs[i]];
    FilterMapAppend(f, xs[..i], [xs[i]]);
  }
}
