// What a text determines.
//
// A text together with its tree fixes where every parenthesis stands, so "it parses
// to its own tree" can be decided exactly.
module TextTree {
  import opened Options
  import opened Grammar
  import opened Parser

  /** The tree a text denotes, if it is an expression of the grammar. */
  function Tree(g: Grammar, toks: seq<Token>): Option<Term> {
    match Parse(g, toks)
    case None => None
    case Some(t) => Some(Erase(t))
  }

  // ----------------------------------------------------- parenthesis counting

  function Weight(tok: Token): int {
    if tok == TLParen then 1 else if tok == TRParen then -1 else 0
  }

  /** Opening minus closing parentheses. */
  function Depth(s: seq<Token>): int {
    if s == [] then 0 else Depth(s[..|s| - 1]) + Weight(s[|s| - 1])
  }

  /** The number of tokens that are not parentheses. */
  function Words(s: seq<Token>): nat {
    if s == [] then 0 else Words(s[..|s| - 1]) + (if Weight(s[|s| - 1]) == 0 then 1 else 0)
  }

  lemma {:induction false} CountsAppend(a: seq<Token>, b: seq<Token>)
    ensures Depth(a + b) == Depth(a) + Depth(b)
    ensures Words(a + b) == Words(a) + Words(b)
    decreases |b|
  {
    if b == [] {
      assert a + b == a;
    } else {
      CountsAppend(a, b[..|b| - 1]);
      assert (a + b)[..|a + b| - 1] == a + b[..|b| - 1];
    }
  }

  lemma CountsOne(tok: Token)
    ensures Depth([tok]) == Weight(tok)
    ensures Words([tok]) == if Weight(tok) == 0 then 1 else 0
  {
    assert [tok][..0] == [];
  }

  /** No prefix closes a parenthesis it did not open. */
  ghost predicate Nested(s: seq<Token>) {
    forall k :: 0 <= k <= |s| ==> Depth(s[..k]) >= 0
  }

  ghost predicate Balanced(s: seq<Token>) {
    Nested(s) && Depth(s) == 0
  }

  lemma {:induction false} BalancedAppend(a: seq<Token>, b: seq<Token>)
    requires Balanced(a) && Balanced(b)
    ensures Balanced(a + b)
  {
    CountsAppend(a, b);
    forall k | 0 <= k <= |a + b| ensures Depth((a + b)[..k]) >= 0 {
      if k <= |a| {
        assert (a + b)[..k] == a[..k];
      } else {
        assert (a + b)[..k] == a + b[..k - |a|];
        CountsAppend(a, b[..k - |a|]);
      }
    }
  }

  lemma {:induction false} BalancedWord(tok: Token)
    requires Weight(tok) == 0
    ensures Balanced([tok])
  {}

  // Inside an enclosing pair the depth stays positive until the last token.
  lemma {:induction false} BalancedEnclose(s: seq<Token>)
    requires Balanced(s)
    ensures Balanced([TLParen] + s + [TRParen])
    ensures Enclosed([TLParen] + s + [TRParen])
  {
    var w := [TLParen] + s + [TRParen];
    CountsOne(TLParen);
    CountsOne(TRParen);
    CountsAppend([TLParen], s);
    CountsAppend([TLParen] + s, [TRParen]);
    forall k | 0 <= k <= |w|
      ensures 0 < k < |w| ==> Depth(w[..k]) > 0
      ensures Depth(w[..k]) >= 0
    {
      if k == 0 {
        assert w[..k] == [];
      } else if k < |w| {
        assert w[..k] == [TLParen] + s[..k - 1];
        CountsAppend([TLParen], s[..k - 1]);
      } else {
        assert w[..k] == w;
      }
    }
  }

  /** One pair of parentheses encloses the whole text. */
  predicate Enclosed(s: seq<Token>) {
    |s| >= 2 && Depth(s) == 0 && forall k :: 0 < k < |s| ==> Depth(s[..k]) > 0
  }

  lemma {:induction false} FlattenBalanced(t: Term)
    ensures Balanced(Flatten(t))
    decreases t
  {
    match t
    case Name(x) => BalancedWord(TName(x));
    case Const(c) => BalancedWord(TConst(c));
    case Attr(o, f) =>
      FlattenBalanced(o);
      AttrBalanced(o, f);
    case FCall(f, args) =>
      BalancedWord(TName(f));
      ArgsBalanced(args);
      CallBalanced([TName(f)], args);
      assert Flatten(t) == [TName(f)] + ([TLParen] + FlattenArgs(args) + [TRParen]);
    case MCall(o, m, args) =>
      FlattenBalanced(o);
      AttrBalanced(o, m);
      ArgsBalanced(args);
      MethodBalanced(o, m, args);
    case Bin(op, l, r) =>
      FlattenBalanced(l);
      FlattenBalanced(r);
      InfixBalanced(l, op, r);
    case Chain(p, op, n) =>
      FlattenBalanced(p);
      FlattenBalanced(n);
      InfixBalanced(p, op, n);
    case Un(u, x) =>
      FlattenBalanced(x);
      BalancedWord(UnToken(u));
      BalancedAppend([UnToken(u)], Flatten(x));
    case Paren(x) =>
      FlattenBalanced(x);
      BalancedEnclose(Flatten(x));
  }

  lemma {:induction false} InfixBalanced(l: Term, op: BinOp, r: Term)
    requires Balanced(Flatten(l)) && Balanced(Flatten(r))
    ensures Balanced(Flatten(l) + [TOp(op)] + Flatten(r))
  {
    BalancedWord(TOp(op));
    BalancedAppend(Flatten(l), [TOp(op)]);
    BalancedAppend(Flatten(l) + [TOp(op)], Flatten(r));
  }

  lemma {:induction false} AttrBalanced(o: Term, f: string)
    requires Balanced(Flatten(o))
    ensures Balanced(Flatten(o) + [TDot, TName(f)])
  {
    BalancedWord(TDot);
    BalancedWord(TName(f));
    BalancedAppend([TDot], [TName(f)]);
    BalancedAppend(Flatten(o), [TDot, TName(f)]);
  }

  lemma {:induction false} MethodBalanced(o: Term, m: string, args: Terms)
    requires Balanced(Flatten(o) + [TDot, TName(m)]) && Balanced(FlattenArgs(args))
    ensures Balanced(Flatten(MCall(o, m, args)))
  {
    var head := Flatten(o) + [TDot, TName(m)];
    CallBalanced(head, args);
    assert Flatten(MCall(o, m, args)) == head + ([TLParen] + FlattenArgs(args) + [TRParen]);
  }

  lemma {:induction false} CallBalanced(head: seq<Token>, args: Terms)
    requires Balanced(head) && Balanced(FlattenArgs(args))
    ensures Balanced(head + ([TLParen] + FlattenArgs(args) + [TRParen]))
  {
    BalancedEnclose(FlattenArgs(args));
    BalancedAppend(head, [TLParen] + FlattenArgs(args) + [TRParen]);
  }

  lemma {:induction false} ArgsBalanced(args: Terms)
    ensures Balanced(FlattenArgs(args))
    decreases args
  {
    match args
    case NoTerms =>
    case MoreTerms(h, tl) =>
      FlattenBalanced(h);
      ArgsBalanced(tl);
      BalancedWord(TComma);
      BalancedAppend(Flatten(h), [TComma]);
      BalancedAppend(Flatten(h) + [TComma], FlattenArgs(tl));
  }

  // ------------------------------------------------------------ text and tree

  lemma {:induction false} WordsErase(t: Term)
    ensures Words(Flatten(t)) == Words(Flatten(Erase(t)))
    decreases t
  {
    match t
    case Name(_) =>
    case Const(_) =>
    case Attr(o, f) =>
      WordsErase(o);
      CountsAppend(Flatten(o), [TDot, TName(f)]);
      CountsAppend(Flatten(Erase(o)), [TDot, TName(f)]);
    case FCall(f, args) =>
      WordsEraseArgs(args);
      WordsOfFCall(f, args);
      WordsOfFCall(f, EraseArgs(args));
    case MCall(o, m, args) =>
      WordsErase(o);
      WordsEraseArgs(args);
      WordsOfMCall(o, m, args);
      WordsOfMCall(Erase(o), m, EraseArgs(args));
    case Bin(op, l, r) =>
      WordsErase(l);
      WordsErase(r);
      WordsOfInfix(l, op, r);
      WordsOfInfix(Erase(l), op, Erase(r));
    case Chain(p, op, n) =>
      WordsErase(p);
      WordsErase(n);
      WordsOfInfix(p, op, n);
      WordsOfInfix(Erase(p), op, Erase(n));
    case Un(u, x) =>
      WordsErase(x);
      CountsAppend([UnToken(u)], Flatten(x));
      CountsAppend([UnToken(u)], Flatten(Erase(x)));
    case Paren(x) =>
      WordsErase(x);
      WordsEnclose(Flatten(x));
  }

  lemma {:induction false} WordsEnclose(s: seq<Token>)
    ensures Words([TLParen] + s + [TRParen]) == Words(s)
  {
    CountsOne(TLParen);
    CountsOne(TRParen);
    CountsAppend([TLParen], s);
    CountsAppend([TLParen] + s, [TRParen]);
  }

  lemma {:induction false} WordsOfInfix(l: Term, op: BinOp, r: Term)
    ensures Words(Flatten(l) + [TOp(op)] + Flatten(r)) == Words(Flatten(l)) + 1 + Words(Flatten(r))
  {
    CountsOne(TOp(op));
    CountsAppend(Flatten(l), [TOp(op)]);
    CountsAppend(Flatten(l) + [TOp(op)], Flatten(r));
  }

  lemma {:induction false} WordsOfFCall(f: string, args: Terms)
    ensures Words(Flatten(FCall(f, args))) == 1 + Words(FlattenArgs(args))
  {
    CountsOne(TName(f));
    WordsEnclose(FlattenArgs(args));
    CountsAppend([TName(f)], [TLParen] + FlattenArgs(args) + [TRParen]);
    assert Flatten(FCall(f, args)) == [TName(f)] + ([TLParen] + FlattenArgs(args) + [TRParen]);
  }

  lemma WordsOfDotted(o: seq<Token>, call: seq<Token>)
    ensures Words(o + [TDot] + call) == Words(o) + 1 + Words(call)
  {
    CountsOne(TDot);
    CountsAppend(o, [TDot]);
    CountsAppend(o + [TDot], call);
  }

  lemma MCallText(o: Term, m: string, args: Terms)
    ensures Flatten(MCall(o, m, args)) == Flatten(o) + [TDot] + Flatten(FCall(m, args))
  {}

  lemma {:induction false} WordsOfMCall(o: Term, m: string, args: Terms)
    ensures Words(Flatten(MCall(o, m, args))) == Words(Flatten(o)) + 2 + Words(FlattenArgs(args))
  {
    WordsOfFCall(m, args);
    WordsOfDotted(Flatten(o), Flatten(FCall(m, args)));
    MCallText(o, m, args);
  }

  lemma {:induction false} WordsEraseArgs(args: Terms)
    ensures Words(FlattenArgs(args)) == Words(FlattenArgs(EraseArgs(args)))
    decreases args, 0
  {
    match args
    case NoTerms =>
    case MoreTerms(h, tl) =>
      WordsErase(h);
      WordsEraseArgs(tl);
      CountsAppend(Flatten(h), [TComma]);
      CountsAppend(Flatten(h) + [TComma], FlattenArgs(tl));
      CountsAppend(Flatten(Erase(h)), [TComma]);
      CountsAppend(Flatten(Erase(h)) + [TComma], FlattenArgs(EraseArgs(tl)));
  }

  // The n-th word of a text stands at one place only.
  lemma {:induction false} SameSplit(a: seq<Token>, x: Token, b: seq<Token>, a': seq<Token>, x': Token, b': seq<Token>)
    requires a + [x] + b == a' + [x'] + b'
    requires Weight(x) == 0 && Weight(x') == 0 && Words(a) == Words(a')
    ensures a == a' && x == x' && b == b'
  {
    var s := a + [x] + b;
    if |a| < |a'| {
      assert s[..|a'|] == a';
      LongerHasMoreWords(a, x, s, a');
    } else if |a'| < |a| {
      assert s == a' + [x'] + b';
      assert s[..|a|] == a;
      LongerHasMoreWords(a', x', s, a);
    } else {
      assert s[..|a|] == a && s[..|a'|] == a';
      assert s[|a|] == x && s[|a'|] == x';
      assert s[|a| + 1..] == b && s[|a'| + 1..] == b';
    }
  }

  lemma {:induction false} LongerHasMoreWords(a: seq<Token>, x: Token, s: seq<Token>, a': seq<Token>)
    requires |a| < |a'| <= |s| && s[..|a|] == a && s[|a|] == x && Weight(x) == 0
    requires s[..|a'|] == a'
    ensures Words(a') > Words(a)
  {
    var tail := a'[|a| + 1..];
    assert a' == a + [x] + tail;
    CountsOne(x);
    CountsAppend(a, [x]);
    CountsAppend(a + [x], tail);
  }

  // A text that is not itself a parenthesised one is not enclosed by one pair.
  lemma {:induction false} BareNotEnclosed(t: Term)
    requires !t.Paren?
    ensures !Enclosed(Flatten(t))
  {
    var s := Flatten(t);
    assert s[..1] == [s[0]];
    CountsOne(s[0]);
    match t
    case Name(_) =>
    case Const(_) =>
    case FCall(_, _) =>
    case Un(_, _) =>
    case Attr(o, _) => PrefixNotEnclosed(o, s);
    case MCall(o, m, args) =>
      assert s[..|Flatten(o)|] == Flatten(o);
      PrefixNotEnclosed(o, s);
    case Bin(_, l, _) => PrefixNotEnclosed(l, s);
    case Chain(p, _, _) => PrefixNotEnclosed(p, s);
  }

  lemma PrefixNotEnclosed(p: Term, s: seq<Token>)
    requires |Flatten(p)| < |s| && s[..|Flatten(p)|] == Flatten(p)
    ensures !Enclosed(s)
  {
    FlattenBalanced(p);
  }

  /** A text and its tree determine the placement of every parenthesis. */
  lemma {:induction false} TextAndTreeDetermine(c: Term, t: Term)
    requires Flatten(c) == Flatten(t) && Erase(c) == Erase(t)
    ensures c == t
    decreases c
  {
    if c.Paren? && t.Paren? {
      var s := Flatten(c);
      assert s[1..|s| - 1] == Flatten(c.inner) && s[1..|s| - 1] == Flatten(t.inner);
      TextAndTreeDetermine(c.inner, t.inner);
    } else if c.Paren? {
      FlattenBalanced(c.inner);
      BalancedEnclose(Flatten(c.inner));
      BareNotEnclosed(t);
    } else if t.Paren? {
      FlattenBalanced(t.inner);
      BalancedEnclose(Flatten(t.inner));
      BareNotEnclosed(c);
    } else {
      BareDetermine(c, t);
    }
  }

  function CallTokens(m: string, args: seq<Token>): seq<Token> { [TName(m), TLParen] + args + [TRParen] }

  lemma CallTokensDetermine(m: string, args: seq<Token>, m': string, args': seq<Token>)
    requires CallTokens(m, args) == CallTokens(m', args')
    ensures m == m' && args == args'
  {
    var call := CallTokens(m, args);
    assert call[0] == TName(m) && call[0] == TName(m');
    assert call[2..|call| - 1] == args && call[2..|call| - 1] == args';
  }

  lemma MethodText(o: Term, m: string, args: Terms)
    ensures Flatten(MCall(o, m, args)) == Flatten(o) + [TDot] + CallTokens(m, FlattenArgs(args))
  {}

  // Receivers with the same tree have the same number of words, so the dot before the method is the same.
  lemma MCallSplit(o: Term, m: string, args: Terms, o': Term, m': string, args': Terms)
    requires Flatten(MCall(o, m, args)) == Flatten(MCall(o', m', args')) && Words(Flatten(o)) == Words(Flatten(o'))
    ensures Flatten(o) == Flatten(o') && m == m' && FlattenArgs(args) == FlattenArgs(args')
  {
    MethodText(o, m, args);
    MethodText(o', m', args');
    SameSplit(Flatten(o), TDot, CallTokens(m, FlattenArgs(args)), Flatten(o'), TDot,
        CallTokens(m', FlattenArgs(args')));
    CallTokensDetermine(m, FlattenArgs(args), m', FlattenArgs(args'));
  }

  lemma {:induction false} BareDetermine(c: Term, t: Term)
    requires Flatten(c) == Flatten(t) && Erase(c) == Erase(t)
    requires !c.Paren? && !t.Paren?
    ensures c == t
    decreases c, 0
  {
    var s := Flatten(c);
    match c
    case Name(_) =>
    case Const(_) =>
    case Attr(o, _) =>
      assert s[..|s| - 2] == Flatten(o) && s[..|s| - 2] == Flatten(t.obj);
      TextAndTreeDetermine(o, t.obj);
    case FCall(_, args) =>
      assert s[2..|s| - 1] == FlattenArgs(args) && s[2..|s| - 1] == FlattenArgs(t.args);
      ArgsDetermine(args, t.args);
    case MCall(o, m, args) =>
      WordsErase(o);
      WordsErase(t.recv);
      MCallSplit(o, m, args, t.recv, t.method_, t.margs);
      TextAndTreeDetermine(o, t.recv);
      ArgsDetermine(args, t.margs);
    case Bin(op, l, r) =>
      InfixSplit(l, op, r, t.left, t.op, t.right);
      TextAndTreeDetermine(l, t.left);
      TextAndTreeDetermine(r, t.right);
    case Chain(p, op, n) =>
      InfixSplit(p, op, n, t.prev, t.cop, t.next);
      TextAndTreeDetermine(p, t.prev);
      TextAndTreeDetermine(n, t.next);
    case Un(_, x) =>
      assert s[1..] == Flatten(x) && s[1..] == Flatten(t.operand);
      TextAndTreeDetermine(x, t.operand);
  }

  lemma {:induction false} InfixSplit(l: Term, op: BinOp, r: Term, l': Term, op': BinOp, r': Term)
    requires Flatten(l) + [TOp(op)] + Flatten(r) == Flatten(l') + [TOp(op')] + Flatten(r')
    requires Erase(l) == Erase(l')
    ensures Flatten(l) == Flatten(l') && Flatten(r) == Flatten(r')
  {
    WordsErase(l);
    WordsErase(l');
    SameSplit(Flatten(l), TOp(op), Flatten(r), Flatten(l'), TOp(op'), Flatten(r'));
  }

  lemma {:induction false} ArgsDetermine(a: Terms, b: Terms)
    requires FlattenArgs(a) == FlattenArgs(b) && EraseArgs(a) == EraseArgs(b)
    ensures a == b
    decreases a, 0
  {
    if a.MoreTerms? {
      if a.tail.MoreTerms? {
        WordsErase(a.head);
        WordsErase(b.head);
        SameSplit(Flatten(a.head), TComma, FlattenArgs(a.tail), Flatten(b.head), TComma, FlattenArgs(b.tail));
        ArgsDetermine(a.tail, b.tail);
      }
      TextAndTreeDetermine(a.head, b.head);
    }
  }

  /** A rendering parses back to its own tree exactly when the grammar derives it. */
  lemma ReadsBackIff(g: Grammar, c: Term)
    ensures Tree(g, Flatten(c)) == Some(Erase(c)) <==> Derivable(g, c)
  {
    if Derivable(g, c) {
      ParseIsDerivation(g, Flatten(c), c);
    }
    if Tree(g, Flatten(c)) == Some(Erase(c)) {
      var t := Parse(g, Flatten(c)).value;
      ParseIsDerivation(g, Flatten(c), t);
      TextAndTreeDetermine(c, t);
    }
  }

  // ------------------------------------------------------- fewest parentheses

  /** `x` sits, with just the parentheses it needs, where binding strength `min` is demanded. */
  predicate Fitted(g: Grammar, min: nat, x: Term)
    decreases x, 1
  {
    if x.Paren? then !x.inner.Paren? && Level(g, x.inner) < min && Lean(g, x.inner) else Lean(g, x)
  }

  /** Every parenthesis is there because the grammar demands it. */
  predicate Lean(g: Grammar, c: Term)
    requires !c.Paren?
    decreases c, 0
  {
    match c
    case Name(_) => true
    case Const(_) => true
    case Attr(o, _) => Fitted(g, AtomLevel(g), o)
    case FCall(_, args) => LeanArgs(g, args)
    case MCall(o, _, args) => Fitted(g, AtomLevel(g), o) && LeanArgs(g, args)
    case Bin(op, l, r) => Fitted(g, LeftMin(g, op), l) && Fitted(g, BinLevel(g, op) + 1, r)
    case Chain(_, _, _) => false
    case Un(u, x) => Fitted(g, UnLevel(g, u), x)
  }

  predicate LeanArgs(g: Grammar, args: Terms)
    decreases args
  {
    match args
    case NoTerms => true
    case MoreTerms(h, tl) => !h.Paren? && Lean(g, h) && LeanArgs(g, tl)
  }

  lemma {:induction false} LeanIsShortest(g: Grammar, c: Term, t: Term)
    requires !c.Paren? && Lean(g, c) && Derivable(g, t) && Erase(t) == Erase(c)
    ensures |Flatten(t)| >= |Flatten(c)|
    ensures |Flatten(t)| == |Flatten(c)| ==> t == c
    decreases c, t, 0
  {
    if t.Paren? {
      LeanIsShortest(g, c, t.inner);
    } else {
      match c
      case Name(_) =>
      case Const(_) =>
      case Attr(o, _) => FittedIsShortest(g, AtomLevel(g), o, t.obj);
      case FCall(_, args) => LeanArgsShortest(g, args, t.args);
      case MCall(o, _, args) =>
        FittedIsShortest(g, AtomLevel(g), o, t.recv);
        LeanArgsShortest(g, args, t.margs);
      case Bin(op, l, r) =>
        FittedIsShortest(g, LeftMin(g, op), l, t.left);
        FittedIsShortest(g, BinLevel(g, op) + 1, r, t.right);
      case Un(u, x) => FittedIsShortest(g, UnLevel(g, u), x, t.operand);
    }
  }

  lemma {:induction false} FittedIsShortest(g: Grammar, min: nat, c: Term, t: Term)
    requires Fitted(g, min, c) && Derivable(g, t) && Level(g, t) >= min && Erase(t) == Erase(c)
    ensures |Flatten(t)| >= |Flatten(c)|
    ensures |Flatten(t)| == |Flatten(c)| ==> t == c
    decreases c, t, 1
  {
    if c.Paren? {
      if !t.Paren? {
        SameLevel(g, c.inner, t);
        assert false;
      }
      LeanIsShortest(g, c.inner, t.inner);
    } else {
      LeanIsShortest(g, c, t);
    }
  }

  lemma SameLevel(g: Grammar, c: Term, t: Term)
    requires !c.Paren? && !t.Paren? && Erase(t) == Erase(c)
    ensures Level(g, t) == Level(g, c)
  {}

  lemma {:induction false} LeanArgsShortest(g: Grammar, a: Terms, b: Terms)
    requires LeanArgs(g, a) && AllDerivable(g, b) && EraseArgs(a) == EraseArgs(b)
    ensures |FlattenArgs(b)| >= |FlattenArgs(a)|
    ensures |FlattenArgs(b)| == |FlattenArgs(a)| ==> a == b
    decreases a, b
  {
    if a.MoreTerms? {
      LeanIsShortest(g, a.head, b.head);
      LeanArgsShortest(g, a.tail, b.tail);
    }
  }
}
