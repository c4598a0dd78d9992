// A recursive-descent parser for both grammars, proved sound and complete.
module Parser {
  import opened Options
  import opened Grammar

  datatype Parsed = Fail | Got(term: Term, rest: seq<Token>)
  datatype ParsedArgs = FailArgs | GotArgs(args: Terms, rest: seq<Token>)

  /** Is `tok` a prefix operator of level `l`? */
  function PrefixAt(g: Grammar, l: nat, tok: Token): (u: Option<UnOp>)
    ensures u.Some? ==> UnToken(u.value) == tok && UnLevel(g, u.value) == l
    ensures u.None? ==> forall v :: UnToken(v) == tok ==> UnLevel(g, v) != l
  {
    if tok == TNot && UnLevel(g, Not) == l then Some(Not)
    else if tok == TOp(Sum(Sub)) && UnLevel(g, Neg) == l then Some(Neg)
    else if tok == TOp(Product(Mul)) && UnLevel(g, Deref) == l then Some(Deref)
    else None
  }

  function Join(g: Grammar, acc: Term, op: BinOp, r: Term): Term {
    if g.Python? && op.Cmp? && IsComparison(acc) then Chain(acc, op, r) else Bin(op, acc, r)
  }

  function ParseLevel(g: Grammar, l: nat, toks: seq<Token>): (p: Parsed)
    requires 1 <= l <= AtomLevel(g)
    ensures p.Got? ==> |p.rest| < |toks|
    decreases |toks|, AtomLevel(g) - l + 1
  {
    if l == AtomLevel(g) then
      ParseAtom(g, toks)
    else if IsUnaryLevel(g, l) then
      if toks != [] && PrefixAt(g, l, toks[0]).Some? then
        match ParseLevel(g, l, toks[1..])
        case Fail => Fail
        case Got(x, rest) => Got(Un(PrefixAt(g, l, toks[0]).value, x), rest)
      else
        ParseLevel(g, l + 1, toks)
    else
      match ParseLevel(g, l + 1, toks)
      case Fail => Fail
      case Got(t, rest) => Loop(g, l, t, rest)
  }

  function Loop(g: Grammar, l: nat, acc: Term, toks: seq<Token>): (p: Parsed)
    requires 1 <= l < AtomLevel(g)
    ensures p.Got? ==> |p.rest| <= |toks|
    decreases |toks|, 0
  {
    if toks != [] && toks[0].TOp? && BinLevel(g, toks[0].op) == l then
      match ParseLevel(g, l + 1, toks[1..])
      case Fail => Fail
      case Got(r, rest) => Loop(g, l, Join(g, acc, toks[0].op, r), rest)
    else
      Got(acc, toks)
  }

  function ParseAtom(g: Grammar, toks: seq<Token>): (p: Parsed)
    ensures p.Got? ==> |p.rest| < |toks|
    decreases |toks|, 0
  {
    if toks == [] then Fail
    else match toks[0]
         case TName(x) =>
           if |toks| > 1 && toks[1] == TLParen then
             match ParseArgs(g, toks[2..])
             case FailArgs => Fail
             case GotArgs(args, rest) => Trailers(g, FCall(x, args), rest)
           else Trailers(g, Name(x), toks[1..])
         case TConst(c) => Trailers(g, Const(c), toks[1..])
         case TLParen =>
           (match ParseLevel(g, 1, toks[1..])
            case Fail => Fail
            case Got(t, rest) =>
              if rest != [] && rest[0] == TRParen then Trailers(g, Paren(t), rest[1..]) else Fail)
         case _ => Fail
  }

  function Trailers(g: Grammar, acc: Term, toks: seq<Token>): (p: Parsed)
    ensures p.Got? ==> |p.rest| <= |toks|
    decreases |toks|, 0
  {
    if |toks| > 1 && toks[0] == TDot && toks[1].TName? then
      if |toks| > 2 && toks[2] == TLParen then
        match ParseArgs(g, toks[3..])
        case FailArgs => Fail
        case GotArgs(args, rest) => Trailers(g, MCall(acc, toks[1].id, args), rest)
      else Trailers(g, Attr(acc, toks[1].id), toks[2..])
    else Got(acc, toks)
  }

  /** What follows an opening call parenthesis, up to and including the closing one. */
  function ParseArgs(g: Grammar, toks: seq<Token>): (p: ParsedArgs)
    ensures p.GotArgs? ==> |p.rest| < |toks|
    decreases |toks|, AtomLevel(g) + 2
  {
    if toks != [] && toks[0] == TRParen then GotArgs(NoTerms, toks[1..])
    else ParseMoreArgs(g, toks)
  }

  function ParseMoreArgs(g: Grammar, toks: seq<Token>): (p: ParsedArgs)
    ensures p.GotArgs? ==> |p.rest| < |toks|
    decreases |toks|, AtomLevel(g) + 1
  {
    match ParseLevel(g, 1, toks)
    case Fail => FailArgs
    case Got(h, rest) =>
      if rest == [] then FailArgs
      else if rest[0] == TRParen then GotArgs(MoreTerms(h, NoTerms), rest[1..])
      else if rest[0] == TComma then
        match ParseMoreArgs(g, rest[1..])
        case FailArgs => FailArgs
        case GotArgs(tl, rest') => GotArgs(MoreTerms(h, tl), rest')
      else FailArgs
  }

  /** The whole text must be one expression. */
  function Parse(g: Grammar, toks: seq<Token>): Option<Term> {
    match ParseLevel(g, 1, toks)
    case Fail => None
    case Got(t, rest) => if rest == [] then Some(t) else None
  }

  // ---------------------------------------------------------------- soundness

  lemma Regroup<T>(a: seq<T>, b: seq<T>, c: seq<T>, d: seq<T>)
    ensures a + (b + (c + d)) == (a + b + c) + d
  {}

  lemma {:induction false} LevelSound(g: Grammar, l: nat, toks: seq<Token>)
    requires 1 <= l <= AtomLevel(g)
    ensures var p := ParseLevel(g, l, toks);
            p.Got? ==> toks == Flatten(p.term) + p.rest && Derivable(g, p.term) && Level(g, p.term) >= l
    decreases |toks|, AtomLevel(g) - l + 1
  {
    if l == AtomLevel(g) {
      AtomSound(g, toks);
    } else if IsUnaryLevel(g, l) {
      if toks != [] && PrefixAt(g, l, toks[0]).Some? {
        LevelSound(g, l, toks[1..]);
        PrefixSound(g, l, toks);
      } else {
        LevelSound(g, l + 1, toks);
      }
    } else {
      LevelSound(g, l + 1, toks);
      var p := ParseLevel(g, l + 1, toks);
      if p.Got? {
        LoopSound(g, l, p.term, p.rest);
      }
    }
  }

  lemma PrefixSound(g: Grammar, l: nat, toks: seq<Token>)
    requires 1 <= l < AtomLevel(g) && IsUnaryLevel(g, l) && toks != [] && PrefixAt(g, l, toks[0]).Some?
    requires var p := ParseLevel(g, l, toks[1..]);
             p.Got? ==> toks[1..] == Flatten(p.term) + p.rest && Derivable(g, p.term) && Level(g, p.term) >= l
    ensures var p := ParseLevel(g, l, toks);
            p.Got? ==> toks == Flatten(p.term) + p.rest && Derivable(g, p.term) && Level(g, p.term) >= l
  {
    assert toks == [toks[0]] + toks[1..];
  }

  lemma JoinedText(g: Grammar, acc: Term, op: Token, r: Term, toks: seq<Token>, rest: seq<Token>)
    requires op.TOp? && toks != [] && toks[0] == op && toks[1..] == Flatten(r) + rest
    requires Flatten(Join(g, acc, op.op, r)) == Flatten(acc) + [op] + Flatten(r)
    ensures Flatten(acc) + toks == Flatten(Join(g, acc, op.op, r)) + rest
  {
    assert toks == [op] + (Flatten(r) + rest);
    Regroup(Flatten(acc), [op], Flatten(r), rest);
  }

  lemma {:induction false} LoopSound(g: Grammar, l: nat, acc: Term, toks: seq<Token>)
    requires 1 <= l < AtomLevel(g)
    requires Derivable(g, acc) && Level(g, acc) >= l
    ensures var p := Loop(g, l, acc, toks);
            p.Got? ==> Flatten(acc) + toks == Flatten(p.term) + p.rest && Derivable(g, p.term) && Level(g, p.term) >= l
    decreases |toks|, 0
  {
    if toks != [] && toks[0].TOp? && BinLevel(g, toks[0].op) == l {
      LevelSound(g, l + 1, toks[1..]);
      var p := ParseLevel(g, l + 1, toks[1..]);
      if p.Got? {
        var joined := Join(g, acc, toks[0].op, p.term);
        JoinDerivable(g, acc, toks[0].op, p.term);
        LoopSound(g, l, joined, p.rest);
        JoinedText(g, acc, toks[0], p.term, toks, p.rest);
      }
    }
  }

  lemma {:induction false} JoinDerivable(g: Grammar, acc: Term, op: BinOp, r: Term)
    requires Derivable(g, acc) && Level(g, acc) >= BinLevel(g, op)
    requires Derivable(g, r) && Level(g, r) > BinLevel(g, op)
    ensures Derivable(g, Join(g, acc, op, r)) && Level(g, Join(g, acc, op, r)) == BinLevel(g, op)
    ensures Flatten(Join(g, acc, op, r)) == Flatten(acc) + [TOp(op)] + Flatten(r)
  {
    if g.Python? && op.Cmp? {
      if IsComparison(acc) {
        assert Derivable(g, Chain(acc, op, r));
      } else {
        assert Level(g, acc) > BinLevel(g, op);
        assert Derivable(g, Bin(op, acc, r));
      }
    } else {
      assert Derivable(g, Bin(op, acc, r));
    }
  }

  lemma {:induction false} AtomSound(g: Grammar, toks: seq<Token>)
    ensures var p := ParseAtom(g, toks);
            p.Got? ==> toks == Flatten(p.term) + p.rest && Derivable(g, p.term) && Level(g, p.term) == AtomLevel(g)
    decreases |toks|, 0
  {
    if toks != [] {
      assert toks == [toks[0]] + toks[1..];
      match toks[0]
      case TName(x) =>
        if |toks| > 1 && toks[1] == TLParen {
          ArgsSound(g, toks[2..]);
          var p := ParseArgs(g, toks[2..]);
          if p.GotArgs? {
            FCallText(x, p.args, toks, p.rest);
            TrailersSound(g, FCall(x, p.args), p.rest);
          }
        } else {
          TrailersSound(g, Name(x), toks[1..]);
        }
      case TConst(c) =>
        TrailersSound(g, Const(c), toks[1..]);
      case TLParen =>
        LevelSound(g, 1, toks[1..]);
        var p := ParseLevel(g, 1, toks[1..]);
        if p.Got? && p.rest != [] && p.rest[0] == TRParen {
          ParenText(p.term, toks, p.rest);
          TrailersSound(g, Paren(p.term), p.rest[1..]);
        }
      case _ =>
    }
  }

  lemma {:induction false} FCallText(f: string, args: Terms, toks: seq<Token>, rest: seq<Token>)
    requires |toks| > 1 && toks[0] == TName(f) && toks[1] == TLParen
    requires toks[2..] == FlattenArgs(args) + [TRParen] + rest
    ensures toks == Flatten(FCall(f, args)) + rest
  {
    assert toks == [TName(f), TLParen] + toks[2..];
  }

  lemma {:induction false} ParenText(x: Term, toks: seq<Token>, rest: seq<Token>)
    requires toks != [] && toks[0] == TLParen && rest != [] && rest[0] == TRParen
    requires toks[1..] == Flatten(x) + rest
    ensures toks == Flatten(Paren(x)) + rest[1..]
  {}

  lemma {:induction false} TrailersSound(g: Grammar, acc: Term, toks: seq<Token>)
    requires Derivable(g, acc) && Level(g, acc) == AtomLevel(g)
    ensures var p := Trailers(g, acc, toks);
            p.Got? ==>
              && Flatten(acc) + toks == Flatten(p.term) + p.rest
              && Derivable(g, p.term) && Level(g, p.term) == AtomLevel(g)
    decreases |toks|, 0
  {
    if |toks| > 1 && toks[0] == TDot && toks[1].TName? {
      if |toks| > 2 && toks[2] == TLParen {
        ArgsSound(g, toks[3..]);
        var p := ParseArgs(g, toks[3..]);
        if p.GotArgs? {
          CallText(acc, toks[1].id, p.args, toks, p.rest);
          TrailersSound(g, MCall(acc, toks[1].id, p.args), p.rest);
        }
      } else {
        AttrText(acc, toks[1].id, toks);
        TrailersSound(g, Attr(acc, toks[1].id), toks[2..]);
      }
    }
  }

  lemma {:induction false} AttrText(o: Term, f: string, toks: seq<Token>)
    requires |toks| > 1 && toks[0] == TDot && toks[1] == TName(f)
    ensures Flatten(o) + toks == Flatten(Attr(o, f)) + toks[2..]
  {}

  lemma {:induction false} CallText(o: Term, m: string, args: Terms, toks: seq<Token>, rest: seq<Token>)
    requires |toks| > 2 && toks[0] == TDot && toks[1] == TName(m) && toks[2] == TLParen
    requires toks[3..] == FlattenArgs(args) + [TRParen] + rest
    ensures Flatten(o) + toks == Flatten(MCall(o, m, args)) + rest
  {}

  lemma {:induction false} ArgsSound(g: Grammar, toks: seq<Token>)
    ensures var p := ParseArgs(g, toks);
            p.GotArgs? ==> toks == FlattenArgs(p.args) + [TRParen] + p.rest && AllDerivable(g, p.args)
    decreases |toks|, AtomLevel(g) + 2
  {
    if toks != [] && toks[0] == TRParen {
      assert toks == [TRParen] + toks[1..];
    } else {
      MoreArgsSound(g, toks);
    }
  }

  lemma {:induction false} MoreArgsSound(g: Grammar, toks: seq<Token>)
    ensures var p := ParseMoreArgs(g, toks);
            p.GotArgs? ==>
              && p.args.MoreTerms?
              && toks == FlattenArgs(p.args) + [TRParen] + p.rest && AllDerivable(g, p.args)
    decreases |toks|, AtomLevel(g) + 1
  {
    LevelSound(g, 1, toks);
    var p := ParseLevel(g, 1, toks);
    if p.Got? && p.rest != [] {
      if p.rest[0] == TRParen {
        assert p.rest == [TRParen] + p.rest[1..];
      } else if p.rest[0] == TComma {
        MoreArgsSound(g, p.rest[1..]);
        assert p.rest == [TComma] + p.rest[1..];
        var q := ParseMoreArgs(g, p.rest[1..]);
        if q.GotArgs? {
          var tail := FlattenArgs(q.args) + [TRParen];
          Regroup(Flatten(p.term), [TComma], tail, q.rest);
          assert FlattenArgs(MoreTerms(p.term, q.args)) == Flatten(p.term) + [TComma] + FlattenArgs(q.args);
        }
      }
    }
  }

  // ------------------------------------------------------------- completeness

  /** The text after an expression of level `l` cannot be read as more of it. */
  predicate Stops(g: Grammar, l: nat, rest: seq<Token>) {
    rest == [] || (rest[0] != TDot && rest[0] != TLParen && (rest[0].TOp? ==> BinLevel(g, rest[0].op) < l))
  }

  lemma {:induction false} FirstToken(g: Grammar, t: Term, u: UnOp)
    requires Derivable(g, t) && Flatten(t)[0] == UnToken(u)
    ensures t.Un? || UnLevel(g, u) >= Level(g, t)
    ensures t.Un? ==> t.uop == u
    decreases t
  {
    match t
    case Attr(o, _) => FirstToken(g, o, u);
    case MCall(o, _, _) => FirstToken(g, o, u);
    case Bin(_, l, _) => FirstToken(g, l, u);
    case Chain(p, _, _) => FirstToken(g, p, u);
    case _ =>
  }

  lemma {:induction false} AtomComplete(g: Grammar, t: Term, rest: seq<Token>)
    requires Derivable(g, t) && Level(g, t) == AtomLevel(g)
    requires rest == [] || rest[0] != TLParen
    ensures ParseAtom(g, Flatten(t) + rest) == Trailers(g, t, rest)
    decreases t, 0
  {
    match t
    case Name(_) => LeafAtom(g, t, rest);
    case Const(_) => LeafAtom(g, t, rest);
    case Attr(o, f) =>
      var rest' := [TDot, TName(f)] + rest;
      AttrText(o, f, rest');
      AtomComplete(g, o, rest');
      AttrTrailer(g, o, f, rest);
    case FCall(f, args) =>
      ArgsComplete(g, args, rest);
      CallAtom(g, f, args, rest);
    case MCall(o, m, args) =>
      var tail := FlattenArgs(args) + [TRParen] + rest;
      var rest' := [TDot, TName(m), TLParen] + tail;
      CallText(o, m, args, rest', rest);
      AtomComplete(g, o, rest');
      ArgsComplete(g, args, rest);
      CallTrailer(g, o, m, args, rest);
    case Paren(x) =>
      LevelComplete(g, 1, x, [TRParen] + rest);
      ParenAtom(g, x, rest);
  }

  lemma {:induction false} LeafAtom(g: Grammar, t: Term, rest: seq<Token>)
    requires t.Name? || t.Const?
    requires rest == [] || rest[0] != TLParen
    ensures ParseAtom(g, Flatten(t) + rest) == Trailers(g, t, rest)
  {}

  lemma {:induction false} CallAtom(g: Grammar, f: string, args: Terms, rest: seq<Token>)
    requires ParseArgs(g, FlattenArgs(args) + [TRParen] + rest) == GotArgs(args, rest)
    ensures ParseAtom(g, Flatten(FCall(f, args)) + rest) == Trailers(g, FCall(f, args), rest)
  {
    var toks := Flatten(FCall(f, args)) + rest;
    assert toks[2..] == FlattenArgs(args) + [TRParen] + rest;
  }

  lemma {:induction false} AttrTrailer(g: Grammar, o: Term, f: string, rest: seq<Token>)
    requires rest == [] || rest[0] != TLParen
    ensures Trailers(g, o, [TDot, TName(f)] + rest) == Trailers(g, Attr(o, f), rest)
  {}

  lemma {:induction false} CallTrailer(g: Grammar, o: Term, m: string, args: Terms, rest: seq<Token>)
    requires ParseArgs(g, FlattenArgs(args) + [TRParen] + rest) == GotArgs(args, rest)
    ensures Trailers(g, o, [TDot, TName(m), TLParen] + (FlattenArgs(args) + [TRParen] + rest))
         == Trailers(g, MCall(o, m, args), rest)
  {}

  lemma {:induction false} ParenAtom(g: Grammar, x: Term, rest: seq<Token>)
    requires ParseLevel(g, 1, Flatten(x) + ([TRParen] + rest)) == Got(x, [TRParen] + rest)
    ensures ParseAtom(g, Flatten(Paren(x)) + rest) == Trailers(g, Paren(x), rest)
  {
    var toks := Flatten(Paren(x)) + rest;
    assert toks[1..] == Flatten(x) + ([TRParen] + rest);
    assert ([TRParen] + rest)[1..] == rest;
  }

  lemma {:induction false} ArgsComplete(g: Grammar, args: Terms, rest: seq<Token>)
    requires AllDerivable(g, args)
    ensures ParseArgs(g, FlattenArgs(args) + [TRParen] + rest) == GotArgs(args, rest)
    decreases args, 1
  {
    if args.MoreTerms? {
      MoreArgsComplete(g, args, rest);
      var toks := FlattenArgs(args) + [TRParen] + rest;
      FirstOfTerm(args.head);
      assert toks[0] == Flatten(args.head)[0];
    }
  }

  lemma FirstOfTerm(t: Term)
    ensures Flatten(t)[0] != TRParen
  {}

  lemma {:induction false} MoreArgsComplete(g: Grammar, args: Terms, rest: seq<Token>)
    requires args.MoreTerms? && AllDerivable(g, args)
    ensures ParseMoreArgs(g, FlattenArgs(args) + [TRParen] + rest) == GotArgs(args, rest)
    decreases args, 0
  {
    var toks := FlattenArgs(args) + [TRParen] + rest;
    if args.tail.NoTerms? {
      var rest' := [TRParen] + rest;
      assert toks == Flatten(args.head) + rest';
      LevelComplete(g, 1, args.head, rest');
      assert rest'[1..] == rest;
    } else {
      var more := FlattenArgs(args.tail) + [TRParen] + rest;
      var rest' := [TComma] + more;
      assert toks == Flatten(args.head) + rest';
      LevelComplete(g, 1, args.head, rest');
      assert rest'[1..] == more;
      MoreArgsComplete(g, args.tail, rest);
    }
  }

  lemma {:induction false} LevelComplete(g: Grammar, l: nat, t: Term, rest: seq<Token>)
    requires 1 <= l <= AtomLevel(g)
    requires Derivable(g, t) && Level(g, t) >= l && Stops(g, l, rest)
    ensures ParseLevel(g, l, Flatten(t) + rest) == Got(t, rest)
    decreases t, AtomLevel(g) - l + 1, 2
  {
    var toks := Flatten(t) + rest;
    if l == AtomLevel(g) {
      AtomComplete(g, t, rest);
    } else if !IsUnaryLevel(g, l) {
      LevelLoops(g, l, t, rest);
    } else if t.Un? && UnLevel(g, t.uop) == l {
      LevelComplete(g, l, t.operand, rest);
      assert toks[1..] == Flatten(t.operand) + rest;
      assert toks[0] == UnToken(t.uop);
    } else {
      assert toks[0] == Flatten(t)[0];
      if PrefixAt(g, l, toks[0]).Some? {
        FirstToken(g, t, PrefixAt(g, l, toks[0]).value);
      }
      LevelComplete(g, l + 1, t, rest);
    }
  }

  // At a binary level the parser reaches its loop holding exactly `t`.
  lemma {:induction false} LevelLoops(g: Grammar, l: nat, t: Term, rest: seq<Token>)
    requires 1 <= l < AtomLevel(g) && !IsUnaryLevel(g, l)
    requires Derivable(g, t) && Level(g, t) >= l && Stops(g, l + 1, rest)
    ensures ParseLevel(g, l, Flatten(t) + rest) == Loop(g, l, t, rest)
    decreases t, AtomLevel(g) - l + 1, 1
  {
    if Level(g, t) > l {
      LevelComplete(g, l + 1, t, rest);
    } else {
      var (a, op, b) := if t.Bin? then (t.left, t.op, t.right) else (t.prev, t.cop, t.next);
      var rest' := [TOp(op)] + (Flatten(b) + rest);
      LevelLoops(g, l, a, rest');
      LevelComplete(g, l + 1, b, rest);
      Regroup(Flatten(a), [TOp(op)], Flatten(b), rest);
      LoopStep(g, l, a, op, b, rest);
      assert Join(g, a, op, b) == t;
    }
  }

  lemma {:induction false} LoopStep(g: Grammar, l: nat, a: Term, op: BinOp, b: Term, rest: seq<Token>)
    requires 1 <= l < AtomLevel(g) && BinLevel(g, op) == l
    requires ParseLevel(g, l + 1, Flatten(b) + rest) == Got(b, rest)
    ensures Loop(g, l, a, [TOp(op)] + (Flatten(b) + rest)) == Loop(g, l, Join(g, a, op, b), rest)
  {
    assert ([TOp(op)] + (Flatten(b) + rest))[1..] == Flatten(b) + rest;
  }

  // ------------------------------------------------------------------ results

  /** The parser accepts exactly the derivable texts and returns their derivation. */
  lemma ParseIsDerivation(g: Grammar, toks: seq<Token>, t: Term)
    ensures Parse(g, toks) == Some(t) <==> Derivable(g, t) && Flatten(t) == toks
  {
    LevelSound(g, 1, toks);
    if Parse(g, toks) == Some(t) {
      assert Flatten(t) + [] == Flatten(t);
    }
    if Derivable(g, t) && Flatten(t) == toks {
      LevelComplete(g, 1, t, []);
      assert Flatten(t) + [] == Flatten(t);
    }
  }

  /** Neither grammar is ambiguous. */
  lemma Unambiguous(g: Grammar, t: Term, u: Term)
    requires Derivable(g, t) && Derivable(g, u) && Flatten(t) == Flatten(u)
    ensures t == u
  {
    ParseIsDerivation(g, Flatten(t), t);
    ParseIsDerivation(g, Flatten(u), u);
  }
}
