/**
 Which groupings of a tree are read as it is meant: exactly the well-formed
 ones.  Any other grouping prints as a well-formed grouping of another tree.
 */
module Groupings {
  import opened Tokens
  import opened ExpressionParser
  import opened ExpressionTrees
  import opened ExpressionTheorems
  import opened MinimalPrinting

  // A tree with any groups at its own level, needed or not, or too few.
  predicate Grouping(c: Expr) {
    match c
    case Literal(t) => IsLiteral(t)
    case Variable(_) => true
    case Unary(op, x) => IsUnary(op) && Grouping(x)
    case Binary(op, l, r) => IsBinary(op) && Grouping(l) && Grouping(r)
    case Group(x) => Grouping(x)
    case Call(_, args) => WellFormedArgs(args)
    case LambdaExpr(_, _, _) => false
  }

  // ------------------------------------------------------- what is read instead

  function Least(a: int, b: int): int {
    if a <= b then a else b
  }

  // The well-formed tree that prints as l, an operator, and r: the operators
  // at the ends of l and r that bind looser move above it.
  function Join(l: Expr, op: Operator, r: Expr): (c: Expr)
    requires WellFormed(l) && WellFormed(r) && IsBinary(op)
    ensures WellFormed(c) && Level(c) >= Least(Level(l), Least(Precedence(op), Level(r)))
    decreases r, l
  {
    if !RightFits(op, r) then Join(Join(l, op, r.left), r.op, r.right)
    else if !LeftFits(op, l) then Binary(l.op, l.left, Join(l.right, op, r))
    else Binary(op, l, r)
  }

  function Prefix(op: Operator, x: Expr): (c: Expr)
    requires WellFormed(x) && IsUnary(op)
    ensures WellFormed(c)
    decreases x
  {
    if RightFits(op, x) then Unary(op, x) else Join(Prefix(op, x.left), x.op, x.right)
  }

  function Reread(c: Expr): (w: Expr)
    requires Grouping(c)
    ensures WellFormed(w)
  {
    match c
    case Unary(op, x) => Prefix(op, Reread(x))
    case Binary(op, l, r) => Join(Reread(l), op, Reread(r))
    case Group(x) => Group(Reread(x))
    case _ => c
  }

  // The operands of a tree that are no operators, from left to right.
  function Atoms(c: Expr): seq<Expr> {
    match c
    case Unary(_, x) => Atoms(x)
    case Binary(_, l, r) => Atoms(l) + Atoms(r)
    case Group(x) => Atoms(x)
    case _ => [c]
  }

  lemma Regroup<T>(a: seq<T>, b: seq<T>, c: seq<T>, d: seq<T>, e: seq<T>)
    ensures a + b + (c + d + e) == a + b + c + d + e
  {}

  // A tree that does not fit beside an operator is an operation itself.
  lemma Loose(op: Operator, c: Expr)
    requires WellFormed(c) && (IsBinary(op) || IsUnary(op)) && (!RightFits(op, c) || (IsBinary(op) && !LeftFits(op, c)))
    ensures c.Binary? && IsBinary(c.op) && WellFormed(c.left) && WellFormed(c.right)
  {}

  lemma PrintBinary(c: Expr)
    requires c.Binary?
    ensures Print(c) == Print(c.left) + [Op(c.op)] + Print(c.right)
  {}

  // The two ways in which an operator moves up.
  lemma JoinRight(l: Expr, op: Operator, r: Expr)
    requires WellFormed(l) && WellFormed(r) && IsBinary(op) && !RightFits(op, r)
    ensures r.Binary? && IsBinary(r.op) && WellFormed(r.left) && WellFormed(r.right)
    ensures Join(l, op, r) == Join(Join(l, op, r.left), r.op, r.right)
  {
    Loose(op, r);
  }

  lemma JoinLeft(l: Expr, op: Operator, r: Expr)
    requires WellFormed(l) && WellFormed(r) && IsBinary(op) && RightFits(op, r) && !LeftFits(op, l)
    ensures l.Binary? && WellFormed(l.right)
    ensures Join(l, op, r) == Binary(l.op, l.left, Join(l.right, op, r))
  {
    Loose(op, l);
  }

  lemma JoinFits(l: Expr, op: Operator, r: Expr)
    requires WellFormed(l) && WellFormed(r) && IsBinary(op) && RightFits(op, r) && LeftFits(op, l)
    ensures Join(l, op, r) == Binary(op, l, r)
  {}

  lemma {:induction false} JoinPrints(l: Expr, op: Operator, r: Expr)
    requires WellFormed(l) && WellFormed(r) && IsBinary(op)
    ensures Print(Join(l, op, r)) == Print(l) + [Op(op)] + Print(r)
    decreases r, l
  {
    hide WellFormed, Join, Print, RightFits, LeftFits, IsBinary;
    if !RightFits(op, r) {
      JoinRight(l, op, r);
      JoinPrints(l, op, r.left);
      JoinPrints(Join(l, op, r.left), r.op, r.right);
      PrintBinary(r);
      Regroup(Print(l), [Op(op)], Print(r.left), [Op(r.op)], Print(r.right));
    } else if !LeftFits(op, l) {
      JoinLeft(l, op, r);
      JoinPrints(l.right, op, r);
      PrintBinary(l);
      PrintBinary(Join(l, op, r));
      Regroup(Print(l.left), [Op(l.op)], Print(l.right), [Op(op)], Print(r));
    } else {
      JoinFits(l, op, r);
      PrintBinary(Join(l, op, r));
    }
  }

  lemma {:induction false} JoinAtoms(l: Expr, op: Operator, r: Expr, inside: bool)
    requires WellFormed(l) && WellFormed(r) && IsBinary(op)
    ensures var c := Join(l, op, r);
            Atoms(c) == Atoms(l) + Atoms(r) && (GroupSafe(c, inside) <==> GroupSafe(l, inside) && GroupSafe(r, inside))
    decreases r, l
  {
    hide WellFormed, Join, RightFits, LeftFits, IsBinary, Atoms, GroupSafe;
    if !RightFits(op, r) {
      JoinRight(l, op, r);
      JoinAtoms(l, op, r.left, inside);
      JoinAtoms(Join(l, op, r.left), r.op, r.right, inside);
      AtomsBinary(r, inside);
    } else if !LeftFits(op, l) {
      JoinLeft(l, op, r);
      JoinAtoms(l.right, op, r, inside);
      AtomsBinary(l, inside);
      AtomsBinary(Join(l, op, r), inside);
    } else {
      JoinFits(l, op, r);
      AtomsBinary(Join(l, op, r), inside);
    }
  }

  lemma AtomsBinary(c: Expr, inside: bool)
    requires c.Binary?
    ensures Atoms(c) == Atoms(c.left) + Atoms(c.right)
    ensures GroupSafe(c, inside) <==> GroupSafe(c.left, inside) && GroupSafe(c.right, inside)
  {}

  lemma PrefixLoose(op: Operator, x: Expr)
    requires WellFormed(x) && IsUnary(op) && !RightFits(op, x)
    ensures x.Binary? && IsBinary(x.op) && WellFormed(x.left) && WellFormed(x.right)
    ensures Prefix(op, x) == Join(Prefix(op, x.left), x.op, x.right)
  {
    Loose(op, x);
  }

  lemma PrefixFits(op: Operator, x: Expr, inside: bool)
    requires WellFormed(x) && IsUnary(op) && RightFits(op, x)
    ensures Print(Prefix(op, x)) == [Op(UnaryText(op))] + Print(x) && Atoms(Prefix(op, x)) == Atoms(x)
    ensures GroupSafe(Prefix(op, x), inside) <==> GroupSafe(x, inside)
  {}

  lemma {:induction false} PrefixSame(op: Operator, x: Expr, inside: bool)
    requires WellFormed(x) && IsUnary(op)
    ensures var c := Prefix(op, x);
            Print(c) == [Op(UnaryText(op))] + Print(x) && Atoms(c) == Atoms(x) &&
            (GroupSafe(c, inside) <==> GroupSafe(x, inside))
    decreases x
  {
    hide WellFormed, Join, Prefix, Print, RightFits, IsBinary, IsUnary, Atoms, GroupSafe;
    if RightFits(op, x) {
      PrefixFits(op, x, inside);
    } else {
      PrefixLoose(op, x);
      var front := Prefix(op, x.left);
      PrefixSame(op, x.left, inside);
      JoinPrints(front, x.op, x.right);
      JoinAtoms(front, x.op, x.right, inside);
      PrintBinary(x);
      AtomsBinary(x, inside);
      var h := [Op(UnaryText(op))];
      assert h + (Print(x.left) + [Op(x.op)] + Print(x.right)) == h + Print(x.left) + [Op(x.op)] + Print(x.right);
    }
  }

  lemma {:induction false} RereadSame(c: Expr, inside: bool)
    requires Grouping(c)
    ensures var w := Reread(c);
            Print(w) == Print(c) && Atoms(w) == Atoms(c) && (GroupSafe(w, inside) <==> GroupSafe(c, inside))
    decreases c
  {
    match c
    case Unary(op, x) => RereadSame(x, inside); PrefixSame(op, Reread(x), inside);
    case Binary(op, l, r) =>
      RereadSame(l, inside);
      RereadSame(r, inside);
      JoinPrints(Reread(l), op, Reread(r));
      JoinAtoms(Reread(l), op, Reread(r), inside);
    case Group(x) => RereadSame(x, inside);
    case _ =>
  }

  // ----------------------------------------------- an environment that spells

  // The operators of a tree in postfix order, each atom a mark.
  function Shape(c: Expr): seq<Token> {
    match c
    case Unary(op, x) => Shape(x) + [Op(op)]
    case Binary(op, l, r) => Shape(l) + Shape(r) + [Op(op)]
    case Group(x) => Shape(x)
    case _ => [Null]
  }

  function Code(shape: seq<Token>): Value {
    Closure([], shape, map[])
  }

  function ShapeOf(v: Value): seq<Token> {
    if v.Closure? then v.body else []
  }

  // Values are shapes, so that a tree denotes its own.
  function Spelling(): Env {
    Env((t: Token) => Code([Null]), Code([]), (c: Context, x: string) => Code([Null]),
        (op: Operator, v: Value) => Code(ShapeOf(v) + [Op(op)]),
        (op: Operator, a: Value, b: Value) => Code(ShapeOf(a) + ShapeOf(b) + [Op(op)]),
        (f: string) => true, (f: string, args: seq<Value>) => Ok(Code([Null])))
  }

  lemma {:induction false} Spells(ctx: Context, e: Expr)
    ensures Denote(Spelling(), ctx, e).Ok?
    ensures Grouping(e) ==> Denote(Spelling(), ctx, e) == Ok(Code(Shape(e)))
    decreases e, 0
  {
    match e
    case Literal(_) | Variable(_) =>
    case Unary(_, x) => Spells(ctx, x);
    case Binary(_, l, r) => Spells(ctx, l); Spells(ctx, r);
    case Group(x) => Spells(ctx, x);
    case Call(_, args) => SpellsArgs(ctx, args);
    case LambdaExpr(_, _, b) => Spells(ctx, b);
  }

  lemma {:induction false} SpellsArgs(ctx: Context, args: seq<Expr>)
    ensures DenoteArgs(Spelling(), ctx, args).Ok?
    decreases args, 0
  {
    if args != [] {
      Spells(ctx, args[0]);
      SpellsArgs(ctx, args[1..]);
    }
  }

  // Builds a tree from its shape and its atoms.
  function Build(shape: seq<Token>, atoms: seq<Expr>, stack: seq<Expr>): seq<Expr>
    decreases |shape|
  {
    var n := |stack|;
    if shape == [] then stack
    else if shape[0].Null? then if atoms == [] then [] else Build(shape[1..], atoms[1..], stack + [atoms[0]])
    else if !shape[0].Op? then []
    else if IsUnary(shape[0].op) then
      if n < 1 then [] else Build(shape[1..], atoms, stack[..n-1] + [Unary(shape[0].op, stack[n-1])])
    else if n < 2 then []
    else Build(shape[1..], atoms, stack[..n-2] + [Binary(shape[0].op, stack[n-2], stack[n-1])])
  }

  lemma {:induction false} BuildShape(c: Expr, shape: seq<Token>, atoms: seq<Expr>, stack: seq<Expr>)
    requires Grouping(c)
    ensures Build(Shape(c) + shape, Atoms(c) + atoms, stack) == Build(shape, atoms, stack + [Strip(c)])
    decreases c
  {
    match c
    case Unary(op, x) =>
      BuildShape(x, [Op(op)] + shape, atoms, stack);
      hide Build;
      assert Shape(c) + shape == Shape(x) + ([Op(op)] + shape);
      BuildUnary(op, Strip(x), shape, atoms, stack);
    case Binary(op, l, r) =>
      BuildShape(l, Shape(r) + ([Op(op)] + shape), Atoms(r) + atoms, stack);
      BuildShape(r, [Op(op)] + shape, atoms, stack + [Strip(l)]);
      BuildBinary(op, Strip(l), Strip(r), shape, atoms, stack);
      BinaryShape(op, l, r, shape, atoms);
      hide Build, Shape, Atoms;
    case Group(x) => BuildShape(x, shape, atoms, stack);
    case _ => BuildAtom(c, shape, atoms, stack);
  }

  lemma BinaryShape(op: Operator, l: Expr, r: Expr, shape: seq<Token>, atoms: seq<Expr>)
    ensures Shape(Binary(op, l, r)) + shape == Shape(l) + (Shape(r) + ([Op(op)] + shape))
    ensures Atoms(Binary(op, l, r)) + atoms == Atoms(l) + (Atoms(r) + atoms)
  {}

  lemma BuildAtom(c: Expr, shape: seq<Token>, atoms: seq<Expr>, stack: seq<Expr>)
    ensures Build([Null] + shape, [c] + atoms, stack) == Build(shape, atoms, stack + [c])
  {
    assert ([Null] + shape)[1..] == shape && ([c] + atoms)[1..] == atoms;
  }

  lemma BuildUnary(op: Operator, x: Expr, shape: seq<Token>, atoms: seq<Expr>, stack: seq<Expr>)
    requires IsUnary(op)
    ensures Build([Op(op)] + shape, atoms, stack + [x]) == Build(shape, atoms, stack + [Unary(op, x)])
  {
    assert ([Op(op)] + shape)[1..] == shape && (stack + [x])[..|stack|] == stack;
  }

  lemma BuildBinary(op: Operator, l: Expr, r: Expr, shape: seq<Token>, atoms: seq<Expr>, stack: seq<Expr>)
    requires IsBinary(op)
    ensures Build([Op(op)] + shape, atoms, stack + [l] + [r]) == Build(shape, atoms, stack + [Binary(op, l, r)])
  {
    assert ([Op(op)] + shape)[1..] == shape && (stack + [l] + [r])[..|stack|] == stack;
  }

  lemma ShapeDecides(a: Expr, b: Expr)
    requires Grouping(a) && Grouping(b) && Shape(a) == Shape(b) && Atoms(a) == Atoms(b)
    ensures Strip(a) == Strip(b)
  {
    BuildShape(a, [], [], []);
    BuildShape(b, [], [], []);
    assert Shape(a) + [] == Shape(a) && Shape(b) + [] == Shape(b);
    assert Atoms(a) + [] == Atoms(a) && Atoms(b) + [] == Atoms(b);
    assert [] + [Strip(a)] == [] + [Strip(b)];
    assert ([] + [Strip(a)])[0] == ([] + [Strip(b)])[0];
  }

  // -------------------------------------------------- parentheses and their match

  function Depth(t: seq<Token>): int {
    if t == [] then 0
    else Depth(t[..|t|-1]) + if t[|t|-1].LParen? then 1 else if t[|t|-1].RParen? then -1 else 0
  }

  // How many tokens are no parentheses.
  function Plain(t: seq<Token>): nat {
    if t == [] then 0 else Plain(t[..|t|-1]) + if t[|t|-1].LParen? || t[|t|-1].RParen? then 0 else 1
  }

  lemma {:induction false} Additive(a: seq<Token>, b: seq<Token>)
    ensures Depth(a + b) == Depth(a) + Depth(b) && Plain(a + b) == Plain(a) + Plain(b)
    decreases |b|
  {
    if b == [] {
      assert a + b == a;
    } else {
      assert (a + b)[..|a+b|-1] == a + b[..|b|-1];
      Additive(a, b[..|b|-1]);
    }
  }

  ghost predicate Balanced(t: seq<Token>) {
    Depth(t) == 0 && forall i :: 0 <= i <= |t| ==> Depth(t[..i]) >= 0
  }

  lemma BalancedConcat(a: seq<Token>, b: seq<Token>)
    requires Balanced(a) && Balanced(b)
    ensures Balanced(a + b)
  {
    Additive(a, b);
    forall i | 0 <= i <= |a + b|
      ensures Depth((a + b)[..i]) >= 0
    {
      if i <= |a| {
        assert (a + b)[..i] == a[..i];
      } else {
        assert (a + b)[..i] == a + b[..i-|a|];
        Additive(a, b[..i-|a|]);
      }
    }
  }

  lemma BalancedToken(t: Token)
    requires !t.LParen? && !t.RParen?
    ensures Balanced([t])
  {
    assert [t][..0] == [] && [t][..1] == [t];
  }

  // Inside a pair of parentheses the depth is positive.
  lemma Wrapped(a: seq<Token>)
    requires Balanced(a)
    ensures var t := [LParen] + a + [RParen];
            Balanced(t) && forall i :: 0 < i < |t| ==> Depth(t[..i]) > 0
  {
    var t := [LParen] + a + [RParen];
    assert [LParen][..0] == [] && [RParen][..0] == [];
    assert Depth([LParen]) == 1 && Depth([RParen]) == -1;
    Additive([LParen] + a, [RParen]);
    Additive([LParen], a);
    forall i | 0 < i < |t|
      ensures Depth(t[..i]) > 0
    {
      assert t[..i] == [LParen] + a[..i-1];
      Additive([LParen], a[..i-1]);
    }
    assert t[..0] == [] && t[..|t|] == t;
  }

  lemma {:induction false} NamesBalanced(names: seq<string>)
    ensures Balanced(PrintNames(names))
    decreases |names|
  {
    if names == [] {
    } else if |names| == 1 {
      BalancedToken(Ident(names[0]));
    } else {
      BalancedToken(Ident(names[0]));
      BalancedToken(Comma);
      NamesBalanced(names[1..]);
      BalancedConcat([Ident(names[0])], [Comma]);
      BalancedConcat([Ident(names[0])] + [Comma], PrintNames(names[1..]));
      assert [Ident(names[0])] + [Comma] == [Ident(names[0]), Comma];
    }
  }

  lemma HeaderBalanced(params: seq<string>, parens: bool)
    ensures Balanced(PrintHeader(params, parens))
  {
    hide Balanced;
    NamesBalanced(params);
    BalancedToken(Arrow);
    if parens {
      Wrapped(PrintNames(params));
      BalancedConcat([LParen] + PrintNames(params) + [RParen], [Arrow]);
      assert [LParen] + PrintNames(params) + [RParen, Arrow] == [LParen] + PrintNames(params) + [RParen] + [Arrow];
    } else {
      BalancedConcat(PrintNames(params), [Arrow]);
    }
  }

  lemma {:induction false} PrintBalanced(e: Expr)
    requires Printed(e)
    ensures Balanced(Print(e))
    decreases e, 0
  {
    hide Balanced;
    match e
    case Literal(t) => BalancedToken(t);
    case Variable(x) => BalancedToken(Ident(x));
    case Unary(op, x) =>
      BalancedToken(Op(UnaryText(op)));
      PrintBalanced(x);
      BalancedConcat([Op(UnaryText(op))], Print(x));
    case Binary(op, l, r) =>
      BalancedToken(Op(op));
      PrintBalanced(l);
      PrintBalanced(r);
      BalancedConcat(Print(l), [Op(op)]);
      BalancedConcat(Print(l) + [Op(op)], Print(r));
    case Group(x) =>
      PrintBalanced(x);
      Wrapped(Print(x));
    case Call(f, args) =>
      BalancedToken(Ident(f));
      ArgsBalanced(args);
      Wrapped(PrintArgs(args));
      BalancedConcat([Ident(f)], [LParen] + PrintArgs(args) + [RParen]);
      assert [Ident(f), LParen] + PrintArgs(args) + [RParen] == [Ident(f)] + ([LParen] + PrintArgs(args) + [RParen]);
    case LambdaExpr(ps, parens, b) =>
      HeaderBalanced(ps, parens);
      PrintBalanced(b);
      BalancedConcat(PrintHeader(ps, parens), Print(b));
  }

  lemma {:induction false} ArgsBalanced(args: seq<Expr>)
    requires PrintedArgs(args)
    ensures Balanced(PrintArgs(args))
    decreases args, 0
  {
    if args != [] {
      PrintBalanced(args[0]);
      if |args| > 1 {
        ArgsBalanced(args[1..]);
        hide Balanced;
        BalancedToken(Comma);
        BalancedConcat(Print(args[0]), [Comma]);
        BalancedConcat(Print(args[0]) + [Comma], PrintArgs(args[1..]));
      }
    }
  }

  // Literals are no parentheses.
  predicate Printed(e: Expr)
    decreases e, 0
  {
    match e
    case Literal(t) => IsLiteral(t)
    case Variable(_) => true
    case Unary(_, x) => Printed(x)
    case Binary(_, l, r) => Printed(l) && Printed(r)
    case Group(x) => Printed(x)
    case Call(_, args) => PrintedArgs(args)
    case LambdaExpr(_, _, b) => Printed(b)
  }

  predicate PrintedArgs(args: seq<Expr>)
    decreases args, 0
  {
    args != [] ==> Printed(args[0]) && PrintedArgs(args[1..])
  }

  lemma {:induction false} WellFormedPrinted(e: Expr)
    requires WellFormed(e) || WellFormedArg(e) || WellFormedBody(e)
    ensures Printed(e)
    decreases e, 0
  {
    match e
    case Literal(_) | Variable(_) =>
    case Unary(_, x) => WellFormedPrinted(x);
    case Binary(_, l, r) => WellFormedPrinted(l); WellFormedPrinted(r);
    case Group(x) => WellFormedPrinted(x);
    case Call(_, args) => ArgsPrinted(args);
    case LambdaExpr(_, _, b) => WellFormedPrinted(b);
  }

  lemma {:induction false} ArgsPrinted(args: seq<Expr>)
    requires WellFormedArgs(args)
    ensures PrintedArgs(args)
    decreases args, 0
  {
    if args != [] {
      WellFormedPrinted(args[0]);
      ArgsPrinted(args[1..]);
    }
  }

  lemma {:induction false} GroupingPrinted(c: Expr)
    requires Grouping(c)
    ensures Printed(c)
    decreases c
  {
    match c
    case Unary(_, x) => GroupingPrinted(x);
    case Binary(_, l, r) => GroupingPrinted(l); GroupingPrinted(r);
    case Group(x) => GroupingPrinted(x);
    case Call(_, args) => ArgsPrinted(args);
    case _ =>
  }

  // ------------------------------------------------------ the place of the groups

  lemma {:induction false} StripPlain(c: Expr)
    ensures Plain(Print(c)) == Plain(Print(Strip(c)))
    decreases c
  {
    match c
    case Unary(op, x) =>
      StripPlain(x);
      Additive([Op(UnaryText(op))], Print(x));
      Additive([Op(UnaryText(op))], Print(Strip(x)));
    case Binary(op, l, r) =>
      StripPlain(l);
      StripPlain(r);
      PlainBinary(op, l, r);
      PlainBinary(op, Strip(l), Strip(r));
    case Group(x) =>
      StripPlain(x);
      Additive([LParen] + Print(x), [RParen]);
      Additive([LParen], Print(x));
      assert [LParen][..0] == [] && [RParen][..0] == [];
    case _ =>
  }

  lemma PlainBinary(op: Operator, l: Expr, r: Expr)
    ensures Plain(Print(Binary(op, l, r))) == Plain(Print(l)) + 1 + Plain(Print(r))
  {
    Additive(Print(l) + [Op(op)], Print(r));
    Additive(Print(l), [Op(op)]);
    assert [Op(op)][..0] == [];
  }

  // A group and a bare operation of the same tree print differently: the
  // operator of one is inside parentheses, that of the other is not.
  lemma GroupIsNoBinary(x: Expr, op: Operator, l: Expr, r: Expr, u: seq<Token>, v: seq<Token>)
    requires Grouping(x) && Grouping(l) && Grouping(r) && Strip(x) == Binary(op, Strip(l), Strip(r))
    ensures Print(Group(x)) + u != Print(Binary(op, l, r)) + v
  {
    hide Strip, Print, Plain, Depth, Balanced, Grouping;
    PrintGroup(x);
    PrintBinary(Binary(op, l, r));
    MorePlain(x, op, l, r);
    GroupingBalanced(x);
    GroupingBalanced(l);
    assert Print(l) + [Op(op)] + Print(r) + v == Print(l) + ([Op(op)] + Print(r)) + v;
    PairIsNoPrefix(Print(x), Print(l), [Op(op)] + Print(r), u, v);
  }

  lemma PrintGroup(x: Expr)
    ensures Print(Group(x)) == [LParen] + Print(x) + [RParen]
  {}

  lemma GroupingBalanced(c: Expr)
    requires Grouping(c)
    ensures Balanced(Print(c)) && Print(c) != []
  {
    GroupingPrinted(c);
    PrintBalanced(c);
  }

  lemma MorePlain(x: Expr, op: Operator, l: Expr, r: Expr)
    requires Strip(x) == Binary(op, Strip(l), Strip(r))
    ensures Plain(Print(Group(x))) > Plain(Print(l))
  {
    StripPlain(Group(x));
    StripPlain(l);
    PlainBinary(op, Strip(l), Strip(r));
    assert Strip(Group(x)) == Binary(op, Strip(l), Strip(r));
    hide Print, Plain;
  }

  lemma PairIsNoPrefix(inner: seq<Token>, front: seq<Token>, rest: seq<Token>, u: seq<Token>, v: seq<Token>)
    requires Balanced(inner) && Balanced(front) && front != []
    requires Plain([LParen] + inner + [RParen]) > Plain(front)
    ensures [LParen] + inner + [RParen] + u != front + rest + v
  {
    var a := [LParen] + inner + [RParen];
    var s, t := a + u, front + rest + v;
    Wrapped(inner);
    if |front| < |a| {
      assert s[..|front|] == a[..|front|] && t[..|front|] == front;
      assert Depth(a[..|front|]) > 0 && Depth(front) == 0;
    } else {
      assert s[..|a|] == a && t[..|a|] == front[..|a|];
      PlainPrefix(front, |a|);
    }
  }

  lemma PlainPrefix(t: seq<Token>, i: nat)
    requires i <= |t|
    ensures Plain(t[..i]) <= Plain(t)
  {
    assert t == t[..i] + t[i..];
    Additive(t[..i], t[i..]);
  }

  lemma GroupDiffers(x: Expr, b: Expr, u: seq<Token>, v: seq<Token>)
    requires Grouping(x) && Grouping(b) && !b.Group? && Strip(x) == Strip(b)
    ensures Print(Group(x)) + u != Print(b) + v
  {
    if b.Binary? {
      GroupIsNoBinary(x, b.op, b.left, b.right, u, v);
    } else {
      assert (Print(Group(x)) + u)[0] == LParen;
      assert (Print(b) + v)[0] == Print(b)[0] != LParen;
    }
  }

  lemma SameTail(h: seq<Token>, u: seq<Token>, v: seq<Token>)
    requires h + u == h + v
    ensures u == v
  {
    assert (h + u)[|h|..] == u && (h + v)[|h|..] == v;
  }

  // Two groupings of one tree that print alike are the same.
  lemma {:induction false} SamePlaces(a: Expr, b: Expr, u: seq<Token>, v: seq<Token>)
    requires Grouping(a) && Grouping(b) && Strip(a) == Strip(b) && Print(a) + u == Print(b) + v
    ensures a == b && u == v
    decreases a, 2
  {
    if a.Group? && b.Group? {
      var x, y := a.inner, b.inner;
      assert Strip(x) == Strip(y) && Grouping(x) && Grouping(y);
      PrintGroup(x);
      PrintGroup(y);
      hide Print, Strip, Grouping;
      Apart([LParen], Print(x), [RParen], u);
      Apart([LParen], Print(y), [RParen], v);
      SameTail([LParen], Print(x) + ([RParen] + u), Print(y) + ([RParen] + v));
      SamePlaces(x, y, [RParen] + u, [RParen] + v);
      SameTail([RParen], u, v);
    } else if a.Group? {
      GroupDiffers(a.inner, b, u, v);
    } else if b.Group? {
      GroupDiffers(b.inner, a, v, u);
    } else {
      SameBare(a, b, u, v);
    }
  }

  lemma {:induction false} SameBare(a: Expr, b: Expr, u: seq<Token>, v: seq<Token>)
    requires Grouping(a) && Grouping(b) && Strip(a) == Strip(b) && Print(a) + u == Print(b) + v
    requires !a.Group? && !b.Group?
    ensures a == b && u == v
    decreases a, 1
  {
    match a
    case Unary(op, x) =>
      var h := [Op(UnaryText(op))];
      assert Print(a) == h + Print(x) && Print(b) == h + Print(b.operand);
      assert Strip(x) == Strip(b.operand);
      hide Print, Strip;
      assert h + Print(x) + u == h + (Print(x) + u) && h + Print(b.operand) + v == h + (Print(b.operand) + v);
      SameTail(h, Print(x) + u, Print(b.operand) + v);
      SamePlaces(x, b.operand, u, v);
    case Binary(op, l, r) => SameBinary(a, b, u, v);
    case _ => SameTail(Print(a), u, v);
  }

  lemma {:induction false} SameBinary(a: Expr, b: Expr, u: seq<Token>, v: seq<Token>)
    requires Grouping(a) && Grouping(b) && Strip(a) == Strip(b) && Print(a) + u == Print(b) + v
    requires a.Binary? && b.Binary?
    ensures a == b && u == v
    decreases a, 0
  {
    hide Print, Strip, Grouping;
    PrintBinary(a);
    PrintBinary(b);
    BinaryParts(a);
    BinaryParts(b);
    var h := [Op(a.op)];
    Apart(Print(a.left), h, Print(a.right), u);
    Apart(Print(b.left), h, Print(b.right), v);
    SamePlaces(a.left, b.left, h + (Print(a.right) + u), h + (Print(b.right) + v));
    SameTail(h, Print(a.right) + u, Print(b.right) + v);
    SamePlaces(a.right, b.right, u, v);
  }

  lemma BinaryParts(a: Expr)
    requires Grouping(a) && a.Binary?
    ensures Grouping(a.left) && Grouping(a.right) && Strip(a) == Binary(a.op, Strip(a.left), Strip(a.right))
  {}

  lemma Apart(a: seq<Token>, h: seq<Token>, b: seq<Token>, u: seq<Token>)
    ensures a + h + b + u == a + (h + (b + u))
  {}

  // ------------------------------------------------------------------- results

  // In every environment and context the text is read as the tree is meant.
  ghost predicate ReadAsMeant(c: Expr) {
    forall env: Env, ctx: Context :: Parse(env, ctx, Print(c) + [Eof]) == Denote(env, ctx, c)
  }

  // The well-formed groupings are exactly those that are read as meant.
  lemma WellFormedIff(c: Expr)
    requires Grouping(c) && GroupSafe(c, false)
    ensures ReadAsMeant(c) <==> WellFormed(c)
  {
    if WellFormed(c) {
      forall env: Env, ctx: Context
        ensures Parse(env, ctx, Print(c) + [Eof]) == Denote(env, ctx, c)
      {
        ParseIsMeaning(env, ctx, c);
      }
    }
    if ReadAsMeant(c) { ReadIsWellFormed(c); }
  }

  lemma ReadIsWellFormed(c: Expr)
    requires Grouping(c) && GroupSafe(c, false) && ReadAsMeant(c)
    ensures WellFormed(c)
  {
    var w, env, ctx: Context := Reread(c), Spelling(), map[];
    RereadSame(c, false);
    assert Parse(env, ctx, Print(c) + [Eof]) == Denote(env, ctx, c);
    ParseIsMeaning(env, ctx, w);
    WellFormedGrouping(w);
    Spells(ctx, c);
    Spells(ctx, w);
    hide Reread, Print, WellFormed, Denote, Parse, Grouping;
    assert Code(Shape(c)) == Code(Shape(w));
    ShapeDecides(c, w);
    SamePlaces(c, w, [], []);
  }

  lemma {:induction false} WellFormedGrouping(c: Expr)
    requires WellFormed(c)
    ensures Grouping(c)
    decreases c
  {
    match c
    case Unary(_, x) => WellFormedGrouping(x);
    case Binary(_, l, r) => WellFormedGrouping(l); WellFormedGrouping(r);
    case Group(x) => WellFormedGrouping(x);
    case _ =>
  }

  // So of all groupings of a tree that are read as it is meant, none has fewer
  // groups than the one that groups a child exactly where it binds too loosely.
  lemma FewestOfAll(e: Expr, c: Expr)
    requires Abstract(e) && GroupSafe(e, false)
    requires Grouping(c) && GroupSafe(c, false) && Strip(c) == e && ReadAsMeant(c)
    ensures ReadAsMeant(Parenthesise(e)) && Groups(Parenthesise(e)) <= Groups(c)
  {
    ParenthesiseWellFormed(e);
    WellFormedGrouping(Parenthesise(e));
    WellFormedIff(Parenthesise(e));
    WellFormedIff(c);
    ParenthesiseFewest(c);
  }
}
