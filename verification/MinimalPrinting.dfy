/** Printing with the fewest parentheses the operator table needs. */
module MinimalPrinting {
  import opened Tokens
  import opened ExpressionParser
  import opened ExpressionTrees
  import opened ExpressionTheorems

  // A tree as an author means it: no groups at its own level.
  predicate Abstract(e: Expr) {
    match e
    case Literal(t) => IsLiteral(t)
    case Variable(_) => true
    case Unary(op, x) => IsUnary(op) && Abstract(x)
    case Binary(op, l, r) => IsBinary(op) && Abstract(l) && Abstract(r)
    case Call(_, args) => WellFormedArgs(args)
    case Group(_) | LambdaExpr(_, _, _) => false
  }

  function Wrap(e: Expr, fits: bool): Expr {
    if fits then e else Group(e)
  }

  // Groups a child exactly where it binds too loosely for its place.
  function Parenthesise(e: Expr): Expr {
    match e
    case Unary(op, x) => var x' := Parenthesise(x); Unary(op, Wrap(x', RightFits(op, x')))
    case Binary(op, l, r) =>
      var l', r' := Parenthesise(l), Parenthesise(r);
      Binary(op, Wrap(l', LeftFits(op, l')), Wrap(r', RightFits(op, r')))
    case _ => e
  }

  // Forgets the groups at a tree's own level.
  function Strip(c: Expr): Expr {
    match c
    case Unary(op, x) => Unary(op, Strip(x))
    case Binary(op, l, r) => Binary(op, Strip(l), Strip(r))
    case Group(x) => Strip(x)
    case _ => c
  }

  function Groups(c: Expr): nat {
    match c
    case Unary(_, x) => Groups(x)
    case Binary(_, l, r) => Groups(l) + Groups(r)
    case Group(x) => 1 + Groups(x)
    case _ => 0
  }

  lemma {:induction false} ParenthesiseWellFormed(e: Expr)
    requires Abstract(e)
    ensures WellFormed(Parenthesise(e)) && Strip(Parenthesise(e)) == e
    ensures Level(Parenthesise(e)) == Level(e)
    ensures GroupSafe(Parenthesise(e), false) == GroupSafe(e, false)
    decreases e
  {
    match e
    case Unary(_, x) => ParenthesiseWellFormed(x);
    case Binary(_, l, r) => ParenthesiseWellFormed(l); ParenthesiseWellFormed(r);
    case _ =>
  }

  lemma {:induction false} ParenthesiseMeaning(env: Env, ctx: Context, e: Expr)
    ensures Denote(env, ctx, Parenthesise(e)) == Denote(env, ctx, e)
    decreases e
  {
    match e
    case Unary(op, x) => ParenthesiseMeaning(env, ctx, x);
    case Binary(op, l, r) => ParenthesiseMeaning(env, ctx, l); ParenthesiseMeaning(env, ctx, r);
    case _ =>
  }

  // No well-formed grouping of the same tree has fewer groups.
  lemma {:induction false} ParenthesiseFewest(c: Expr)
    requires WellFormed(c)
    ensures Groups(Parenthesise(Strip(c))) <= Groups(c)
    ensures !c.Group? ==> Level(Parenthesise(Strip(c))) == Level(c)
    ensures c.Group? ==> Groups(Parenthesise(Strip(c))) < Groups(c)
    decreases c
  {
    match c
    case Unary(op, x) => ParenthesiseFewest(x);
    case Binary(op, l, r) => ParenthesiseFewest(l); ParenthesiseFewest(r);
    case Group(x) => ParenthesiseFewest(x);
    case LambdaExpr(_, _, _) =>
    case _ =>
  }

  // A tree printed with the fewest parentheses reads back as its meaning.
  lemma FewestParenthesesParse(env: Env, ctx: Context, e: Expr)
    requires Abstract(e) && GroupSafe(e, false)
    ensures Parse(env, ctx, Print(Parenthesise(e)) + [Eof]) == Denote(env, ctx, e)
    ensures forall c :: WellFormed(c) && Strip(c) == e ==> Groups(Parenthesise(e)) <= Groups(c)
  {
    ParenthesiseWellFormed(e);
    ParenthesiseMeaning(env, ctx, e);
    ParseIsMeaning(env, ctx, Parenthesise(e));
    forall c | WellFormed(c) && Strip(c) == e
      ensures Groups(Parenthesise(e)) <= Groups(c)
    {
      ParenthesiseFewest(c);
    }
  }
}
