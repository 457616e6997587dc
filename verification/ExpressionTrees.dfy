/**
 The language the parser is meant to read: expression trees, their printed
 form and their meaning, and the theorem that the parser computes it.
 */
module ExpressionTrees {
  import opened Tokens
  import opened ExpressionParser

  datatype Expr =
    | Literal(token: Token)
    | Variable(name: string)
    | Unary(op: Operator, operand: Expr)
    | Binary(op: Operator, left: Expr, right: Expr)
    | Group(inner: Expr)
    | Call(name: string, args: seq<Expr>)
    | LambdaExpr(params: seq<string>, parens: bool, body: Expr)

  // ------------------------------------------------------------ printing

  function UnaryText(op: Operator): Operator {
    if op.Neg? then Sub else op
  }

  function PrintNames(names: seq<string>): seq<Token> {
    if names == [] then []
    else if |names| == 1 then [Ident(names[0])]
    else [Ident(names[0]), Comma] + PrintNames(names[1..])
  }

  function PrintHeader(params: seq<string>, parens: bool): seq<Token> {
    if parens then [LParen] + PrintNames(params) + [RParen, Arrow] else PrintNames(params) + [Arrow]
  }

  function Print(e: Expr): seq<Token>
    decreases e, 0
  {
    match e
    case Literal(t) => [t]
    case Variable(x) => [Ident(x)]
    case Unary(op, x) => [Op(UnaryText(op))] + Print(x)
    case Binary(op, l, r) => Print(l) + [Op(op)] + Print(r)
    case Group(x) => [LParen] + Print(x) + [RParen]
    case Call(f, args) => [Ident(f), LParen] + PrintArgs(args) + [RParen]
    case LambdaExpr(ps, parens, b) => PrintHeader(ps, parens) + Print(b)
  }

  function PrintArgs(args: seq<Expr>): seq<Token>
    decreases args, 0
  {
    if args == [] then []
    else if |args| == 1 then Print(args[0])
    else Print(args[0]) + [Comma] + PrintArgs(args[1..])
  }

  // -------------------------------------------------------- well-formedness

  // How tightly the root of a tree binds.
  function Level(e: Expr): int {
    match e
    case Binary(op, _, _) => Precedence(op)
    case Unary(_, _) => 8
    case _ => 9
  }

  // A child may stand bare to the left (right) of an operator.
  predicate LeftFits(op: Operator, l: Expr) {
    if RightAssociative(op) then Level(l) > Precedence(op) else Level(l) >= Precedence(op)
  }

  predicate RightFits(op: Operator, r: Expr) {
    if RightAssociative(op) then Level(r) >= Precedence(op) else Level(r) > Precedence(op)
  }

  // An operand: every child binds tightly enough for its place or is grouped.
  predicate WellFormed(e: Expr)
    decreases e, 0
  {
    match e
    case Literal(t) => IsLiteral(t)
    case Variable(_) => true
    case Unary(op, x) => IsUnary(op) && WellFormed(x) && RightFits(op, x)
    case Binary(op, l, r) =>
      IsBinary(op) && WellFormed(l) && WellFormed(r) && LeftFits(op, l) && RightFits(op, r)
    case Group(x) => WellFormed(x)
    case Call(_, args) => WellFormedArgs(args)
    case LambdaExpr(_, _, _) => false
  }

  predicate WellFormedArgs(args: seq<Expr>)
    decreases args, 0
  {
    args != [] ==> WellFormedArg(args[0]) && WellFormedArgs(args[1..])
  }

  // An argument is an operand or a lambda of either form.
  predicate WellFormedArg(e: Expr)
    decreases e, 1
  {
    if e.LambdaExpr? then (e.parens || |e.params| == 1) && WellFormedBody(e.body) else WellFormed(e)
  }

  // A whole expression or a lambda body: an operand or a lambda `x => body`.
  predicate WellFormedBody(e: Expr)
    decreases e, 1
  {
    if e.LambdaExpr? then !e.parens && |e.params| == 1 && WellFormedBody(e.body) else WellFormed(e)
  }

  // No group inside a call argument or a lambda body (`inside`: we are in one).
  predicate GroupSafe(e: Expr, inside: bool)
    decreases e, 0
  {
    match e
    case Literal(_) | Variable(_) => true
    case Unary(_, x) => GroupSafe(x, inside)
    case Binary(_, l, r) => GroupSafe(l, inside) && GroupSafe(r, inside)
    case Group(x) => !inside && GroupSafe(x, inside)
    case Call(_, args) => ArgsGroupSafe(args)
    case LambdaExpr(_, _, b) => GroupSafe(b, true)
  }

  predicate ArgsGroupSafe(args: seq<Expr>)
    decreases args, 0
  {
    args != [] ==> GroupSafe(args[0], true) && ArgsGroupSafe(args[1..])
  }

  // --------------------------------------------------------------- meaning

  // Left-to-right evaluation; the first failing call ends it.  Making a lambda
  // evaluates its body once in the context of its definition.
  function Denote(env: Env, ctx: Context, e: Expr): Result<Value>
    decreases e, 0
  {
    match e
    case Literal(t) => Ok(env.literal(t))
    case Variable(x) => Ok(env.lookup(ctx, x))
    case Unary(op, x) =>
      (match Denote(env, ctx, x)
       case Err(er) => Err(er)
       case Ok(v) => Ok(env.unary(op, v)))
    case Binary(op, l, r) =>
      (match Denote(env, ctx, l)
       case Err(er) => Err(er)
       case Ok(a) =>
         match Denote(env, ctx, r)
         case Err(er) => Err(er)
         case Ok(b) => Ok(env.binary(op, a, b)))
    case Group(x) => Denote(env, ctx, x)
    case Call(f, args) =>
      (match DenoteArgs(env, ctx, args)
       case Err(er) => Err(er)
       case Ok(vs) => if env.registered(f) then env.call(f, vs) else Err(UnknownFunction(f)))
    case LambdaExpr(ps, _, b) =>
      match Denote(env, ctx, b)
      case Err(er) => Err(er)
      case Ok(_) => Ok(Closure(ps, Print(b), ctx))
  }

  function DenoteArgs(env: Env, ctx: Context, args: seq<Expr>): Result<seq<Value>>
    decreases args, 0
  {
    if args == [] then Ok([])
    else
      match Denote(env, ctx, args[0])
      case Err(er) => Err(er)
      case Ok(v) =>
        match DenoteArgs(env, ctx, args[1..])
        case Err(er) => Err(er)
        case Ok(vs) => Ok([v] + vs)
  }
}
