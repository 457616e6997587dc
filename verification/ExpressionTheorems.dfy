/** Main results about the expression parser. */
module ExpressionTheorems {
  import opened Tokens
  import opened ExpressionParser
  import opened ExpressionTrees
  import opened ExpressionProofs

  // ------------------------------------------------- the parser is correct

  // Every printed tree whose groups stay outside call arguments and lambda
  // bodies evaluates to its meaning, or fails with the error of its meaning.
  lemma ParseIsMeaning(env: Env, ctx: Context, e: Expr)
    requires WellFormedBody(e) && GroupSafe(e, false)
    ensures Parse(env, ctx, Print(e)) == Denote(env, ctx, e)
    ensures Parse(env, ctx, Print(e) + [Eof]) == Denote(env, ctx, e)
  {
    ReadWhole(env, ctx, e, [], false);
    ReadWhole(env, ctx, e, [Eof], false);
    assert Print(e) + [] == Print(e);
  }

  lemma {:induction false} SafeInsideIsSafe(e: Expr)
    requires GroupSafe(e, true)
    ensures GroupSafe(e, false)
    decreases e
  {
    match e
    case Unary(_, x) => SafeInsideIsSafe(x);
    case Binary(_, l, r) => SafeInsideIsSafe(l); SafeInsideIsSafe(r);
    case _ =>
  }

  // Calling a lambda gives the meaning of its body with the parameters laid
  // over the context of its definition.
  lemma LambdaIsMeaning(env: Env, ctx: Context, e: Expr, args: seq<Value>)
    requires e.LambdaExpr? && WellFormedArg(e) && GroupSafe(e, true) && Denote(env, ctx, e).Ok?
    ensures Denote(env, ctx, e).value.Closure?
    ensures Apply(env, Denote(env, ctx, e).value, args)
            == Denote(env, Bind(env, ctx, e.params, args), e.body)
  {
    SafeInsideIsSafe(e.body);
    ParseIsMeaning(env, Bind(env, ctx, e.params, args), e.body);
  }

  // What Bind means: every name that is not a parameter is the definition
  // context's, and of a repeated parameter the last one wins.
  lemma {:induction false} BindKeeps(env: Env, ctx: Context, params: seq<string>, args: seq<Value>, x: string)
    requires x !in params
    ensures var c := Bind(env, ctx, params, args);
            (x in c <==> x in ctx) && (x in ctx ==> c[x] == ctx[x])
    decreases |params|
  {
    if params != [] { BindKeeps(env, ctx, params[..|params|-1], args, x); }
  }

  lemma {:induction false} BindShadows(env: Env, ctx: Context, params: seq<string>, args: seq<Value>, i: nat)
    requires i < |params| && forall j :: i < j < |params| ==> params[j] != params[i]
    ensures var c := Bind(env, ctx, params, args);
            params[i] in c && c[params[i]] == if i < |args| then args[i] else env.undefined
    decreases |params|
  {
    if i < |params| - 1 { BindShadows(env, ctx, params[..|params|-1], args, i); }
  }

  // ------------------------------------------ groups where they do not work

  // With a '(' on the operator stack, a delimited parse that stops fails.
  lemma StopInGroup(env: Env, ctx: Context, t: seq<Token>, out: seq<Item>, ops: seq<Pending>)
    requires AtStop(t, true) && PParen in ops
    ensures Run(env, ctx, t, true, out, ops, false) == Err(MismatchedParentheses)
  {
    PopAllParen(out, ops);
  }

  lemma GroupStep(env: Env, ctx: Context, t: seq<Token>, delimited: bool, out: seq<Item>, ops: seq<Pending>)
    ensures Run(env, ctx, [LParen] + t, delimited, out, ops, true)
            == Run(env, ctx, t, delimited, out, ops + [PParen], true)
  {}

  ghost predicate Mismatches(env: Env, ctx: Context, e: Expr, rest: seq<Token>, delimited: bool,
                             out: seq<Item>, ops: seq<Pending>)
  {
    Run(env, ctx, Print(e) + rest, delimited, out, ops, true) == Err(MismatchedParentheses)
  }

  // Reading an operand with a group in a wrong place fails on the ')'.
  lemma {:induction false} UnsafeTree(env: Env, ctx: Context, e: Expr, rest: seq<Token>, delimited: bool,
                                      out: seq<Item>, ops: seq<Pending>)
    requires WellFormed(e) && !GroupSafe(e, delimited) && Follows(rest) && Yields(ops, e)
    requires Denote(env, ctx, e).Ok?
    ensures Mismatches(env, ctx, e, rest, delimited, out, ops)
    decreases e, 0
  {
    match e
    case Literal(_) | Variable(_) =>
    case Unary(op, x) =>
      UnsafeTree(env, ctx, x, rest, delimited, out, ops + [POp(op)]);
      UnsafeUnary(env, ctx, e, rest, delimited, out, ops);
    case Binary(op, l, r) =>
      if GroupSafe(l, delimited) {
        BeforeRight(env, ctx, e, rest, delimited, out, ops);
        var a := Read(env, ctx, l).value;
        UnsafeTree(env, ctx, r, rest, delimited, out + a.out + Flush(a.pending), ops + [POp(op)]);
      } else {
        UnsafeTree(env, ctx, l, [Op(op)] + (Print(r) + rest), delimited, out, ops);
        UnsafeLeft(env, ctx, e, rest, delimited, out, ops);
      }
    case Group(x) =>
      if GroupSafe(x, delimited) {
        GroupInside(env, ctx, x, rest, out, ops);
      } else {
        UnsafeTree(env, ctx, x, [RParen] + rest, delimited, out, ops + [PParen]);
      }
      UnsafeGroup(env, ctx, e, rest, delimited, out, ops);
    case Call(f, args) =>
      UnsafeArgs(env, ctx, args, [RParen] + rest);
      UnsafeCall(env, ctx, e, rest, delimited, out, ops);
  }

  lemma UnsafeUnary(env: Env, ctx: Context, e: Expr, rest: seq<Token>, delimited: bool,
                    out: seq<Item>, ops: seq<Pending>)
    requires e.Unary? && WellFormed(e) && Mismatches(env, ctx, e.operand, rest, delimited, out, ops + [POp(e.op)])
    ensures Mismatches(env, ctx, e, rest, delimited, out, ops)
  {
    hide Run;
    UnaryStep(env, ctx, e.op, Print(e.operand) + rest, delimited, out, ops);
    assert Print(e) + rest == [Op(UnaryText(e.op))] + (Print(e.operand) + rest);
  }

  lemma UnsafeLeft(env: Env, ctx: Context, e: Expr, rest: seq<Token>, delimited: bool,
                   out: seq<Item>, ops: seq<Pending>)
    requires e.Binary? && Mismatches(env, ctx, e.left, [Op(e.op)] + (Print(e.right) + rest), delimited, out, ops)
    ensures Mismatches(env, ctx, e, rest, delimited, out, ops)
  {
    hide Run;
    assert Print(e) + rest == Print(e.left) + ([Op(e.op)] + (Print(e.right) + rest));
  }

  lemma UnsafeGroup(env: Env, ctx: Context, e: Expr, rest: seq<Token>, delimited: bool,
                    out: seq<Item>, ops: seq<Pending>)
    requires e.Group? && Mismatches(env, ctx, e.inner, [RParen] + rest, delimited, out, ops + [PParen])
    ensures Mismatches(env, ctx, e, rest, delimited, out, ops)
  {
    hide Run;
    GroupStep(env, ctx, Print(e.inner) + ([RParen] + rest), delimited, out, ops);
    assert Print(e) + rest == [LParen] + (Print(e.inner) + ([RParen] + rest));
  }

  // The state in which the right child of a binary operator is read.
  lemma BeforeRight(env: Env, ctx: Context, e: Expr, rest: seq<Token>, delimited: bool,
                    out: seq<Item>, ops: seq<Pending>)
    requires e.Binary? && WellFormed(e) && GroupSafe(e.left, delimited) && Yields(ops, e)
    requires Denote(env, ctx, e).Ok?
    ensures Read(env, ctx, e.left).Ok?
    ensures var a := Read(env, ctx, e.left).value;
            Run(env, ctx, Print(e) + rest, delimited, out, ops, true)
            == Run(env, ctx, Print(e.right) + rest, delimited, out + a.out + Flush(a.pending), ops + [POp(e.op)], true)
  {
    hide Run, Flush;
    ReadTree(env, ctx, e.left, [Op(e.op)] + (Print(e.right) + rest), delimited, out, ops);
    ReadMeansDenote(env, ctx, e.left, []);
    BinaryLeft(env, ctx, e, rest, delimited, out, ops);
  }

  lemma GroupInside(env: Env, ctx: Context, x: Expr, rest: seq<Token>, out: seq<Item>, ops: seq<Pending>)
    requires WellFormed(x) && GroupSafe(x, true) && Denote(env, ctx, x).Ok?
    ensures Run(env, ctx, Print(x) + ([RParen] + rest), true, out, ops + [PParen], true) == Err(MismatchedParentheses)
  {
    hide Run;
    var t := [RParen] + rest;
    ReadTree(env, ctx, x, t, true, out, ops + [PParen]);
    ReadMeansDenote(env, ctx, x, []);
    var c := Read(env, ctx, x).value;
    assert (ops + [PParen] + c.pending)[|ops|] == PParen;
    StopInGroup(env, ctx, t, out + c.out, ops + [PParen] + c.pending);
  }

  lemma UnsafeCall(env: Env, ctx: Context, e: Expr, rest: seq<Token>, delimited: bool,
                   out: seq<Item>, ops: seq<Pending>)
    requires e.Call? && WellFormed(e) && e.args != []
    requires ParseArgList(env, ctx, PrintArgs(e.args) + ([RParen] + rest)) == Err(MismatchedParentheses)
    ensures Run(env, ctx, Print(e) + rest, delimited, out, ops, true) == Err(MismatchedParentheses)
  {
    ArgsStart(e.args, [RParen] + rest);
    var t := PrintArgs(e.args) + [RParen] + rest;
    assert t == PrintArgs(e.args) + ([RParen] + rest);
    assert ParseCall(env, ctx, e.name, t) == Err(MismatchedParentheses);
    CallText(e, rest);
    hide Run, ParseCall, Print, PrintArgs;
    CallStep(env, ctx, e.name, t, delimited, out, ops);
  }

  lemma {:induction false} UnsafeArgs(env: Env, ctx: Context, args: seq<Expr>, rest: seq<Token>)
    requires WellFormedArgs(args) && !ArgsGroupSafe(args) && DenoteArgs(env, ctx, args).Ok?
    requires rest != [] && rest[0].RParen?
    ensures args != [] && ParseArgList(env, ctx, PrintArgs(args) + rest) == Err(MismatchedParentheses)
    decreases args, 0
  {
    var more := args[1..];
    var t := if more == [] then rest else [Comma] + (PrintArgs(more) + rest);
    assert PrintArgs(args) + rest == Print(args[0]) + t;
    if GroupSafe(args[0], true) {
      ReadArg(env, ctx, args[0], t);
      assert t[1..] == PrintArgs(more) + rest;
      UnsafeArgs(env, ctx, more, rest);
    } else {
      UnsafeArg(env, ctx, args[0], t);
    }
  }

  lemma {:induction false} UnsafeArg(env: Env, ctx: Context, a: Expr, rest: seq<Token>)
    requires WellFormedArg(a) && !GroupSafe(a, true) && Denote(env, ctx, a).Ok?
    requires rest != [] && (rest[0].Comma? || rest[0].RParen?)
    ensures ParseArg(env, ctx, Print(a) + rest) == Err(MismatchedParentheses)
    decreases a, 2
  {
    if a.LambdaExpr? {
      UnsafeLambda(env, ctx, a, rest);
    } else {
      OperandStart(a, rest);
      NotLambdaStartHeader(Print(a) + rest);
      UnsafeTree(env, ctx, a, rest, true, [], []);
    }
  }

  lemma {:induction false} UnsafeLambda(env: Env, ctx: Context, e: Expr, rest: seq<Token>)
    requires e.LambdaExpr? && WellFormedArg(e) && !GroupSafe(e, true) && AtStop(rest, true)
    requires Denote(env, ctx, e).Ok?
    ensures TryLambda(env, ctx, Print(e) + rest) == LambdaError(MismatchedParentheses)
    decreases e, 0
  {
    var body := Print(e.body) + rest;
    PrintedHeader(e.params, e.parens, body);
    assert Print(e) + rest == PrintHeader(e.params, e.parens) + body;
    if e.body.LambdaExpr? {
      UnsafeLambda(env, ctx, e.body, rest);
      assert PrintNames(e.body.params) == [Ident(e.body.params[0])];
      LambdaStep(env, ctx, body, true);
    } else {
      UnsafeTree(env, ctx, e.body, rest, true, [], []);
    }
  }

  // Of a tree that has a meaning, the parser computes it if and only if no
  // group lies inside a call argument or a lambda body; otherwise it reports
  // mismatched parentheses.
  lemma ParseIsMeaningIff(env: Env, ctx: Context, e: Expr)
    requires WellFormedBody(e) && Denote(env, ctx, e).Ok?
    ensures Parse(env, ctx, Print(e) + [Eof]) == Denote(env, ctx, e) <==> GroupSafe(e, false)
    ensures !GroupSafe(e, false) ==> Parse(env, ctx, Print(e) + [Eof]) == Err(MismatchedParentheses)
  {
    if GroupSafe(e, false) {
      ParseIsMeaning(env, ctx, e);
    } else if e.LambdaExpr? {
      UnsafeLambda(env, ctx, e, [Eof]);
      assert PrintNames(e.params) == [Ident(e.params[0])];
      LambdaStep(env, ctx, Print(e) + [Eof], false);
    } else {
      UnsafeTree(env, ctx, e, [Eof], false, [], []);
    }
  }

  // The least such tree: a grouped literal as the argument of a call.
  lemma GroupedArgumentFails(env: Env, ctx: Context, f: string, t: Token)
    requires env.registered(f) && IsLiteral(t) && env.call(f, [env.literal(t)]).Ok?
    ensures var e := Call(f, [Group(Literal(t))]);
            WellFormedBody(e) && Denote(env, ctx, e) == env.call(f, [env.literal(t)]) &&
            Print(e) == [Ident(f), LParen, LParen, t, RParen, RParen] &&
            Parse(env, ctx, Print(e) + [Eof]) == Err(MismatchedParentheses)
  {
    var group := Group(Literal(t));
    var args := [group];
    assert args[1..] == [] && args[0] == group;
    assert Denote(env, ctx, group) == Denote(env, ctx, Literal(t)) == Ok(env.literal(t));
    assert DenoteArgs(env, ctx, args) == Ok([env.literal(t)] + []);
    assert [env.literal(t)] + [] == [env.literal(t)];
    assert WellFormedArg(group) && WellFormedArgs(args[1..]);
    UngroupedOnly(Literal(t));
    assert Print(group) == [LParen, t, RParen];
    ParseIsMeaningIff(env, ctx, Call(f, args));
  }

  lemma UngroupedOnly(x: Expr)
    ensures !GroupSafe(Group(x), true)
    ensures !ArgsGroupSafe([Group(x)])
  {
    assert [Group(x)][0] == Group(x);
  }

  // ------------------------------------------------------- malformed expressions

  lemma LiteralRead(env: Env, ctx: Context, x: Token, t: seq<Token>, out: seq<Item>, ops: seq<Pending>)
    requires IsLiteral(x)
    ensures Run(env, ctx, [x] + t, false, out, ops, true)
            == Run(env, ctx, t, false, out + [Operand(env.literal(x))], ops, false)
    ensures Run(env, ctx, [x] + t, false, out, ops, false)
            == Run(env, ctx, t, false, out + [Operand(env.literal(x))], ops, false)
  {
    assert ([x] + t)[1..] == t;
  }

  // A token that cannot stand where it does is told by its error.
  lemma StrayTokens(env: Env, ctx: Context, x: Token, text: string, rest: seq<Token>)
    requires IsLiteral(x)
    ensures Parse(env, ctx, [x, Arrow] + rest) == Err(UnexpectedArrow)
    ensures Parse(env, ctx, [x, Comma] + rest) == Err(UnexpectedToken)
    ensures Parse(env, ctx, [x, RParen] + rest) == Err(MismatchedParentheses)
    ensures Parse(env, ctx, [x, Op(Unknown(text))] + rest) == Err(UnknownOperator(text))
  {
    LiteralRead(env, ctx, x, [Arrow] + rest, [], []);
    LiteralRead(env, ctx, x, [Comma] + rest, [], []);
    LiteralRead(env, ctx, x, [RParen] + rest, [], []);
    LiteralRead(env, ctx, x, [Op(Unknown(text))] + rest, [], []);
    assert [x, Arrow] + rest == [x] + ([Arrow] + rest) && [x, Comma] + rest == [x] + ([Comma] + rest);
    assert [x, RParen] + rest == [x] + ([RParen] + rest);
    assert [x, Op(Unknown(text))] + rest == [x] + ([Op(Unknown(text))] + rest);
  }

  // So is a missing operand, a missing operator, an open parenthesis and
  // nothing at all.
  lemma IncompleteFails(env: Env, ctx: Context, x: Token, y: Token, op: Operator)
    requires IsLiteral(x) && IsLiteral(y) && IsBinary(op)
    ensures Parse(env, ctx, [x, Op(op), Eof]) == Err(NotEnoughOperands)
    ensures Parse(env, ctx, [x, y, Eof]) == Err(InvalidExpression)
    ensures Parse(env, ctx, [LParen, x, Eof]) == Err(MismatchedParentheses)
    ensures Parse(env, ctx, [Eof]) == Err(InvalidExpression)
  {
    NoOperand(env, ctx, x, op);
    NoOperator(env, ctx, x, y);
    GroupStep(env, ctx, [x, Eof], false, [], []);
    LiteralRead(env, ctx, x, [Eof], [], [PParen]);
    assert [LParen, x, Eof] == [LParen] + [x, Eof] && [x, Eof] == [x] + [Eof];
  }

  lemma NoOperand(env: Env, ctx: Context, x: Token, op: Operator)
    requires IsLiteral(x) && IsBinary(op)
    ensures Parse(env, ctx, [x, Op(op), Eof]) == Err(NotEnoughOperands)
  {
    var v := env.literal(x);
    LiteralRead(env, ctx, x, [Op(op), Eof], [], []);
    assert [x, Op(op), Eof] == [x] + [Op(op), Eof] && [Op(op), Eof][1..] == [Eof];
    assert PopWhile(op, [Operand(v)], []) == ([Operand(v)], []);
    assert Run(env, ctx, [Op(op), Eof], false, [Operand(v)], [], false)
        == Run(env, ctx, [Eof], false, [Operand(v)], [POp(op)], true);
    var queue := [Operand(v), Item.Operator(op)];
    var none: seq<Value> := [];
    var items: seq<Item> := [];
    assert none + [v] == [v] && [POp(op)][..0] == [] && items + [Operand(v)] == [Operand(v)];
    assert PopAll([Operand(v)], [POp(op)]) == PopAll([Operand(v)] + [Item.Operator(op)], []);
    assert [Operand(v)] + [Item.Operator(op)] == queue;
    assert queue[1..] == [Item.Operator(op)];
    assert Exec(env, queue, []) == Exec(env, [Item.Operator(op)], [v]) == Err(NotEnoughOperands);
    assert PopAll(queue, []) == Ok(queue);
    assert Finish(env, [Operand(v)], [POp(op)]) == Err(NotEnoughOperands);
    assert Run(env, ctx, [Eof], false, [Operand(v)], [POp(op)], true) == Err(NotEnoughOperands);
  }

  lemma NoOperator(env: Env, ctx: Context, x: Token, y: Token)
    requires IsLiteral(x) && IsLiteral(y)
    ensures Parse(env, ctx, [x, y, Eof]) == Err(InvalidExpression)
  {
    var v, w := env.literal(x), env.literal(y);
    LiteralRead(env, ctx, x, [y, Eof], [], []);
    LiteralRead(env, ctx, y, [Eof], [Operand(v)], []);
    assert [x, y, Eof] == [x] + [y, Eof] && [y, Eof] == [y] + [Eof];
    var queue := [Operand(v), Operand(w)];
    assert [Operand(v)] + [Operand(w)] == queue && queue[1..] == [Operand(w)] && [v] + [w] == [v, w];
    var none: seq<Value> := [];
    assert none + [v] == [v] && [Operand(w)][1..] == [];
    assert Exec(env, queue, []) == Exec(env, [Operand(w)], [v]) == Exec(env, [], [v, w]) == Ok([v, w]);
  }
}
