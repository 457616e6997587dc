/**
 The Shunting-Yard parser of the expression engine.  It evaluates while it
 parses: operands and operators go to an output queue that is run as reverse
 Polish notation when the expression ends, and calls are made as soon as their
 arguments are read.  Values, operators and functions are parameters.
 */
module ExpressionParser {
  import opened Tokens

  type Primitive(==, !new, 00)

  // A lambda keeps the token slice of its body and the context it was made in.
  datatype Value =
    | Prim(p: Primitive)
    | Closure(params: seq<string>, body: seq<Token>, context: Context)

  type Context = map<string, Value>

  datatype Error =
    | UnknownFunction(name: string)
    | UnknownOperator(text: string)
    | MismatchedParentheses
    | ExpectedCloseParen
    | UnexpectedArrow
    | UnexpectedToken
    | NotEnoughOperands
    | InvalidExpression
    | PipeNotModelled
    | FunctionThrew(message: string)
    | LexicalError

  datatype Result<+T> = Ok(value: T) | Err(error: Error)

  // What the engine takes from outside: literal values, property lookup, the
  // operator functions and the registered functions (which may throw).
  datatype Env = Env(
    literal: Token -> Value,
    undefined: Value,
    lookup: (Context, string) -> Value,
    unary: (Operator, Value) -> Value,
    binary: (Operator, Value, Value) -> Value,
    registered: string -> bool,
    call: (string, seq<Value>) -> Result<Value>)

  datatype Item = Operand(v: Value) | Operator(op: Operator)

  datatype Pending = POp(op: Operator) | PParen

  // ---------------------------------------------------------------- RPN

  // Runs a queue on a value stack.
  function Exec(env: Env, queue: seq<Item>, stack: seq<Value>): Result<seq<Value>>
    decreases |queue|
  {
    if queue == [] then Ok(stack)
    else
      var item := queue[0];
      var n := |stack|;
      if item.Operand? then Exec(env, queue[1..], stack + [item.v])
      else if IsUnary(item.op) then
        if n < 1 then Err(NotEnoughOperands)
        else Exec(env, queue[1..], stack[..n-1] + [env.unary(item.op, stack[n-1])])
      else if n < 2 then Err(NotEnoughOperands)
      else Exec(env, queue[1..], stack[..n-2] + [env.binary(item.op, stack[n-2], stack[n-1])])
  }

  function EvalRpn(env: Env, queue: seq<Item>): Result<Value> {
    match Exec(env, queue, [])
    case Err(e) => Err(e)
    case Ok(stack) => if |stack| == 1 then Ok(stack[0]) else Err(InvalidExpression)
  }

  // ------------------------------------------------------ operator stack

  predicate ShouldPop(op: Operator, top: Operator) {
    if RightAssociative(op) then Precedence(op) < Precedence(top)
    else Precedence(op) <= Precedence(top)
  }

  function PopWhile(op: Operator, out: seq<Item>, ops: seq<Pending>): (r: (seq<Item>, seq<Pending>))
    decreases |ops|
  {
    if ops == [] || ops[|ops|-1].PParen? || !ShouldPop(op, ops[|ops|-1].op) then (out, ops)
    else PopWhile(op, out + [Operator(ops[|ops|-1].op)], ops[..|ops|-1])
  }

  // Pops up to the nearest '(' and removes it.
  function PopToParen(out: seq<Item>, ops: seq<Pending>): Result<(seq<Item>, seq<Pending>)>
    decreases |ops|
  {
    if ops == [] then Err(MismatchedParentheses)
    else if ops[|ops|-1].PParen? then Ok((out, ops[..|ops|-1]))
    else PopToParen(out + [Operator(ops[|ops|-1].op)], ops[..|ops|-1])
  }

  function PopAll(out: seq<Item>, ops: seq<Pending>): Result<seq<Item>>
    decreases |ops|
  {
    if ops == [] then Ok(out)
    else if ops[|ops|-1].PParen? then Err(MismatchedParentheses)
    else PopAll(out + [Operator(ops[|ops|-1].op)], ops[..|ops|-1])
  }

  function Finish(env: Env, out: seq<Item>, ops: seq<Pending>): Result<Value> {
    match PopAll(out, ops)
    case Err(e) => Err(e)
    case Ok(queue) => EvalRpn(env, queue)
  }

  // ------------------------------------------------------------- parser

  predicate AtStop(tokens: seq<Token>, delimited: bool) {
    tokens == [] || tokens[0].Eof? || (delimited && (tokens[0].Comma? || tokens[0].RParen?))
  }

  // Parameter names up to the first token that is not an identifier; a comma
  // after a name is skipped.
  function ParamNames(tokens: seq<Token>): (r: (seq<string>, seq<Token>))
    ensures |r.1| <= |tokens|
    decreases |tokens|
  {
    if tokens == [] || !tokens[0].Ident? then ([], tokens)
    else
      var next := if |tokens| > 1 && tokens[1].Comma? then tokens[2..] else tokens[1..];
      var (names, rest) := ParamNames(next);
      ([tokens[0].name] + names, rest)
  }

  datatype Header = NoHeader | Header(params: seq<string>, body: seq<Token>)

  // `x =>` or `(x, y) =>` at the front of the tokens.
  function LambdaHeader(tokens: seq<Token>): (h: Header)
    ensures h.Header? ==> |h.body| < |tokens|
  {
    if tokens == [] then NoHeader
    else if tokens[0].LParen? then
      var (names, rest) := ParamNames(tokens[1..]);
      if |rest| >= 2 && rest[0].RParen? && rest[1].Arrow? then Header(names, rest[2..]) else NoHeader
    else if tokens[0].Ident? && |tokens| >= 2 && tokens[1].Arrow? then
      Header([tokens[0].name], tokens[2..])
    else NoHeader
  }

  datatype LambdaParse = NotLambda | LambdaError(error: Error) | Lambda(closure: Value, rest: seq<Token>)

  // The body is parsed in place to find where it ends, and its value dropped.
  function TryLambda(env: Env, ctx: Context, tokens: seq<Token>): (r: LambdaParse)
    ensures r.Lambda? ==> |r.rest| < |tokens|
    decreases |tokens|, 0
  {
    match LambdaHeader(tokens)
    case NoHeader => NotLambda
    case Header(params, body) =>
      match Run(env, ctx, body, true, [], [], true)
      case Err(e) => LambdaError(e)
      case Ok((_, rest)) => Lambda(Closure(params, body[..|body|-|rest|], ctx), rest)
  }

  function ParseArg(env: Env, ctx: Context, tokens: seq<Token>): (r: Result<(Value, seq<Token>)>)
    ensures r.Ok? ==> |r.value.1| <= |tokens|
    decreases |tokens|, 3
  {
    match TryLambda(env, ctx, tokens)
    case LambdaError(e) => Err(e)
    case Lambda(v, rest) => Ok((v, rest))
    case NotLambda => Run(env, ctx, tokens, true, [], [], true)
  }

  function ParseArgList(env: Env, ctx: Context, tokens: seq<Token>): (r: Result<(seq<Value>, seq<Token>)>)
    ensures r.Ok? ==> |r.value.1| <= |tokens|
    decreases |tokens|, 4
  {
    match ParseArg(env, ctx, tokens)
    case Err(e) => Err(e)
    case Ok((v, rest)) =>
      if rest == [] || !rest[0].Comma? then Ok(([v], rest))
      else
        match ParseArgList(env, ctx, rest[1..])
        case Err(e) => Err(e)
        case Ok((vs, rest')) => Ok(([v] + vs, rest'))
  }

  // A call whose '(' has been read: the arguments, the ')' and the call itself.
  function ParseCall(env: Env, ctx: Context, name: string, tokens: seq<Token>): (r: Result<(Value, seq<Token>)>)
    ensures r.Ok? ==> |r.value.1| <= |tokens|
    decreases |tokens|, 5
  {
    var parsed: Result<(seq<Value>, seq<Token>)> :=
      if tokens != [] && tokens[0].RParen? then Ok(([], tokens)) else ParseArgList(env, ctx, tokens);
    match parsed
    case Err(e) => Err(e)
    case Ok((args, rest)) =>
      if rest == [] || !rest[0].RParen? then Err(ExpectedCloseParen)
      else if !env.registered(name) then Err(UnknownFunction(name))
      else
        match env.call(name, args)
        case Err(e) => Err(e)
        case Ok(v) => Ok((v, rest[1..]))
  }

  // An identifier: the start of a lambda (only where an operand may stand), a
  // call, or a variable.
  function ParseIdent(env: Env, ctx: Context, tokens: seq<Token>, atOperand: bool): (r: Result<(Value, seq<Token>)>)
    requires tokens != [] && tokens[0].Ident?
    ensures r.Ok? ==> |r.value.1| < |tokens|
    decreases |tokens|, 1
  {
    match if atOperand then TryLambda(env, ctx, tokens) else NotLambda
    case LambdaError(e) => Err(e)
    case Lambda(v, rest) => Ok((v, rest))
    case NotLambda =>
      if |tokens| > 1 && tokens[1].LParen? then ParseCall(env, ctx, tokens[0].name, tokens[2..])
      else Ok((env.lookup(ctx, tokens[0].name), tokens[1..]))
  }

  // The parsing loop from an intermediate state: output queue, operator stack
  // and whether an operand is expected.
  function Run(env: Env, ctx: Context, tokens: seq<Token>, delimited: bool,
               out: seq<Item>, ops: seq<Pending>, atOperand: bool): (r: Result<(Value, seq<Token>)>)
    ensures r.Ok? ==> |r.value.1| <= |tokens|
    decreases |tokens|, 2
  {
    if AtStop(tokens, delimited) then
      match Finish(env, out, ops)
      case Err(e) => Err(e)
      case Ok(v) => Ok((v, tokens))
    else
      match tokens[0]
      case Number(_) | Str(_) | Boolean(_) | Null =>
        Run(env, ctx, tokens[1..], delimited, out + [Operand(env.literal(tokens[0]))], ops, false)
      case Ident(_) =>
        (match ParseIdent(env, ctx, tokens, atOperand)
         case Err(e) => Err(e)
         case Ok((v, rest)) => Run(env, ctx, rest, delimited, out + [Operand(v)], ops, false))
      case Op(text) =>
        var op := if text.Sub? && atOperand then Neg else text;
        if op.Unknown? then Err(UnknownOperator(op.text))
        else if op.Pipe? then Err(PipeNotModelled)
        else if IsUnary(op) then Run(env, ctx, tokens[1..], delimited, out, ops + [POp(op)], true)
        else
          var (out', ops') := PopWhile(op, out, ops);
          Run(env, ctx, tokens[1..], delimited, out', ops' + [POp(op)], true)
      case LParen => Run(env, ctx, tokens[1..], delimited, out, ops + [PParen], true)
      case RParen =>
        (match PopToParen(out, ops)
         case Err(e) => Err(e)
         case Ok((out', ops')) => Run(env, ctx, tokens[1..], delimited, out', ops', false))
      case Comma => Err(UnexpectedToken)
      case Arrow => Err(UnexpectedArrow)
  }

  function Parse(env: Env, ctx: Context, tokens: seq<Token>): Result<Value> {
    match Run(env, ctx, tokens, false, [], [], true)
    case Err(e) => Err(e)
    case Ok((v, _)) => Ok(v)
  }

  // Binds parameters to arguments; a missing argument is undefined and a
  // repeated name takes the last binding.
  function Bind(env: Env, ctx: Context, params: seq<string>, args: seq<Value>): Context
    decreases |params|
  {
    if params == [] then ctx
    else
      var n := |params| - 1;
      Bind(env, ctx, params[..n], args)[params[n] := if n < |args| then args[n] else env.undefined]
  }

  // Calling a lambda value: its token slice is parsed again with the
  // parameters laid over the context it was made in.
  function Apply(env: Env, closure: Value, args: seq<Value>): Result<Value>
    requires closure.Closure?
  {
    Parse(env, Bind(env, closure.context, closure.params, args), closure.body)
  }
}
