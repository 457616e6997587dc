/** The parser as the source has it: a position moved over the tokens, and stacks pushed and popped in loops. */
module ParserClass {
  import opened Tokens
  import opened ExpressionParser

  class Parser {
    const env: Env
    const tokens: seq<Token>
    const context: Context
    var position: nat

    constructor (env: Env, tokens: seq<Token>, context: Context)
      ensures this.env == env && this.tokens == tokens && this.context == context && position == 0
    {
      this.env, this.tokens, this.context, position := env, tokens, context, 0;
    }

    ghost predicate Valid()
      reads this
    {
      position <= |tokens|
    }

    // The tokens not read yet.
    ghost function Rest(): seq<Token>
      requires Valid()
      reads this
    {
      tokens[position..]
    }

    function CurrentToken(): (t: Token)
      requires Valid()
      reads this
      ensures t == if Rest() == [] then Eof else Rest()[0]
    {
      if position < |tokens| then tokens[position] else Eof
    }

    method Advance()
      requires Valid() && position < |tokens|
      modifies this
      ensures Valid() && Rest() == old(Rest())[1..] && position == old(position) + 1
    {
      position := position + 1;
    }

    method ReadParamNames() returns (params: seq<string>)
      requires Valid()
      modifies this
      ensures Valid() && position >= old(position)
      ensures ParamNames(old(Rest())) == (params, Rest())
    {
      params := [];
      assert [] + ParamNames(Rest()).0 == ParamNames(Rest()).0;
      while CurrentToken().Ident?
        invariant Valid() && position >= old(position)
        invariant ParamNames(old(Rest())) == NamesFrom(params, Rest())
        decreases |tokens| - position
      {
        var name := CurrentToken().name;
        ghost var before, here := params, Rest();
        params := params + [name];
        Advance();
        if CurrentToken().Comma? { Advance(); }
        assert ParamNames(here) == ([name] + ParamNames(Rest()).0, ParamNames(Rest()).1);
        assert params + ParamNames(Rest()).0 == before + ([name] + ParamNames(Rest()).0);
      }
      assert params + [] == params;
    }

    method ReadLambdaHeader() returns (found: bool, params: seq<string>)
      requires Valid()
      modifies this
      ensures Valid()
      ensures found ==> LambdaHeader(old(Rest())) == Header(params, Rest())
      ensures !found ==> LambdaHeader(old(Rest())) == NoHeader && position == old(position)
    {
      var saved := position;
      params := [];
      if CurrentToken().LParen? {
        Advance();
        params := ReadParamNames();
        if !CurrentToken().RParen? {
          position := saved;
          return false, [];
        }
        Advance();
      } else if CurrentToken().Ident? {
        params := [CurrentToken().name];
        Advance();
      } else {
        return false, [];
      }
      if !CurrentToken().Arrow? {
        position := saved;
        return false, [];
      }
      Advance();
      found := true;
    }

    // A failed attempt leaves the position where it was.
    method TryParseLambda() returns (r: Result<(bool, Value)>)
      requires Valid()
      modifies this
      ensures Valid()
      ensures r.Err? ==> TryLambda(env, context, old(Rest())) == LambdaError(r.error)
      ensures r.Ok? && !r.value.0 ==> TryLambda(env, context, old(Rest())) == NotLambda && position == old(position)
      ensures r.Ok? && r.value.0 ==>
                TryLambda(env, context, old(Rest())) == Lambda(r.value.1, Rest()) && position > old(position)
      decreases |tokens| - position, 0
    {
      ghost var start := position;
      var found, params := ReadLambdaHeader();
      if !found { return Ok((false, env.undefined)); }
      var bodyStart := position;
      assert bodyStart > start;
      var body := ParseExpression(true);
      if body.Err? { return Err(body.error); }
      var bodyEnd := position;
      assert tokens[bodyStart..][..bodyEnd - bodyStart] == tokens[bodyStart..bodyEnd];
      r := Ok((true, Closure(params, tokens[bodyStart..bodyEnd], context)));
    }

    method ParseArgument() returns (r: Result<Value>)
      requires Valid()
      modifies this
      ensures Valid() && (r.Ok? ==> position >= old(position))
      ensures ParseArg(env, context, old(Rest())) == if r.Ok? then Ok((r.value, Rest())) else Err(r.error)
      decreases |tokens| - position, 3
    {
      var lambda := TryParseLambda();
      if lambda.Err? { return Err(lambda.error); }
      if lambda.value.0 { return Ok(lambda.value.1); }
      r := ParseExpression(true);
    }

    // A call whose '(' has been read.
    method ParseCallArguments(name: string) returns (r: Result<Value>)
      requires Valid()
      modifies this
      ensures Valid() && (r.Ok? ==> position >= old(position))
      ensures ParseCall(env, context, name, old(Rest())) == if r.Ok? then Ok((r.value, Rest())) else Err(r.error)
      decreases |tokens| - position, 4
    {
      var args: seq<Value> := [];
      ghost var start := Rest();
      if !CurrentToken().RParen? {
        var first := ParseArgument();
        if first.Err? { return first; }
        args := [first.value];
        while CurrentToken().Comma?
          invariant Valid() && position >= old(position)
          invariant ParseArgList(env, context, start) == ListFrom(env, context, args, Rest())
          decreases |tokens| - position
        {
          ghost var before, here := args, Rest();
          Advance();
          var next := ParseArgument();
          if next.Err? { return next; }
          args := args + [next.value];
          ListStep(env, context, before, here, next.value, Rest());
        }
      }
      if !CurrentToken().RParen? { return Err(ExpectedCloseParen); }
      ghost var atClose := Rest();
      Advance();
      if !env.registered(name) { return Err(UnknownFunction(name)); }
      r := env.call(name, args);
    }

    method ParseIdentifier(expectOperand: bool) returns (r: Result<Value>)
      requires Valid() && CurrentToken().Ident?
      modifies this
      ensures Valid() && (r.Ok? ==> position > old(position))
      ensures ParseIdent(env, context, old(Rest()), expectOperand)
              == if r.Ok? then Ok((r.value, Rest())) else Err(r.error)
      decreases |tokens| - position, 1
    {
      var name := CurrentToken().name;
      if expectOperand {
        var lambda := TryParseLambda();
        if lambda.Err? { return Err(lambda.error); }
        if lambda.value.0 { return Ok(lambda.value.1); }
      }
      Advance();
      if CurrentToken().LParen? {
        Advance();
        r := ParseCallArguments(name);
      } else {
        r := Ok(env.lookup(context, name));
      }
    }

    method ParseExpression(delimited: bool) returns (r: Result<Value>)
      requires Valid()
      modifies this
      ensures Valid() && (r.Ok? ==> position >= old(position))
      ensures Run(env, context, old(Rest()), delimited, [], [], true)
              == if r.Ok? then Ok((r.value, Rest())) else Err(r.error)
      decreases |tokens| - position, 2
    {
      var outputQueue: seq<Item> := [];
      var operatorStack: seq<Pending> := [];
      var expectOperand := true;
      ghost var goal := Run(env, context, Rest(), delimited, [], [], true);
      while !(CurrentToken().Eof? || (delimited && (CurrentToken().Comma? || CurrentToken().RParen?)))
        invariant Valid() && position >= old(position)
        invariant Run(env, context, Rest(), delimited, outputQueue, operatorStack, expectOperand) == goal
        decreases |tokens| - position
      {
        var token := CurrentToken();
        if IsLiteral(token) {
          Advance();
          outputQueue, expectOperand := outputQueue + [Operand(env.literal(token))], false;
        } else if token.Ident? {
          var operand := ParseIdentifier(expectOperand);
          if operand.Err? { return operand; }
          outputQueue, expectOperand := outputQueue + [Operand(operand.value)], false;
        } else if token.Op? {
          var op := if token.op.Sub? && expectOperand then Neg else token.op;
          if op.Unknown? { return Err(UnknownOperator(op.text)); }
          if op.Pipe? { return Err(PipeNotModelled); }
          if !IsUnary(op) {
            outputQueue, operatorStack := MoveOperators(op, outputQueue, operatorStack);
          }
          operatorStack := operatorStack + [POp(op)];
          Advance();
          expectOperand := true;
        } else if token.LParen? {
          operatorStack := operatorStack + [PParen];
          Advance();
          expectOperand := true;
        } else if token.RParen? {
          var closed, q, s := CloseGroup(outputQueue, operatorStack);
          if !closed { return Err(MismatchedParentheses); }
          outputQueue, operatorStack := q, s;
          Advance();
          expectOperand := false;
        } else if token.Arrow? {
          return Err(UnexpectedArrow);
        } else {
          return Err(UnexpectedToken);
        }
      }
      var finished, queue := MoveAll(outputQueue, operatorStack);
      if !finished { return Err(MismatchedParentheses); }
      r := EvaluateRPN(env, queue);
    }
  }

  ghost function NamesFrom(names: seq<string>, rest: seq<Token>): (seq<string>, seq<Token>) {
    (names + ParamNames(rest).0, ParamNames(rest).1)
  }

  // The argument list so far, and what parsing the rest of it gives.
  ghost function ListFrom(env: Env, ctx: Context, args: seq<Value>, rest: seq<Token>)
    : Result<(seq<Value>, seq<Token>)>
  {
    if rest == [] || !rest[0].Comma? then Ok((args, rest))
    else
      match ParseArgList(env, ctx, rest[1..])
      case Err(e) => Err(e)
      case Ok(more) => Ok((args + more.0, more.1))
  }

  lemma ListStep(env: Env, ctx: Context, args: seq<Value>, rest: seq<Token>, v: Value, next: seq<Token>)
    requires rest != [] && rest[0].Comma? && ParseArg(env, ctx, rest[1..]) == Ok((v, next))
    ensures ListFrom(env, ctx, args, rest) == ListFrom(env, ctx, args + [v], next)
  {
    hide ParseArg;
    if next != [] && next[0].Comma? {
      var more := ParseArgList(env, ctx, next[1..]);
      if more.Ok? { assert args + ([v] + more.value.0) == args + [v] + more.value.0; }
    }
  }

  method MoveOperators(op: Operator, queue: seq<Item>, stack: seq<Pending>) returns (q: seq<Item>, s: seq<Pending>)
    ensures (q, s) == PopWhile(op, queue, stack)
  {
    q, s := queue, stack;
    while s != [] && s[|s|-1].POp? && ShouldPop(op, s[|s|-1].op)
      invariant PopWhile(op, q, s) == PopWhile(op, queue, stack)
      decreases |s|
    {
      q, s := q + [Operator(s[|s|-1].op)], s[..|s|-1];
    }
  }

  method CloseGroup(queue: seq<Item>, stack: seq<Pending>) returns (closed: bool, q: seq<Item>, s: seq<Pending>)
    ensures PopToParen(queue, stack) == if closed then Ok((q, s)) else Err(MismatchedParentheses)
  {
    q, s := queue, stack;
    while s != [] && !s[|s|-1].PParen?
      invariant PopToParen(q, s) == PopToParen(queue, stack)
      decreases |s|
    {
      q, s := q + [Operator(s[|s|-1].op)], s[..|s|-1];
    }
    if s == [] { return false, q, s; }
    return true, q, s[..|s|-1];
  }

  method MoveAll(queue: seq<Item>, stack: seq<Pending>) returns (finished: bool, q: seq<Item>)
    ensures PopAll(queue, stack) == if finished then Ok(q) else Err(MismatchedParentheses)
  {
    q := queue;
    var s := stack;
    while s != []
      invariant PopAll(q, s) == PopAll(queue, stack)
      decreases |s|
    {
      if s[|s|-1].PParen? { return false, q; }
      q, s := q + [Operator(s[|s|-1].op)], s[..|s|-1];
    }
    finished := true;
  }

  method EvaluateRPN(env: Env, queue: seq<Item>) returns (r: Result<Value>)
    ensures r == EvalRpn(env, queue)
  {
    var stack: seq<Value> := [];
    var i := 0;
    while i < |queue|
      invariant 0 <= i <= |queue|
      invariant Exec(env, queue[i..], stack) == Exec(env, queue, [])
    {
      var n := |stack|;
      match queue[i] {
        case Operand(v) => stack := stack + [v];
        case Operator(op) =>
          if IsUnary(op) {
            if n < 1 { return Err(NotEnoughOperands); }
            stack := stack[..n-1] + [env.unary(op, stack[n-1])];
          } else {
            if n < 2 { return Err(NotEnoughOperands); }
            stack := stack[..n-2] + [env.binary(op, stack[n-2], stack[n-1])];
          }
      }
      i := i + 1;
    }
    if |stack| != 1 { return Err(InvalidExpression); }
    return Ok(stack[0]);
  }
}
