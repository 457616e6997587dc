/** The parser computes the meaning of every printed tree. */
module ExpressionProofs {
  import opened Tokens
  import opened ExpressionParser
  import opened ExpressionTrees

  // What reading a tree adds to the output queue and leaves on the operator
  // stack: the operators on its right edge stay pending.
  datatype Residue = Residue(out: seq<Item>, pending: seq<Pending>)

  predicate AllOps(pending: seq<Pending>) {
    forall i :: 0 <= i < |pending| ==> pending[i].POp?
  }

  // Every pending operator binds at least this tightly.
  predicate AtLeast(pending: seq<Pending>, level: int) {
    forall i :: 0 <= i < |pending| ==> pending[i].POp? && Precedence(pending[i].op) >= level
  }

  // Pending operators in the order the parser moves them to the queue.
  function Flush(pending: seq<Pending>): seq<Item>
    requires AllOps(pending)
    decreases |pending|
  {
    if pending == [] then []
    else [Operator(pending[|pending|-1].op)] + Flush(pending[..|pending|-1])
  }

  function Read(env: Env, ctx: Context, e: Expr): (r: Result<Residue>)
    ensures r.Ok? ==> AllOps(r.value.pending)
  {
    match e
    case Unary(op, x) =>
      (match Read(env, ctx, x)
       case Err(er) => Err(er)
       case Ok(c) => Ok(Residue(c.out, [POp(op)] + c.pending)))
    case Binary(op, l, r) =>
      (match Read(env, ctx, l)
       case Err(er) => Err(er)
       case Ok(a) =>
         match Read(env, ctx, r)
         case Err(er) => Err(er)
         case Ok(b) => Ok(Residue(a.out + Flush(a.pending) + b.out, [POp(op)] + b.pending)))
    case Group(x) =>
      (match Read(env, ctx, x)
       case Err(er) => Err(er)
       case Ok(c) => Ok(Residue(c.out + Flush(c.pending), [])))
    case _ =>
      match Denote(env, ctx, e)
      case Err(er) => Err(er)
      case Ok(v) => Ok(Residue([Operand(v)], []))
  }

  // ------------------------------------------------ queue and stack lemmas

  lemma {:induction false} ExecConcat(env: Env, a: seq<Item>, b: seq<Item>, s: seq<Value>)
    ensures Exec(env, a + b, s) ==
            match Exec(env, a, s) case Err(e) => Err(e) case Ok(s') => Exec(env, b, s')
    decreases |a|
  {
    if a == [] {
      assert a + b == b;
    } else {
      assert (a + b)[1..] == a[1..] + b;
      var n := |s|;
      var item := a[0];
      if item.Operand? {
        ExecConcat(env, a[1..], b, s + [item.v]);
      } else if IsUnary(item.op) {
        if n >= 1 { ExecConcat(env, a[1..], b, s[..n-1] + [env.unary(item.op, s[n-1])]); }
      } else if n >= 2 {
        ExecConcat(env, a[1..], b, s[..n-2] + [env.binary(item.op, s[n-2], s[n-1])]);
      }
    }
  }

  lemma {:induction false} FlushSnocFirst(op: Operator, pending: seq<Pending>)
    requires AllOps(pending)
    ensures Flush([POp(op)] + pending) == Flush(pending) + [Operator(op)]
    decreases |pending|
  {
    var all := [POp(op)] + pending;
    if pending == [] {
      assert all[..0] == [];
    } else {
      assert all[..|all|-1] == [POp(op)] + pending[..|pending|-1];
      FlushSnocFirst(op, pending[..|pending|-1]);
    }
  }

  lemma ExecOne(env: Env, op: Operator, s: seq<Value>)
    ensures Exec(env, [Operator(op)], s) ==
            if IsUnary(op) then
              if |s| < 1 then Err(NotEnoughOperands) else Ok(s[..|s|-1] + [env.unary(op, s[|s|-1])])
            else
              if |s| < 2 then Err(NotEnoughOperands)
              else Ok(s[..|s|-2] + [env.binary(op, s[|s|-2], s[|s|-1])])
  {}

  lemma ExecUnary(env: Env, q: seq<Item>, op: Operator, s: seq<Value>, v: Value)
    requires IsUnary(op) && Exec(env, q, s) == Ok(s + [v])
    ensures Exec(env, q + [Operator(op)], s) == Ok(s + [env.unary(op, v)])
  {
    ExecConcat(env, q, [Operator(op)], s);
    ExecOne(env, op, s + [v]);
    assert (s + [v])[..|s|] == s;
  }

  lemma ExecBinary(env: Env, qa: seq<Item>, qb: seq<Item>, op: Operator, s: seq<Value>, v: Value, w: Value)
    requires !IsUnary(op) && Exec(env, qa, s) == Ok(s + [v]) && Exec(env, qb, s + [v]) == Ok(s + [v] + [w])
    ensures Exec(env, qa + qb + [Operator(op)], s) == Ok(s + [env.binary(op, v, w)])
  {
    ExecConcat(env, qa + qb, [Operator(op)], s);
    ExecConcat(env, qa, qb, s);
    ExecOne(env, op, s + [v] + [w]);
    assert (s + [v] + [w])[..|s|] == s;
  }

  // A residue's queue once its pending operators are flushed.
  function Queue(c: Residue): seq<Item>
    requires AllOps(c.pending)
  {
    c.out + Flush(c.pending)
  }

  // Both fail alike, or running the residue's queue pushes the value.
  predicate RunsTo(env: Env, read: Result<Residue>, meaning: Result<Value>, s: seq<Value>)
    requires read.Ok? ==> AllOps(read.value.pending)
  {
    match read
    case Err(er) => meaning == Err(er)
    case Ok(c) => meaning.Ok? && Exec(env, Queue(c), s) == Ok(s + [meaning.value])
  }

  // A residue, run as reverse Polish notation, pushes the value of its tree.
  lemma {:induction false} ReadMeansDenote(env: Env, ctx: Context, e: Expr, s: seq<Value>)
    requires WellFormed(e)
    ensures RunsTo(env, Read(env, ctx, e), Denote(env, ctx, e), s)
    decreases e
  {
    hide Exec, Queue;
    match e
    case Unary(op, x) =>
      ReadMeansDenote(env, ctx, x, s);
      if Read(env, ctx, x).Ok? {
        QueueUnary(env, ctx, e);
        ExecUnary(env, Queue(Read(env, ctx, x).value), op, s, Denote(env, ctx, x).value);
      }
    case Binary(op, l, r) =>
      ReadMeansDenote(env, ctx, l, s);
      if Read(env, ctx, l).Ok? {
        var v := Denote(env, ctx, l).value;
        ReadMeansDenote(env, ctx, r, s + [v]);
        if Read(env, ctx, r).Ok? {
          QueueBinary(env, ctx, e);
          ExecBinary(env, Queue(Read(env, ctx, l).value), Queue(Read(env, ctx, r).value), op, s, v,
                     Denote(env, ctx, r).value);
        }
      }
    case Group(x) =>
      ReadMeansDenote(env, ctx, x, s);
      if Read(env, ctx, x).Ok? { QueueGroup(env, ctx, e); }
    case LambdaExpr(_, _, _) =>
    case Literal(_) | Variable(_) | Call(_, _) =>
      if Denote(env, ctx, e).Ok? { ExecAtom(env, Denote(env, ctx, e).value, s); }
  }

  lemma ExecAtom(env: Env, v: Value, s: seq<Value>)
    ensures Exec(env, Queue(Residue([Operand(v)], [])), s) == Ok(s + [v])
  {}

  lemma QueueUnary(env: Env, ctx: Context, e: Expr)
    requires e.Unary? && Read(env, ctx, e.operand).Ok?
    ensures Queue(Read(env, ctx, e).value) == Queue(Read(env, ctx, e.operand).value) + [Operator(e.op)]
  {
    FlushSnocFirst(e.op, Read(env, ctx, e.operand).value.pending);
  }

  lemma QueueBinary(env: Env, ctx: Context, e: Expr)
    requires e.Binary? && Read(env, ctx, e.left).Ok? && Read(env, ctx, e.right).Ok?
    ensures Queue(Read(env, ctx, e).value)
            == Queue(Read(env, ctx, e.left).value) + Queue(Read(env, ctx, e.right).value) + [Operator(e.op)]
  {
    FlushSnocFirst(e.op, Read(env, ctx, e.right).value.pending);
  }

  lemma QueueGroup(env: Env, ctx: Context, e: Expr)
    requires e.Group? && Read(env, ctx, e.inner).Ok?
    ensures Queue(Read(env, ctx, e).value) == Queue(Read(env, ctx, e.inner).value)
  {}

  // The stack under an operand does not bind more tightly than its root.
  predicate Yields(ops: seq<Pending>, e: Expr) {
    ops == [] || ops[|ops|-1].PParen? || RightFits(ops[|ops|-1].op, e)
  }

  lemma AtLeastCons(op: Operator, pending: seq<Pending>, level: int, weaker: int)
    requires AtLeast(pending, level) && weaker <= level && weaker <= Precedence(op)
    ensures AtLeast([POp(op)] + pending, weaker)
  {}

  lemma EdgeLevel(e: Expr)
    requires WellFormed(e)
    ensures e.Unary? ==> Level(e.operand) >= Level(e) && Precedence(e.op) >= Level(e)
    ensures e.Binary? ==> Level(e.right) >= Level(e) && Precedence(e.op) >= Level(e)
  {}

  // The operators a tree leaves pending bind at least as tightly as its root.
  lemma {:induction false} PendingLevel(env: Env, ctx: Context, e: Expr)
    requires WellFormed(e) && Read(env, ctx, e).Ok?
    ensures AtLeast(Read(env, ctx, e).value.pending, Level(e))
    decreases e
  {
    hide AtLeast;
    EdgeLevel(e);
    match e
    case Unary(op, x) =>
      PendingLevel(env, ctx, x);
      hide Level, Precedence;
      AtLeastCons(op, Read(env, ctx, x).value.pending, Level(x), Level(e));
    case Binary(op, l, r) =>
      PendingLevel(env, ctx, r);
      hide Level, Precedence;
      AtLeastCons(op, Read(env, ctx, r).value.pending, Level(r), Level(e));
    case LambdaExpr(_, _, _) =>
    case Literal(_) | Variable(_) | Group(_) | Call(_, _) => NothingPending(Level(e));
  }

  lemma NothingPending(level: int)
    ensures AtLeast([], level)
  {}

  // The level from which an operator moves pending operators to the queue.
  function PopLevel(op: Operator): int {
    if RightAssociative(op) then Precedence(op) + 1 else Precedence(op)
  }

  lemma {:induction false} PopWhileFlushes(op: Operator, out: seq<Item>, base: seq<Pending>, pending: seq<Pending>)
    requires AtLeast(pending, PopLevel(op))
    requires base == [] || base[|base|-1].PParen? || !ShouldPop(op, base[|base|-1].op)
    ensures PopWhile(op, out, base + pending) == (out + Flush(pending), base)
    decreases |pending|
  {
    if pending == [] {
      assert base + pending == base;
      assert out + Flush(pending) == out;
    } else {
      var n := |pending| - 1;
      var top := pending[n].op;
      PopWhileFlushes(op, out + [Operator(top)], base, pending[..n]);
      PopStep(op, out, base, pending);
      FlushStep(out, pending);
      hide *;
    }
  }

  lemma PopStep(op: Operator, out: seq<Item>, base: seq<Pending>, pending: seq<Pending>)
    requires AtLeast(pending, PopLevel(op)) && pending != []
    ensures var n := |pending| - 1;
            PopWhile(op, out, base + pending)
            == PopWhile(op, out + [Operator(pending[n].op)], base + pending[..n])
  {
    var n := |pending| - 1;
    assert (base + pending)[..|base| + n] == base + pending[..n];
  }

  lemma FlushStep(out: seq<Item>, pending: seq<Pending>)
    requires AllOps(pending) && pending != []
    ensures var n := |pending| - 1;
            out + Flush(pending) == out + [Operator(pending[n].op)] + Flush(pending[..n])
  {
    var n := |pending| - 1;
    var rest := Flush(pending[..n]);
    assert Flush(pending) == [Operator(pending[n].op)] + rest;
    hide Flush, AllOps;
    assert out + ([Operator(pending[n].op)] + rest) == out + [Operator(pending[n].op)] + rest;
  }

  lemma {:induction false} PopToParenFlushes(out: seq<Item>, base: seq<Pending>, pending: seq<Pending>)
    requires AllOps(pending)
    ensures PopToParen(out, base + [PParen] + pending) == Ok((out + Flush(pending), base))
    decreases |pending|
  {
    var all := base + [PParen] + pending;
    if pending == [] {
      assert all == base + [PParen];
      assert all[..|all|-1] == base;
      assert out + Flush(pending) == out;
    } else {
      var n := |pending| - 1;
      assert all[..|all|-1] == base + [PParen] + pending[..n];
      PopToParenFlushes(out + [Operator(pending[n].op)], base, pending[..n]);
      assert out + Flush(pending) == out + [Operator(pending[n].op)] + Flush(pending[..n]);
    }
  }

  lemma {:induction false} PopAllFlushes(out: seq<Item>, pending: seq<Pending>)
    requires AllOps(pending)
    ensures PopAll(out, pending) == Ok(out + Flush(pending))
    decreases |pending|
  {
    if pending == [] {
      assert out + Flush(pending) == out;
    } else {
      var n := |pending| - 1;
      PopAllFlushes(out + [Operator(pending[n].op)], pending[..n]);
      assert out + Flush(pending) == out + [Operator(pending[n].op)] + Flush(pending[..n]);
    }
  }

  lemma {:induction false} PopAllParen(out: seq<Item>, ops: seq<Pending>)
    requires PParen in ops
    ensures PopAll(out, ops) == Err(MismatchedParentheses)
    decreases |ops|
  {
    var n := |ops| - 1;
    if ops[n].POp? {
      assert PParen in ops[..n];
      PopAllParen(out + [Operator(ops[n].op)], ops[..n]);
    }
  }

  // ------------------------------------------------------- reading a tree

  // What may come after an operand: not a token that would turn its last
  // identifier into a call or a lambda.
  predicate Follows(rest: seq<Token>) {
    rest == [] || (!rest[0].LParen? && !rest[0].Arrow?)
  }

  // What the loop does once a tree has been read from its first token on.
  function After(env: Env, ctx: Context, read: Result<Residue>, rest: seq<Token>, delimited: bool,
                 out: seq<Item>, ops: seq<Pending>): Result<(Value, seq<Token>)>
  {
    match read
    case Err(er) => Err(er)
    case Ok(c) => Run(env, ctx, rest, delimited, out + c.out, ops + c.pending, false)
  }

  // Tokens that, after '(', do not make a parameter list and an arrow.
  predicate NotParams(t: seq<Token>) {
    t != [] && !t[0].RParen? &&
    (t[0].Ident? ==> |t| >= 2 && (t[1].Op? || t[1].LParen? || (t[1].RParen? && !(|t| > 2 && t[2].Arrow?))))
  }

  // Tokens at which no lambda starts.
  predicate NotLambdaStart(t: seq<Token>) {
    t != [] && (t[0].LParen? ==> NotParams(t[1..])) && (t[0].Ident? ==> |t| == 1 || !t[1].Arrow?)
  }

  lemma NotLambdaStartHeader(t: seq<Token>)
    requires NotLambdaStart(t)
    ensures LambdaHeader(t) == NoHeader
  {
    if t[0].LParen? {
      var u := t[1..];
      if u[0].Ident? {
        assert ParamNames(u[1..]) == ([], u[1..]);
        assert ParamNames(u).1 == u[1..];
      }
    }
  }

  // The first two tokens of an operand.
  lemma {:induction false} FirstTokens(e: Expr)
    requires WellFormed(e)
    ensures var p := Print(e);
            p != [] && (IsLiteral(p[0]) || p[0].Ident? || p[0].Op? || p[0].LParen?) &&
            (p[0].Ident? ==> e.Variable? || (|p| >= 2 && (p[1].Op? || p[1].LParen?)))
    decreases e
  {
    match e
    case Binary(op, l, r) => FirstTokens(l);
    case LambdaExpr(_, _, _) =>
    case Literal(_) | Variable(_) | Call(_, _) | Unary(_, _) | Group(_) =>
  }

  // No operand starts like a lambda.
  lemma {:induction false} OperandStart(e: Expr, rest: seq<Token>)
    requires WellFormed(e) && Follows(rest)
    ensures NotLambdaStart(Print(e) + rest) && !AtStop(Print(e) + rest, true)
    decreases e
  {
    if e.Binary? {
      OperandStart(e.left, [Op(e.op)] + Print(e.right) + rest);
      BinaryText(e, rest);
      hide *;
    } else if e.Group? {
      GroupStart(e.inner, rest);
    } else {
      LeafStart(e, rest);
    }
  }

  lemma BinaryText(e: Expr, rest: seq<Token>)
    requires e.Binary?
    ensures Print(e) + rest == Print(e.left) + ([Op(e.op)] + Print(e.right) + rest)
    ensures Print(e) + rest == Print(e.left) + ([Op(e.op)] + (Print(e.right) + rest))
  {}

  lemma Concat(a: seq<Token>, b: seq<Token>, c: seq<Token>, d: seq<Token>)
    ensures a + b + c + d == a + (b + c + d) == a + (b + (c + d))
  {}

  lemma LeafStart(e: Expr, rest: seq<Token>)
    requires WellFormed(e) && Follows(rest) && !e.Binary? && !e.Group?
    ensures NotLambdaStart(Print(e) + rest) && !AtStop(Print(e) + rest, true)
  {}

  lemma GroupStart(x: Expr, rest: seq<Token>)
    requires WellFormed(x) && Follows(rest)
    ensures NotLambdaStart(Print(Group(x)) + rest) && !AtStop(Print(Group(x)) + rest, true)
  {
    FirstTokens(x);
    assert (Print(Group(x)) + rest)[1..] == Print(x) + [RParen] + rest;
  }

  // Both outcomes of an evaluation, with the tokens left after it.
  function Ending(meaning: Result<Value>, rest: seq<Token>): Result<(Value, seq<Token>)> {
    match meaning
    case Err(er) => Err(er)
    case Ok(v) => Ok((v, rest))
  }

  lemma BinaryStep(env: Env, ctx: Context, op: Operator, t: seq<Token>, delimited: bool,
                   out: seq<Item>, ops: seq<Pending>)
    requires IsBinary(op)
    ensures var popped := PopWhile(op, out, ops);
            Run(env, ctx, [Op(op)] + t, delimited, out, ops, false)
            == Run(env, ctx, t, delimited, popped.0, popped.1 + [POp(op)], true)
  {}

  // After an operand, a binary operator first moves the operators its left
  // operand left pending.
  lemma OperatorStep(env: Env, ctx: Context, op: Operator, t: seq<Token>, delimited: bool,
                     out: seq<Item>, ops: seq<Pending>, pending: seq<Pending>)
    requires IsBinary(op) && AtLeast(pending, PopLevel(op))
    requires ops == [] || ops[|ops|-1].PParen? || !ShouldPop(op, ops[|ops|-1].op)
    ensures Run(env, ctx, [Op(op)] + t, delimited, out, ops + pending, false)
            == Run(env, ctx, t, delimited, out + Flush(pending), ops + [POp(op)], true)
  {
    PopWhileFlushes(op, out, ops, pending);
    BinaryStep(env, ctx, op, t, delimited, out, ops + pending);
    hide *;
  }

  lemma UnaryStep(env: Env, ctx: Context, op: Operator, t: seq<Token>, delimited: bool,
                  out: seq<Item>, ops: seq<Pending>)
    requires IsUnary(op)
    ensures Run(env, ctx, [Op(UnaryText(op))] + t, delimited, out, ops, true)
            == Run(env, ctx, t, delimited, out, ops + [POp(op)], true)
  {}

  function AfterCall(env: Env, ctx: Context, call: Result<(Value, seq<Token>)>, delimited: bool,
                     out: seq<Item>, ops: seq<Pending>): Result<(Value, seq<Token>)>
  {
    match call
    case Err(er) => Err(er)
    case Ok(p) => Run(env, ctx, p.1, delimited, out + [Operand(p.0)], ops, false)
  }

  lemma CallStep(env: Env, ctx: Context, f: string, t: seq<Token>, delimited: bool,
                 out: seq<Item>, ops: seq<Pending>)
    ensures Run(env, ctx, [Ident(f), LParen] + t, delimited, out, ops, true)
            == AfterCall(env, ctx, ParseCall(env, ctx, f, t), delimited, out, ops)
  {
    var u := [Ident(f), LParen] + t;
    NotLambdaStartHeader(u);
    assert u[2..] == t;
    assert ParseIdent(env, ctx, u, true) == ParseCall(env, ctx, f, t);
    hide ParseIdent, ParseCall;
  }

  lemma LambdaStep(env: Env, ctx: Context, t: seq<Token>, delimited: bool)
    requires t != [] && t[0].Ident?
    ensures var lam := TryLambda(env, ctx, t);
            var run := Run(env, ctx, t, delimited, [], [], true);
            (lam.LambdaError? ==> run == Err(lam.error)) &&
            (lam.Lambda? ==> run == Run(env, ctx, lam.rest, delimited, [Operand(lam.closure)], [], false))
  {
    if TryLambda(env, ctx, t).Lambda? {
      var v := TryLambda(env, ctx, t).closure;
      assert [] + [Operand(v)] == [Operand(v)];
    }
  }

  lemma StopStep(env: Env, ctx: Context, t: seq<Token>, delimited: bool, c: Residue)
    requires AtStop(t, delimited) && AllOps(c.pending)
    ensures Run(env, ctx, t, delimited, c.out, c.pending, false) == Ending(EvalRpn(env, Queue(c)), t)
  {
    PopAllFlushes(c.out, c.pending);
  }

  // The loop reads a printed operand and goes on with its residue added.
  ghost predicate ReadsTree(env: Env, ctx: Context, e: Expr, rest: seq<Token>, delimited: bool,
                            out: seq<Item>, ops: seq<Pending>)
  {
    Run(env, ctx, Print(e) + rest, delimited, out, ops, true)
    == After(env, ctx, Read(env, ctx, e), rest, delimited, out, ops)
  }

  lemma {:induction false} ReadTree(env: Env, ctx: Context, e: Expr, rest: seq<Token>, delimited: bool,
                                    out: seq<Item>, ops: seq<Pending>)
    requires WellFormed(e) && GroupSafe(e, delimited) && Follows(rest) && Yields(ops, e)
    ensures ReadsTree(env, ctx, e, rest, delimited, out, ops)
    decreases e, 0
  {
    match e
    case Literal(_) | Variable(_) => ReadAtom(env, ctx, e, rest, delimited, out, ops);
    case Unary(op, x) =>
      ReadTree(env, ctx, x, rest, delimited, out, ops + [POp(op)]);
      ReadUnary(env, ctx, e, rest, delimited, out, ops);
    case Binary(op, l, r) =>
      ReadTree(env, ctx, l, [Op(op)] + (Print(r) + rest), delimited, out, ops);
      if Read(env, ctx, l).Ok? {
        var a := Read(env, ctx, l).value;
        ReadTree(env, ctx, r, rest, delimited, out + a.out + Flush(a.pending), ops + [POp(op)]);
      }
      ReadBinary(env, ctx, e, rest, delimited, out, ops);
    case Group(x) =>
      ReadTree(env, ctx, x, [RParen] + rest, delimited, out, ops + [PParen]);
      ReadGroup(env, ctx, e, rest, delimited, out, ops);
    case Call(_, _) =>
      ReadCall(env, ctx, e, rest);
      ReadCalled(env, ctx, e, rest, delimited, out, ops);
  }

  lemma ReadUnary(env: Env, ctx: Context, e: Expr, rest: seq<Token>, delimited: bool,
                  out: seq<Item>, ops: seq<Pending>)
    requires e.Unary? && WellFormed(e)
    requires ReadsTree(env, ctx, e.operand, rest, delimited, out, ops + [POp(e.op)])
    ensures ReadsTree(env, ctx, e, rest, delimited, out, ops)
  {
    hide Run;
    UnaryStep(env, ctx, e.op, Print(e.operand) + rest, delimited, out, ops);
    assert Print(e) + rest == [Op(UnaryText(e.op))] + (Print(e.operand) + rest);
    if Read(env, ctx, e.operand).Ok? {
      var c := Read(env, ctx, e.operand).value;
      assert ops + [POp(e.op)] + c.pending == ops + ([POp(e.op)] + c.pending);
    }
  }

  lemma ReadBinary(env: Env, ctx: Context, e: Expr, rest: seq<Token>, delimited: bool,
                   out: seq<Item>, ops: seq<Pending>)
    requires e.Binary? && WellFormed(e) && Yields(ops, e)
    requires ReadsTree(env, ctx, e.left, [Op(e.op)] + (Print(e.right) + rest), delimited, out, ops)
    requires Read(env, ctx, e.left).Ok? ==>
               var a := Read(env, ctx, e.left).value;
               ReadsTree(env, ctx, e.right, rest, delimited, out + a.out + Flush(a.pending), ops + [POp(e.op)])
    ensures ReadsTree(env, ctx, e, rest, delimited, out, ops)
  {
    BinaryLeft(env, ctx, e, rest, delimited, out, ops);
    hide Run, Print, WellFormed, Flush;
    if Read(env, ctx, e.left).Ok? && Read(env, ctx, e.right).Ok? {
      var a, b := Read(env, ctx, e.left).value, Read(env, ctx, e.right).value;
      Regroup(out, a.out, Flush(a.pending), b.out, ops, e.op, b.pending);
    }
  }

  // Reading a binary tree up to its right child.
  lemma BinaryLeft(env: Env, ctx: Context, e: Expr, rest: seq<Token>, delimited: bool,
                   out: seq<Item>, ops: seq<Pending>)
    requires e.Binary? && WellFormed(e) && Yields(ops, e)
    requires ReadsTree(env, ctx, e.left, [Op(e.op)] + (Print(e.right) + rest), delimited, out, ops)
    ensures var read := Read(env, ctx, e.left);
            Run(env, ctx, Print(e) + rest, delimited, out, ops, true)
            == if read.Err? then Err(read.error)
               else Run(env, ctx, Print(e.right) + rest, delimited,
                        out + read.value.out + Flush(read.value.pending), ops + [POp(e.op)], true)
  {
    BinaryText(e, rest);
    if Read(env, ctx, e.left).Ok? {
      var a := Read(env, ctx, e.left).value;
      LeftPending(env, ctx, e);
      YieldsTop(ops, e);
      hide Run, Print, Read, WellFormed, Flush, AtLeast, Yields, ShouldPop;
      OperatorStep(env, ctx, e.op, Print(e.right) + rest, delimited, out + a.out, ops, a.pending);
    }
  }

  lemma LeftPending(env: Env, ctx: Context, e: Expr)
    requires e.Binary? && WellFormed(e) && Read(env, ctx, e.left).Ok?
    ensures AtLeast(Read(env, ctx, e.left).value.pending, PopLevel(e.op))
  {
    PendingLevel(env, ctx, e.left);
    hide Read, WellFormed;
  }

  lemma YieldsTop(ops: seq<Pending>, e: Expr)
    requires e.Binary? && IsBinary(e.op) && Yields(ops, e)
    ensures ops == [] || ops[|ops|-1].PParen? || !ShouldPop(e.op, ops[|ops|-1].op)
  {}

  lemma Regroup(out: seq<Item>, a: seq<Item>, f: seq<Item>, b: seq<Item>,
                ops: seq<Pending>, op: Operator, pending: seq<Pending>)
    ensures out + a + f + b == out + (a + f + b)
    ensures ops + [POp(op)] + pending == ops + ([POp(op)] + pending)
  {}

  lemma ReadGroup(env: Env, ctx: Context, e: Expr, rest: seq<Token>, delimited: bool,
                  out: seq<Item>, ops: seq<Pending>)
    requires e.Group? && !delimited
    requires ReadsTree(env, ctx, e.inner, [RParen] + rest, delimited, out, ops + [PParen])
    ensures ReadsTree(env, ctx, e, rest, delimited, out, ops)
  {
    var t := [RParen] + rest;
    assert (Print(e) + rest)[1..] == Print(e.inner) + t;
    if Read(env, ctx, e.inner).Ok? {
      var c := Read(env, ctx, e.inner).value;
      PopToParenFlushes(out + c.out, ops, c.pending);
      assert t[1..] == rest;
      assert out + c.out + Flush(c.pending) == out + (c.out + Flush(c.pending));
      assert ops + [] == ops;
    }
  }

  lemma CallText(e: Expr, rest: seq<Token>)
    requires e.Call?
    ensures Print(e) + rest == [Ident(e.name), LParen] + (PrintArgs(e.args) + [RParen] + rest)
  {}

  lemma ReadCalled(env: Env, ctx: Context, e: Expr, rest: seq<Token>, delimited: bool,
                   out: seq<Item>, ops: seq<Pending>)
    requires e.Call? && WellFormed(e) && Follows(rest)
    requires ParseCall(env, ctx, e.name, PrintArgs(e.args) + [RParen] + rest) == Ending(Denote(env, ctx, e), rest)
    ensures ReadsTree(env, ctx, e, rest, delimited, out, ops)
  {
    CallText(e, rest);
    hide Run, ParseCall, Print, PrintArgs;
    CallStep(env, ctx, e.name, PrintArgs(e.args) + [RParen] + rest, delimited, out, ops);
    assert ops + [] == ops;
  }

  lemma ReadAtom(env: Env, ctx: Context, e: Expr, rest: seq<Token>, delimited: bool,
                 out: seq<Item>, ops: seq<Pending>)
    requires (e.Literal? || e.Variable?) && WellFormed(e) && Follows(rest)
    ensures ReadsTree(env, ctx, e, rest, delimited, out, ops)
  {
    var t := Print(e) + rest;
    OperandStart(e, rest);
    NotLambdaStartHeader(t);
    assert t[1..] == rest;
    assert ops + [] == ops;
    if e.Variable? {
      assert ParseIdent(env, ctx, t, true) == Ok((env.lookup(ctx, e.name), rest));
    }
    hide ParseIdent;
  }

  lemma {:induction false} ReadCall(env: Env, ctx: Context, e: Expr, rest: seq<Token>)
    requires e.Call? && WellFormed(e) && GroupSafe(e, true)
    ensures ParseCall(env, ctx, e.name, PrintArgs(e.args) + [RParen] + rest)
            == Ending(Denote(env, ctx, e), rest)
    decreases e.args, 1
  {
    var t := PrintArgs(e.args) + [RParen] + rest;
    var tail := [RParen] + rest;
    assert tail[1..] == rest;
    if e.args == [] {
      assert t == tail;
    } else {
      ReadArgs(env, ctx, e.args, tail);
      assert t == PrintArgs(e.args) + tail;
      ArgsStart(e.args, tail);
    }
  }

  lemma {:induction false} ReadArgs(env: Env, ctx: Context, args: seq<Expr>, rest: seq<Token>)
    requires args != [] && WellFormedArgs(args) && ArgsGroupSafe(args)
    requires rest != [] && rest[0].RParen?
    ensures var r := DenoteArgs(env, ctx, args);
            ParseArgList(env, ctx, PrintArgs(args) + rest) == if r.Err? then Err(r.error) else Ok((r.value, rest))
    decreases args, 0
  {
    if |args| == 1 {
      ReadArg(env, ctx, args[0], rest);
      assert args[1..] == [];
      if Denote(env, ctx, args[0]).Ok? {
        assert [Denote(env, ctx, args[0]).value] + [] == [Denote(env, ctx, args[0]).value];
      }
    } else {
      var t := [Comma] + (PrintArgs(args[1..]) + rest);
      assert PrintArgs(args) + rest == Print(args[0]) + t;
      ReadArg(env, ctx, args[0], t);
      assert t[1..] == PrintArgs(args[1..]) + rest;
      ReadArgs(env, ctx, args[1..], rest);
    }
  }

  lemma {:induction false} ReadArg(env: Env, ctx: Context, a: Expr, rest: seq<Token>)
    requires WellFormedArg(a) && GroupSafe(a, true)
    requires rest != [] && (rest[0].Comma? || rest[0].RParen?)
    ensures ParseArg(env, ctx, Print(a) + rest) == Ending(Denote(env, ctx, a), rest)
    decreases a, 2
  {
    if a.LambdaExpr? {
      ReadLambda(env, ctx, a, rest);
    } else {
      OperandStart(a, rest);
      NotLambdaStartHeader(Print(a) + rest);
      ReadWhole(env, ctx, a, rest, true);
    }
  }

  // A whole expression, up to a token at which the loop stops.
  lemma {:induction false} ReadWhole(env: Env, ctx: Context, b: Expr, rest: seq<Token>, delimited: bool)
    requires WellFormedBody(b) && GroupSafe(b, delimited) && AtStop(rest, delimited)
    ensures Run(env, ctx, Print(b) + rest, delimited, [], [], true) == Ending(Denote(env, ctx, b), rest)
    decreases b, 1
  {
    hide Run;
    if b.LambdaExpr? {
      ReadLambda(env, ctx, b, rest);
      assert PrintNames(b.params) == [Ident(b.params[0])];
      LambdaStep(env, ctx, Print(b) + rest, delimited);
      var v := Denote(env, ctx, b);
      if v.Ok? {
        var c := Residue([Operand(v.value)], []);
        StopStep(env, ctx, rest, delimited, c);
        PushOne(env, v.value);
        assert Queue(c) == c.out;
      }
    } else {
      ReadTree(env, ctx, b, rest, delimited, [], []);
      ReadMeansDenote(env, ctx, b, []);
      if Read(env, ctx, b).Ok? {
        var c := Read(env, ctx, b).value;
        assert [] + c.out == c.out && [] + c.pending == c.pending;
        StopStep(env, ctx, rest, delimited, c);
      }
    }
  }

  lemma PushOne(env: Env, v: Value)
    ensures EvalRpn(env, [Operand(v)]) == Ok(v)
  {
    var q := [Operand(v)];
    assert q[1..] == [] && [] + [v] == [v];
    assert Exec(env, q[1..], [v]) == Ok([v]);
    assert Exec(env, q, []) == Ok([v]);
  }

  lemma {:induction false} ReadLambda(env: Env, ctx: Context, e: Expr, rest: seq<Token>)
    requires e.LambdaExpr? && WellFormedArg(e) && GroupSafe(e, true) && AtStop(rest, true)
    ensures var r := Denote(env, ctx, e);
            TryLambda(env, ctx, Print(e) + rest) == if r.Err? then LambdaError(r.error) else Lambda(r.value, rest)
    decreases e, 0
  {
    var body := Print(e.body) + rest;
    ReadWhole(env, ctx, e.body, rest, true);
    TryPrinted(env, ctx, e, rest);
    hide Run, TryLambda, Print;
    assert body[..|body|-|rest|] == Print(e.body);
  }

  // A printed lambda is tried by parsing its printed body.
  lemma TryPrinted(env: Env, ctx: Context, e: Expr, rest: seq<Token>)
    requires e.LambdaExpr? && (e.parens || |e.params| == 1)
    ensures var body := Print(e.body) + rest;
            var run := Run(env, ctx, body, true, [], [], true);
            TryLambda(env, ctx, Print(e) + rest)
            == if run.Err? then LambdaError(run.error)
               else Lambda(Closure(e.params, body[..|body|-|run.value.1|], ctx), run.value.1)
  {
    var body := Print(e.body) + rest;
    Concat(PrintHeader(e.params, e.parens), Print(e.body), rest, []);
    assert PrintHeader(e.params, e.parens) + Print(e.body) + rest + []
        == PrintHeader(e.params, e.parens) + Print(e.body) + rest;
    assert Print(e.body) + (rest + []) == body;
    assert Print(e) == PrintHeader(e.params, e.parens) + Print(e.body);
    PrintedHeader(e.params, e.parens, body);
    hide Run, Print, PrintHeader, LambdaHeader;
  }

  lemma PrintedHeader(params: seq<string>, parens: bool, body: seq<Token>)
    requires parens || |params| == 1
    ensures LambdaHeader(PrintHeader(params, parens) + body) == Header(params, body)
  {
    if parens {
      ParenHeaderText(params, body);
      HeaderAtParen(PrintNames(params) + ([RParen, Arrow] + body), params, body);
      hide *;
    } else {
      var t := [Ident(params[0]), Arrow] + body;
      assert PrintHeader(params, parens) + body == t;
      assert t[2..] == body;
    }
  }

  lemma ParenHeaderText(params: seq<string>, body: seq<Token>)
    ensures var rest := [RParen, Arrow] + body;
            ParamNames(PrintNames(params) + rest) == (params, rest) &&
            PrintHeader(params, true) + body == [LParen] + (PrintNames(params) + rest)
  {
    PrintedNames(params, [RParen, Arrow] + body);
    hide PrintNames, ParamNames;
  }

  lemma HeaderAtParen(t: seq<Token>, params: seq<string>, body: seq<Token>)
    requires ParamNames(t) == (params, [RParen, Arrow] + body)
    ensures LambdaHeader([LParen] + t) == Header(params, body)
  {}

  lemma ParamStep(name: string, t: seq<Token>, comma: bool)
    requires !comma ==> t == [] || !t[0].Comma?
    ensures var u := if comma then [Ident(name), Comma] + t else [Ident(name)] + t;
            ParamNames(u) == ([name] + ParamNames(t).0, ParamNames(t).1)
  {}

  lemma PrintedName(params: seq<string>, rest: seq<Token>)
    requires params != []
    ensures var t := PrintNames(params[1..]) + rest;
            PrintNames(params) + rest
            == if |params| > 1 then [Ident(params[0]), Comma] + t else [Ident(params[0])] + t
  {}

  lemma {:induction false} PrintedNames(params: seq<string>, rest: seq<Token>)
    requires rest != [] && rest[0].RParen?
    ensures ParamNames(PrintNames(params) + rest) == (params, rest)
    decreases |params|
  {
    if params == [] {
      assert PrintNames(params) + rest == rest;
    } else {
      PrintedNames(params[1..], rest);
      ParamStep(params[0], PrintNames(params[1..]) + rest, |params| > 1);
      PrintedName(params, rest);
      hide *;
      assert [params[0]] + params[1..] == params;
    }
  }

  lemma ArgsStart(args: seq<Expr>, rest: seq<Token>)
    requires args != [] && WellFormedArgs(args)
    ensures var t := PrintArgs(args) + rest; t != [] && !t[0].RParen?
  {
    var a := args[0];
    if a.LambdaExpr? {
      assert Print(a)[0] == PrintHeader(a.params, a.parens)[0];
    } else {
      FirstTokens(a);
    }
    assert (PrintArgs(args) + rest)[0] == Print(a)[0];
  }
}
