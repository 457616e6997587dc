/**
 Why a lambda may keep a token slice: for any tokens, the span its body takes
 does not depend on the context, and parsing the slice alone gives what parsing
 the body in place would give.
 */
module LambdaSlices {
  import opened Tokens
  import opened ExpressionParser

  // Registered functions never throw.
  ghost predicate Total(env: Env) {
    forall name, args :: env.call(name, args).Ok?
  }

  // -------------------------------------------------- queues of one shape

  // Operands at the same places, and the same operators.
  ghost predicate SameShape(a: seq<Item>, b: seq<Item>) {
    |a| == |b| && forall i :: 0 <= i < |a| ==> SameItem(a[i], b[i])
  }

  ghost predicate SameItem(a: Item, b: Item) {
    (a.Operand? && b.Operand?) || a == b
  }

  lemma {:induction false} ExecShape(env: Env, q: seq<Item>, q': seq<Item>, s: seq<Value>, s': seq<Value>)
    requires SameShape(q, q') && |s| == |s'| && Exec(env, q, s).Ok?
    ensures Exec(env, q', s').Ok? && |Exec(env, q', s').value| == |Exec(env, q, s).value|
    decreases |q|
  {
    if q != [] {
      assert SameItem(q[0], q'[0]);
      var item, item', n := q[0], q'[0], |s|;
      if item.Operand? {
        ExecShape(env, q[1..], q'[1..], s + [item.v], s' + [item'.v]);
      } else if IsUnary(item.op) {
        ExecShape(env, q[1..], q'[1..], s[..n-1] + [env.unary(item.op, s[n-1])],
                  s'[..n-1] + [env.unary(item.op, s'[n-1])]);
      } else {
        ExecShape(env, q[1..], q'[1..], s[..n-2] + [env.binary(item.op, s[n-2], s[n-1])],
                  s'[..n-2] + [env.binary(item.op, s'[n-2], s'[n-1])]);
      }
    }
  }

  lemma SnocShape(a: seq<Item>, b: seq<Item>, x: Item, y: Item)
    requires SameShape(a, b) && SameItem(x, y)
    ensures SameShape(a + [x], b + [y])
  {}

  lemma {:induction false} PopWhileShape(op: Operator, out: seq<Item>, out': seq<Item>, ops: seq<Pending>)
    requires SameShape(out, out')
    ensures var (a, b) := (PopWhile(op, out, ops), PopWhile(op, out', ops)); SameShape(a.0, b.0) && a.1 == b.1
    decreases |ops|
  {
    if !(ops == [] || ops[|ops|-1].PParen? || !ShouldPop(op, ops[|ops|-1].op)) {
      var x := Operator(ops[|ops|-1].op);
      SnocShape(out, out', x, x);
      PopWhileShape(op, out + [x], out' + [x], ops[..|ops|-1]);
    }
  }

  lemma {:induction false} PopToParenShape(out: seq<Item>, out': seq<Item>, ops: seq<Pending>)
    requires SameShape(out, out') && PopToParen(out, ops).Ok?
    ensures PopToParen(out', ops).Ok?
    ensures var (a, b) := (PopToParen(out, ops).value, PopToParen(out', ops).value); SameShape(a.0, b.0) && a.1 == b.1
    decreases |ops|
  {
    if !ops[|ops|-1].PParen? {
      var x := Operator(ops[|ops|-1].op);
      SnocShape(out, out', x, x);
      PopToParenShape(out + [x], out' + [x], ops[..|ops|-1]);
    }
  }

  lemma {:induction false} PopAllShape(out: seq<Item>, out': seq<Item>, ops: seq<Pending>)
    requires SameShape(out, out') && PopAll(out, ops).Ok?
    ensures PopAll(out', ops).Ok? && SameShape(PopAll(out, ops).value, PopAll(out', ops).value)
    decreases |ops|
  {
    if ops != [] {
      var x := Operator(ops[|ops|-1].op);
      SnocShape(out, out', x, x);
      PopAllShape(out + [x], out' + [x], ops[..|ops|-1]);
    }
  }

  lemma FinishShape(env: Env, out: seq<Item>, out': seq<Item>, ops: seq<Pending>)
    requires SameShape(out, out') && Finish(env, out, ops).Ok?
    ensures Finish(env, out', ops).Ok?
  {
    PopAllShape(out, out', ops);
    ExecShape(env, PopAll(out, ops).value, PopAll(out', ops).value, [], []);
    hide PopAll, Exec;
  }

  // ------------------------------------------ the span ignores the context

  ghost predicate SpanSame<T, U>(a: Result<(T, seq<Token>)>, b: Result<(U, seq<Token>)>) {
    a.Ok? ==> b.Ok? && a.value.1 == b.value.1
  }

  lemma {:induction false} LambdaSpan(env: Env, c: Context, c': Context, t: seq<Token>)
    requires Total(env) && !TryLambda(env, c, t).LambdaError?
    ensures var (a, b) := (TryLambda(env, c, t), TryLambda(env, c', t));
            if a.Lambda? then b.Lambda? && a.rest == b.rest else b.NotLambda?
    decreases |t|, 0
  {
    hide Total;
    var h := LambdaHeader(t);
    if h.Header? { RunSpan(env, c, c', h.body, true, [], [], [], true); }
  }

  lemma {:induction false} ArgSpan(env: Env, c: Context, c': Context, t: seq<Token>)
    requires Total(env)
    ensures SpanSame(ParseArg(env, c, t), ParseArg(env, c', t))
    decreases |t|, 3
  {
    hide Total, Run, TryLambda;
    if ParseArg(env, c, t).Ok? {
      LambdaSpan(env, c, c', t);
      if TryLambda(env, c, t).NotLambda? { RunSpan(env, c, c', t, true, [], [], [], true); }
    }
  }

  lemma {:induction false} ArgListSpan(env: Env, c: Context, c': Context, t: seq<Token>)
    requires Total(env)
    ensures SpanSame(ParseArgList(env, c, t), ParseArgList(env, c', t))
    decreases |t|, 4
  {
    hide Total, ParseArg;
    ArgSpan(env, c, c', t);
    var a := ParseArg(env, c, t);
    if a.Ok? && a.value.1 != [] && a.value.1[0].Comma? { ArgListSpan(env, c, c', a.value.1[1..]); }
  }

  lemma {:induction false} CallSpan(env: Env, c: Context, c': Context, name: string, t: seq<Token>)
    requires Total(env)
    ensures SpanSame(ParseCall(env, c, name, t), ParseCall(env, c', name, t))
    decreases |t|, 5
  {
    hide ParseArgList;
    if !(t != [] && t[0].RParen?) { ArgListSpan(env, c, c', t); }
  }

  lemma {:induction false} IdentSpan(env: Env, c: Context, c': Context, t: seq<Token>, atOperand: bool)
    requires Total(env) && t != [] && t[0].Ident?
    ensures SpanSame(ParseIdent(env, c, t, atOperand), ParseIdent(env, c', t, atOperand))
    decreases |t|, 1
  {
    hide Total, TryLambda, ParseCall;
    if ParseIdent(env, c, t, atOperand).Ok? {
      if atOperand { LambdaSpan(env, c, c', t); }
      if |t| > 1 && t[1].LParen? { CallSpan(env, c, c', t[0].name, t[2..]); }
    }
  }

  lemma {:induction false} RunSpanIdent(env: Env, c: Context, c': Context, t: seq<Token>, delimited: bool,
                                        out: seq<Item>, out': seq<Item>, ops: seq<Pending>, atOperand: bool)
    requires Total(env) && SameShape(out, out') && !AtStop(t, delimited) && t != [] && t[0].Ident?
    ensures SpanSame(Run(env, c, t, delimited, out, ops, atOperand), Run(env, c', t, delimited, out', ops, atOperand))
    decreases |t|, 2, 0
  {
    hide Total, SameShape, Finish, ParseIdent, PopWhile, PopToParen, AtStop;
    if Run(env, c, t, delimited, out, ops, atOperand).Ok? {
      IdentSpan(env, c, c', t, atOperand);
      var a, b := ParseIdent(env, c, t, atOperand).value, ParseIdent(env, c', t, atOperand).value;
      SnocShape(out, out', Operand(a.0), Operand(b.0));
      RunSpan(env, c, c', a.1, delimited, out + [Operand(a.0)], out' + [Operand(b.0)], ops, false);
    }
  }

  lemma {:induction false} RunSpanOp(env: Env, c: Context, c': Context, t: seq<Token>, delimited: bool,
                                     out: seq<Item>, out': seq<Item>, ops: seq<Pending>, atOperand: bool)
    requires Total(env) && SameShape(out, out') && !AtStop(t, delimited) && t != [] && t[0].Op?
    ensures SpanSame(Run(env, c, t, delimited, out, ops, atOperand), Run(env, c', t, delimited, out', ops, atOperand))
    decreases |t|, 2, 0
  {
    hide Total, SameShape, Finish, ParseIdent, PopWhile, PopToParen, AtStop;
    if Run(env, c, t, delimited, out, ops, atOperand).Ok? {
      var op := if t[0].op.Sub? && atOperand then Neg else t[0].op;
      if IsUnary(op) {
        RunSpan(env, c, c', t[1..], delimited, out, out', ops + [POp(op)], true);
      } else {
        PopWhileShape(op, out, out', ops);
        var p, p' := PopWhile(op, out, ops), PopWhile(op, out', ops);
        RunSpan(env, c, c', t[1..], delimited, p.0, p'.0, p.1 + [POp(op)], true);
      }
    }
  }

  lemma {:induction false} RunSpan(env: Env, c: Context, c': Context, t: seq<Token>, delimited: bool,
                                   out: seq<Item>, out': seq<Item>, ops: seq<Pending>, atOperand: bool)
    requires Total(env) && SameShape(out, out')
    ensures SpanSame(Run(env, c, t, delimited, out, ops, atOperand), Run(env, c', t, delimited, out', ops, atOperand))
    decreases |t|, 2, 1
  {
    hide Total, SameShape, Finish, ParseIdent, PopWhile, PopToParen;
    if AtStop(t, delimited) {
      if Finish(env, out, ops).Ok? { FinishShape(env, out, out', ops); }
    } else if t[0].Ident? {
      RunSpanIdent(env, c, c', t, delimited, out, out', ops, atOperand);
    } else if t[0].Op? {
      RunSpanOp(env, c, c', t, delimited, out, out', ops, atOperand);
    } else if t[0].LParen? {
      RunSpan(env, c, c', t[1..], delimited, out, out', ops + [PParen], true);
    } else if t[0].RParen? {
      if PopToParen(out, ops).Ok? {
        PopToParenShape(out, out', ops);
        var p, p' := PopToParen(out, ops).value, PopToParen(out', ops).value;
        RunSpan(env, c, c', t[1..], delimited, p.0, p'.0, p.1, false);
      }
    } else if IsLiteral(t[0]) {
      var x := Operand(env.literal(t[0]));
      SnocShape(out, out', x, x);
      RunSpan(env, c, c', t[1..], delimited, out + [x], out' + [x], ops, false);
    }
  }

  // ------------------------------------------------ cutting the tokens short

  lemma {:induction false} NamesCut(t: seq<Token>, k: nat)
    requires k <= |t|
    ensures var (full, cut) := (ParamNames(t), ParamNames(t[..k]));
            var m := |t| - |full.1|;
            if m < k then cut == (full.0, full.1[..k-m]) else cut.1 == []
    decreases |t|
  {
    if t != [] && t[0].Ident? && k > 0 {
      var comma := |t| > 1 && t[1].Comma?;
      var n := if comma then 2 else 1;
      if k >= n {
        assert t[..k][n..] == t[n..][..k-n];
        NamesCut(t[n..], k - n);
        if k > 1 { assert t[..k][1] == t[1]; }
        if k == 1 { assert t[..k][1..] == []; }
      } else {
        assert t[..k][1..] == [];
      }
    }
  }

  lemma HeaderCut(t: seq<Token>, k: nat)
    requires k <= |t|
    ensures var (full, cut) := (LambdaHeader(t), LambdaHeader(t[..k]));
            if full.Header? && |t| - |full.body| <= k
            then cut == Header(full.params, full.body[..k - (|t| - |full.body|)])
            else cut.NoHeader?
  {
    if t != [] && k > 0 {
      assert t[..k][0] == t[0] && t[..k][1..] == t[1..][..k-1];
      if t[0].LParen? {
        NamesCut(t[1..], k - 1);
        var full, cut := ParamNames(t[1..]), ParamNames(t[..k][1..]);
        hide ParamNames;
        var m := |t| - 1 - |full.1|;
        if m < k - 1 {
          CloseCut(full.1, k - 1 - m);
        } else {
          assert cut.1 == [];
        }
      } else if k > 1 {
        assert t[..k][1] == t[1] && t[..k][2..] == t[2..][..k-2];
      }
    }
  }

  // `) =>` in front of the tokens, cut.
  lemma CloseCut(rest: seq<Token>, j: nat)
    requires j <= |rest|
    ensures j >= 2 ==> rest[..j][0] == rest[0] && rest[..j][1] == rest[1] && rest[..j][2..] == rest[2..][..j-2]
  {}

  // A parse that takes m tokens takes the same ones when k >= m are given.
  ghost predicate CutSame<T>(full: Result<(T, seq<Token>)>, cut: Result<(T, seq<Token>)>, n: nat, k: nat) {
    full.Ok? && |full.value.1| <= n && n - |full.value.1| <= k <= n ==>
      cut == Ok((full.value.0, full.value.1[..k - (n - |full.value.1|)]))
  }

  lemma {:induction false} LambdaCut(env: Env, c: Context, t: seq<Token>, k: nat)
    requires k <= |t|
    ensures var (full, cut) := (TryLambda(env, c, t), TryLambda(env, c, t[..k]));
            (full.Lambda? && |t| - |full.rest| <= k ==>
             cut == Lambda(full.closure, full.rest[..k - (|t| - |full.rest|)])) &&
            (full.NotLambda? ==> cut.NotLambda?)
    decreases |t|, 0
  {
    hide LambdaHeader, TryLambda, Run, AtStop;
    HeaderCut(t, k);
    TryLambdaStep(env, c, t);
    TryLambdaStep(env, c, t[..k]);
    var h := LambdaHeader(t);
    if h.Header? && TryLambda(env, c, t).Lambda? {
      var body := h.body;
      var rest := TryLambda(env, c, t).rest;
      if |t| - |rest| <= k {
        var j := k - (|t| - |body|);
        BodyCut(env, c, body, j);
        PrefixOfPrefix(body, j, |body| - |rest|);
      }
    }
  }

  lemma {:induction false} BodyCut(env: Env, c: Context, body: seq<Token>, j: nat)
    requires Run(env, c, body, true, [], [], true).Ok? && j <= |body|
    ensures var (v, rest) := Run(env, c, body, true, [], [], true).value;
            |rest| <= |body| && |body| - |rest| <= j ==>
              Run(env, c, body[..j], true, [], [], true) == Ok((v, rest[..j - (|body| - |rest|)]))
    decreases |body|, 2, 2
  {
    RunCut(env, c, body, true, true, [], [], true, j);
    hide Run;
  }

  lemma PrefixOfPrefix(t: seq<Token>, j: nat, i: nat)
    requires i <= j <= |t|
    ensures t[..j][..i] == t[..i]
  {}

  lemma TryLambdaStep(env: Env, c: Context, t: seq<Token>)
    ensures var h := LambdaHeader(t);
            if h.NoHeader? then TryLambda(env, c, t) == NotLambda
            else
              var r := Run(env, c, h.body, true, [], [], true);
              TryLambda(env, c, t) == if r.Err? then LambdaError(r.error)
                                      else Lambda(Closure(h.params, h.body[..|h.body|-|r.value.1|], c), r.value.1)
  {}

  lemma {:induction false} ArgCut(env: Env, c: Context, t: seq<Token>, k: nat)
    requires k <= |t|
    ensures CutSame(ParseArg(env, c, t), ParseArg(env, c, t[..k]), |t|, k)
    decreases |t|, 3
  {
    hide Run, TryLambda;
    LambdaCut(env, c, t, k);
    if TryLambda(env, c, t).NotLambda? { RunCut(env, c, t, true, true, [], [], true, k); }
  }

  lemma {:induction false} ArgListCut(env: Env, c: Context, t: seq<Token>, k: nat)
    requires k <= |t|
    ensures CutSame(ParseArgList(env, c, t), ParseArgList(env, c, t[..k]), |t|, k)
    decreases |t|, 4
  {
    hide ParseArg;
    ArgCut(env, c, t, k);
    var a := ParseArg(env, c, t);
    if a.Ok? && ParseArgList(env, c, t).Ok? {
      var rest := a.value.1;
      var m := |t| - |rest|;
      if rest != [] && rest[0].Comma? {
        ArgListRest(env, c, t);
        if m + 1 <= k {
          ArgListCut(env, c, rest[1..], k - m - 1);
          assert rest[..k-m][1..] == rest[1..][..k-m-1];
        }
      }
    }
  }

  // After a comma at least that comma is taken.
  lemma ArgListRest(env: Env, c: Context, t: seq<Token>)
    requires ParseArg(env, c, t).Ok? && ParseArgList(env, c, t).Ok?
    ensures var rest := ParseArg(env, c, t).value.1;
            rest != [] && rest[0].Comma? ==> |ParseArgList(env, c, t).value.1| < |rest|
  {}

  lemma {:induction false} CallCut(env: Env, c: Context, name: string, t: seq<Token>, k: nat)
    requires k <= |t|
    ensures CutSame(ParseCall(env, c, name, t), ParseCall(env, c, name, t[..k]), |t|, k)
    decreases |t|, 5
  {
    hide ParseArgList;
    if ParseCall(env, c, name, t).Ok? && |t| - |ParseCall(env, c, name, t).value.1| <= k {
      if t != [] && t[0].RParen? {
        assert t[..k][1..] == t[1..][..k-1];
      } else {
        ArgListCut(env, c, t, k);
        var rest := ParseArgList(env, c, t).value.1;
        var m := |t| - |rest|;
        assert rest[..k-m][1..] == rest[1..][..k-m-1];
      }
    }
  }

  lemma {:induction false} IdentCut(env: Env, c: Context, t: seq<Token>, atOperand: bool, k: nat)
    requires 0 < k <= |t| && t[0].Ident?
    ensures CutSame(ParseIdent(env, c, t, atOperand), ParseIdent(env, c, t[..k], atOperand), |t|, k)
    decreases |t|, 1
  {
    hide TryLambda, ParseCall;
    if ParseIdent(env, c, t, atOperand).Ok? {
      if atOperand { LambdaCut(env, c, t, k); }
      if |t| > 1 && t[1].LParen? && k >= 2 {
        CallCut(env, c, t[0].name, t[2..], k - 2);
        assert t[..k][2..] == t[2..][..k-2];
      }
      assert t[..k][1..] == t[1..][..k-1];
    }
  }

  // The parse of a delimited span, alone or with what follows: a stop token
  // ends it as the end of the tokens does.
  ghost predicate MayCut(full: Result<(Value, seq<Token>)>, n: nat, k: nat, delimited: bool, cutDelimited: bool) {
    full.Ok? && |full.value.1| <= n && n - |full.value.1| <= k <= n &&
    (cutDelimited == delimited || (delimited && k == n - |full.value.1|))
  }

  lemma MayCutRest(full: Result<(Value, seq<Token>)>, n: nat, k: nat, delimited: bool, cutDelimited: bool)
    requires MayCut(full, n, k, delimited, cutDelimited) && full.Ok? && |full.value.1| < n
    ensures n > 0 && k > 0 && MayCut(full, n - 1, k - 1, delimited, cutDelimited)
  {}

  ghost predicate IsCut(full: Result<(Value, seq<Token>)>, cut: Result<(Value, seq<Token>)>, n: nat, k: nat) {
    full.Ok? && |full.value.1| <= n && n - |full.value.1| <= k <= n &&
    cut == Ok((full.value.0, full.value.1[..k - (n - |full.value.1|)]))
  }

  // One token more in front, or any number of tokens.
  lemma CutBehind(full: Result<(Value, seq<Token>)>, cut: Result<(Value, seq<Token>)>, n: nat, k: nat, more: nat)
    requires IsCut(full, cut, n, k)
    ensures IsCut(full, cut, n + more, k + more)
  {}

  lemma {:induction false} RunCut(env: Env, c: Context, t: seq<Token>, delimited: bool, cutDelimited: bool,
                                  out: seq<Item>, ops: seq<Pending>, atOperand: bool, k: nat)
    requires k <= |t|
    ensures MayCut(Run(env, c, t, delimited, out, ops, atOperand), |t|, k, delimited, cutDelimited) ==>
              IsCut(Run(env, c, t, delimited, out, ops, atOperand),
                    Run(env, c, t[..k], cutDelimited, out, ops, atOperand), |t|, k)
    decreases |t|, 2, 1
  {
    hide Finish, ParseIdent, PopWhile, PopToParen;
    var full := Run(env, c, t, delimited, out, ops, atOperand);
    if MayCut(full, |t|, k, delimited, cutDelimited) {
      if AtStop(t, delimited) {
        assert full.value.1 == t;
      } else {
        RunTakes(env, c, t, delimited, out, ops, atOperand);
        if t[0].Ident? {
          RunCutIdent(env, c, t, delimited, cutDelimited, out, ops, atOperand, k);
        } else if t[0].Op? {
          RunCutOp(env, c, t, delimited, cutDelimited, out, ops, atOperand, k);
        } else if t[0].LParen? || t[0].RParen? {
          RunCutParen(env, c, t, delimited, cutDelimited, out, ops, atOperand, k);
        } else {
          RunCutLiteral(env, c, t, delimited, cutDelimited, out, ops, atOperand, k);
        }
        hide Run;
      }
    }
  }

  lemma {:induction false} RunCutOp(env: Env, c: Context, t: seq<Token>, delimited: bool, cutDelimited: bool,
                                    out: seq<Item>, ops: seq<Pending>, atOperand: bool, k: nat)
    requires 0 < k <= |t| && t[0].Op? && !AtStop(t, delimited)
    requires MayCut(Run(env, c, t, delimited, out, ops, atOperand), |t|, k, delimited, cutDelimited)
    ensures IsCut(Run(env, c, t, delimited, out, ops, atOperand),
                  Run(env, c, t[..k], cutDelimited, out, ops, atOperand), |t|, k)
    decreases |t|, 2, 0
  {
    var u, t' := t[..k], t[1..];
    var full := Run(env, c, t, delimited, out, ops, atOperand);
    assert u[1..] == t'[..k-1] && u[0] == t[0];
    MayCutOk(full, |t|, k, delimited, cutDelimited);
    RunTakes(env, c, t, delimited, out, ops, atOperand);
    MayCutRest(full, |t|, k, delimited, cutDelimited);
    hide Run, PopWhile, IsUnary, AtStop, MayCut, IsCut;
    var (out', ops') := OpPushed(OpAt(t, atOperand), out, ops);
    OpRuns(env, c, t, delimited, out, ops, atOperand);
    OpRuns(env, c, u, cutDelimited, out, ops, atOperand);
    RunCut(env, c, t', delimited, cutDelimited, out', ops', true, k - 1);
    CutBehind(full, Run(env, c, t'[..k-1], cutDelimited, out', ops', true), |t| - 1, k - 1, 1);
  }

  lemma MayCutOk(full: Result<(Value, seq<Token>)>, n: nat, k: nat, delimited: bool, cutDelimited: bool)
    requires MayCut(full, n, k, delimited, cutDelimited)
    ensures full.Ok?
  {}

  // The operator a token stands for.
  function OpAt(t: seq<Token>, atOperand: bool): Operator
    requires t != [] && t[0].Op?
  {
    if t[0].op.Sub? && atOperand then Neg else t[0].op
  }

  predicate Refused(op: Operator) {
    op.Unknown? || op.Pipe?
  }

  // The queue and stack once an operator was read.
  function OpPushed(op: Operator, out: seq<Item>, ops: seq<Pending>): (seq<Item>, seq<Pending>) {
    if IsUnary(op) then (out, ops + [POp(op)]) else (PopWhile(op, out, ops).0, PopWhile(op, out, ops).1 + [POp(op)])
  }

  lemma OpRuns(env: Env, c: Context, t: seq<Token>, delimited: bool, out: seq<Item>, ops: seq<Pending>, atOperand: bool)
    requires t != [] && t[0].Op?
    ensures var (out', ops') := OpPushed(OpAt(t, atOperand), out, ops);
            if Refused(OpAt(t, atOperand)) then Run(env, c, t, delimited, out, ops, atOperand).Err?
            else Run(env, c, t, delimited, out, ops, atOperand) == Run(env, c, t[1..], delimited, out', ops', true)
  {
    hide PopWhile;
  }

  lemma {:induction false} RunCutParen(env: Env, c: Context, t: seq<Token>, delimited: bool, cutDelimited: bool,
                                       out: seq<Item>, ops: seq<Pending>, atOperand: bool, k: nat)
    requires 0 < k <= |t| && (t[0].LParen? || t[0].RParen?) && !AtStop(t, delimited)
    requires MayCut(Run(env, c, t, delimited, out, ops, atOperand), |t|, k, delimited, cutDelimited)
    ensures IsCut(Run(env, c, t, delimited, out, ops, atOperand),
                  Run(env, c, t[..k], cutDelimited, out, ops, atOperand), |t|, k)
    decreases |t|, 2, 0
  {
    hide Finish, ParseIdent, PopWhile, PopToParen;
    assert t[..k][1..] == t[1..][..k-1];
    if t[0].LParen? {
      RunCut(env, c, t[1..], delimited, cutDelimited, out, ops + [PParen], true, k - 1);
    } else {
      var p := PopToParen(out, ops).value;
      RunCut(env, c, t[1..], delimited, cutDelimited, p.0, p.1, false, k - 1);
    }
  }

  lemma {:induction false} RunCutLiteral(env: Env, c: Context, t: seq<Token>, delimited: bool, cutDelimited: bool,
                                         out: seq<Item>, ops: seq<Pending>, atOperand: bool, k: nat)
    requires 0 < k <= |t| && IsLiteral(t[0]) && !AtStop(t, delimited)
    requires MayCut(Run(env, c, t, delimited, out, ops, atOperand), |t|, k, delimited, cutDelimited)
    ensures IsCut(Run(env, c, t, delimited, out, ops, atOperand),
                  Run(env, c, t[..k], cutDelimited, out, ops, atOperand), |t|, k)
    decreases |t|, 2, 0
  {
    hide Finish, ParseIdent, PopWhile, PopToParen;
    assert t[..k][1..] == t[1..][..k-1];
    RunCut(env, c, t[1..], delimited, cutDelimited, out + [Operand(env.literal(t[0]))], ops, false, k - 1);
  }

  lemma RunTakes(env: Env, c: Context, t: seq<Token>, delimited: bool, out: seq<Item>, ops: seq<Pending>,
                 atOperand: bool)
    requires !AtStop(t, delimited) && Run(env, c, t, delimited, out, ops, atOperand).Ok?
    ensures |Run(env, c, t, delimited, out, ops, atOperand).value.1| < |t|
  {}

  lemma {:induction false} RunCutIdent(env: Env, c: Context, t: seq<Token>, delimited: bool, cutDelimited: bool,
                                       out: seq<Item>, ops: seq<Pending>, atOperand: bool, k: nat)
    requires 0 < k <= |t| && t[0].Ident? && !AtStop(t, delimited)
    requires MayCut(Run(env, c, t, delimited, out, ops, atOperand), |t|, k, delimited, cutDelimited)
    ensures IsCut(Run(env, c, t, delimited, out, ops, atOperand),
                  Run(env, c, t[..k], cutDelimited, out, ops, atOperand), |t|, k)
    decreases |t|, 2, 0
  {
    hide Finish, ParseIdent, PopWhile, PopToParen;
    var a := ParseIdent(env, c, t, atOperand).value;
    IdentCut(env, c, t, atOperand, k);
    RunCut(env, c, a.1, delimited, cutDelimited, out + [Operand(a.0)], ops, false, k - (|t| - |a.1|));
  }

  // ------------------------------------------------------------------- result

  // A lambda whose body was once read in place, called with any arguments,
  // returns what reading the body in place would give in the context with the
  // parameters laid over, and that reading takes the same tokens.
  lemma LambdaSliceMeaning(env: Env, c: Context, t: seq<Token>, args: seq<Value>)
    requires Total(env) && TryLambda(env, c, t).Lambda?
    ensures var h := LambdaHeader(t); var f := TryLambda(env, c, t);
            var inPlace := Run(env, Bind(env, c, h.params, args), h.body, true, [], [], true);
            h.Header? && f.closure.Closure? && inPlace.Ok? && inPlace.value.1 == f.rest &&
            Apply(env, f.closure, args) == Ok(inPlace.value.0)
  {
    var h := LambdaHeader(t);
    var f := TryLambda(env, c, t);
    var c' := Bind(env, c, h.params, args);
    RunSpan(env, c, c', h.body, true, [], [], [], true);
    RunCut(env, c', h.body, true, false, [], [], true, |h.body| - |f.rest|);
    hide Run, Bind, LambdaHeader;
  }
}
