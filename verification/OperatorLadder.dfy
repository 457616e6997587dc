/**
 What a chain of operands and operators means, without trees or the priorities
 of the parser: the chain is split at its loosest operator, by a ladder of
 seven rungs, and the parser computes the value of that split.
 */
module OperatorLadder {
  import opened Tokens
  import opened ExpressionParser
  import opened ExpressionTrees
  import opened ExpressionTheorems
  import JsText
  import Tokenizer
  import TokenWriting
  import ExpressionEngine

  // The ladder, from the loosest rung to the tightest.
  function Rung(op: Operator): int {
    match op
    case Or => 0
    case And => 1
    case Eq | Ne | StrictEq | StrictNe => 2
    case Lt | Gt | Le | Ge => 3
    case Add | Sub => 4
    case Mul | Div | Mod => 5
    case Pow => 6
    case _ => -1
  }

  predicate OnLadder(ops: seq<Operator>) {
    forall i :: 0 <= i < |ops| ==> Rung(ops[i]) >= 0
  }

  datatype Prefix = Minus | Bang

  // In a chain each operator stands between two operands.
  datatype Term =
    | Lit(token: Token)
    | Var(name: string)
    | Prefixed(prefix: Prefix, operand: Term)
    | Paren(ops: seq<Operator>, terms: seq<Term>)

  predicate Proper(t: Term)
    decreases t, 0
  {
    match t
    case Lit(token) => IsLiteral(token)
    case Var(_) => true
    case Prefixed(_, x) => Proper(x)
    case Paren(ops, terms) => ProperChain(ops, terms)
  }

  predicate ProperChain(ops: seq<Operator>, terms: seq<Term>)
    decreases terms, 1
  {
    |terms| == |ops| + 1 && OnLadder(ops) && forall i :: 0 <= i < |terms| ==> Proper(terms[i])
  }

  function TermTokens(t: Term): seq<Token>
    decreases t, 0
  {
    match t
    case Lit(token) => [token]
    case Var(x) => [Ident(x)]
    case Prefixed(p, x) => [Op(if p.Minus? then Sub else Not)] + TermTokens(x)
    case Paren(ops, terms) => [LParen] + ChainTokens(ops, terms) + [RParen]
  }

  function ChainTokens(ops: seq<Operator>, terms: seq<Term>): seq<Token>
    decreases terms, 1
  {
    Interleave(ops, TermsTokens(terms))
  }

  function TermsTokens(terms: seq<Term>): (texts: seq<seq<Token>>)
    ensures |texts| == |terms|
    decreases terms, 0
  {
    if terms == [] then [] else [TermTokens(terms[0])] + TermsTokens(terms[1..])
  }

  function Interleave(ops: seq<Operator>, texts: seq<seq<Token>>): seq<Token> {
    if ops == [] || texts == [] then if texts == [] then [] else texts[0]
    else texts[0] + [Op(ops[0])] + Interleave(ops[1..], texts[1..])
  }

  // The loosest operator; of several, the last one, or the first power.
  ghost predicate IsSplit(ops: seq<Operator>, k: int) {
    0 <= k < |ops| &&
    (forall j :: 0 <= j < k ==> Rung(ops[j]) >= Rung(ops[k]) && ops[k] != Pow) &&
    (forall j :: k < j < |ops| ==> Rung(ops[j]) > Rung(ops[k]) || ops[k] == Pow == ops[j])
  }

  function Split(ops: seq<Operator>): (k: nat)
    requires ops != [] && OnLadder(ops)
    ensures IsSplit(ops, k)
  {
    var n := |ops| - 1;
    if n == 0 then 0
    else
      var k := Split(ops[..n]);
      if Rung(ops[n]) < Rung(ops[k]) || (Rung(ops[n]) == Rung(ops[k]) && ops[n] != Pow) then n else k
  }

  // ------------------------------------------------------------------ meaning

  function Combine(env: Env, ops: seq<Operator>, values: seq<Value>): Value
    requires OnLadder(ops) && |values| == |ops| + 1
    decreases |ops|
  {
    if ops == [] then values[0]
    else
      var k := Split(ops);
      env.binary(ops[k], Combine(env, ops[..k], values[..k+1]), Combine(env, ops[k+1..], values[k+1..]))
  }

  function TermValue(env: Env, ctx: Context, t: Term): Value
    requires Proper(t)
    decreases t, 0
  {
    match t
    case Lit(token) => env.literal(token)
    case Var(x) => env.lookup(ctx, x)
    case Prefixed(p, x) => env.unary(if p.Minus? then Neg else Not, TermValue(env, ctx, x))
    case Paren(ops, terms) => ChainValue(env, ctx, ops, terms)
  }

  function ChainValue(env: Env, ctx: Context, ops: seq<Operator>, terms: seq<Term>): Value
    requires ProperChain(ops, terms)
    decreases terms, 1
  {
    Combine(env, ops, TermValues(env, ctx, terms))
  }

  function TermValues(env: Env, ctx: Context, terms: seq<Term>): (values: seq<Value>)
    requires forall i :: 0 <= i < |terms| ==> Proper(terms[i])
    ensures |values| == |terms|
    decreases terms, 0
  {
    if terms == [] then [] else [TermValue(env, ctx, terms[0])] + TermValues(env, ctx, terms[1..])
  }

  // ------------------------------------------------------- the tree of a chain

  function CombineTree(ops: seq<Operator>, trees: seq<Expr>): Expr
    requires OnLadder(ops) && |trees| == |ops| + 1
    decreases |ops|
  {
    if ops == [] then trees[0]
    else
      var k := Split(ops);
      Binary(ops[k], CombineTree(ops[..k], trees[..k+1]), CombineTree(ops[k+1..], trees[k+1..]))
  }

  function TermTree(t: Term): Expr
    requires Proper(t)
    decreases t, 0
  {
    match t
    case Lit(token) => Literal(token)
    case Var(x) => Variable(x)
    case Prefixed(p, x) => Unary(if p.Minus? then Neg else Not, TermTree(x))
    case Paren(ops, terms) => Group(ChainTree(ops, terms))
  }

  function ChainTree(ops: seq<Operator>, terms: seq<Term>): Expr
    requires ProperChain(ops, terms)
    decreases terms, 1
  {
    CombineTree(ops, TermTrees(terms))
  }

  function TermTrees(terms: seq<Term>): (trees: seq<Expr>)
    requires forall i :: 0 <= i < |terms| ==> Proper(terms[i])
    ensures |trees| == |terms|
    decreases terms, 0
  {
    if terms == [] then [] else [TermTree(terms[0])] + TermTrees(terms[1..])
  }

  // The ladder is the operator table.
  lemma LadderIsTable(op: Operator)
    requires Rung(op) >= 0
    ensures IsBinary(op) && Precedence(op) == Rung(op) + 1 && (RightAssociative(op) <==> op == Pow)
  {}

  predicate Tight(e: Expr) {
    WellFormed(e) && Level(e) >= 8 && GroupSafe(e, false)
  }

  predicate AllTight(trees: seq<Expr>) {
    forall i :: 0 <= i < |trees| ==> Tight(trees[i])
  }

  // How tightly the tree of a chain binds: as the operator it is split at.
  lemma CombineLevel(ops: seq<Operator>, trees: seq<Expr>)
    requires OnLadder(ops) && |trees| == |ops| + 1 && AllTight(trees)
    ensures var level := Level(CombineTree(ops, trees));
            if ops == [] then level >= 8 else var k := Split(ops); level == Rung(ops[k]) + 1
  {
    hide Precedence, Rung, WellFormed, GroupSafe;
    if ops != [] { LadderIsTable(ops[Split(ops)]); }
  }

  lemma {:induction false} CombineWellFormed(ops: seq<Operator>, trees: seq<Expr>)
    requires OnLadder(ops) && |trees| == |ops| + 1 && AllTight(trees)
    ensures WellFormed(CombineTree(ops, trees)) && GroupSafe(CombineTree(ops, trees), false)
    decreases |ops|
  {
    hide Rung, Level, LeftFits, RightFits, IsBinary;
    if ops != [] {
      var k := Split(ops);
      var l, r := CombineTree(ops[..k], trees[..k+1]), CombineTree(ops[k+1..], trees[k+1..]);
      assert CombineTree(ops, trees) == Binary(ops[k], l, r);
      CombineWellFormed(ops[..k], trees[..k+1]);
      CombineWellFormed(ops[k+1..], trees[k+1..]);
      LadderIsTable(ops[k]);
      SplitFits(ops, trees, k);
      hide CombineTree, IsSplit, OnLadder, AllTight;
    }
  }

  lemma SplitFits(ops: seq<Operator>, trees: seq<Expr>, k: nat)
    requires OnLadder(ops) && |trees| == |ops| + 1 && AllTight(trees) && IsSplit(ops, k)
    ensures LeftFits(ops[k], CombineTree(ops[..k], trees[..k+1]))
    ensures RightFits(ops[k], CombineTree(ops[k+1..], trees[k+1..]))
  {
    hide CombineTree, Level, Rung, Precedence, RightAssociative, Tight;
    LadderIsTable(ops[k]);
    CombineLevel(ops[..k], trees[..k+1]);
    CombineLevel(ops[k+1..], trees[k+1..]);
    RungBelow(ops[k]);
  }

  lemma RungBelow(op: Operator)
    ensures Rung(op) <= 6
  {}

  // ----------------------------------------------------- printing and meaning

  lemma {:induction false} InterleaveSplit(ops: seq<Operator>, texts: seq<seq<Token>>, k: nat)
    requires k < |ops| && |texts| == |ops| + 1
    ensures Interleave(ops, texts)
            == Interleave(ops[..k], texts[..k+1]) + [Op(ops[k])] + Interleave(ops[k+1..], texts[k+1..])
    decreases k
  {
    if k > 0 {
      InterleaveSplit(ops[1..], texts[1..], k - 1);
      assert ops[1..][..k-1] == ops[..k][1..] && texts[1..][..k] == texts[..k+1][1..];
      assert ops[1..][k..] == ops[k+1..] && texts[1..][k..] == texts[k+1..];
    }
  }

  function Printed(trees: seq<Expr>): (texts: seq<seq<Token>>)
    ensures |texts| == |trees| && forall i :: 0 <= i < |trees| ==> texts[i] == Print(trees[i])
  {
    if trees == [] then [] else [Print(trees[0])] + Printed(trees[1..])
  }

  lemma {:induction false} CombinePrints(ops: seq<Operator>, trees: seq<Expr>)
    requires OnLadder(ops) && |trees| == |ops| + 1
    ensures Print(CombineTree(ops, trees)) == Interleave(ops, Printed(trees))
    decreases |ops|
  {
    hide Interleave, Printed, Rung, Print;
    if ops == [] {
      InterleaveOne(ops, Printed(trees));
    } else {
      var k := Split(ops);
      var l, r := CombineTree(ops[..k], trees[..k+1]), CombineTree(ops[k+1..], trees[k+1..]);
      assert CombineTree(ops, trees) == Binary(ops[k], l, r);
      CombinePrints(ops[..k], trees[..k+1]);
      CombinePrints(ops[k+1..], trees[k+1..]);
      hide CombineTree, IsSplit, OnLadder;
      BinaryPrints(ops[k], l, r);
      InterleaveSplit(ops, Printed(trees), k);
      assert Printed(trees)[..k+1] == Printed(trees[..k+1]) && Printed(trees)[k+1..] == Printed(trees[k+1..]);
    }
  }

  lemma BinaryPrints(op: Operator, l: Expr, r: Expr)
    ensures Print(Binary(op, l, r)) == Print(l) + [Op(op)] + Print(r)
  {}

  lemma InterleaveOne(ops: seq<Operator>, texts: seq<seq<Token>>)
    requires ops == [] && texts != []
    ensures Interleave(ops, texts) == texts[0]
  {}

  lemma {:induction false} CombineMeans(env: Env, ctx: Context, ops: seq<Operator>, trees: seq<Expr>,
                                        values: seq<Value>)
    requires OnLadder(ops) && |trees| == |values| == |ops| + 1
    requires forall i :: 0 <= i < |trees| ==> Denote(env, ctx, trees[i]) == Ok(values[i])
    ensures Denote(env, ctx, CombineTree(ops, trees)) == Ok(Combine(env, ops, values))
    decreases |ops|
  {
    hide Rung;
    if ops != [] {
      var k := Split(ops);
      var l, r := CombineTree(ops[..k], trees[..k+1]), CombineTree(ops[k+1..], trees[k+1..]);
      assert CombineTree(ops, trees) == Binary(ops[k], l, r);
      CombineMeans(env, ctx, ops[..k], trees[..k+1], values[..k+1]);
      CombineMeans(env, ctx, ops[k+1..], trees[k+1..], values[k+1..]);
    }
  }

  lemma {:induction false} TermReads(env: Env, ctx: Context, t: Term)
    requires Proper(t)
    ensures Tight(TermTree(t)) && Print(TermTree(t)) == TermTokens(t)
    ensures Denote(env, ctx, TermTree(t)) == Ok(TermValue(env, ctx, t))
    decreases t, 0
  {
    hide CombineTree, Combine, Interleave;
    match t
    case Paren(ops, terms) => ChainReads(env, ctx, ops, terms);
    case Prefixed(_, x) => TermReads(env, ctx, x);
    case _ =>
  }

  lemma {:induction false} TermsRead(env: Env, ctx: Context, terms: seq<Term>)
    requires forall i :: 0 <= i < |terms| ==> Proper(terms[i])
    ensures var trees, values := TermTrees(terms), TermValues(env, ctx, terms);
            AllTight(trees) && Printed(trees) == TermsTokens(terms) &&
            forall i :: 0 <= i < |trees| ==> Denote(env, ctx, trees[i]) == Ok(values[i])
    decreases terms, 0
  {
    hide TermTree, TermValue, TermTokens, Tight;
    if terms != [] {
      TermReads(env, ctx, terms[0]);
      TermsRead(env, ctx, terms[1..]);
      assert TermTrees(terms)[1..] == TermTrees(terms[1..]);
    }
  }

  lemma {:induction false} ChainReads(env: Env, ctx: Context, ops: seq<Operator>, terms: seq<Term>)
    requires ProperChain(ops, terms)
    ensures var e := ChainTree(ops, terms);
            WellFormed(e) && GroupSafe(e, false) && Print(e) == ChainTokens(ops, terms) &&
            Denote(env, ctx, e) == Ok(ChainValue(env, ctx, ops, terms))
    decreases terms, 1
  {
    TermsRead(env, ctx, terms);
    var trees := TermTrees(terms);
    hide TermTrees, TermsTokens, TermValues, AllTight, CombineTree, Combine;
    CombineWellFormed(ops, trees);
    CombinePrints(ops, trees);
    CombineMeans(env, ctx, ops, trees, TermValues(env, ctx, terms));
  }

  // ------------------------------------------------------------------ results

  // The parser computes the value of every chain of literals, variables and
  // parenthesised chains, with any prefixes.
  lemma ChainsParse(env: Env, ctx: Context, ops: seq<Operator>, terms: seq<Term>)
    requires ProperChain(ops, terms)
    ensures Parse(env, ctx, ChainTokens(ops, terms) + [Eof]) == Ok(ChainValue(env, ctx, ops, terms))
  {
    ChainReads(env, ctx, ops, terms);
    hide ChainTokens, ChainValue, ChainTree, Parse;
    ParseIsMeaning(env, ctx, ChainTree(ops, terms));
  }

  // Of two operators the tighter one is applied first; on one rung the left
  // one is, but of two powers the right one.
  lemma ThreeOperands(env: Env, ctx: Context, x: Token, p: Operator, y: Token, q: Operator, z: Token)
    requires IsLiteral(x) && IsLiteral(y) && IsLiteral(z) && Rung(p) >= 0 && Rung(q) >= 0
    ensures var (a, b, c) := (env.literal(x), env.literal(y), env.literal(z));
            Parse(env, ctx, [x, Op(p), y, Op(q), z, Eof]) ==
            Ok(if Rung(p) < Rung(q) || (p == Pow && q == Pow) then env.binary(p, a, env.binary(q, b, c))
               else env.binary(q, env.binary(p, a, b), c))
  {
    var ops, terms := [p, q], [Lit(x), Lit(y), Lit(z)];
    ChainsParse(env, ctx, ops, terms);
    ThreeTokens(x, p, y, q, z);
    ThreeValues(env, ctx, x, y, z);
    hide Parse, TermTokens, TermValues, Interleave, TermsTokens, Combine;
    TwoOperators(env, p, q, env.literal(x), env.literal(y), env.literal(z));
    assert ChainTokens(ops, terms) + [Eof] == [x, Op(p), y, Op(q), z, Eof];
  }

  lemma ThreeTokens(x: Token, p: Operator, y: Token, q: Operator, z: Token)
    ensures ChainTokens([p, q], [Lit(x), Lit(y), Lit(z)]) == [x, Op(p), y, Op(q), z]
  {
    assert [Lit(x), Lit(y), Lit(z)][1..] == [Lit(y), Lit(z)] && [Lit(y), Lit(z)][1..] == [Lit(z)];
    assert TermsTokens([Lit(z)]) == [[z]] && TermsTokens([Lit(y), Lit(z)]) == [[y], [z]];
    assert TermsTokens([Lit(x), Lit(y), Lit(z)]) == [[x], [y], [z]];
    assert [p, q][1..] == [q] && [[x], [y], [z]][1..] == [[y], [z]] && [[y], [z]][1..] == [[z]];
    assert Interleave([q], [[y], [z]]) == [y] + [Op(q)] + [z];
  }

  lemma ThreeValues(env: Env, ctx: Context, x: Token, y: Token, z: Token)
    requires IsLiteral(x) && IsLiteral(y) && IsLiteral(z)
    ensures TermValues(env, ctx, [Lit(x), Lit(y), Lit(z)]) == [env.literal(x), env.literal(y), env.literal(z)]
  {
    assert [Lit(x), Lit(y), Lit(z)][1..] == [Lit(y), Lit(z)] && [Lit(y), Lit(z)][1..] == [Lit(z)];
    assert TermValues(env, ctx, [Lit(z)]) == [env.literal(z)];
    assert TermValues(env, ctx, [Lit(y), Lit(z)]) == [env.literal(y), env.literal(z)];
  }

  lemma SplitTwo(p: Operator, q: Operator)
    requires Rung(p) >= 0 && Rung(q) >= 0
    ensures Split([p, q]) == if Rung(p) < Rung(q) || (p == Pow && q == Pow) then 0 else 1
  {
    assert [p, q][..1] == [p];
    assert Split([p]) == 0;
  }

  lemma TwoOperators(env: Env, p: Operator, q: Operator, a: Value, b: Value, c: Value)
    requires Rung(p) >= 0 && Rung(q) >= 0
    ensures Combine(env, [p, q], [a, b, c]) ==
            if Rung(p) < Rung(q) || (p == Pow && q == Pow) then env.binary(p, a, env.binary(q, b, c))
            else env.binary(q, env.binary(p, a, b), c)
  {
    var ops, values := [p, q], [a, b, c];
    SplitTwo(p, q);
    hide Split, Rung;
    assert ops[..1] == [p] && ops[1..] == [q] && ops[..0] == [] && ops[2..] == [];
    assert values[..1] == [a] && values[1..] == [b, c] && values[..2] == [a, b] && values[2..] == [c];
    OneOperator(env, p, a, b);
    OneOperator(env, q, b, c);
    assert Combine(env, [], [a]) == a && Combine(env, [], [c]) == c;
  }

  lemma OneOperator(env: Env, op: Operator, a: Value, b: Value)
    requires Rung(op) >= 0
    ensures Combine(env, [op], [a, b]) == env.binary(op, a, b)
  {
    assert [op][..0] == [] && [op][1..] == [] && [a, b][..1] == [a] && [a, b][1..] == [b];
    assert Split([op]) == 0;
  }

  // A prefix applies before any operator, a power included.
  lemma PrefixFirst(env: Env, ctx: Context, prefix: Prefix, x: Token, op: Operator, y: Token)
    requires IsLiteral(x) && IsLiteral(y) && Rung(op) >= 0
    ensures Parse(env, ctx, [Op(if prefix.Minus? then Sub else Not), x, Op(op), y, Eof]) ==
            Ok(env.binary(op, env.unary(if prefix.Minus? then Neg else Not, env.literal(x)), env.literal(y)))
  {
    var ops, t, u := [op], Prefixed(prefix, Lit(x)), Lit(y);
    assert Proper(Lit(x)) && Proper(t) && Proper(u);
    assert ProperChain(ops, [t, u]);
    ChainsParse(env, ctx, ops, [t, u]);
    TwoTerms(env, ctx, op, t, u);
    assert TermTokens(t) == [Op(if prefix.Minus? then Sub else Not)] + TermTokens(Lit(x));
    hide Parse, Interleave, Combine;
    OneOperator(env, op, TermValue(env, ctx, t), TermValue(env, ctx, u));
    assert ChainTokens(ops, [t, u]) + [Eof] == [Op(if prefix.Minus? then Sub else Not), x, Op(op), y, Eof];
  }

  lemma TwoTerms(env: Env, ctx: Context, op: Operator, t: Term, u: Term)
    requires Proper(t) && Proper(u)
    ensures TermValues(env, ctx, [t, u]) == [TermValue(env, ctx, t), TermValue(env, ctx, u)]
    ensures ChainTokens([op], [t, u]) == TermTokens(t) + [Op(op)] + TermTokens(u)
  {
    hide TermTokens, TermValue;
    assert [t, u][1..] == [u] && [u][1..] == [] && [op][1..] == [];
    assert TermsTokens([u]) == [TermTokens(u)] && TermValues(env, ctx, [u]) == [TermValue(env, ctx, u)];
    assert TermsTokens([t, u]) == [TermTokens(t)] + [TermTokens(u)];
    assert Interleave([], [TermTokens(u)]) == TermTokens(u);
    var texts := [TermTokens(t), TermTokens(u)];
    assert texts[1..] == [TermTokens(u)];
    assert Interleave([op], texts) == texts[0] + [Op(op)] + Interleave([], [TermTokens(u)]);
  }

  // So does the engine for the text of a chain, however it is written.
  lemma ChainTextEvaluates(env: Env, ctx: Context, ops: seq<Operator>, terms: seq<Term>,
                           items: seq<TokenWriting.Written>, lead: string)
    requires ProperChain(ops, terms) && TokenWriting.TokensOf(items) == ChainTokens(ops, terms)
    requires TokenWriting.Readable(items) && TokenWriting.All(JsText.IsSpace, lead)
    ensures ExpressionEngine.EvaluateText(env, ctx, lead + TokenWriting.Render(items))
            == Ok(ChainValue(env, ctx, ops, terms))
  {
    TokenWriting.TokenizeRoundTrip(items, lead);
    ChainsParse(env, ctx, ops, terms);
    hide Tokenizer.Tokenize, ChainTokens, ChainValue, Parse, TokenWriting.Render, TokenWriting.TokensOf;
  }
}
