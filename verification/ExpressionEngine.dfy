/** The bounded token cache and the evaluation of expression text from end to end. */
module ExpressionEngine {
  import opened Tokens
  import opened JsText
  import opened Tokenizer
  import opened TokenWriting
  import opened ExpressionParser
  import opened ExpressionTrees
  import opened ExpressionTheorems
  import TokenizerClass
  import ParserClass

  const MAX_CACHED: nat := 2000
  const MAX_CACHED_LENGTH: nat := 4000

  // Expressions in insertion order, and their tokens.
  datatype CacheState = CacheState(order: seq<string>, entries: map<string, seq<Token>>)

  const EMPTY_CACHE := CacheState([], map[])

  ghost predicate CacheValid(c: CacheState) {
    |c.order| <= MAX_CACHED &&
    (forall i, j :: 0 <= i < j < |c.order| ==> c.order[i] != c.order[j]) &&
    (forall e :: e in c.entries <==> e in c.order) &&
    (forall e :: e in c.entries ==> Tokenize(e) == Lexed(c.entries[e]))
  }

  // Makes room by dropping the oldest expression of a full cache.
  function Evict(c: CacheState): CacheState {
    if |c.order| >= MAX_CACHED then CacheState(c.order[1..], c.entries - {c.order[0]}) else c
  }

  function Insert(c: CacheState, e: string, tokens: seq<Token>): CacheState {
    var kept := Evict(c);
    CacheState(kept.order + [e], kept.entries[e := tokens])
  }

  // The answer to one request and the cache after it.
  function Request(c: CacheState, e: string): (Lexed<seq<Token>>, CacheState) {
    if |e| > MAX_CACHED_LENGTH then (Tokenize(e), c)
    else if e in c.entries then (Lexed(c.entries[e]), c)
    else
      match Tokenize(e)
      case Unexpected(ch, n) => (Unexpected(ch, n), c)
      case Lexed(tokens) => (Lexed(tokens), Insert(c, e, tokens))
  }

  lemma EvictValid(c: CacheState)
    requires CacheValid(c)
    ensures CacheValid(Evict(c)) && |Evict(c).order| < MAX_CACHED
    ensures Evict(c).entries.Keys <= c.entries.Keys
  {}

  lemma InsertValid(c: CacheState, e: string, tokens: seq<Token>)
    requires CacheValid(c) && e !in c.entries && Tokenize(e) == Lexed(tokens)
    ensures CacheValid(Insert(c, e, tokens))
  {
    hide Tokenize;
    EvictValid(c);
    hide Evict;
  }

  lemma RequestValid(c: CacheState, e: string)
    requires CacheValid(c)
    ensures Request(c, e).0 == Tokenize(e) && CacheValid(Request(c, e).1)
  {
    if |e| <= MAX_CACHED_LENGTH && e !in c.entries && Tokenize(e).Lexed? {
      InsertValid(c, e, Tokenize(e).value);
    }
  }

  datatype Command = Ask(expression: string) | Clear

  function Commands(c: CacheState, commands: seq<Command>): (seq<Lexed<seq<Token>>>, CacheState)
    decreases |commands|
  {
    if commands == [] then ([], c)
    else
      match commands[0]
      case Clear => Commands(EMPTY_CACHE, commands[1..])
      case Ask(e) =>
        var (answer, c') := Request(c, e);
        var (answers, last) := Commands(c', commands[1..]);
        ([answer] + answers, last)
  }

  function Asked(commands: seq<Command>): seq<string> {
    if commands == [] then []
    else (if commands[0].Ask? then [commands[0].expression] else []) + Asked(commands[1..])
  }

  // After any commands the cache holds at most its bound, and every answer was
  // what lexing afresh gives.
  lemma {:induction false} CacheTransparent(c: CacheState, commands: seq<Command>)
    requires CacheValid(c)
    ensures var (answers, last) := Commands(c, commands);
            CacheValid(last) && |last.order| <= MAX_CACHED && |answers| == |Asked(commands)| &&
            forall i :: 0 <= i < |answers| ==> answers[i] == Tokenize(Asked(commands)[i])
    decreases |commands|
  {
    hide Tokenize, Request;
    if commands != [] {
      match commands[0]
      case Clear => CacheTransparent(EMPTY_CACHE, commands[1..]);
      case Ask(e) =>
        RequestValid(c, e);
        CacheTransparent(Request(c, e).1, commands[1..]);
    }
  }

  // The last so many of a list.
  function LastOf(all: seq<string>, n: nat): seq<string> {
    if |all| <= n then all else all[|all|-n..]
  }

  // What was put in the cache since it was last cleared, oldest first: each
  // text of at most 4000 characters that has tokens and is not among the last
  // 2000 of them.
  function PutIn(before: seq<string>, commands: seq<Command>): seq<string>
    decreases |commands|
  {
    if commands == [] then before
    else
      match commands[0]
      case Clear => PutIn([], commands[1..])
      case Ask(e) =>
        PutIn(if |e| <= 4000 && Tokenize(e).Lexed? && e !in LastOf(before, 2000) then before + [e] else before,
              commands[1..])
  }

  // The cache has the last 2000 of them.
  lemma {:induction false} CacheHasLast(c: CacheState, before: seq<string>, commands: seq<Command>)
    requires CacheValid(c) && c.order == LastOf(before, 2000)
    ensures Commands(c, commands).1.order == LastOf(PutIn(before, commands), 2000)
    decreases |commands|
  {
    hide Tokenize;
    if commands != [] {
      match commands[0]
      case Clear => CacheHasLast(EMPTY_CACHE, [], commands[1..]);
      case Ask(e) =>
        RequestValid(c, e);
        hide CacheValid;
        var put := |e| <= 4000 && Tokenize(e).Lexed? && e !in LastOf(before, 2000);
        AskedLast(c, before, e);
        CacheHasLast(Request(c, e).1, if put then before + [e] else before, commands[1..]);
    }
  }

  lemma AskedLast(c: CacheState, before: seq<string>, e: string)
    requires CacheValid(c) && c.order == LastOf(before, 2000)
    ensures var put := |e| <= 4000 && Tokenize(e).Lexed? && e !in LastOf(before, 2000);
            Request(c, e).1.order == LastOf(if put then before + [e] else before, 2000)
  {
    hide Tokenize;
    assert e in c.entries <==> e in c.order;
    LastSnoc(before, e, 2000);
    hide CacheValid, LastOf;
  }

  lemma LastSnoc(before: seq<string>, e: string, n: nat)
    requires n > 0
    ensures LastOf(before + [e], n) ==
            (if |LastOf(before, n)| >= n then LastOf(before, n)[1..] else LastOf(before, n)) + [e]
    ensures |LastOf(before, n)| <= n
  {
    if |before| >= n {
      assert LastOf(before, n) == before[|before|-n..];
      assert LastOf(before + [e], n) == before[|before|-n+1..] + [e];
    }
  }

  class TokenCache {
    var order: seq<string>
    var entries: map<string, seq<Token>>

    constructor ()
      ensures State() == EMPTY_CACHE && CacheValid(State())
    {
      order, entries := [], map[];
    }

    ghost function State(): CacheState
      reads this
    {
      CacheState(order, entries)
    }

    method TokenizeCached(expression: string) returns (r: Lexed<seq<Token>>)
      requires CacheValid(State())
      modifies this
      ensures CacheValid(State()) && (r, State()) == Request(old(State()), expression)
      ensures r == Tokenize(expression)
    {
      RequestValid(State(), expression);
      if |expression| <= MAX_CACHED_LENGTH && expression in entries {
        return Lexed(entries[expression]);
      }
      var lexer := new TokenizerClass.Lexer(expression);
      r := lexer.Tokenize();
      if |expression| > MAX_CACHED_LENGTH || r.Unexpected? { return; }
      if |order| >= MAX_CACHED {
        var oldest := order[0];
        order, entries := order[1..], entries - {oldest};
      }
      order, entries := order + [expression], entries[expression := r.value];
    }

    method Clear()
      modifies this
      ensures State() == EMPTY_CACHE && CacheValid(State())
    {
      order, entries := [], map[];
    }
  }

  // ------------------------------------------------------------ end to end

  function EvaluateText(env: Env, ctx: Context, text: string): Result<Value> {
    match Tokenize(text)
    case Unexpected(_, _) => Err(LexicalError)
    case Lexed(tokens) => Parse(env, ctx, tokens)
  }

  method Evaluate(env: Env, cache: TokenCache, expression: string, context: Context) returns (r: Result<Value>)
    requires CacheValid(cache.State())
    modifies cache
    ensures CacheValid(cache.State()) && r == EvaluateText(env, context, expression)
  {
    var tokens := cache.TokenizeCached(expression);
    if tokens.Unexpected? { return Err(LexicalError); }
    var parser := new ParserClass.Parser(env, tokens.value, context);
    assert tokens.value[0..] == tokens.value;
    r := parser.ParseExpression(false);
  }

  // Trees whose names and literals can be written down.
  predicate Writable(e: Expr)
    decreases e, 0
  {
    match e
    case Literal(t) => Printable(t)
    case Variable(x) => Printable(Ident(x))
    case Unary(_, x) => Writable(x)
    case Binary(_, l, r) => Writable(l) && Writable(r)
    case Group(x) => Writable(x)
    case Call(f, args) => Printable(Ident(f)) && WritableArgs(args)
    case LambdaExpr(ps, _, b) => (forall i :: 0 <= i < |ps| ==> Printable(Ident(ps[i]))) && Writable(b)
  }

  predicate WritableArgs(args: seq<Expr>)
    decreases args, 0
  {
    args != [] ==> Writable(args[0]) && WritableArgs(args[1..])
  }

  lemma {:induction false} PrintPrintable(e: Expr)
    requires Writable(e) && if e.LambdaExpr? then WellFormedBody(e.body) else WellFormed(e)
    ensures AllPrintable(Print(e))
    decreases e, 0
  {
    hide Printable;
    match e
    case Literal(_) | Variable(_) =>
    case Unary(op, x) =>
      NotLambdaTree(x); PrintPrintable(x); MarksPrintable(op);
    case Binary(op, l, r) =>
      NotLambdaTree(l); NotLambdaTree(r); PrintPrintable(l); PrintPrintable(r); MarksPrintable(op);
    case Group(x) => NotLambdaTree(x); PrintPrintable(x); MarksPrintable(Not);
    case Call(_, args) => PrintArgsPrintable(args); MarksPrintable(Not);
    case LambdaExpr(ps, parens, b) =>
      NamesPrintable(ps);
      BodyShape(b);
      PrintPrintable(b);
      MarksPrintable(Not);
  }

  lemma NotLambdaTree(e: Expr)
    requires WellFormed(e)
    ensures !e.LambdaExpr?
  {}

  lemma BodyShape(b: Expr)
    requires WellFormedBody(b)
    ensures if b.LambdaExpr? then WellFormedBody(b.body) else WellFormed(b)
  {}

  lemma MarksPrintable(op: Operator)
    requires IsUnary(op) || IsBinary(op)
    ensures Printable(Op(UnaryText(op))) && (IsBinary(op) ==> Printable(Op(op)))
    ensures Printable(LParen) && Printable(RParen) && Printable(Comma) && Printable(Arrow)
  {}

  lemma {:induction false} PrintArgsPrintable(args: seq<Expr>)
    requires WritableArgs(args) && WellFormedArgs(args)
    ensures AllPrintable(PrintArgs(args))
    decreases args, 0
  {
    hide Printable;
    if args != [] {
      if args[0].LambdaExpr? { assert WellFormedBody(args[0].body); }
      PrintPrintable(args[0]);
      PrintArgsPrintable(args[1..]);
      MarksPrintable(Not);
    }
  }

  lemma {:induction false} NamesPrintable(names: seq<string>)
    requires forall i :: 0 <= i < |names| ==> Printable(Ident(names[i]))
    ensures AllPrintable(PrintNames(names))
    decreases |names|
  {
    hide Printable;
    MarksPrintable(Not);
    if names != [] { NamesPrintable(names[1..]); }
  }

  // However a tree is written out as text, it evaluates to its meaning.
  lemma EvaluateIsMeaning(env: Env, ctx: Context, e: Expr, items: seq<Written>, lead: string)
    requires WellFormedBody(e) && GroupSafe(e, false)
    requires TokensOf(items) == Print(e) && Readable(items) && All(IsSpace, lead)
    ensures EvaluateText(env, ctx, lead + Render(items)) == Denote(env, ctx, e)
  {
    TokenizeRoundTrip(items, lead);
    ParseIsMeaning(env, ctx, e);
  }

  // Every tree of printable names and literals can be so written, with white
  // space after each token.
  lemma SpacedIsMeaning(env: Env, ctx: Context, e: Expr, sep: string)
    requires WellFormedBody(e) && GroupSafe(e, false) && Writable(e) && Separator(sep)
    ensures EvaluateText(env, ctx, Render(Spaced(Print(e), sep))) == Denote(env, ctx, e)
  {
    BodyShape(e);
    PrintPrintable(e);
    SpacedReadable(Print(e), sep);
    hide EvaluateText;
    EvaluateIsMeaning(env, ctx, e, Spaced(Print(e), sep), "");
    assert "" + Render(Spaced(Print(e), sep)) == Render(Spaced(Print(e), sep));
  }
}
