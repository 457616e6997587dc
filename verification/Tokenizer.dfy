/** The lexer: a specification on the text not read yet, and the class that moves a position over it. */
module Tokenizer {
  import opened JsText
  import opened Tokens

  // `remaining` is the length of the text from the offending character on.
  datatype Lexed<+T> = Lexed(value: T) | Unexpected(c: char, remaining: nat)

  // ------------------------------------------------------ character classes

  predicate IsNumberChar(c: char) { IsDigit(c) || c == '.' }

  predicate IsNameStart(c: char) { 'a' <= c <= 'z' || 'A' <= c <= 'Z' || c == '_' }

  predicate IsNameChar(c: char) { IsNameStart(c) || IsDigit(c) || c == '.' }

  predicate IsOperatorChar(c: char) { c in "+-*/%<>=!&|" }

  // ---------------------------------------------------------------- spec

  // The length of the longest prefix whose characters all satisfy p.
  function Span(p: char -> bool, s: string): (n: nat)
    ensures n <= |s|
  {
    if s == [] || !p(s[0]) then 0 else 1 + Span(p, s[1..])
  }

  function Unescape(c: char): char {
    if c == 'n' then '\n' else if c == 't' then '\t' else if c == 'r' then '\r' else c
  }

  // The text of a string literal after its opening quote, and what follows
  // the closing quote.  Missing closing quotes and a final '\' are tolerated.
  function StringBody(s: string, quote: char): (r: (string, string))
    ensures |r.1| <= |s|
    decreases |s|
  {
    if s == [] then ("", "")
    else if s[0] == quote then ("", s[1..])
    else if s[0] == '\\' then
      if |s| == 1 then ("", "")
      else var (v, rest) := StringBody(s[2..], quote); ([Unescape(s[1])] + v, rest)
    else var (v, rest) := StringBody(s[1..], quote); ([s[0]] + v, rest)
  }

  function WordToken(word: string): Token {
    if word == "true" then Boolean(true)
    else if word == "false" then Boolean(false)
    else if word == "null" then Null
    else Ident(word)
  }

  function OperatorOf(text: string): Operator {
    if text == "|" then Pipe else if text == "||" then Or else if text == "&&" then And
    else if text == "==" then Eq else if text == "!=" then Ne
    else if text == "===" then StrictEq else if text == "!==" then StrictNe
    else if text == "<" then Lt else if text == ">" then Gt else if text == "<=" then Le else if text == ">=" then Ge
    else if text == "+" then Add else if text == "-" then Sub
    else if text == "*" then Mul else if text == "/" then Div else if text == "%" then Mod
    else if text == "**" then Pow else if text == "!" then Not
    else Unknown(text)
  }

  const TWO_CHARACTER_OPERATORS: seq<string> := ["==", "!=", "<=", ">=", "&&", "||", "**"]

  // How many characters the operator at the front takes: three before the
  // arrow, the arrow before two, two before one.
  function OperatorLength(s: string): (n: nat)
    requires s != []
    ensures 1 <= n <= |s|
  {
    if |s| >= 3 && (s[..3] == "===" || s[..3] == "!==") then 3
    else if |s| >= 2 && (s[..2] == "=>" || s[..2] in TWO_CHARACTER_OPERATORS) then 2
    else 1
  }

  function OperatorToken(text: string): Token {
    if text == "=>" then Arrow else Op(OperatorOf(text))
  }

  // The token at the front of a text that does not start with white space.
  function ReadToken(s: string): (r: Lexed<(Token, string)>)
    ensures r.Lexed? && s != [] ==> |r.value.1| < |s| && !r.value.0.Eof?
  {
    if s == [] then Lexed((Eof, ""))
    else if IsDigit(s[0]) then var n := Span(IsNumberChar, s); Lexed((Number(s[..n]), s[n..]))
    else if s[0] == '"' || s[0] == '\'' then
      var (v, rest) := StringBody(s[1..], s[0]);
      Lexed((Str(v), rest))
    else if IsNameStart(s[0]) then var n := Span(IsNameChar, s); Lexed((WordToken(s[..n]), s[n..]))
    else if s[0] == '(' then Lexed((LParen, s[1..]))
    else if s[0] == ')' then Lexed((RParen, s[1..]))
    else if s[0] == ',' then Lexed((Comma, s[1..]))
    else if IsOperatorChar(s[0]) then
      var n := OperatorLength(s);
      Lexed((OperatorToken(s[..n]), s[n..]))
    else Unexpected(s[0], |s|)
  }

  function NextToken(s: string): (r: Lexed<(Token, string)>)
    ensures r.Lexed? && !r.value.0.Eof? ==> |r.value.1| < |s|
  {
    ReadToken(s[Span(IsSpace, s)..])
  }

  function Tokenize(s: string): Lexed<seq<Token>>
    decreases |s|
  {
    match NextToken(s)
    case Unexpected(c, n) => Unexpected(c, n)
    case Lexed((t, rest)) =>
      if t.Eof? then Lexed([Eof])
      else
        match Tokenize(rest)
        case Unexpected(c, n) => Unexpected(c, n)
        case Lexed(ts) => Lexed([t] + ts)
  }
}
