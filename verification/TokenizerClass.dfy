/** The lexer class, each method against the specification. */
module TokenizerClass {
  import opened JsText
  import opened Tokens
  import opened Tokenizer

  class Lexer {
    const expression: string
    var position: nat
    // The character at `position`, or the empty string at the end.
    var current: string

    constructor (expression: string)
      ensures this.expression == expression && Valid() && Rest() == expression
    {
      this.expression, position := expression, 0;
      current := expression[..if |expression| > 0 then 1 else 0];
    }

    ghost predicate Valid()
      reads this
    {
      current == if position < |expression| then [expression[position]] else ""
    }

    ghost function Rest(): string
      reads this
    {
      if position <= |expression| then expression[position..] else ""
    }

    method Advance()
      requires Valid()
      modifies this
      ensures Valid() && Rest() == if old(Rest()) == "" then "" else old(Rest())[1..]
    {
      position := position + 1;
      current := if position < |expression| then [expression[position]] else "";
    }

    function Peek(offset: nat): (c: string)
      reads this
      ensures c == if offset < |Rest()| then [Rest()[offset]] else ""
    {
      if position + offset < |expression| then [expression[position + offset]] else ""
    }

    // Moves past the characters of a class and returns them.
    method ReadWhile(p: char -> bool) returns (value: string)
      requires Valid()
      modifies this
      ensures Valid()
      ensures var n := Span(p, old(Rest())); value == old(Rest())[..n] && Rest() == old(Rest())[n..]
    {
      value := "";
      ghost var start := Rest();
      while current != "" && p(current[0])
        invariant Valid()
        invariant |value| <= |start| && value == start[..|value|] && Rest() == start[|value|..]
        invariant Span(p, start) == |value| + Span(p, Rest())
        decreases |Rest()|
      {
        ghost var here, n := Rest(), |value|;
        assert here == start[n..] && current[0] == start[n];
        value := value + current;
        Advance();
        assert value == start[..n+1] && Rest() == start[n+1..];
      }
    }

    method ReadString(quote: char) returns (value: string)
      requires Valid() && Rest() != ""
      modifies this
      ensures Valid()
      ensures (value, Rest()) == StringBody(old(Rest())[1..], quote)
    {
      Advance();
      value := "";
      ghost var start := Rest();
      assert "" + StringBody(start, quote).0 == StringBody(start, quote).0;
      while current != "" && current[0] != quote
        invariant Valid()
        invariant StringBody(start, quote) == (value + StringBody(Rest(), quote).0, StringBody(Rest(), quote).1)
        decreases |Rest()|
      {
        ghost var here, before := Rest(), value;
        assert here != "" && current[0] == here[0];
        if current[0] == '\\' {
          Advance();
          if current != "" { value := value + [Unescape(current[0])]; }
        } else {
          value := value + current;
        }
        Advance();
        StringStep(here, quote, before, value, Rest());
      }
      if current != "" { Advance(); }
      assert value + "" == value;
    }

    method ReadOperator() returns (t: Token)
      requires Valid() && Rest() != ""
      modifies this
      ensures Valid()
      ensures var n := OperatorLength(old(Rest())); t == OperatorToken(old(Rest())[..n]) && Rest() == old(Rest())[n..]
    {
      ghost var start := Rest();
      var threeChar := current + Peek(1) + Peek(2);
      if threeChar in ["===", "!=="] {
        assert start[..3] == threeChar;
        Advance(); Advance(); Advance();
        return Op(OperatorOf(threeChar));
      }
      if |start| >= 3 { assert start[..3] == threeChar; }
      var twoChar := current + Peek(1);
      if |start| >= 2 { assert start[..2] == twoChar; }
      if twoChar == "=>" {
        Advance(); Advance();
        return Arrow;
      }
      if twoChar in TWO_CHARACTER_OPERATORS {
        Advance(); Advance();
        return Op(OperatorOf(twoChar));
      }
      var oneChar := current;
      assert start[..1] == oneChar;
      Advance();
      return Op(OperatorOf(oneChar));
    }

    method NextToken() returns (r: Lexed<Token>)
      requires Valid()
      modifies this
      ensures Valid()
      ensures Took(old(Rest()), r, Rest())
    {
      var space := ReadWhile(IsSpace);
      if current == "" { return Lexed(Eof); }
      var c := current[0];
      assert c == Rest()[0];
      if IsDigit(c) {
        var text := ReadWhile(IsNumberChar);
        return Lexed(Number(text));
      }
      if c == '"' || c == '\'' {
        var text := ReadString(c);
        return Lexed(Str(text));
      }
      if IsNameStart(c) {
        var word := ReadWhile(IsNameChar);
        return Lexed(WordToken(word));
      }
      if c == '(' { Advance(); return Lexed(LParen); }
      if c == ')' { Advance(); return Lexed(RParen); }
      if c == ',' { Advance(); return Lexed(Comma); }
      if IsOperatorChar(c) {
        var op := ReadOperator();
        return Lexed(op);
      }
      return Unexpected(c, |expression| - position);
    }

    method Tokenize() returns (r: Lexed<seq<Token>>)
      requires Valid()
      modifies this
      ensures r == Tokenizer.Tokenize(old(Rest()))
    {
      var tokens: seq<Token> := [];
      ghost var start := Rest();
      var token := NextToken();
      FirstFrom(start, token, Rest());
      while token.Lexed? && !token.value.Eof?
        invariant Valid()
        invariant Tokenizer.Tokenize(start) == TokensFrom(tokens, token, Rest())
        decreases token.Lexed? && !token.value.Eof?, |Rest()|
      {
        ghost var rest := Rest();
        ghost var before, last := tokens, token.value;
        tokens := tokens + [token.value];
        token := NextToken();
        NextFrom(before, last, rest, token, Rest());
      }
      if token.Unexpected? { return Unexpected(token.c, token.remaining); }
      return Lexed(tokens + [Eof]);
    }
  }

  // What lexing ends with when these tokens have been read, this one is next
  // and this text comes after it.
  ghost function TokensFrom(tokens: seq<Token>, token: Lexed<Token>, rest: string): Lexed<seq<Token>> {
    if token.Unexpected? then Unexpected(token.c, token.remaining)
    else if token.value.Eof? then Lexed(tokens + [Eof])
    else
      var more := Tokenizer.Tokenize(rest);
      if more.Unexpected? then Unexpected(more.c, more.remaining)
      else Lexed(tokens + [token.value] + more.value)
  }

  // A call of NextToken on s gave this token and left this text.
  ghost predicate Took(s: string, token: Lexed<Token>, rest: string) {
    Tokenizer.NextToken(s)
    == if token.Lexed? then Lexed((token.value, rest)) else Unexpected(token.c, token.remaining)
  }

  lemma FirstFrom(s: string, token: Lexed<Token>, rest: string)
    requires Took(s, token, rest)
    ensures Tokenizer.Tokenize(s) == TokensFrom([], token, rest)
  {
    hide Tokenizer.NextToken;
    if token.Lexed? { assert [] + [token.value] == [token.value]; }
  }

  lemma NextFrom(tokens: seq<Token>, t: Token, s: string, token: Lexed<Token>, rest: string)
    requires !t.Eof? && Took(s, token, rest)
    ensures TokensFrom(tokens, Lexed(t), s) == TokensFrom(tokens + [t], token, rest)
  {
    hide Tokenizer.NextToken;
    if token.Lexed? && !token.value.Eof? && Tokenizer.Tokenize(rest).Lexed? {
      var more := Tokenizer.Tokenize(rest).value;
      assert tokens + [t] + ([token.value] + more) == tokens + [t] + [token.value] + more;
    }
  }

  lemma StringStep(s: string, quote: char, before: string, after: string, rest: string)
    requires s != "" && s[0] != quote
    requires if s[0] == '\\' && |s| == 1 then after == before && rest == ""
             else if s[0] == '\\' then after == before + [Unescape(s[1])] && rest == s[2..]
             else after == before + [s[0]] && rest == s[1..]
    ensures (before + StringBody(s, quote).0, StringBody(s, quote).1)
            == (after + StringBody(rest, quote).0, StringBody(rest, quote).1)
  {
    var more := StringBody(rest, quote).0;
    if !(s[0] == '\\' && |s| == 1) {
      var c := after[|before|];
      assert before + ([c] + more) == before + [c] + more;
      assert StringBody(s, quote).0 == [c] + more;
    }
  }
}
