/**
 Tokens written down as text, each in any way that stands for it, and the
 theorem that the lexer reads them back.
 */
module TokenWriting {
  import opened JsText
  import opened Tokens
  import opened Tokenizer

  function OperatorText(op: Operator): string {
    match op
    case Pipe => "|" case Or => "||" case And => "&&"
    case Eq => "==" case Ne => "!=" case StrictEq => "===" case StrictNe => "!=="
    case Lt => "<" case Gt => ">" case Le => "<=" case Ge => ">="
    case Add => "+" case Sub => "-" case Mul => "*" case Div => "/" case Mod => "%" case Pow => "**"
    case Not => "!" case Neg => "-"
    case Unknown(text) => text
  }

  // One character of a string literal as it is written.
  datatype Piece = Plain(c: char) | Escaped(c: char)

  function PieceText(p: Piece): string {
    if p.Plain? then [p.c] else ['\\', p.c]
  }

  // What it stands for.
  function PieceValue(p: Piece): char {
    match p
    case Plain(c) => c
    case Escaped('n') => '\n'
    case Escaped('t') => '\t'
    case Escaped('r') => '\r'
    case Escaped(c) => c
  }

  // Only the quote that opened the literal must be escaped, and the backslash.
  predicate PieceOk(p: Piece, quote: char) {
    p.Plain? ==> p.c != quote && p.c != '\\'
  }

  predicate PiecesOk(pieces: seq<Piece>, quote: char) {
    forall i :: 0 <= i < |pieces| ==> PieceOk(pieces[i], quote)
  }

  function PiecesText(pieces: seq<Piece>): string {
    if pieces == [] then "" else PieceText(pieces[0]) + PiecesText(pieces[1..])
  }

  function PiecesValue(pieces: seq<Piece>): string {
    if pieces == [] then "" else [PieceValue(pieces[0])] + PiecesValue(pieces[1..])
  }

  predicate IsQuote(c: char) {
    c == '"' || c == '\''
  }

  function PieceOf(c: char, quote: char): Piece {
    if c == '\\' || c == quote then Escaped(c)
    else if c == '\n' then Escaped('n') else if c == '\t' then Escaped('t') else if c == '\r' then Escaped('r')
    else Plain(c)
  }

  function PiecesOf(v: string, quote: char): seq<Piece> {
    if v == "" then [] else [PieceOf(v[0], quote)] + PiecesOf(v[1..], quote)
  }

  // The quote is that of strings.
  function TokenText(t: Token, quote: char): string {
    match t
    case Number(text) => text
    case Str(v) => [quote] + PiecesText(PiecesOf(v, quote)) + [quote]
    case Boolean(b) => if b then "true" else "false"
    case Null => "null"
    case Ident(x) => x
    case Op(op) => OperatorText(op)
    case LParen => "(" case RParen => ")" case Comma => "," case Arrow => "=>"
    case Eof => ""
  }

  predicate All(p: char -> bool, s: string) {
    forall i :: 0 <= i < |s| ==> p(s[i])
  }

  // The tokens some text stands for.  A unary minus is written as the binary
  // one, and only "=" and "&" are operator text without a meaning.
  predicate Printable(t: Token) {
    match t
    case Number(text) => text != "" && IsDigit(text[0]) && All(IsNumberChar, text)
    case Ident(x) => x != "" && IsNameStart(x[0]) && All(IsNameChar, x) && WordToken(x) == t
    case Op(op) => !op.Neg? && (op.Unknown? ==> op.text == "=" || op.text == "&")
    case Eof => false
    case _ => true
  }

  // The operators that start as another one does.
  const LONGER_OPERATORS: seq<string> := ["===", "!==", "=>", "==", "!=", "<=", ">=", "&&", "||", "**"]

  // No longer operator stands at the front of the text.
  predicate Whole(text: string, rest: string) {
    forall i :: 0 <= i < |LONGER_OPERATORS| && |LONGER_OPERATORS[i]| > |text| ==>
      !(LONGER_OPERATORS[i] <= text + rest)
  }

  // The text that follows does not run on from the token.
  predicate Ends(t: Token, rest: string) {
    match t
    case Number(_) => rest == "" || !IsNumberChar(rest[0])
    case Ident(_) | Boolean(_) | Null => rest == "" || !IsNameChar(rest[0])
    case Op(op) => Whole(OperatorText(op), rest)
    case Arrow => Whole("=>", rest)
    case _ => true
  }

  // A token as it is written: the quote of a string, and the white space after.
  datatype Written = Written(token: Token, quote: char, gap: string)

  function TokensOf(items: seq<Written>): seq<Token> {
    if items == [] then [] else [items[0].token] + TokensOf(items[1..])
  }

  function Render(items: seq<Written>): string {
    if items == [] then "" else TokenText(items[0].token, items[0].quote) + items[0].gap + Render(items[1..])
  }

  // Every token stands for something and ends where it is meant to.
  predicate Readable(items: seq<Written>) {
    items != [] ==>
      Printable(items[0].token) && IsQuote(items[0].quote) && All(IsSpace, items[0].gap) &&
      Ends(items[0].token, items[0].gap + Render(items[1..])) && Readable(items[1..])
  }

  // --------------------------------------------------------------- round trip

  lemma {:induction false} SpanAll(p: char -> bool, a: string, b: string)
    requires All(p, a) && (b == "" || !p(b[0]))
    ensures Span(p, a + b) == |a|
    decreases |a|
  {
    if a == [] {
      assert a + b == b;
    } else {
      assert (a + b)[1..] == a[1..] + b;
      SpanAll(p, a[1..], b);
    }
  }

  lemma {:induction false} SpanLonger(p: char -> bool, a: string, b: string)
    requires All(p, a) && b != "" && p(b[0])
    ensures Span(p, a + b) > |a|
    decreases |a|
  {
    if a == [] {
      assert a + b == b;
    } else {
      assert (a + b)[1..] == a[1..] + b;
      SpanLonger(p, a[1..], b);
    }
  }

  // The body of a string literal is read piece by piece, up to the quote that
  // opened it or the end of the text.
  lemma {:induction false} PiecesRead(pieces: seq<Piece>, quote: char, rest: string)
    requires IsQuote(quote) && PiecesOk(pieces, quote)
    ensures StringBody(PiecesText(pieces) + [quote] + rest, quote) == (PiecesValue(pieces), rest)
    ensures StringBody(PiecesText(pieces), quote) == (PiecesValue(pieces), "")
    decreases |pieces|
  {
    hide PieceText, PieceValue;
    if pieces == [] {
      assert PiecesText(pieces) + [quote] + rest == [quote] + rest;
      assert ([quote] + rest)[1..] == rest;
    } else {
      hide StringBody;
      var more := PiecesText(pieces[1..]);
      PiecesRead(pieces[1..], quote, rest);
      PieceRead(pieces[0], quote, more + [quote] + rest);
      PieceRead(pieces[0], quote, more);
      assert PiecesText(pieces) + [quote] + rest == PieceText(pieces[0]) + (more + [quote] + rest);
    }
  }

  lemma PieceRead(p: Piece, quote: char, tail: string)
    requires IsQuote(quote) && PieceOk(p, quote)
    ensures var body := StringBody(tail, quote);
            StringBody(PieceText(p) + tail, quote) == ([PieceValue(p)] + body.0, body.1)
  {
    var s := PieceText(p) + tail;
    if p.Plain? { assert s[1..] == tail; } else { assert s[2..] == tail; }
  }

  lemma {:induction false} PiecesOfMean(v: string, quote: char)
    requires IsQuote(quote)
    ensures PiecesOk(PiecesOf(v, quote), quote) && PiecesValue(PiecesOf(v, quote)) == v
    decreases |v|
  {
    if v != "" {
      PiecesOfMean(v[1..], quote);
      assert v == [v[0]] + v[1..];
    }
  }

  // However a string is written, between single quotes or double ones, it is
  // read as what its pieces stand for, whatever follows; without a closing
  // quote it ends with the text.
  lemma StringsRead(pieces: seq<Piece>, quote: char, rest: string)
    requires IsQuote(quote) && PiecesOk(pieces, quote)
    ensures ReadToken([quote] + PiecesText(pieces) + [quote] + rest) == Lexed((Str(PiecesValue(pieces)), rest))
    ensures ReadToken([quote] + PiecesText(pieces)) == Lexed((Str(PiecesValue(pieces)), ""))
  {
    hide StringBody;
    PiecesRead(pieces, quote, rest);
    var s := [quote] + PiecesText(pieces) + [quote] + rest;
    assert s[0] == quote && s[1..] == PiecesText(pieces) + [quote] + rest;
    var u := [quote] + PiecesText(pieces);
    assert u[0] == quote && u[1..] == PiecesText(pieces);
    QuoteKind(quote);
  }

  lemma QuoteKind(c: char)
    requires IsQuote(c)
    ensures !IsDigit(c)
  {}

  ghost predicate IsOperatorText(text: string) {
    text == "=>" || text == "=" || text == "&" || exists op: Operator :: !op.Unknown? && OperatorText(op) == text
  }

  // Some operator of that length that another one starts like is at the front.
  predicate Starts(s: string, n: nat) {
    exists i :: 0 <= i < |LONGER_OPERATORS| && |LONGER_OPERATORS[i]| == n && LONGER_OPERATORS[i] <= s
  }

  lemma LengthIs(s: string)
    requires s != ""
    ensures OperatorLength(s) == if Starts(s, 3) then 3 else if Starts(s, 2) then 2 else 1
  {
    FrontIs(s, 2);
    FrontIs(s, 3);
    assert LONGER_OPERATORS[0] == "===" && LONGER_OPERATORS[1] == "!==" && LONGER_OPERATORS[2] == "=>";
    assert forall i :: 3 <= i < 10 ==> LONGER_OPERATORS[i] == TWO_CHARACTER_OPERATORS[i-3];
    assert forall i :: 0 <= i < 7 ==> TWO_CHARACTER_OPERATORS[i] == LONGER_OPERATORS[i+3];
  }

  lemma FrontIs(s: string, n: nat)
    ensures forall text: string :: |text| == n ==> (text <= s <==> n <= |s| && s[..n] == text)
  {}

  lemma OperatorTextKind(text: string)
    requires IsOperatorText(text)
    ensures 1 <= |text| <= 3 && IsOperatorChar(text[0]) && (|text| > 1 ==> Starts(text, |text|))
  {
    assert LONGER_OPERATORS[0] == "===" && LONGER_OPERATORS[1] == "!==" && LONGER_OPERATORS[2] == "=>";
    assert LONGER_OPERATORS[3] == "==" && LONGER_OPERATORS[4] == "!=" && LONGER_OPERATORS[5] == "<=";
    assert LONGER_OPERATORS[6] == ">=" && LONGER_OPERATORS[7] == "&&" && LONGER_OPERATORS[8] == "||";
    assert LONGER_OPERATORS[9] == "**";
    assert forall i :: 0 <= i < 10 ==> LONGER_OPERATORS[i] <= LONGER_OPERATORS[i];
  }

  // Longest match: operator text is read whole exactly when no longer operator
  // stands there.
  lemma OperatorRead(text: string, rest: string)
    requires IsOperatorText(text)
    ensures OperatorLength(text + rest) == |text| <==> Whole(text, rest)
  {
    var s := text + rest;
    OperatorTextKind(text);
    LengthIs(s);
    assert |text| > 1 ==> Starts(s, |text|) by {
      if |text| > 1 {
        var i :| 0 <= i < |LONGER_OPERATORS| && |LONGER_OPERATORS[i]| == |text| && LONGER_OPERATORS[i] <= text;
        assert LONGER_OPERATORS[i] <= s;
      }
    }
    LongerLengths();
    hide OperatorLength, IsOperatorText;
    assert Whole(text, rest) <==> forall n :: n > |text| && (n == 2 || n == 3) ==> !Starts(s, n);
  }

  lemma LongerLengths()
    ensures forall i :: 0 <= i < |LONGER_OPERATORS| ==> |LONGER_OPERATORS[i]| == 2 || |LONGER_OPERATORS[i]| == 3
  {}

  lemma OperatorCharKind(c: char)
    requires IsOperatorChar(c)
    ensures !IsDigit(c) && !IsNameStart(c) && c != '"' && c != '\'' && c != '(' && c != ')' && c != ','
  {}

  lemma OperatorTokenRead(text: string, rest: string)
    requires IsOperatorText(text)
    ensures ReadToken(text + rest) == Lexed((OperatorToken(text), rest)) <==> Whole(text, rest)
  {
    OperatorRead(text, rest);
    OperatorTextKind(text);
    OperatorCharKind(text[0]);
    hide Starts, IsOperatorText, OperatorLength, OperatorToken, OperatorText, IsOperatorChar, IsSpace, Whole;
    var s := text + rest;
    var n := OperatorLength(s);
    assert s[0] == text[0] && s[..|text|] == text && s[|text|..] == rest;
    assert |s[n..]| == |s| - n;
  }

  lemma OperatorOfText(op: Operator)
    requires Printable(Op(op))
    ensures IsOperatorText(OperatorText(op)) && OperatorToken(OperatorText(op)) == Op(op)
  {}

  lemma WordRead(word: string, rest: string)
    requires word != "" && IsNameStart(word[0]) && All(IsNameChar, word)
    ensures ReadToken(word + rest) == Lexed((WordToken(word), rest)) <==> rest == "" || !IsNameChar(rest[0])
  {
    if rest == "" || !IsNameChar(rest[0]) {
      SpanAll(IsNameChar, word, rest);
    } else {
      SpanLonger(IsNameChar, word, rest);
    }
    hide Span, WordToken;
    var s := word + rest;
    assert s[0] == word[0] && s[..|word|] == word && s[|word|..] == rest;
    assert |s[Span(IsNameChar, s)..]| == |s| - Span(IsNameChar, s);
  }

  lemma NumberRead(text: string, rest: string)
    requires Printable(Number(text))
    ensures ReadToken(text + rest) == Lexed((Number(text), rest)) <==> rest == "" || !IsNumberChar(rest[0])
  {
    if rest == "" || !IsNumberChar(rest[0]) {
      SpanAll(IsNumberChar, text, rest);
    } else {
      SpanLonger(IsNumberChar, text, rest);
    }
    hide Span;
    var s := text + rest;
    assert s[0] == text[0] && s[..|text|] == text && s[|text|..] == rest;
    assert |s[Span(IsNumberChar, s)..]| == |s| - Span(IsNumberChar, s);
  }

  // A token at the front of any text is read back, with all that follows,
  // exactly if what follows does not run on from it.
  lemma TokenReadIff(t: Token, quote: char, rest: string)
    requires Printable(t) && IsQuote(quote)
    ensures ReadToken(TokenText(t, quote) + rest) == Lexed((t, rest)) <==> Ends(t, rest)
  {
    hide ReadToken, Whole;
    match t
    case Number(text) => NumberRead(text, rest);
    case Str(v) =>
      PiecesOfMean(v, quote);
      StringsRead(PiecesOf(v, quote), quote, rest);
    case Ident(x) => WordRead(x, rest);
    case Boolean(b) => WordRead(TokenText(t, quote), rest);
    case Null => WordRead(TokenText(t, quote), rest);
    case Op(op) => OperatorOfText(op); OperatorTokenRead(OperatorText(op), rest);
    case Arrow => OperatorTokenRead("=>", rest);
    case LParen | RParen | Comma => MarkRead(t, rest);
  }

  lemma MarkRead(t: Token, rest: string)
    requires t.LParen? || t.RParen? || t.Comma?
    ensures ReadToken(TokenText(t, '"') + rest) == Lexed((t, rest))
  {
    assert (TokenText(t, '"') + rest)[1..] == rest;
  }

  // What is written how, apart from numbers, names and strings.
  predicate Spells(text: string, t: Token) {
    || (t == Op(Pipe) && text == "|")
    || (t == Op(Or) && text == "||")
    || (t == Op(And) && text == "&&")
    || (t == Op(Eq) && text == "==")
    || (t == Op(Ne) && text == "!=")
    || (t == Op(StrictEq) && text == "===")
    || (t == Op(StrictNe) && text == "!==")
    || (t == Op(Lt) && text == "<")
    || (t == Op(Gt) && text == ">")
    || (t == Op(Le) && text == "<=")
    || (t == Op(Ge) && text == ">=")
    || (t == Op(Add) && text == "+")
    || (t == Op(Sub) && text == "-")
    || (t == Op(Mul) && text == "*")
    || (t == Op(Div) && text == "/")
    || (t == Op(Mod) && text == "%")
    || (t == Op(Pow) && text == "**")
    || (t == Op(Not) && text == "!")
    || (t == Arrow && text == "=>")
    || (t == LParen && text == "(")
    || (t == RParen && text == ")")
    || (t == Comma && text == ",")
    || (t == Boolean(true) && text == "true")
    || (t == Boolean(false) && text == "false")
    || (t == Null && text == "null")
  }

  lemma SpellingsRead(text: string, t: Token, rest: string)
    requires Spells(text, t) && Ends(t, rest)
    ensures ReadToken(text + rest) == Lexed((t, rest))
  {
    SpellingText(text, t);
    hide Ends, ReadToken, Spells, TokenText, Printable;
    TokenReadIff(t, '"', rest);
  }

  lemma SpellingText(text: string, t: Token)
    requires Spells(text, t)
    ensures Printable(t) && TokenText(t, '"') == text
  {}

  lemma {:induction false} SkipSeparator(sep: string, s: string)
    requires All(IsSpace, sep)
    ensures Span(IsSpace, sep + s) == |sep| + Span(IsSpace, s)
    decreases |sep|
  {
    if sep == [] {
      assert sep + s == s;
    } else {
      assert (sep + s)[1..] == sep[1..] + s;
      SkipSeparator(sep[1..], s);
    }
  }

  lemma TokenTextStart(t: Token, quote: char)
    requires Printable(t) && IsQuote(quote)
    ensures TokenText(t, quote) != "" && !IsSpace(TokenText(t, quote)[0])
  {}

  lemma FirstRendered(items: seq<Written>, lead: string)
    requires items != [] && Readable(items) && All(IsSpace, lead)
    ensures NextToken(lead + Render(items)) == Lexed((items[0].token, items[0].gap + Render(items[1..])))
  {
    var t, quote, rest := items[0].token, items[0].quote, items[0].gap + Render(items[1..]);
    TokenTextStart(t, quote);
    TokenReadIff(t, quote, rest);
    SkipSeparator(lead, TokenText(t, quote) + rest);
    assert Render(items) == TokenText(t, quote) + rest;
    hide TokenText, Render, ReadToken, Printable, Ends, Readable;
    var s := lead + (TokenText(t, quote) + rest);
    assert Span(IsSpace, TokenText(t, quote) + rest) == 0;
    assert s[|lead|..] == TokenText(t, quote) + rest;
  }

  lemma NothingRead(lead: string)
    requires All(IsSpace, lead)
    ensures NextToken(lead) == Lexed((Eof, ""))
  {
    SkipSeparator(lead, "");
    assert lead + "" == lead && lead[|lead|..] == "";
  }

  // However a list of printable tokens is written, with white space only where
  // a token would run on, it is tokenised back to that list.
  lemma {:induction false} TokenizeRoundTrip(items: seq<Written>, lead: string)
    requires Readable(items) && All(IsSpace, lead)
    ensures Tokenize(lead + Render(items)) == Lexed(TokensOf(items) + [Eof])
    decreases |items|
  {
    if items == [] {
      NothingRead(lead);
      hide NextToken;
      assert lead + Render(items) == lead;
      assert TokensOf(items) + [Eof] == [Eof];
    } else {
      FirstRendered(items, lead);
      hide NextToken, Printable, Ends, All, TokenText;
      TokenizeRoundTrip(items[1..], items[0].gap);
      assert TokensOf(items) + [Eof] == [items[0].token] + (TokensOf(items[1..]) + [Eof]);
    }
  }

  // Which characters make up numbers and names, and which may separate tokens.
  const DECIMALS: string := "0123456789"
  const SPACES: seq<int> :=
    [9, 10, 11, 12, 13, 32, 160, 0x1680, 0x2000, 0x2001, 0x2002, 0x2003, 0x2004, 0x2005, 0x2006, 0x2007, 0x2008,
     0x2009, 0x200A, 0x2028, 0x2029, 0x202F, 0x205F, 0x3000, 0xFEFF]
  const CAPITALS: string := "ABCDEFGHIJKLMNOPQRSTUVWXYZ"
  const SMALL: string := "abcdefghijklmnopqrstuvwxyz"

  predicate IsLetter(c: char) {
    c in CAPITALS || c in SMALL || c == '_'
  }

  lemma CharacterClasses(c: char)
    ensures IsDigit(c) <==> c in DECIMALS
    ensures IsNameStart(c) <==> IsLetter(c)
    ensures IsNumberChar(c) <==> c in DECIMALS || c == '.'
    ensures IsNameChar(c) <==> IsLetter(c) || c in DECIMALS || c == '.'
    ensures IsSpace(c) <==> c as int in SPACES
  {
    SpacesAre(c as int);
    DecimalsAre(c);
    CapitalsAre(c);
    SmallAre(c);
  }

  lemma SpacesAre(n: int)
    ensures n in SPACES <==>
            9 <= n <= 13 || n == 32 || n == 160 || n == 0x1680 || 0x2000 <= n <= 0x200A || n == 0x2028 || n == 0x2029 ||
            n == 0x202F || n == 0x205F || n == 0x3000 || n == 0xFEFF
  {
    if 9 <= n <= 13 { assert SPACES[n - 9] == n; }
    if 0x2000 <= n <= 0x200A { assert SPACES[8 + n - 0x2000] == n; }
    assert SPACES[5] == 32 && SPACES[6] == 160 && SPACES[7] == 0x1680 && SPACES[19] == 0x2028 && SPACES[20] == 0x2029;
    assert SPACES[21] == 0x202F && SPACES[22] == 0x205F && SPACES[23] == 0x3000 && SPACES[24] == 0xFEFF;
  }

  lemma DecimalsAre(c: char)
    ensures '0' <= c <= '9' <==> c in DECIMALS
  {
    if '0' <= c <= '9' { assert DECIMALS[c as int - '0' as int] == c; }
  }

  lemma CapitalsAre(c: char)
    ensures 'A' <= c <= 'Z' <==> c in CAPITALS
  {
    if 'A' <= c <= 'Z' { assert CAPITALS[c as int - 'A' as int] == c; }
  }

  lemma SmallAre(c: char)
    ensures 'a' <= c <= 'z' <==> c in SMALL
  {
    if 'a' <= c <= 'z' { assert SMALL[c as int - 'a' as int] == c; }
  }

  // ------------------------------------------------------------ spaced writing

  predicate AllPrintable(tokens: seq<Token>) {
    forall i :: 0 <= i < |tokens| ==> Printable(tokens[i])
  }

  predicate Separator(sep: string) {
    sep != "" && All(IsSpace, sep)
  }

  // Every token in front of white space, strings in double quotes.
  function Spaced(tokens: seq<Token>, sep: string): seq<Written> {
    if tokens == [] then [] else [Written(tokens[0], '"', sep)] + Spaced(tokens[1..], sep)
  }

  lemma SpaceEnds(t: Token, sep: string, rest: string)
    requires Printable(t) && Separator(sep)
    ensures Ends(t, sep + rest)
  {
    var s := sep + rest;
    assert s[0] == sep[0] && IsSpace(s[0]);
    SpaceKind(s[0]);
    match t
    case Op(op) => OperatorOfText(op); SpaceWhole(OperatorText(op), s);
    case Arrow => SpaceWhole("=>", s);
    case _ =>
  }

  lemma SpaceKind(c: char)
    requires IsSpace(c)
    ensures !IsNumberChar(c) && !IsNameChar(c) && !IsOperatorChar(c)
  {}

  lemma SpaceWhole(text: string, s: string)
    requires text != "" && s != "" && !IsOperatorChar(s[0]) && s[0] != '>'
    ensures Whole(text, s)
  {
    forall i | 0 <= i < |LONGER_OPERATORS| && |LONGER_OPERATORS[i]| > |text|
      ensures !(LONGER_OPERATORS[i] <= text + s)
    {
      LongerChars(i, |text|);
      assert (text + s)[|text|] == s[0];
    }
  }

  lemma LongerChars(i: nat, k: nat)
    requires i < |LONGER_OPERATORS| && k < |LONGER_OPERATORS[i]|
    ensures IsOperatorChar(LONGER_OPERATORS[i][k])
  {}

  lemma {:induction false} SpacedReadable(tokens: seq<Token>, sep: string)
    requires AllPrintable(tokens) && Separator(sep)
    ensures Readable(Spaced(tokens, sep)) && TokensOf(Spaced(tokens, sep)) == tokens
    decreases |tokens|
  {
    hide Printable, Ends;
    if tokens != [] {
      SpacedReadable(tokens[1..], sep);
      SpaceEnds(tokens[0], sep, Render(Spaced(tokens[1..], sep)));
      assert tokens == [tokens[0]] + tokens[1..];
    }
  }
}
