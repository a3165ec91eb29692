/** Statements put together from code, literals and parameters: printed in any of the parameter styles, the
    rewriters turn them into the same statement printed with question marks, and name exactly its parameters. */
module Statements {
  import opened AdoCursor
  import opened FormatMeaning
  import opened SqlAssembly
  import opened SqlText
  import opened Wrappers

  datatype Token = Code(text: string) | Literal(text: string) | Parameter(name: string)

  /** How a parameter is written. */
  datatype Spelling = Mark | Colon | Percent | PercentName

  function Spell(spelling: Spelling, name: string): string {
    match spelling
    case Mark => "?"
    case Colon => ":" + name
    case Percent => "%s"
    case PercentName => "%(" + name + ")s"
  }

  function PrintToken(t: Token, spelling: Spelling): string {
    match t
    case Code(text) => text
    case Literal(text) => "'" + text + "'"
    case Parameter(name) => Spell(spelling, name)
  }

  function Print(tokens: seq<Token>, spelling: Spelling): string {
    if tokens == [] then "" else PrintToken(tokens[0], spelling) + Print(tokens[1..], spelling)
  }

  /** The names of the parameters, in order. */
  function ParameterNames(tokens: seq<Token>): seq<string> {
    if tokens == [] then []
    else (if tokens[0].Parameter? then [tokens[0].name] else []) + ParameterNames(tokens[1..])
  }

  predicate QuotableToken(t: Token) {
    match t
    case Code(text) => '\'' !in text
    case Literal(text) => text != "" && '\'' !in text
    case Parameter(name) => '\'' !in name
  }

  /** Apostrophes only stand around literals, and no literal is empty. */
  predicate Quotable(tokens: seq<Token>) {
    forall t | t in tokens :: QuotableToken(t)
  }

  /* ---- Apostrophes ---- */

  lemma QuoteIs()
    ensures "'" == [QUOTE]
  {
  }

  lemma LongerFirst(a: string, chunks: seq<string>)
    requires |chunks| > 0 && NoEmptyLiteral(chunks)
    ensures NoEmptyLiteral([a + chunks[0]] + chunks[1..]) && |[a + chunks[0]] + chunks[1..]| == |chunks|
  {
  }

  lemma UnquotedFront(a: string, b: string)
    requires Unquoted(a) && EndsInCode(b) && NoEmptyLiteral(Split(b))
    ensures EndsInCode(a + b) && NoEmptyLiteral(Split(a + b))
    ensures Split(a + b) == [a + Split(b)[0]] + Split(b)[1..]
  {
    SplitConcat(a, b);
    SplitUnquoted(a);
    LongerFirst(a, Split(b));
  }

  lemma SplitLiteral(a: string, b: string)
    requires Unquoted(a)
    ensures Split("'" + a + "'" + b) == ["", a] + Split(b)
  {
    QuoteIs();
    SplitUnquoted("");
    SplitUnquoted(a);
    SplitAtQuote("", a);
    assert "" + [QUOTE] + a == "'" + a;
    SplitAtQuote("'" + a, b);
    assert [""] + [a] == ["", a];
  }

  lemma LiteralFront(a: string, b: string)
    requires Unquoted(a) && a != "" && EndsInCode(b) && NoEmptyLiteral(Split(b))
    ensures EndsInCode("'" + a + "'" + b) && NoEmptyLiteral(Split("'" + a + "'" + b))
  {
    SplitLiteral(a, b);
    ShiftByTwo(["", a], Split(b));
  }

  lemma ShiftByTwo(a: seq<string>, b: seq<string>)
    requires |a| == 2 && a[1] != "" && |b| > 0 && !IsLiteral(|b| - 1) && NoEmptyLiteral(b)
    ensures !IsLiteral(|a + b| - 1) && NoEmptyLiteral(a + b)
  {
    forall i | 0 <= i < |a + b| && IsLiteral(i) ensures (a + b)[i] != "" {
      if i > 1 {
        assert IsLiteral(i - 2) && (a + b)[i] == b[i - 2];
      }
    }
  }

  lemma SpellUnquoted(spelling: Spelling, name: string)
    requires Unquoted(name)
    ensures Unquoted(Spell(spelling, name))
  {
  }

  lemma QuotableTail(tokens: seq<Token>)
    requires Quotable(tokens) && tokens != []
    ensures Quotable(tokens[1..]) && QuotableToken(tokens[0])
  {
    assert tokens[0] in tokens;
    assert forall t | t in tokens[1..] :: t in tokens;
  }

  /** The quotes of a printed statement are in order, whatever its parameters look like. */
  lemma {:induction false} QuotesInOrder(tokens: seq<Token>, spelling: Spelling)
    requires Quotable(tokens)
    ensures EndsInCode(Print(tokens, spelling)) && NoEmptyLiteral(Split(Print(tokens, spelling)))
  {
    if tokens == [] {
      SplitUnquoted("");
    } else {
      var t, rest := tokens[0], Print(tokens[1..], spelling);
      QuotableTail(tokens);
      QuotesInOrder(tokens[1..], spelling);
      match t
      case Code(text) => UnquotedFront(text, rest);
      case Literal(text) => LiteralFront(text, rest);
      case Parameter(name) =>
        SpellUnquoted(spelling, name);
        UnquotedFront(Spell(spelling, name), rest);
    }
  }

  /* ---- Reading a printed statement ---- */

  function Texts(s: string, quoted: bool): seq<Piece> {
    if s == "" then [] else [Text(s[0], quoted)] + Texts(s[1..], quoted)
  }

  /** What a token is to a reader of names. */
  function TokenPieces(t: Token): seq<Piece> {
    match t
    case Code(text) => Texts(text, false)
    case Literal(text) => [Text('\'', false)] + (Texts(text, true) + [Text('\'', true)])
    case Parameter(name) => [Slot(name)]
  }

  function Pieces(tokens: seq<Token>): seq<Piece> {
    if tokens == [] then [] else TokenPieces(tokens[0]) + Pieces(tokens[1..])
  }

  /** The text that is read in 'qmark' style as the pieces. */
  function Unread(pieces: seq<Piece>): string {
    if pieces == [] then "" else [if pieces[0].Text? then pieces[0].c else '?'] + Unread(pieces[1..])
  }

  lemma {:induction false} UnreadReads(s: string, quoted: bool)
    ensures Unread(ReadMarks(s, quoted)) == s
  {
    if s != "" {
      UnreadReads(s[1..], if s[0] == QUOTE then !quoted else quoted);
      assert s == [s[0]] + s[1..];
    }
  }

  lemma {:induction false} UnreadConcat(a: seq<Piece>, b: seq<Piece>)
    ensures Unread(a + b) == Unread(a) + Unread(b) && Erase(a + b) == Erase(a) + Erase(b)
  {
    if a == [] {
      assert a + b == b;
    } else {
      UnreadConcat(a[1..], b);
      TailOfConcat(a, b);
      Reassociate(if a[0].Text? then a[0].c else '?', Unread(a[1..]), Unread(b));
      Reassociate(Forget(a[0]), Erase(a[1..]), Erase(b));
    }
  }

  lemma {:induction false} UnreadTexts(s: string, quoted: bool)
    ensures Unread(Texts(s, quoted)) == s && Erase(Texts(s, quoted)) == Texts(s, quoted)
    ensures Slots(Texts(s, quoted)) == []
  {
    if s != "" {
      UnreadTexts(s[1..], quoted);
      assert s == [s[0]] + s[1..];
    }
  }

  lemma Single(p: Piece)
    ensures Unread([p]) == [if p.Text? then p.c else '?'] && Erase([p]) == [Forget(p)]
    ensures Slots([p]) == if p.Slot? then [p.name] else []
  {
    assert [p][1..] == [];
  }

  lemma UnreadToken(t: Token)
    ensures Unread(Erase(TokenPieces(t))) == PrintToken(t, Mark)
    ensures Slots(TokenPieces(t)) == if t.Parameter? then [t.name] else []
  {
    match t
    case Code(text) => UnreadTexts(text, false);
    case Parameter(name) =>
      Single(Slot(name));
      Single(MARK);
    case Literal(text) =>
      var open, body, close := [Text('\'', false)], Texts(text, true), [Text('\'', true)];
      UnreadTexts(text, true);
      Single(open[0]);
      Single(close[0]);
      UnreadConcat(body, close);
      UnreadConcat(open, body + close);
      SlotsConcat(body, close);
      SlotsConcat(open, body + close);
      assert "'" + (text + "'") == "'" + text + "'";
  }

  /** Forgetting the names leaves the statement printed with question marks. */
  lemma {:induction false} UnreadTokens(tokens: seq<Token>)
    ensures Unread(Erase(Pieces(tokens))) == Print(tokens, Mark)
    ensures Slots(Pieces(tokens)) == ParameterNames(tokens)
  {
    if tokens != [] {
      var front, rest := TokenPieces(tokens[0]), Pieces(tokens[1..]);
      UnreadToken(tokens[0]);
      UnreadTokens(tokens[1..]);
      UnreadConcat(front, rest);
      UnreadConcat(Erase(front), Erase(rest));
      SlotsConcat(front, rest);
    }
  }

  /* ---- 'named' style ---- */

  const UPPER := "ABCDEFGHIJKLMNOPQRSTUVWXYZ"
  const LOWER := "abcdefghijklmnopqrstuvwxyz"
  const DIGITS := "0123456789"

  /** A character of a name; `letters` are the alphanumerics beyond ASCII. */
  predicate InName(c: char, letters: set<char>) {
    c in UPPER || c in LOWER || c in DIGITS || c in "_" || (c >= 128 as char && c in letters)
  }

  lemma UpperIs(c: char)
    ensures c in UPPER <==> 'A' <= c <= 'Z'
  {
    if 'A' <= c <= 'Z' {
      var k := c as int - 65;
      assert k in {0, 1, 2, 3, 4, 5, 6, 7, 8, 9, 10, 11, 12, 13, 14, 15, 16, 17, 18, 19, 20, 21, 22, 23, 24, 25};
      assert UPPER[k] == c;
    }
  }

  lemma LowerIs(c: char)
    ensures c in LOWER <==> 'a' <= c <= 'z'
  {
    if 'a' <= c <= 'z' {
      var k := c as int - 97;
      assert k in {0, 1, 2, 3, 4, 5, 6, 7, 8, 9, 10, 11, 12, 13, 14, 15, 16, 17, 18, 19, 20, 21, 22, 23, 24, 25};
      assert LOWER[k] == c;
    }
  }

  lemma DigitIs(c: char)
    ensures c in DIGITS <==> '0' <= c <= '9'
  {
    if '0' <= c <= '9' {
      var k := c as int - 48;
      assert k in {0, 1, 2, 3, 4, 5, 6, 7, 8, 9};
      assert DIGITS[k] == c;
    }
  }

  /** The scanner of names knows exactly these characters. */
  lemma NameCharIs(c: char, letters: set<char>)
    ensures InName(c, letters) <==> NameChar(c, letters)
  {
    UpperIs(c);
    LowerIs(c);
    DigitIs(c);
    assert "_"[0] == '_';
  }

  /** What follows a parameter does not go on with its name. */
  predicate EndsName(rest: string, letters: set<char>) {
    rest == "" || !InName(rest[0], letters)
  }

  /** Neither a colon nor a question mark stands outside literals, and names are names. */
  predicate NamedStatement(tokens: seq<Token>, letters: set<char>) {
    tokens == []
    || (&& NamedStatement(tokens[1..], letters)
        && match tokens[0]
           case Code(text) => ':' !in text && '?' !in text
           case Literal(_) => true
           case Parameter(name) =>
             && name != "" && (forall c | c in name :: InName(c, letters))
             && EndsName(Print(tokens[1..], Colon), letters))
  }

  lemma {:induction false} ReadCode(s: string, rest: string, letters: set<char>)
    requires Unquoted(s) && ':' !in s
    ensures ReadNamed(s + rest, false, letters) == Texts(s, false) + ReadNamed(rest, false, letters)
  {
    if s == "" {
      assert s + rest == rest;
    } else {
      ReadCode(s[1..], rest, letters);
      TailOfConcat(s, rest);
      Reassociate(Text(s[0], false), Texts(s[1..], false), ReadNamed(rest, false, letters));
    }
  }

  lemma {:induction false} ReadLiteral(s: string, rest: string, letters: set<char>)
    requires Unquoted(s)
    ensures ReadNamed(s + rest, true, letters) == Texts(s, true) + ReadNamed(rest, true, letters)
  {
    if s == "" {
      assert s + rest == rest;
    } else {
      ReadLiteral(s[1..], rest, letters);
      TailOfConcat(s, rest);
      Reassociate(Text(s[0], true), Texts(s[1..], true), ReadNamed(rest, true, letters));
    }
  }

  lemma {:induction false} NameLengthOf(name: string, rest: string, letters: set<char>)
    requires (forall c | c in name :: InName(c, letters)) && EndsName(rest, letters)
    ensures NameLength(name + rest, letters) == |name|
  {
    if name == "" {
      assert name + rest == rest;
      if rest != "" {
        NameCharIs(rest[0], letters);
      }
    } else {
      NameCharIs(name[0], letters);
      NameLengthOf(name[1..], rest, letters);
      TailOfConcat(name, rest);
    }
  }

  lemma ReadParameter(name: string, rest: string, letters: set<char>)
    requires name != "" && (forall c | c in name :: InName(c, letters)) && EndsName(rest, letters)
    ensures ReadNamed(":" + name + rest, false, letters) == [Slot(name)] + ReadNamed(rest, false, letters)
  {
    var s := ":" + name + rest;
    NameLengthOf(name, rest, letters);
    assert s[0] == ':' && s[1..] == name + rest;
    assert (name + rest)[..|name|] == name && (name + rest)[|name|..] == rest;
  }

  /** Reading up to an apostrophe, over it and on. */
  lemma ReadQuoted(s: string, rest: string, letters: set<char>)
    requires Unquoted(s)
    ensures ReadNamed("'" + s + "'" + rest, false, letters)
         == TokenPieces(Literal(s)) + ReadNamed(rest, false, letters)
  {
    var close := "'" + rest;
    QuoteIs();
    assert "'" + s + "'" + rest == "'" + (s + close);
    assert ("'" + (s + close))[1..] == s + close && close[1..] == rest;
    ReadLiteral(s, close, letters);
    Grouped(Text('\'', false), Texts(s, true), Text('\'', true), ReadNamed(rest, false, letters));
  }

  lemma Grouped<T>(x: T, a: seq<T>, y: T, b: seq<T>)
    ensures [x] + (a + ([y] + b)) == [x] + (a + [y]) + b
  {
  }

  /** A printed statement is read as its tokens. */
  lemma {:induction false} ReadsTokens(tokens: seq<Token>, letters: set<char>)
    requires Quotable(tokens) && NamedStatement(tokens, letters)
    ensures ReadNamed(Print(tokens, Colon), false, letters) == Pieces(tokens)
  {
    if tokens != [] {
      var t, rest := tokens[0], Print(tokens[1..], Colon);
      QuotableTail(tokens);
      ReadsTokens(tokens[1..], letters);
      match t
      case Code(text) => ReadCode(text, rest, letters);
      case Literal(text) => ReadQuoted(text, rest, letters);
      case Parameter(name) => ReadParameter(name, rest, letters);
    }
  }

  lemma {:induction false} PlainTexts(s: string, quoted: bool)
    requires quoted || (':' !in s && '?' !in s)
    ensures NamedStyle.PlainCode(Texts(s, quoted))
  {
    if s != "" {
      PlainTexts(s[1..], quoted);
      assert s == [s[0]] + s[1..];
    }
  }

  lemma {:induction false} PiecesArePlain(tokens: seq<Token>, letters: set<char>)
    requires NamedStatement(tokens, letters)
    ensures NamedStyle.PlainCode(Pieces(tokens))
  {
    if tokens != [] {
      PiecesArePlain(tokens[1..], letters);
      match tokens[0]
      case Code(text) => PlainTexts(text, false);
      case Literal(text) => PlainTexts(text, true);
      case Parameter(_) =>
    }
  }

  /** The 'named' rewriting translates statements: the text it returns is the same statement printed with
      question marks, and the names it returns are those of the parameters, in order and repeated. */
  lemma NamedTranslates(tokens: seq<Token>, letters: set<char>)
    requires Quotable(tokens) && NamedStatement(tokens, letters)
    ensures NamedStyle.QmarkText(Print(tokens, Colon), letters) == Print(tokens, Mark)
    ensures NamedStyle.QmarkNames(Print(tokens, Colon), letters) == ParameterNames(tokens)
  {
    var op := Print(tokens, Colon);
    QuotesInOrder(tokens, Colon);
    ReadsTokens(tokens, letters);
    PiecesArePlain(tokens, letters);
    NamedStyle.NamedKeepsMeaningIff(op, letters);
    NamedStyle.NamesAreTheParameters(op, letters);
    UnreadReads(NamedStyle.QmarkText(op, letters), false);
    UnreadTokens(tokens);
  }

  /* ---- 'format' and 'pyformat' style ---- */

  /** Neither a percent sign nor a question mark stands in the code, and no name closes its placeholder. */
  predicate FormatStatement(tokens: seq<Token>) {
    forall t | t in tokens :: FormatToken(t)
  }

  predicate FormatToken(t: Token) {
    match t
    case Code(text) => '%' !in text && '?' !in text
    case Literal(_) => true
    case Parameter(name) => ')' !in name
  }

  lemma FormatTail(tokens: seq<Token>)
    requires FormatStatement(tokens) && tokens != []
    ensures FormatStatement(tokens[1..]) && FormatToken(tokens[0])
  {
    assert tokens[0] in tokens;
    assert forall t | t in tokens[1..] :: t in tokens;
  }

  function Letters(s: string, quoted: bool): seq<FormatPiece> {
    if s == "" then [] else [Letter(s[0], quoted)] + Letters(s[1..], quoted)
  }

  /** What a token is to a reader of placeholders. */
  function TokenParts(t: Token, spelling: Spelling): seq<FormatPiece> {
    match t
    case Code(text) => Letters(text, false)
    case Literal(text) => [Letter('\'', false)] + (Letters(text, true) + [Letter('\'', true)])
    case Parameter(name) => [if spelling == PercentName then Called(name) else Next]
  }

  function Parts(tokens: seq<Token>, spelling: Spelling): seq<FormatPiece> {
    if tokens == [] then [] else TokenParts(tokens[0], spelling) + Parts(tokens[1..], spelling)
  }

  lemma Starting(s: string, c: char, d: char)
    ensures FormatStyle.Starts(s, [c, d]) <==> |s| >= 2 && s[0] == c && s[1] == d
  {
    if |s| >= 2 {
      assert s[..2] == [s[0], s[1]];
    }
  }

  /** The three tokens of the format style, character by character. */
  lemma TokensAre()
    ensures FormatStyle.OPEN == ['%', '('] && FormatStyle.CLOSE == [')', 's'] && FormatStyle.PLAIN == ['%', 's']
  {
  }

  lemma NoPercent(s: string)
    requires s != "" && s[0] != '%'
    ensures !FormatStyle.Starts(s, FormatStyle.OPEN) && !FormatStyle.Starts(s, FormatStyle.PLAIN) && !OpensName(s)
  {
    TokensAre();
    Starting(s, '%', '(');
    Starting(s, '%', 's');
  }

  lemma {:induction false} ReadFormatCode(s: string, rest: string)
    requires Unquoted(s) && '%' !in s
    ensures ReadFormat(s + rest, false) == Letters(s, false) + ReadFormat(rest, false)
  {
    if s == "" {
      assert s + rest == rest;
    } else {
      NoPercent(s + rest);
      ReadFormatCode(s[1..], rest);
      TailOfConcat(s, rest);
      Reassociate(Letter(s[0], false), Letters(s[1..], false), ReadFormat(rest, false));
    }
  }

  lemma {:induction false} ReadFormatLiteral(s: string, rest: string)
    requires Unquoted(s)
    ensures ReadFormat(s + rest, true) == Letters(s, true) + ReadFormat(rest, true)
  {
    if s == "" {
      assert s + rest == rest;
    } else {
      ReadFormatLiteral(s[1..], rest);
      TailOfConcat(s, rest);
      Reassociate(Letter(s[0], true), Letters(s[1..], true), ReadFormat(rest, true));
    }
  }

  lemma ReadFormatQuoted(s: string, rest: string)
    requires Unquoted(s)
    ensures ReadFormat("'" + s + "'" + rest, false) == TokenParts(Literal(s), Percent) + ReadFormat(rest, false)
  {
    var close := "'" + rest;
    QuoteIs();
    assert "'" + s + "'" + rest == "'" + (s + close);
    assert ("'" + (s + close))[1..] == s + close && close[1..] == rest;
    ReadFormatLiteral(s, close);
    Grouped(Letter('\'', false), Letters(s, true), Letter('\'', true), ReadFormat(rest, false));
  }

  lemma {:induction false} FindClose(name: string, rest: string)
    requires ')' !in name
    ensures FormatStyle.Find(name + (")s" + rest), FormatStyle.CLOSE) == |name|
  {
    var s := name + (")s" + rest);
    TokensAre();
    Starting(s, ')', 's');
    if name == "" {
      assert s == ")s" + rest;
    } else {
      FindClose(name[1..], rest);
      TailOfConcat(name, ")s" + rest);
    }
  }

  /** A placeholder at the front. */
  lemma PlaceholderFront(name: string, rest: string)
    requires Unquoted(name) && ')' !in name
    ensures var s := "%(" + name + ")s" + rest;
            && FormatStyle.Starts(s, FormatStyle.OPEN) && FormatStyle.Find(s[2..], FormatStyle.CLOSE) == |name|
            && |name| + 2 <= |s[2..]| && s[2..][..|name|] == name && s[2..][|name| + 2..] == rest
  {
    var s := "%(" + name + ")s" + rest;
    var close := ")s" + rest;
    TokensAre();
    Starting(s, '%', '(');
    assert s[2..] == name + close;
    FindClose(name, rest);
    assert (name + close)[..|name|] == name && (name + close)[|name| + 2..] == rest;
  }

  lemma PlainFront(rest: string)
    ensures var s := "%s" + rest;
            && FormatStyle.Starts(s, FormatStyle.PLAIN) && !FormatStyle.Starts(s, FormatStyle.OPEN)
            && s[2..] == rest && s[1..] == "s" + rest
  {
    TokensAre();
    Starting("%s" + rest, '%', '(');
    Starting("%s" + rest, '%', 's');
  }

  lemma ReadPlaceholder(name: string, rest: string, spelling: Spelling)
    requires (spelling == Percent || spelling == PercentName) && Unquoted(name) && ')' !in name
    ensures ReadFormat(Spell(spelling, name) + rest, false)
         == TokenParts(Parameter(name), spelling) + ReadFormat(rest, false)
  {
    if spelling == Percent {
      PlainFront(rest);
    } else {
      PlaceholderFront(name, rest);
    }
  }

  lemma {:induction false} ReadsParts(tokens: seq<Token>, spelling: Spelling)
    requires Quotable(tokens) && FormatStatement(tokens) && (spelling == Percent || spelling == PercentName)
    ensures ReadFormat(Print(tokens, spelling), false) == Parts(tokens, spelling)
  {
    if tokens != [] {
      var t, rest := tokens[0], Print(tokens[1..], spelling);
      QuotableTail(tokens);
      FormatTail(tokens);
      ReadsParts(tokens[1..], spelling);
      match t
      case Code(text) => ReadFormatCode(text, rest);
      case Literal(text) => ReadFormatQuoted(text, rest);
      case Parameter(name) => ReadPlaceholder(name, rest, spelling);
    }
  }

  lemma {:induction false} BlankConcat(a: seq<FormatPiece>, b: seq<FormatPiece>)
    ensures Blank(a + b) == Blank(a) + Blank(b)
  {
    if a == [] {
      assert a + b == b;
    } else {
      BlankConcat(a[1..], b);
      TailOfConcat(a, b);
      Reassociate(if a[0].Letter? then Text(a[0].c, a[0].quoted) else MARK, Blank(a[1..]), Blank(b));
    }
  }

  lemma {:induction false} BlankLetters(s: string, quoted: bool)
    requires quoted || '?' !in s
    ensures Blank(Letters(s, quoted)) == Texts(s, quoted) && Letter('?', false) !in Letters(s, quoted)
    ensures FormatMeaning.Names(Letters(s, quoted)) == []
    ensures ByName(Letters(s, quoted)) && Positional(Letters(s, quoted))
  {
    if s != "" {
      BlankLetters(s[1..], quoted);
      FormatMeaning.SeenFirst(Letter(s[0], quoted), Letters(s[1..], quoted));
    }
  }

  lemma OnePart(p: FormatPiece)
    ensures Blank([p]) == [if p.Letter? then Text(p.c, p.quoted) else MARK]
    ensures FormatMeaning.Names([p]) == if p.Called? then [p.name] else []
  {
    assert [p][1..] == [];
  }

  /** What a token leaves when its name is forgotten, and the name. */
  lemma BlankToken(t: Token, spelling: Spelling)
    requires FormatToken(t)
    ensures Blank(TokenParts(t, spelling)) == Erase(TokenPieces(t))
    ensures Letter('?', false) !in TokenParts(t, spelling)
    ensures FormatMeaning.Names(TokenParts(t, spelling))
         == if t.Parameter? && spelling == PercentName then [t.name] else []
    ensures if spelling == PercentName then ByName(TokenParts(t, spelling)) else Positional(TokenParts(t, spelling))
  {
    match t
    case Code(text) =>
      BlankLetters(text, false);
      UnreadTexts(text, false);
    case Parameter(name) =>
      OnePart(TokenParts(t, spelling)[0]);
      Single(Slot(name));
    case Literal(text) =>
      QuotedIsBlank(text);
      QuotedNamesNothing(text);
  }

  lemma QuotedIsBlank(text: string)
    ensures Blank(TokenParts(Literal(text), Percent)) == Erase(TokenPieces(Literal(text)))
  {
    var body, close := Letters(text, true), [Letter('\'', true)];
    BlankLetters(text, true);
    OnePart(Letter('\'', false));
    OnePart(Letter('\'', true));
    BlankConcat(body, close);
    BlankConcat([Letter('\'', false)], body + close);
    UnreadTexts(text, true);
    Single(Text('\'', false));
    Single(Text('\'', true));
    UnreadConcat(Texts(text, true), [Text('\'', true)]);
    UnreadConcat([Text('\'', false)], Texts(text, true) + [Text('\'', true)]);
  }

  lemma QuotedNamesNothing(text: string)
    ensures var parts := TokenParts(Literal(text), Percent);
            && Letter('?', false) !in parts && FormatMeaning.Names(parts) == [] && ByName(parts) && Positional(parts)
  {
    var body, close := Letters(text, true), [Letter('\'', true)];
    BlankLetters(text, true);
    OnePart(Letter('\'', true));
    FormatMeaning.SeenConcat(body, close);
    KindsConcat(body, close);
    FormatMeaning.SeenFirst(Letter('\'', false), body + close);
  }

  lemma {:induction false} BlankTokens(tokens: seq<Token>, spelling: Spelling)
    requires FormatStatement(tokens)
    ensures Blank(Parts(tokens, spelling)) == Erase(Pieces(tokens))
    ensures Letter('?', false) !in Parts(tokens, spelling)
    ensures FormatMeaning.Names(Parts(tokens, spelling))
         == if spelling == PercentName then ParameterNames(tokens) else []
    ensures if spelling == PercentName then ByName(Parts(tokens, spelling)) else Positional(Parts(tokens, spelling))
  {
    if tokens != [] {
      var front, rest := TokenParts(tokens[0], spelling), Parts(tokens[1..], spelling);
      FormatTail(tokens);
      BlankToken(tokens[0], spelling);
      BlankTokens(tokens[1..], spelling);
      BlankConcat(front, rest);
      FormatMeaning.SeenConcat(front, rest);
      KindsConcat(front, rest);
      UnreadConcat(TokenPieces(tokens[0]), Pieces(tokens[1..]));
    }
  }

  /* ---- The rewriting does not raise ---- */

  lemma {:induction false} CodeRewrites(s: string, rest: string)
    requires '%' !in s && FormatStyle.RewritePy(rest).Some?
    ensures FormatStyle.RewritePy(s + rest).Some?
  {
    if s == "" {
      assert s + rest == rest;
    } else {
      NoPercent(s + rest);
      CodeRewrites(s[1..], rest);
      TailOfConcat(s, rest);
    }
  }

  lemma PlaceholderRewrites(name: string, rest: string, spelling: Spelling)
    requires (spelling == Percent || spelling == PercentName) && Unquoted(name) && ')' !in name
    requires FormatStyle.RewritePy(rest).Some?
    ensures FormatStyle.RewritePy(Spell(spelling, name) + rest).Some?
  {
    if spelling == Percent {
      PlainFront(rest);
      CodeRewrites("s", rest);
    } else {
      PlaceholderFront(name, rest);
    }
  }

  /** Every code chunk could be rewritten as 'pyformat'. */
  ghost predicate AllClosed(chunks: seq<string>) {
    forall i | 0 <= i < |chunks| && !IsLiteral(i) :: FormatStyle.RewritePy(chunks[i]).Some?
  }

  lemma FrontCloses(piece: string, rest: string)
    requires Unquoted(piece) && AllClosed(Split(rest)) && FormatStyle.RewritePy(piece + Split(rest)[0]).Some?
    ensures AllClosed(Split(piece + rest))
  {
    SplitConcat(piece, rest);
    SplitUnquoted(piece);
    assert Split(piece + rest) == [piece + Split(rest)[0]] + Split(rest)[1..];
  }

  lemma QuotedCloses(text: string, rest: string)
    requires Unquoted(text) && AllClosed(Split(rest))
    ensures AllClosed(Split("'" + text + "'" + rest))
  {
    SplitLiteral(text, rest);
    var chunks := ["", text] + Split(rest);
    forall i | 0 <= i < |chunks| && !IsLiteral(i) ensures FormatStyle.RewritePy(chunks[i]).Some? {
      if i >= 2 {
        assert !IsLiteral(i - 2) && chunks[i] == Split(rest)[i - 2];
      }
    }
  }

  lemma {:induction false} AllPlaceholdersClose(tokens: seq<Token>, spelling: Spelling)
    requires Quotable(tokens) && FormatStatement(tokens) && (spelling == Percent || spelling == PercentName)
    ensures AllClosed(Split(Print(tokens, spelling)))
  {
    if tokens == [] {
      SplitUnquoted("");
    } else {
      var t, rest := tokens[0], Print(tokens[1..], spelling);
      QuotableTail(tokens);
      FormatTail(tokens);
      AllPlaceholdersClose(tokens[1..], spelling);
      match t
      case Code(text) =>
        CodeRewrites(text, Split(rest)[0]);
        FrontCloses(text, rest);
      case Literal(text) => QuotedCloses(text, rest);
      case Parameter(name) =>
        SpellUnquoted(spelling, name);
        PlaceholderRewrites(name, Split(rest)[0], spelling);
        FrontCloses(Spell(spelling, name), rest);
    }
  }

  lemma ClosedRewrites(chunks: seq<string>)
    requires AllClosed(chunks)
    ensures FormatStyle.AllRewrite(chunks)
  {
  }

  /** So does the 'format' rewriting, for `%s` and for `%(name)s`; it names the parameters that have names, and
      it does not raise. */
  lemma FormatTranslates(tokens: seq<Token>, spelling: Spelling)
    requires Quotable(tokens) && FormatStatement(tokens) && (spelling == Percent || spelling == PercentName)
    ensures FormatStyle.AllRewrite(Split(Print(tokens, spelling)))
    ensures FormatStyle.QmarkText(Print(tokens, spelling)) == Print(tokens, Mark)
    ensures FormatStyle.QmarkNames(Print(tokens, spelling))
         == if spelling == PercentName then ParameterNames(tokens) else []
  {
    var op := Print(tokens, spelling);
    AllPlaceholdersClose(tokens, spelling);
    ClosedRewrites(Split(op));
    QuotesInOrder(tokens, spelling);
    ReadsParts(tokens, spelling);
    BlankTokens(tokens, spelling);
    FormatKeepsMeaningIff(op);
    NamesAreCalled(op);
    UnreadReads(FormatStyle.QmarkText(op), false);
    UnreadTokens(tokens);
  }

  /* ---- What a call sends ---- */

  lemma {:induction false} BindIs<V>(names: seq<string>, entries: map<string, V>)
    ensures NamedStyle.Bind(names, entries).Some? <==> forall name | name in names :: name in entries
    ensures var values := NamedStyle.Bind(names, entries);
            values.Some? ==> |values.value| == |names|
                             && forall i | 0 <= i < |names| ::
                                  names[i] in entries && values.value[i] == entries[names[i]]
  {
    if names != [] {
      BindIs(names[1..], entries);
      assert names == [names[0]] + names[1..];
    }
  }

  /** The values of the parameters, one for each place where one stands. */
  ghost predicate BoundByName<V>(bound: seq<Bound<V>>, names: seq<string>, entries: map<string, V>) {
    |bound| == |names| && forall i | 0 <= i < |names| :: names[i] in entries && bound[i] == Val(entries[names[i]])
  }

  /** Without parameters, under 'qmark', and under 'dynamic' with a sequence, the text is sent as it is, with the
      values in their order. */
  lemma SentAsItIs<V>(style: ParamStyle, op: Operation, isList: bool, values: seq<V>, answer: Answer,
                      letters: set<char>)
    requires !answer.Refuses?
    ensures Fresh<V>(style, op, Attempt(NoParams, answer), letters) == Sent(op.text, [])
    ensures style == Qmark || style == Dynamic ==>
              Fresh(style, op, Attempt(Sequence(isList, values), answer), letters) == Sent(op.text, Values(values))
  {
    FreshEmits<V>(style, Raw, op, Attempt(NoParams, answer), letters);
    if style == Qmark || style == Dynamic {
      FreshEmits(style, Raw, op, Attempt(Sequence(isList, values), answer), letters);
    }
  }

  /** What rewriting a statement with a mapping comes to, once its text and names are known. */
  lemma MappingSent<V>(text: string, names: seq<string>, keys: seq<string>, entries: map<string, V>, answer: Answer)
    requires !answer.Refuses? && keys != [] && names != []
    ensures var outcome := Emit(FormatStyle.Code(text, names), Attempt(Mapping(keys, entries), answer));
            if forall name | name in names :: name in entries
            then outcome.Sent? && outcome.text == text && BoundByName(outcome.bound, names, entries)
            else outcome == Raised
  {
    BindIs(names, entries);
    if NamedStyle.Bind(names, entries).Some? {
      MappingEmits(FormatStyle.Code(text, names), keys, entries, answer);
    }
  }

  lemma SequenceSent<V>(text: string, isList: bool, values: seq<V>, answer: Answer)
    requires !answer.Refuses? && values != []
    ensures Emit(FormatStyle.Code(text, []), Attempt(Sequence(isList, values), answer)) == Sent(text, Values(values))
  {
  }

  /** The text and the names that the 'format' rewriting settles on. */
  lemma FormatCode(tokens: seq<Token>, spelling: Spelling, letters: set<char>)
    requires Quotable(tokens) && FormatStatement(tokens) && (spelling == Percent || spelling == PercentName)
    ensures Rewrite(AsFormat, Print(tokens, spelling), letters)
         == Some(FormatStyle.Code(Print(tokens, Mark), if spelling == PercentName then ParameterNames(tokens) else []))
  {
    FormatTranslates(tokens, spelling);
  }

  /** A statement in 'named' style, under 'named' or 'dynamic', executed with a mapping: the statement printed with
      question marks and, for each of them, the value of its name; it raises exactly if one is missing. */
  lemma NamedStatementSends<V>(style: ParamStyle, tokens: seq<Token>, id: nat, keys: seq<string>,
                               entries: map<string, V>, answer: Answer, letters: set<char>)
    requires Quotable(tokens) && NamedStatement(tokens, letters) && (style == NamedParams || style == Dynamic)
    requires !answer.Refuses? && keys != [] && ParameterNames(tokens) != []
    ensures var names := ParameterNames(tokens);
            var outcome :=
              Fresh(style, Operation(id, Print(tokens, Colon)), Attempt(Mapping(keys, entries), answer), letters);
            if forall name | name in names :: name in entries
            then outcome.Sent? && outcome.text == Print(tokens, Mark) && BoundByName(outcome.bound, names, entries)
            else outcome == Raised
  {
    NamedTranslates(tokens, letters);
    FreshEmits(style, AsNamed, Operation(id, Print(tokens, Colon)), Attempt(Mapping(keys, entries), answer), letters);
    MappingSent(Print(tokens, Mark), ParameterNames(tokens), keys, entries, answer);
  }

  /** The same in 'pyformat' style. */
  lemma PyformatStatementSends<V>(tokens: seq<Token>, id: nat, keys: seq<string>, entries: map<string, V>,
                                  answer: Answer, letters: set<char>)
    requires Quotable(tokens) && FormatStatement(tokens)
    requires !answer.Refuses? && keys != [] && ParameterNames(tokens) != []
    ensures var names := ParameterNames(tokens);
            var op := Operation(id, Print(tokens, PercentName));
            var outcome := Fresh(FormatParams, op, Attempt(Mapping(keys, entries), answer), letters);
            if forall name | name in names :: name in entries
            then outcome.Sent? && outcome.text == Print(tokens, Mark) && BoundByName(outcome.bound, names, entries)
            else outcome == Raised
  {
    var op := Operation(id, Print(tokens, PercentName));
    FormatCode(tokens, PercentName, letters);
    FreshEmits(FormatParams, AsFormat, op, Attempt(Mapping(keys, entries), answer), letters);
    MappingSent(Print(tokens, Mark), ParameterNames(tokens), keys, entries, answer);
  }

  /** A statement in 'format' style executed with a sequence: the statement printed with question marks, and the
      values in their order. */
  lemma FormatStatementSends<V>(tokens: seq<Token>, id: nat, isList: bool, values: seq<V>, answer: Answer,
                                letters: set<char>)
    requires Quotable(tokens) && FormatStatement(tokens) && !answer.Refuses? && values != []
    ensures var op := Operation(id, Print(tokens, Percent));
            Fresh(FormatParams, op, Attempt(Sequence(isList, values), answer), letters)
            == Sent(Print(tokens, Mark), Values(values))
  {
    var op := Operation(id, Print(tokens, Percent));
    FormatCode(tokens, Percent, letters);
    FreshEmits(FormatParams, AsFormat, op, Attempt(Sequence(isList, values), answer), letters);
    SequenceSent(Print(tokens, Mark), isList, values, answer);
  }

  /** Names cannot be looked up in a sequence. */
  lemma NamesNeedAMapping<V>(tokens: seq<Token>, id: nat, isList: bool, values: seq<V>, answer: Answer,
                             letters: set<char>)
    requires Quotable(tokens) && NamedStatement(tokens, letters) && !answer.Refuses? && values != []
    ensures Fresh(NamedParams, Operation(id, Print(tokens, Colon)), Attempt(Sequence(isList, values), answer), letters)
         == if ParameterNames(tokens) != [] then Raised else Sent(Print(tokens, Mark), Values(values))
  {
    var op := Operation(id, Print(tokens, Colon));
    NamedTranslates(tokens, letters);
    FreshEmits(NamedParams, AsNamed, op, Attempt(Sequence(isList, values), answer), letters);
  }
}
