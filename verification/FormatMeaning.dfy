/** What a text in 'format' or 'pyformat' style means, and when a call in 'format' style keeps it, from the
    text to the values bound. */
module FormatMeaning {
  import opened AdoCursor
  import opened FormatStyle
  import opened SqlAssembly
  import opened SqlText
  import opened Wrappers

  /** One character, inside or outside a literal, or the place of the next parameter or of a named one. */
  datatype FormatPiece = Letter(c: char, quoted: bool) | Next | Called(name: string)

  /** A `%(name)s` at the front, within one stretch of code. */
  predicate OpensName(s: string) {
    Starts(s, OPEN) && Find(s[2..], CLOSE) < |s[2..]| && Unquoted(s[2..][..Find(s[2..], CLOSE)])
  }

  /** What a text in 'format' or 'pyformat' style means: `%s` and `%(name)s` outside literals are
      parameters. */
  function ReadFormat(s: string, quoted: bool): seq<FormatPiece>
    decreases |s|
  {
    if s == "" then []
    else if s[0] == QUOTE then [Letter(QUOTE, quoted)] + ReadFormat(s[1..], !quoted)
    else if quoted then [Letter(s[0], true)] + ReadFormat(s[1..], true)
    else if OpensName(s) then
      var k := Find(s[2..], CLOSE);
      [Called(s[2..][..k])] + ReadFormat(s[2..][k + 2..], false)
    else if Starts(s, PLAIN) then [Next] + ReadFormat(s[2..], false)
    else [Letter(s[0], false)] + ReadFormat(s[1..], false)
  }

  /** No parameter has a name. */
  predicate Positional(pieces: seq<FormatPiece>) {
    forall i | 0 <= i < |pieces| :: !pieces[i].Called?
  }

  /** Every parameter has a name. */
  predicate ByName(pieces: seq<FormatPiece>) {
    Next !in pieces
  }

  /** Fill a text from the values in order; `None` for a name, or when there are not as many. */
  function FillInOrder<V>(pieces: seq<FormatPiece>, values: seq<V>): Option<seq<NamedStyle.Filled<V>>> {
    if pieces == [] then if values == [] then Some([]) else None
    else
      match pieces[0]
      case Called(_) => None
      case Letter(c, quoted) =>
        (match FillInOrder(pieces[1..], values)
         case None => None
         case Some(rest) => Some([NamedStyle.Char(c, quoted)] + rest))
      case Next =>
        if values == [] then None
        else
          match FillInOrder(pieces[1..], values[1..])
          case None => None
          case Some(rest) => Some([NamedStyle.Value(values[0])] + rest)
  }

  /** Fill a text from the mapping; `None` for a parameter without a name, or when a name is missing. */
  function FillByName<V>(pieces: seq<FormatPiece>, params: map<string, V>): Option<seq<NamedStyle.Filled<V>>> {
    if pieces == [] then Some([])
    else
      match FillByName(pieces[1..], params)
      case None => None
      case Some(rest) =>
        match pieces[0]
        case Next => None
        case Letter(c, quoted) => Some([NamedStyle.Char(c, quoted)] + rest)
        case Called(name) => if name in params then Some([NamedStyle.Value(params[name])] + rest) else None
  }

  /* ---- What the reader of a 'qmark' text sees ---- */

  function Seen(p: FormatPiece): Piece {
    if p.Letter? && p != Letter('?', false) then Text(p.c, p.quoted) else MARK
  }

  function AllSeen(pieces: seq<FormatPiece>): seq<Piece> {
    if pieces == [] then [] else [Seen(pieces[0])] + AllSeen(pieces[1..])
  }

  /** The same text with every parameter a mark. */
  function Blank(pieces: seq<FormatPiece>): seq<Piece> {
    if pieces == [] then []
    else [if pieces[0].Letter? then Text(pieces[0].c, pieces[0].quoted) else MARK] + Blank(pieces[1..])
  }

  function Names(pieces: seq<FormatPiece>): seq<string> {
    if pieces == [] then [] else (if pieces[0].Called? then [pieces[0].name] else []) + Names(pieces[1..])
  }

  lemma SeenFirst(p: FormatPiece, rest: seq<FormatPiece>)
    ensures AllSeen([p] + rest) == [Seen(p)] + AllSeen(rest)
    ensures Names([p] + rest) == (if p.Called? then [p.name] else []) + Names(rest)
    ensures ByName([p] + rest) <==> p != Next && ByName(rest)
    ensures Positional([p] + rest) <==> !p.Called? && Positional(rest)
  {
    assert ([p] + rest)[1..] == rest;
    if Positional([p] + rest) {
      assert forall i | 0 <= i < |rest| :: rest[i] == ([p] + rest)[i + 1];
    }
  }

  lemma KindsConcat(a: seq<FormatPiece>, b: seq<FormatPiece>)
    ensures ByName(a + b) <==> ByName(a) && ByName(b)
    ensures Positional(a + b) <==> Positional(a) && Positional(b)
  {
    if Positional(a + b) {
      assert forall i | 0 <= i < |a| :: a[i] == (a + b)[i];
      assert forall i | 0 <= i < |b| :: b[i] == (a + b)[|a| + i];
    }
  }

  lemma {:induction false} SeenConcat(a: seq<FormatPiece>, b: seq<FormatPiece>)
    ensures AllSeen(a + b) == AllSeen(a) + AllSeen(b) && Names(a + b) == Names(a) + Names(b)
  {
    if a == [] {
      assert a + b == b;
    } else {
      SeenConcat(a[1..], b);
      TailOfConcat(a, b);
      Reassociate(Seen(a[0]), AllSeen(a[1..]), AllSeen(b));
      if a[0].Called? {
        Reassociate(a[0].name, Names(a[1..]), Names(b));
      }
    }
  }

  lemma SameTail<T>(x: T, y: T, a: seq<T>, b: seq<T>)
    ensures [x] + a == [y] + b <==> x == y && a == b
  {
    if [x] + a == [y] + b {
      assert ([x] + a)[1..] == a && ([y] + b)[1..] == b && ([x] + a)[0] == x && ([y] + b)[0] == y;
    }
  }

  lemma {:induction false} SeenIsBlankIff(pieces: seq<FormatPiece>)
    ensures AllSeen(pieces) == Blank(pieces) <==> Letter('?', false) !in pieces
  {
    if pieces != [] {
      var p := pieces[0];
      SeenIsBlankIff(pieces[1..]);
      SameTail(Seen(p), if p.Letter? then Text(p.c, p.quoted) else MARK, AllSeen(pieces[1..]), Blank(pieces[1..]));
      assert pieces == [p] + pieces[1..];
    }
  }

  /* ---- One code chunk ---- */

  lemma MarkFirst(c: char, rest: string)
    requires c != QUOTE
    ensures ReadMarks([c] + rest, false) == [Seen(Letter(c, false))] + ReadMarks(rest, false)
    ensures ReadMarks("?" + rest, false) == [MARK] + ReadMarks(rest, false)
  {
    assert ([c] + rest)[1..] == rest && ("?" + rest)[1..] == rest;
  }

  /** A chunk of code that can be rewritten as 'pyformat' is read alike, if every parameter has a name. */
  lemma {:induction false} PyMarks(s: string)
    requires Unquoted(s) && RewritePy(s).Some? && ByName(ReadFormat(s, false))
    ensures ReadMarks(RewritePy(s).value.text, false) == AllSeen(ReadFormat(s, false))
    ensures RewritePy(s).value.names == Names(ReadFormat(s, false))
    decreases |s|
  {
    if s == "" {
    } else if Starts(s, OPEN) {
      var k := Find(s[2..], CLOSE);
      PlaceholderParts(s, k);
      UnquotedSlice(s, 2, 2 + k);
      UnquotedSlice(s, 4 + k, 4 + k);
      assert s[2..][..k] == s[2..2 + k] && s[2..][k + 2..] == s[4 + k..];
      SeenFirst(Called(s[2..][..k]), ReadFormat(s[2..][k + 2..], false));
      PyMarks(s[2..][k + 2..]);
      MarkFirst('?', RewritePy(s[2..][k + 2..]).value.text);
    } else {
      assert !Starts(s, PLAIN) by {
        if Starts(s, PLAIN) {
          SeenFirst(Next, ReadFormat(s[2..], false));
        }
      }
      SeenFirst(Letter(s[0], false), ReadFormat(s[1..], false));
      PyMarks(s[1..]);
      MarkFirst(s[0], RewritePy(s[1..]).value.text);
    }
  }

  lemma BehindPlain(s: string)
    requires Starts(s, PLAIN)
    ensures Has(s, OPEN) <==> Has(s[2..], OPEN)
    ensures RewritePy(s).Some? <==> RewritePy(s[2..]).Some?
  {
    HasStep(s, OPEN);
    HasStep(s[1..], OPEN);
    assert s[1..][1..] == s[2..];
  }

  lemma {:induction false} PlainMarks(s: string)
    requires Unquoted(s) && !Has(s, OPEN)
    ensures ReadMarks(RewritePlain(s), false) == AllSeen(ReadFormat(s, false))
    ensures Names(ReadFormat(s, false)) == []
    decreases |s|
  {
    if s == "" {
    } else if Starts(s, PLAIN) {
      BehindPlain(s);
      PlainMarks(s[2..]);
      SeenFirst(Next, ReadFormat(s[2..], false));
      MarkFirst('?', RewritePlain(s[2..]));
    } else {
      HasStep(s, OPEN);
      PlainMarks(s[1..]);
      SeenFirst(Letter(s[0], false), ReadFormat(s[1..], false));
      MarkFirst(s[0], RewritePlain(s[1..]));
    }
  }

  /** A closed placeholder is read as a name. */
  lemma {:induction false} PlaceholderIsCalled(s: string)
    requires Unquoted(s) && Has(s, OPEN) && RewritePy(s).Some?
    ensures !Positional(ReadFormat(s, false))
    decreases |s|
  {
    if Starts(s, OPEN) {
      var k := Find(s[2..], CLOSE);
      UnquotedSlice(s, 2, 2 + k);
      assert s[2..][..k] == s[2..2 + k];
      SeenFirst(Called(s[2..][..k]), ReadFormat(s[2..][k + 2..], false));
    } else if Starts(s, PLAIN) {
      BehindPlain(s);
      PlaceholderIsCalled(s[2..]);
      SeenFirst(Next, ReadFormat(s[2..], false));
    } else {
      HasStep(s, OPEN);
      PlaceholderIsCalled(s[1..]);
      SeenFirst(Letter(s[0], false), ReadFormat(s[1..], false));
    }
  }

  /** A rewritten chunk shows what `AllSeen` says and lists the names, if either all its parameters have a
      name or none has. */
  lemma CodeMarks(s: string)
    requires Unquoted(s) && RewriteCode(s).Some?
    requires ByName(ReadFormat(s, false)) || Positional(ReadFormat(s, false))
    ensures ReadMarks(CodeText(s), false) == AllSeen(ReadFormat(s, false))
    ensures FormatStyle.CodeNames(s) == Names(ReadFormat(s, false))
  {
    if Has(s, OPEN) {
      PlaceholderIsCalled(s);
      PyMarks(s);
    } else {
      PlainMarks(s);
    }
  }

  lemma {:induction false} LiteralMarks(s: string)
    requires Unquoted(s)
    ensures ReadMarks(s, true) == AllSeen(ReadFormat(s, true)) && Names(ReadFormat(s, true)) == []
  {
    if s != "" {
      LiteralMarks(s[1..]);
      SeenFirst(Letter(s[0], true), ReadFormat(s[1..], true));
    }
  }

  /* ---- Reading chunk by chunk ---- */

  lemma {:induction false} FindConcat(a: string, b: string)
    requires Unquoted(a) && b != "" && b[0] == QUOTE
    ensures Has(a, CLOSE) ==> Find(a + b, CLOSE) == Find(a, CLOSE)
    ensures !Has(a, CLOSE) ==> Find(a + b, CLOSE) > |a|
  {
    if a == "" {
      assert a + b == b;
    } else {
      TailOfConcat(a, b);
      FindConcat(a[1..], b);
      StartsConcat(a, b, CLOSE);
      assert !Starts(a, CLOSE) ==> (Has(a, CLOSE) <==> Has(a[1..], CLOSE));
    }
  }

  lemma NotAcross(s: string, i: nat, token: string)
    requires i < |token| && i < |s| && s[i] == QUOTE && Unquoted(token)
    ensures !Starts(s, token)
  {
    if |token| <= |s| {
      assert s[..|token|][i] == QUOTE;
    }
  }

  lemma QuoteInside(s: string, n: nat, i: nat)
    requires i < n <= |s| && s[i] == QUOTE
    ensures !Unquoted(s[..n])
  {
    assert s[..n][i] == QUOTE;
  }

  /** None of the tokens runs across an apostrophe. */
  lemma StartsConcat(a: string, b: string, token: string)
    requires b != "" && b[0] == QUOTE && |token| == 2 && Unquoted(token)
    ensures Starts(a + b, token) <==> Starts(a, token)
    ensures Starts(a, token) ==> (a + b)[2..] == a[2..] + b
  {
    if |a| < 2 {
      NotAcross(a + b, |a|, token);
    } else {
      assert (a + b)[..2] == a[..2];
    }
  }

  lemma OpensNameConcat(a: string, b: string)
    requires Unquoted(a) && b != "" && b[0] == QUOTE
    ensures OpensName(a + b) <==> OpensName(a)
    ensures OpensName(a) ==>
              var k := Find(a[2..], CLOSE);
              && Find((a + b)[2..], CLOSE) == k && k + 2 <= |a[2..]|
              && (a + b)[2..][..k] == a[2..][..k] && (a + b)[2..][k + 2..] == a[2..][k + 2..] + b
              && Unquoted(a[2..][k + 2..])
  {
    StartsConcat(a, b, OPEN);
    if Starts(a, OPEN) {
      var rest := a[2..];
      UnquotedSlice(a, 2, 2);
      FindConcat(rest, b);
      if Has(rest, CLOSE) {
        var k := Find(rest, CLOSE);
        assert Starts(rest[k..], CLOSE);
        assert (rest + b)[..k] == rest[..k] && (rest + b)[k + 2..] == rest[k + 2..] + b;
        UnquotedSlice(rest, 0, k);
        UnquotedSlice(rest, k + 2, k + 2);
      } else {
        QuoteInside(rest + b, Find(rest + b, CLOSE), |rest|);
      }
    }
  }

  /** A parameter never runs across an apostrophe, so a text can be read in two parts there. */
  lemma {:induction false} ReadConcat(a: string, b: string, quoted: bool)
    requires Unquoted(a) && b != "" && b[0] == QUOTE
    ensures ReadFormat(a + b, quoted) == ReadFormat(a, quoted) + ReadFormat(b, quoted)
    decreases |a|, 1
  {
    if a == "" {
      assert a + b == b;
    } else if quoted {
      TailOfConcat(a, b);
      ReadConcat(a[1..], b, true);
      Reassociate(Letter(a[0], true), ReadFormat(a[1..], true), ReadFormat(b, true));
    } else {
      ReadCodeConcat(a, b);
    }
  }

  lemma {:induction false} ReadCodeConcat(a: string, b: string)
    requires Unquoted(a) && a != "" && b != "" && b[0] == QUOTE
    ensures ReadFormat(a + b, false) == ReadFormat(a, false) + ReadFormat(b, false)
    decreases |a|, 0
  {
    TailOfConcat(a, b);
    OpensNameConcat(a, b);
    StartsConcat(a, b, PLAIN);
    if OpensName(a) {
      var k := Find(a[2..], CLOSE);
      ReadConcat(a[2..][k + 2..], b, false);
      Reassociate(Called(a[2..][..k]), ReadFormat(a[2..][k + 2..], false), ReadFormat(b, false));
    } else if Starts(a, PLAIN) {
      UnquotedSlice(a, 2, 2);
      ReadConcat(a[2..], b, false);
      Reassociate(Next, ReadFormat(a[2..], false), ReadFormat(b, false));
    } else {
      ReadConcat(a[1..], b, false);
      Reassociate(Letter(a[0], false), ReadFormat(a[1..], false), ReadFormat(b, false));
    }
  }

  function FormatChunks(chunks: seq<string>, quoted: bool): seq<FormatPiece>
    requires |chunks| > 0
    decreases |chunks|
  {
    if |chunks| == 1 then ReadFormat(chunks[0], quoted)
    else ReadFormat(chunks[0], quoted) + ([Letter(QUOTE, quoted)] + FormatChunks(chunks[1..], !quoted))
  }

  /** Cutting at apostrophes refines the one-pass scanner, for every text. */
  lemma {:induction false} ReadFormatJoined(chunks: seq<string>, quoted: bool)
    requires |chunks| > 0 && AllUnquoted(chunks)
    ensures ReadFormat(Join(chunks), quoted) == FormatChunks(chunks, quoted)
    decreases |chunks|
  {
    if |chunks| > 1 {
      var tail := [QUOTE] + Join(chunks[1..]);
      ReadFormatJoined(chunks[1..], !quoted);
      ReadConcat(chunks[0], tail, quoted);
      assert Join(chunks) == chunks[0] + tail;
      assert tail[1..] == Join(chunks[1..]);
    }
  }

  /* ---- The whole text ---- */

  /** Either no parameter has a name or every parameter has one. */
  predicate Uniform(pieces: seq<FormatPiece>) {
    Positional(pieces) || ByName(pieces)
  }

  lemma FirstChunkMarks(chunks: seq<string>, mixed: seq<string>, quoted: bool)
    requires |chunks| > 0 && AllUnquoted(chunks) && IsRewriting(chunks, mixed, quoted)
    requires Uniform(ReadFormat(chunks[0], quoted))
    ensures ReadMarks(mixed[0], quoted) == AllSeen(ReadFormat(chunks[0], quoted))
    ensures (if quoted then [] else FormatStyle.CodeNames(chunks[0])) == Names(ReadFormat(chunks[0], quoted))
  {
    assert !IsLiteral(0);
    if quoted {
      LiteralMarks(chunks[0]);
    } else {
      CodeMarks(chunks[0]);
    }
  }

  lemma AtApostrophe(first: seq<FormatPiece>, quoted: bool, rest: seq<FormatPiece>)
    ensures var all := first + ([Letter(QUOTE, quoted)] + rest);
            && AllSeen(all) == AllSeen(first) + ([Text(QUOTE, quoted)] + AllSeen(rest))
            && Names(all) == Names(first) + Names(rest)
            && (Uniform(all) ==> Uniform(first) && Uniform(rest))
  {
    KindsConcat(first, [Letter(QUOTE, quoted)] + rest);
    SeenConcat(first, [Letter(QUOTE, quoted)] + rest);
    SeenFirst(Letter(QUOTE, quoted), rest);
  }

  lemma {:induction false} ChunksMark(chunks: seq<string>, mixed: seq<string>, quoted: bool)
    requires |chunks| > 0 && AllUnquoted(chunks) && IsRewriting(chunks, mixed, quoted)
    requires Uniform(FormatChunks(chunks, quoted))
    ensures MarkedChunks(mixed, quoted) == AllSeen(FormatChunks(chunks, quoted))
    decreases |chunks|
  {
    if |chunks| > 1 {
      AtApostrophe(ReadFormat(chunks[0], quoted), quoted, FormatChunks(chunks[1..], !quoted));
      RestIsRewriting(chunks, mixed, quoted);
      ChunksMark(chunks[1..], mixed[1..], !quoted);
    }
    FirstChunkMarks(chunks, mixed, quoted);
  }

  lemma {:induction false} ChunksCall(chunks: seq<string>, mixed: seq<string>, quoted: bool)
    requires |chunks| > 0 && AllUnquoted(chunks) && IsRewriting(chunks, mixed, quoted)
    requires Uniform(FormatChunks(chunks, quoted))
    ensures ChunkNames(chunks, quoted) == Names(FormatChunks(chunks, quoted))
    decreases |chunks|
  {
    if |chunks| > 1 {
      AtApostrophe(ReadFormat(chunks[0], quoted), quoted, FormatChunks(chunks[1..], !quoted));
      RestIsRewriting(chunks, mixed, quoted);
      ChunksCall(chunks[1..], mixed[1..], !quoted);
    } else {
      assert chunks[1..] == [];
    }
    FirstChunkMarks(chunks, mixed, quoted);
  }

  lemma MixedIsRewriting(chunks: seq<string>)
    requires AllRewrite(chunks)
    ensures IsRewriting(chunks, Mixed(chunks, Rewritten(chunks)), false)
  {
  }

  /** The names returned are those of the text, in order and repeated as often as they occur. */
  lemma NamesAreCalled(op: string)
    requires AllRewrite(Split(op)) && Uniform(ReadFormat(op, false))
    ensures QmarkNames(op) == Names(ReadFormat(op, false))
  {
    SplitJoins(op);
    ReadFormatJoined(Split(op), false);
    MixedIsRewriting(Split(op));
    ChunksCall(Split(op), Mixed(Split(op), Rewritten(Split(op))), false);
  }

  lemma WellQuotedSeen(op: string)
    requires AllRewrite(Split(op)) && Uniform(ReadFormat(op, false)) && WellQuoted(op)
    ensures ReadMarks(QmarkText(op), false) == AllSeen(ReadFormat(op, false))
  {
    SplitJoins(op);
    ReadFormatJoined(Split(op), false);
    WellQuotedOutput(op);
    ChunksMark(Split(op), Mixed(Split(op), Rewritten(Split(op))), false);
  }

  lemma {:induction false} FormatKeepsQuotes(s: string, quoted: bool)
    ensures QuotePieces(Blank(ReadFormat(s, quoted))) == Quotes(s)
    decreases |s|
  {
    if s == "" {
    } else if s[0] == QUOTE {
      FormatKeepsQuotes(s[1..], !quoted);
    } else if !quoted && OpensName(s) {
      var k := Find(s[2..], CLOSE);
      PlaceholderParts(s, k);
      FormatKeepsQuotes(s[2..][k + 2..], false);
      QuotesConcat(OPEN + s[2..][..k] + CLOSE, s[2..][k + 2..]);
      UnquotedQuotes(OPEN + s[2..][..k] + CLOSE);
    } else if !quoted && Starts(s, PLAIN) {
      StartsWith(s, PLAIN);
      FormatKeepsQuotes(s[2..], false);
      QuotesConcat(PLAIN, s[2..]);
      UnquotedQuotes(PLAIN);
    } else {
      FormatKeepsQuotes(s[1..], quoted);
    }
  }

  lemma IllQuotedDiffers(op: string)
    requires AllRewrite(Split(op)) && !WellQuoted(op)
    ensures ReadMarks(QmarkText(op), false) != Blank(ReadFormat(op, false))
  {
    var chunks := Split(op);
    SplitJoins(op);
    RewrittenUnquoted(chunks);
    LossesAreMisplacedEmptyLiterals(chunks);
    QuotesKeptIff(chunks, Rewritten(chunks), Format);
    MarksKeepQuotes(QmarkText(op), false);
    FormatKeepsQuotes(op, false);
  }

  /** A text whose parameters are all of one kind keeps its meaning exactly when the quotes are in order and
      no `?` stands outside literals. */
  lemma FormatKeepsMeaningIff(op: string)
    requires AllRewrite(Split(op)) && Uniform(ReadFormat(op, false))
    ensures ReadMarks(QmarkText(op), false) == Blank(ReadFormat(op, false))
       <==> WellQuoted(op) && Letter('?', false) !in ReadFormat(op, false)
  {
    if WellQuoted(op) {
      WellQuotedSeen(op);
      SeenIsBlankIff(ReadFormat(op, false));
    } else {
      IllQuotedDiffers(op);
    }
  }

  /* ---- End to end ---- */

  lemma {:induction false} InOrderIsMarked<V>(pieces: seq<FormatPiece>, values: seq<V>)
    ensures Positional(pieces) ==> FillInOrder(pieces, values) == NamedStyle.FillMarks(Blank(pieces), values)
    ensures FillInOrder(pieces, values).Some? ==> Positional(pieces)
  {
    if pieces != [] {
      var p, rest := pieces[0], pieces[1..];
      InOrderIsMarked(rest, if p == Next && values != [] then values[1..] else values);
      assert pieces == [p] + rest;
      SeenFirst(p, rest);
      assert Blank(pieces)[1..] == Blank(rest);
    }
  }

  lemma {:induction false} ByNameIsBound<V>(pieces: seq<FormatPiece>, params: map<string, V>)
    ensures FillByName(pieces, params).Some? <==> ByName(pieces) && NamedStyle.Bind(Names(pieces), params).Some?
    ensures FillByName(pieces, params).Some? ==>
              FillByName(pieces, params)
              == NamedStyle.FillMarks(Blank(pieces), NamedStyle.Bind(Names(pieces), params).value)
  {
    if pieces != [] {
      var p, rest := pieces[0], pieces[1..];
      ByNameIsBound(rest, params);
      assert pieces == [p] + rest;
      SeenFirst(p, rest);
      assert Blank(pieces)[1..] == Blank(rest);
      if p.Called? {
        NamedStyle.BindFirst(p.name, Names(rest), params);
      } else {
        assert Names(pieces) == Names(rest);
      }
    }
  }

  lemma {:induction false} BlankIsErased(pieces: seq<FormatPiece>)
    ensures Erase(Blank(pieces)) == Blank(pieces)
  {
    if pieces != [] {
      BlankIsErased(pieces[1..]);
    }
  }

  /** Two texts in 'qmark' style filled with the same values agree exactly if they read alike, once one of
      them can be filled. */
  lemma FilledAlikeIff<V>(s: string, blank: seq<FormatPiece>, values: seq<V>)
    requires NamedStyle.FillMarks(Blank(blank), values).Some?
    ensures NamedStyle.FillMarks(ReadMarks(s, false), values) == NamedStyle.FillMarks(Blank(blank), values)
       <==> ReadMarks(s, false) == Blank(blank)
  {
    NamedStyle.MarkedShape(ReadMarks(s, false), values);
    NamedStyle.MarkedShape(Blank(blank), values);
    NamedStyle.MarksAreErased(s, false);
    BlankIsErased(blank);
  }

  /** What a call in 'format' style means: the text filled from the parameters; `None` when they do not
      match. */
  function Meaning<V>(op: string, params: Params<V>): Option<seq<NamedStyle.Filled<Bound<V>>>> {
    match params
    case NoParams => FillInOrder(ReadFormat(op, false), [])
    case Sequence(_, values) => FillInOrder(ReadFormat(op, false), Values(values))
    case Mapping(_, entries) => FillByName(ReadFormat(op, false), BoundEntries(entries))
  }

  /** What the database gets to see; `None` when nothing is sent, or values that do not match. */
  function Received<V>(outcome: Outcome<V>): Option<seq<NamedStyle.Filled<Bound<V>>>> {
    match outcome
    case Raised => None
    case Sent(text, bound) => NamedStyle.FillMarks(ReadMarks(text, false), bound)
  }

  /* ---- A call without parameters ---- */

  lemma {:induction false} NoNextWithoutValues<V>(pieces: seq<FormatPiece>)
    requires FillInOrder<V>(pieces, []).Some?
    ensures ByName(pieces) && Positional(pieces)
  {
    if pieces != [] {
      NoNextWithoutValues<V>(pieces[1..]);
      assert pieces == [pieces[0]] + pieces[1..];
      SeenFirst(pieces[0], pieces[1..]);
    }
  }

  lemma {:induction false} NoneCalledWithoutNames<V>(pieces: seq<FormatPiece>)
    requires FillByName<V>(pieces, map[]).Some?
    ensures ByName(pieces) && Positional(pieces)
  {
    if pieces != [] {
      NoneCalledWithoutNames<V>(pieces[1..]);
      assert pieces == [pieces[0]] + pieces[1..];
      SeenFirst(pieces[0], pieces[1..]);
    }
  }

  lemma {:induction false} NoNames(pieces: seq<FormatPiece>)
    requires Positional(pieces)
    ensures Names(pieces) == []
  {
    if pieces != [] {
      assert pieces == [pieces[0]] + pieces[1..];
      SeenFirst(pieces[0], pieces[1..]);
      NoNames(pieces[1..]);
    }
  }

  /** A text without parameters reads the same in both styles unless a `?` stands outside literals. */
  lemma {:induction false} RawReads(s: string, quoted: bool)
    requires ByName(ReadFormat(s, quoted)) && Positional(ReadFormat(s, quoted))
    ensures if Letter('?', false) in ReadFormat(s, quoted) then Slots(ReadMarks(s, quoted)) != []
            else ReadMarks(s, quoted) == Blank(ReadFormat(s, quoted))
    decreases |s|
  {
    if s != "" {
      assert ReadFormat(s, quoted)[0].Letter?;
      var after := if s[0] == QUOTE then !quoted else quoted;
      SeenFirst(Letter(s[0], quoted), ReadFormat(s[1..], after));
      RawReads(s[1..], after);
    }
  }

  lemma NothingBound<V>(op: Operation, a: Attempt<V>, letters: set<char>)
    requires !a.answer.Refuses? && !Truthy(a.params)
    ensures Fresh(FormatParams, op, a, letters) == Sent(op.text, [])
  {
  }

  /** Without parameters, a call that means anything is right exactly if no `?` stands outside literals. */
  lemma NoParametersIff<V>(op: Operation, a: Attempt<V>, letters: set<char>)
    requires !a.answer.Refuses? && !Truthy(a.params) && HasItsKeys(a.params) && Meaning(op.text, a.params).Some?
    ensures Received(Fresh(FormatParams, op, a, letters)) == Meaning(op.text, a.params)
       <==> Letter('?', false) !in ReadFormat(op.text, false)
  {
    var pieces := ReadFormat(op.text, false);
    NothingBound(op, a, letters);
    NoParametersMean(op.text, a.params);
    RawReads(op.text, false);
    MarksTakeValues<Bound<V>>(ReadMarks(op.text, false), []);
  }

  lemma NoParametersMean<V>(op: string, params: Params<V>)
    requires !Truthy(params) && HasItsKeys(params) && Meaning(op, params).Some?
    ensures ByName(ReadFormat(op, false)) && Positional(ReadFormat(op, false))
    ensures Meaning(op, params) == NamedStyle.FillMarks(Blank(ReadFormat(op, false)), [])
  {
    var pieces := ReadFormat(op, false);
    InOrderIsMarked<Bound<V>>(pieces, []);
    if params.Mapping? {
      assert BoundEntries(params.entries) == map[];
      NoneCalledWithoutNames<Bound<V>>(pieces);
      ByNameIsBound<Bound<V>>(pieces, map[]);
      NoNames(pieces);
    } else {
      NoNextWithoutValues<Bound<V>>(pieces);
    }
  }

  /** A mapping without keys has no entries. */
  predicate HasItsKeys<V>(params: Params<V>) {
    params.Mapping? && params.keys == [] ==> params.entries == map[]
  }

  /* ---- A call with parameters ---- */

  lemma RewrittenSends<V>(op: Operation, a: Attempt<V>, letters: set<char>)
    requires Truthy(a.params)
    ensures Fresh(FormatParams, op, a, letters)
            == if AllRewrite(Split(op.text)) then Emit(FormatStyle.Code(QmarkText(op.text), QmarkNames(op.text)), a)
               else Raised
  {
  }

  lemma TextMeansIff<V>(op: string, values: seq<Bound<V>>)
    requires AllRewrite(Split(op)) && Uniform(ReadFormat(op, false))
    requires NamedStyle.FillMarks(Blank(ReadFormat(op, false)), values).Some?
    ensures NamedStyle.FillMarks(ReadMarks(QmarkText(op), false), values)
            == NamedStyle.FillMarks(Blank(ReadFormat(op, false)), values)
       <==> WellQuoted(op) && Letter('?', false) !in ReadFormat(op, false)
  {
    FilledAlikeIff(QmarkText(op), ReadFormat(op, false), values);
    FormatKeepsMeaningIff(op);
  }

  lemma SequenceMeansIff<V>(op: string, isList: bool, values: seq<V>, answer: Answer)
    requires !answer.Refuses? && values != [] && AllRewrite(Split(op))
    requires FillInOrder(ReadFormat(op, false), Values(values)).Some?
    ensures Received(Emit(FormatStyle.Code(QmarkText(op), QmarkNames(op)), Attempt(Sequence(isList, values), answer)))
            == FillInOrder(ReadFormat(op, false), Values(values))
       <==> WellQuoted(op) && Letter('?', false) !in ReadFormat(op, false)
  {
    InOrderIsMarked(ReadFormat(op, false), Values(values));
    NoNames(ReadFormat(op, false));
    NamesAreCalled(op);
    TextMeansIff(op, Values(values));
  }

  /** A text without parameters is not filled by the keys of a mapping. */
  lemma KeysFillNothing<V>(s: string, blank: seq<FormatPiece>, keys: seq<string>)
    requires keys != [] && NamedStyle.FillMarks<Bound<V>>(Blank(blank), []).Some?
    ensures NamedStyle.FillMarks(ReadMarks(s, false), Keys<V>(keys)) != NamedStyle.FillMarks(Blank(blank), [])
  {
    NamedStyle.MarkedShape<Bound<V>>(ReadMarks(s, false), Keys(keys));
    NamedStyle.MarkedShape<Bound<V>>(Blank(blank), []);
    NamedStyle.MarksAreErased(s, false);
    BlankIsErased(blank);
    MarksTakeValues<Bound<V>>(ReadMarks(s, false), Keys(keys));
    MarksTakeValues<Bound<V>>(Blank(blank), []);
  }

  lemma MappingSends<V>(text: string, names: seq<string>, keys: seq<string>, entries: map<string, V>, answer: Answer)
    requires !answer.Refuses? && NamedStyle.Bind(names, BoundEntries(entries)).Some?
    ensures Received(Emit(FormatStyle.Code(text, names), Attempt(Mapping(keys, entries), answer)))
         == NamedStyle.FillMarks(ReadMarks(text, false),
                                 if names == [] then Keys(keys)
                                 else NamedStyle.Bind(names, BoundEntries(entries)).value)
  {
    BindValues(names, entries);
    MappingEmits(FormatStyle.Code(text, names), keys, entries, answer);
  }

  lemma NamesMeanIff<V>(op: string, keys: seq<string>, entries: map<string, Bound<V>>)
    requires keys != [] && AllRewrite(Split(op)) && FillByName(ReadFormat(op, false), entries).Some?
    ensures NamedStyle.Bind(QmarkNames(op), entries).Some?
    ensures NamedStyle.FillMarks(ReadMarks(QmarkText(op), false),
                                 if QmarkNames(op) == [] then Keys(keys)
                                 else NamedStyle.Bind(QmarkNames(op), entries).value)
         == FillByName(ReadFormat(op, false), entries)
       <==> WellQuoted(op) && Letter('?', false) !in ReadFormat(op, false) && QmarkNames(op) != []
  {
    ByNameIsBound(ReadFormat(op, false), entries);
    NamesAreCalled(op);
    if QmarkNames(op) == [] {
      KeysFillNothing<V>(QmarkText(op), ReadFormat(op, false), keys);
    } else {
      TextMeansIff<V>(op, NamedStyle.Bind(QmarkNames(op), entries).value);
    }
  }

  lemma MappingMeansIff<V>(op: string, keys: seq<string>, entries: map<string, V>, answer: Answer)
    requires !answer.Refuses? && keys != [] && AllRewrite(Split(op))
    requires FillByName(ReadFormat(op, false), BoundEntries(entries)).Some?
    ensures Received(Emit(FormatStyle.Code(QmarkText(op), QmarkNames(op)), Attempt(Mapping(keys, entries), answer)))
            == FillByName(ReadFormat(op, false), BoundEntries(entries))
       <==> WellQuoted(op) && Letter('?', false) !in ReadFormat(op, false) && QmarkNames(op) != []
  {
    NamesMeanIff(op, keys, BoundEntries(entries));
    MappingSends(QmarkText(op), QmarkNames(op), keys, entries, answer);
  }

  /** A call in 'format' style, with a sequence or a mapping that fills the text, sends a text and values that
      fill in to the original text filled from the parameters, exactly when no `?` stands outside literals
      and, once there are parameters, every placeholder that opens is closed, the quotes are in order, and
      a mapping has a name to be asked for: without one its keys would be bound. */
  lemma FormatCallKeepsMeaningIff<V>(op: Operation, a: Attempt<V>, letters: set<char>)
    requires !a.answer.Refuses? && HasItsKeys(a.params) && Meaning(op.text, a.params).Some?
    ensures Received(Fresh(FormatParams, op, a, letters)) == Meaning(op.text, a.params)
       <==> && Letter('?', false) !in ReadFormat(op.text, false)
            && (Truthy(a.params) ==>
                  && AllRewrite(Split(op.text)) && WellQuoted(op.text)
                  && (a.params.Mapping? ==> QmarkNames(op.text) != []))
  {
    if !Truthy(a.params) {
      NoParametersIff(op, a, letters);
    } else {
      RewrittenSends(op, a, letters);
      if AllRewrite(Split(op.text)) {
        match a.params
        case Sequence(isList, values) => SequenceMeansIff(op.text, isList, values, a.answer);
        case Mapping(keys, entries) => MappingMeansIff(op.text, keys, entries, a.answer);
      }
    }
  }
}
