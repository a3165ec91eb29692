/** The rewriting of 'named' SQL into 'qmark' SQL, and when it keeps the meaning of the text. */
module NamedStyle {
  import opened Counting
  import opened SqlText
  import opened SqlAssembly
  import opened Wrappers

  /** One code chunk rewritten: each `:name` becomes `?` and a colon without a name vanishes. */
  function RewriteCode(s: string, letters: set<char>): string
    decreases |s|
  {
    if s == "" then ""
    else if s[0] != ':' then [s[0]] + RewriteCode(s[1..], letters)
    else
      var n := NameLength(s[1..], letters);
      (if n == 0 then "" else "?") + RewriteCode(s[1..][n..], letters)
  }

  /** The names a code chunk mentions, in order. */
  function CodeNames(s: string, letters: set<char>): seq<string>
    decreases |s|
  {
    if s == "" then []
    else if s[0] != ':' then CodeNames(s[1..], letters)
    else
      var n := NameLength(s[1..], letters);
      (if n == 0 then [] else [s[1..][..n]]) + CodeNames(s[1..][n..], letters)
  }

  function Rewritten(chunks: seq<string>, letters: set<char>): (code: seq<string>)
    ensures |code| == |chunks|
    ensures forall i | 0 <= i < |chunks| :: code[i] == RewriteCode(chunks[i], letters)
  {
    if chunks == [] then []
    else var n := |chunks| - 1; Rewritten(chunks[..n], letters) + [RewriteCode(chunks[n], letters)]
  }

  /** The names the code chunks mention; the first chunk is a literal or not. */
  function ChunkNames(chunks: seq<string>, quoted: bool, letters: set<char>): seq<string>
    decreases |chunks|
  {
    if chunks == [] then []
    else (if quoted then [] else CodeNames(chunks[0], letters)) + ChunkNames(chunks[1..], !quoted, letters)
  }

  /** The text `changeNamedToQmark` returns, whatever the input. */
  function QmarkText(op: string, letters: set<char>): string {
    Assemble(Split(op), Rewritten(Split(op), letters), Named)
  }

  /** The names `changeNamedToQmark` returns, whatever the input. */
  function QmarkNames(op: string, letters: set<char>): seq<string> {
    ChunkNames(Split(op), false, letters)
  }

  /* ---- When the meaning is kept ---- */

  /** Every literal is closed and none of the chunks between apostrophes that stand for literals is
      empty. */
  predicate WellQuoted(op: string) {
    var chunks := Split(op);
    !IsLiteral(|chunks| - 1) && NoEmptyLiteral(chunks)
  }

  /** Outside literals there is no `?` and no colon without a name. */
  predicate PlainCode(pieces: seq<Piece>) {
    Text(':', false) !in pieces && Text('?', false) !in pieces
  }

  predicate Readable(op: string, letters: set<char>) {
    WellQuoted(op) && PlainCode(ReadNamed(op, false, letters))
  }

  /** What the reader of a 'qmark' text sees of a piece. */
  function Seen(p: Piece): seq<Piece> {
    if p == Text(':', false) then [] else if p == Text('?', false) then [MARK] else [Forget(p)]
  }

  function AllSeen(pieces: seq<Piece>): seq<Piece> {
    if pieces == [] then [] else Seen(pieces[0]) + AllSeen(pieces[1..])
  }

  lemma {:induction false} SeenConcat(a: seq<Piece>, b: seq<Piece>)
    ensures AllSeen(a + b) == AllSeen(a) + AllSeen(b)
  {
    if a == [] {
      assert a + b == b;
    } else {
      SeenConcat(a[1..], b);
      TailOfConcat(a, b);
      if Seen(a[0]) != [] {
        Reassociate(Seen(a[0])[0], AllSeen(a[1..]), AllSeen(b));
      }
    }
  }

  lemma {:induction false} SeenAtMost(pieces: seq<Piece>)
    ensures |AllSeen(pieces)| <= |pieces|
  {
    if pieces != [] {
      SeenAtMost(pieces[1..]);
    }
  }

  lemma {:induction false} EraseLength(pieces: seq<Piece>)
    ensures |Erase(pieces)| == |pieces|
  {
    if pieces != [] {
      EraseLength(pieces[1..]);
    }
  }

  lemma {:induction false} SeenIsErasedIff(pieces: seq<Piece>)
    ensures AllSeen(pieces) == Erase(pieces) <==> PlainCode(pieces)
  {
    if pieces != [] {
      var p, rest := pieces[0], pieces[1..];
      SeenIsErasedIff(rest);
      SeenAtMost(rest);
      EraseLength(rest);
      assert pieces == [p] + rest;
      if p != Text(':', false) {
        assert AllSeen(pieces)[1..] == AllSeen(rest) && Erase(pieces)[1..] == Erase(rest);
      }
    }
  }

  lemma {:induction false} UnquotedSlice(s: string, n: nat)
    requires Unquoted(s) && n <= |s|
    ensures Unquoted(s[n..])
  {
  }

  lemma {:induction false} RewriteUnquoted(s: string, letters: set<char>)
    requires Unquoted(s)
    ensures Unquoted(RewriteCode(s, letters))
    decreases |s|
  {
    if s != "" {
      var n := if s[0] == ':' then NameLength(s[1..], letters) else 0;
      UnquotedSlice(s[1..], n);
      assert s[1..][0..] == s[1..];
      RewriteUnquoted(s[1..][n..], letters);
    }
  }

  /** Rewriting one code chunk shows the reader what `Seen` says, and lists the parameters in order. */
  lemma {:induction false} RewriteReads(s: string, letters: set<char>)
    requires Unquoted(s)
    ensures ReadMarks(RewriteCode(s, letters), false) == AllSeen(ReadNamed(s, false, letters))
    ensures CodeNames(s, letters) == Slots(ReadNamed(s, false, letters))
    decreases |s|
  {
    if s == "" {
    } else if s[0] != ':' {
      RewriteReads(s[1..], letters);
      SeenFirst(Text(s[0], false), ReadNamed(s[1..], false, letters));
      ReadFirst(s[0], RewriteCode(s[1..], letters));
    } else {
      var n := NameLength(s[1..], letters);
      UnquotedSlice(s[1..], n);
      RewriteReads(s[1..][n..], letters);
      SeenFirst(NamePiece(s[1..], n), ReadNamed(s[1..][n..], false, letters));
      ReadFirst('?', RewriteCode(s[1..][n..], letters));
      assert "" + RewriteCode(s[1..][n..], letters) == RewriteCode(s[1..][n..], letters);
    }
  }

  lemma SeenFirst(p: Piece, rest: seq<Piece>)
    ensures AllSeen([p] + rest) == Seen(p) + AllSeen(rest)
    ensures Slots([p] + rest) == (if p.Slot? then [p.name] else []) + Slots(rest)
  {
    assert ([p] + rest)[1..] == rest;
  }

  lemma ReadFirst(c: char, rest: string)
    requires c != QUOTE
    ensures ReadMarks([c] + rest, false) == [if c == '?' then MARK else Text(c, false)] + ReadMarks(rest, false)
  {
    assert ([c] + rest)[1..] == rest;
  }

  lemma {:induction false} LiteralReads(s: string, letters: set<char>)
    requires Unquoted(s)
    ensures ReadMarks(s, true) == ReadNamed(s, true, letters) == AllSeen(ReadNamed(s, true, letters))
    ensures Slots(ReadNamed(s, true, letters)) == []
  {
    if s != "" {
      LiteralReads(s[1..], letters);
      SeenFirst(Text(s[0], true), ReadNamed(s[1..], true, letters));
    }
  }

  /** `mixed` holds the literals of `chunks` and the rewriting of its code. */
  ghost predicate IsRewriting(chunks: seq<string>, mixed: seq<string>, quoted: bool, letters: set<char>) {
    && |mixed| == |chunks|
    && forall i | 0 <= i < |chunks| ::
         mixed[i] == if IsLiteral(i) != quoted then chunks[i] else RewriteCode(chunks[i], letters)
  }

  lemma {:induction false} ChunksRead(chunks: seq<string>, mixed: seq<string>, quoted: bool, letters: set<char>)
    requires |chunks| > 0 && AllUnquoted(chunks) && IsRewriting(chunks, mixed, quoted, letters)
    ensures MarkedChunks(mixed, quoted) == AllSeen(NamedChunks(chunks, quoted, letters))
    decreases |chunks|
  {
    assert !IsLiteral(0);
    var first := ReadNamed(chunks[0], quoted, letters);
    if quoted {
      LiteralReads(chunks[0], letters);
    } else {
      RewriteReads(chunks[0], letters);
    }
    if |chunks| > 1 {
      RestIsRewriting(chunks, mixed, quoted, letters);
      ChunksRead(chunks[1..], mixed[1..], !quoted, letters);
      var rest := NamedChunks(chunks[1..], !quoted, letters);
      SeenConcat(first, [Text(QUOTE, quoted)] + rest);
      SeenFirst(Text(QUOTE, quoted), rest);
    }
  }

  lemma RestIsRewriting(chunks: seq<string>, mixed: seq<string>, quoted: bool, letters: set<char>)
    requires |chunks| > 0 && IsRewriting(chunks, mixed, quoted, letters)
    ensures IsRewriting(chunks[1..], mixed[1..], !quoted, letters)
  {
    forall i | 0 <= i < |chunks| - 1
      ensures mixed[1..][i] == if IsLiteral(i) != !quoted then chunks[1..][i] else RewriteCode(chunks[1..][i], letters)
    {
      RewritingBehind(chunks, mixed, quoted, i, letters);
    }
  }

  lemma RewritingBehind(chunks: seq<string>, mixed: seq<string>, quoted: bool, i: nat, letters: set<char>)
    requires IsRewriting(chunks, mixed, quoted, letters) && i + 1 < |chunks|
    ensures mixed[1..][i] == if IsLiteral(i) != !quoted then chunks[1..][i] else RewriteCode(chunks[1..][i], letters)
  {
    Alternates(i);
    assert mixed[1..][i] == mixed[i + 1] && chunks[1..][i] == chunks[i + 1];
  }

  lemma RewrittenUnquoted(chunks: seq<string>, letters: set<char>)
    requires AllUnquoted(chunks)
    ensures AllUnquoted(Rewritten(chunks, letters))
  {
    forall i | 0 <= i < |chunks| ensures Unquoted(Rewritten(chunks, letters)[i]) {
      RewriteUnquoted(chunks[i], letters);
    }
  }

  /** Under 'named', a character is lost for every empty literal chunk. */
  lemma {:induction false} LossesAreEmptyLiterals(chunks: seq<string>, code: seq<string>)
    requires |code| == |chunks|
    ensures Losses(chunks, code, Named) == 0 <==> NoEmptyLiteral(chunks)
    decreases |chunks|
  {
    if chunks != [] {
      var n := |chunks| - 1;
      LossesAreEmptyLiterals(chunks[..n], code[..n]);
      assert forall i | 0 <= i < n :: chunks[..n][i] == chunks[i];
    }
  }

  /** For a text with its quotes in order, the output is the input's chunks with the code rewritten. */
  lemma WellQuotedOutput(op: string, letters: set<char>)
    requires WellQuoted(op)
    ensures var mixed := Mixed(Split(op), Rewritten(Split(op), letters));
            && AllUnquoted(mixed) && QmarkText(op, letters) == Join(mixed)
            && IsRewriting(Split(op), mixed, false, letters)
  {
    var chunks := Split(op);
    LossesAreEmptyLiterals(chunks, Rewritten(chunks, letters));
    AssembleJoins(chunks, Rewritten(chunks, letters), Named);
    RewrittenUnquoted(chunks, letters);
  }

  lemma WellQuotedReads(op: string, letters: set<char>)
    requires WellQuoted(op)
    ensures ReadMarks(QmarkText(op, letters), false) == AllSeen(ReadNamed(op, false, letters))
  {
    var chunks := Split(op);
    var mixed := Mixed(chunks, Rewritten(chunks, letters));
    WellQuotedOutput(op, letters);
    SplitJoins(op);
    ReadNamedJoined(chunks, false, letters);
    ReadMarksJoined(mixed, false);
    ChunksRead(chunks, mixed, false, letters);
  }

  /** A text whose quotes are out of order never keeps its meaning: apostrophes appear or vanish. */
  lemma IllQuotedDiffers(op: string, letters: set<char>)
    requires !WellQuoted(op)
    ensures ReadMarks(QmarkText(op, letters), false) != Erase(ReadNamed(op, false, letters))
  {
    var chunks := Split(op);
    var code := Rewritten(chunks, letters);
    SplitJoins(op);
    RewrittenUnquoted(chunks, letters);
    LossesAreEmptyLiterals(chunks, code);
    QuotesKeptIff(chunks, code, Named);
    MarksKeepQuotes(QmarkText(op, letters), false);
    NamedKeepsQuotes(op, false, letters);
    EraseKeepsQuotes(ReadNamed(op, false, letters));
  }

  /** The rewriting keeps the meaning of the text exactly when the quotes are in order and the code has
      neither a `?` nor a colon without a name. */
  lemma NamedKeepsMeaningIff(op: string, letters: set<char>)
    ensures ReadMarks(QmarkText(op, letters), false) == Erase(ReadNamed(op, false, letters))
       <==> Readable(op, letters)
  {
    if WellQuoted(op) {
      WellQuotedReads(op, letters);
      SeenIsErasedIff(ReadNamed(op, false, letters));
    } else {
      IllQuotedDiffers(op, letters);
    }
  }

  lemma {:induction false} ChunksName(chunks: seq<string>, quoted: bool, letters: set<char>)
    requires |chunks| > 0 && AllUnquoted(chunks)
    ensures ChunkNames(chunks, quoted, letters) == Slots(NamedChunks(chunks, quoted, letters))
    decreases |chunks|
  {
    var first := ReadNamed(chunks[0], quoted, letters);
    if quoted {
      LiteralReads(chunks[0], letters);
    } else {
      RewriteReads(chunks[0], letters);
    }
    if |chunks| > 1 {
      ChunksName(chunks[1..], !quoted, letters);
      var rest := NamedChunks(chunks[1..], !quoted, letters);
      SlotsConcat(first, [Text(QUOTE, quoted)] + rest);
      SeenFirst(Text(QUOTE, quoted), rest);
    }
  }

  /** Whatever the quotes, the names returned are the parameters of the text, in order and repeated as
      often as they occur. */
  lemma NamesAreTheParameters(op: string, letters: set<char>)
    ensures QmarkNames(op, letters) == Slots(ReadNamed(op, false, letters))
  {
    SplitJoins(op);
    ReadNamedJoined(Split(op), false, letters);
    ChunksName(Split(op), false, letters);
  }

  /** With the quotes in order every literal is copied verbatim into the same place. */
  lemma LiteralsAreCopied(op: string, letters: set<char>)
    requires WellQuoted(op)
    ensures var before, after := Split(op), Split(QmarkText(op, letters));
            && |after| == |before|
            && forall i | 0 <= i < |before| && IsLiteral(i) :: after[i] == before[i]
  {
    var mixed := Mixed(Split(op), Rewritten(Split(op), letters));
    WellQuotedOutput(op, letters);
    JoinSplits(mixed);
    forall i | 0 <= i < |mixed| && IsLiteral(i) ensures mixed[i] == Split(op)[i] {
      assert IsLiteral(i) != false;
    }
  }

  lemma {:induction false} SeenSlots(pieces: seq<Piece>)
    ensures |Slots(AllSeen(pieces))| == |Slots(pieces)| + Count(pieces, Is(Text('?', false)))
  {
    if pieces != [] {
      SeenSlots(pieces[1..]);
      SlotsConcat(Seen(pieces[0]), AllSeen(pieces[1..]));
    }
  }

  /** With the quotes in order the markers outside literals grow by exactly the names returned. */
  lemma MarksGrowByNames(op: string, letters: set<char>)
    requires WellQuoted(op)
    ensures |Slots(ReadMarks(QmarkText(op, letters), false))|
         == |QmarkNames(op, letters)| + Count(ReadNamed(op, false, letters), Is(Text('?', false)))
  {
    WellQuotedReads(op, letters);
    NamesAreTheParameters(op, letters);
    SeenSlots(ReadNamed(op, false, letters));
  }

  /* ---- Filling in the values ---- */

  /** The text a database acts on: characters, in or out of literals, and the values bound. */
  datatype Filled<+V> = Char(c: char, quoted: bool) | Value(v: V)

  /** Fill a 'named' text from the mapping; `None` when a name is missing. */
  function FillNamed<V>(pieces: seq<Piece>, params: map<string, V>): Option<seq<Filled<V>>> {
    if pieces == [] then Some([])
    else
      match FillNamed(pieces[1..], params)
      case None => None
      case Some(rest) =>
        if pieces[0].Text? then Some([Char(pieces[0].c, pieces[0].quoted)] + rest)
        else if pieces[0].name in params then Some([Value(params[pieces[0].name])] + rest)
        else None
  }

  /** Fill a 'qmark' text from the values in order; `None` when there are not as many as slots. */
  function FillMarks<V>(pieces: seq<Piece>, values: seq<V>): Option<seq<Filled<V>>> {
    if pieces == [] then if values == [] then Some([]) else None
    else if pieces[0].Text? then
      match FillMarks(pieces[1..], values)
      case None => None
      case Some(rest) => Some([Char(pieces[0].c, pieces[0].quoted)] + rest)
    else if values == [] then None
    else
      match FillMarks(pieces[1..], values[1..])
      case None => None
      case Some(rest) => Some([Value(values[0])] + rest)
  }

  /** The values bound for the names, in order; `None` when a name is missing from the mapping. */
  function Bind<V>(names: seq<string>, params: map<string, V>): Option<seq<V>> {
    if names == [] then Some([])
    else if names[0] !in params then None
    else
      match Bind(names[1..], params)
      case None => None
      case Some(rest) => Some([params[names[0]]] + rest)
  }

  function Shape<V>(filled: seq<Filled<V>>): seq<Piece> {
    if filled == [] then []
    else [if filled[0].Char? then Text(filled[0].c, filled[0].quoted) else MARK] + Shape(filled[1..])
  }

  lemma {:induction false} NamedShape<V>(pieces: seq<Piece>, params: map<string, V>)
    ensures FillNamed(pieces, params).Some? ==> Shape(FillNamed(pieces, params).value) == Erase(pieces)
    ensures FillNamed(pieces, params).Some? <==> forall name | name in Slots(pieces) :: name in params
  {
    if pieces != [] {
      NamedShape(pieces[1..], params);
    }
  }

  lemma {:induction false} MarkedShape<V>(pieces: seq<Piece>, values: seq<V>)
    ensures FillMarks(pieces, values).Some? ==> Shape(FillMarks(pieces, values).value) == Erase(pieces)
  {
    if pieces != [] {
      MarkedShape(pieces[1..], if pieces[0].Text? || values == [] then values else values[1..]);
    }
  }

  lemma BindFirst<V>(name: string, rest: seq<string>, params: map<string, V>)
    ensures Bind([name] + rest, params).Some? <==> name in params && Bind(rest, params).Some?
    ensures Bind([name] + rest, params).Some? ==>
              var values := Bind([name] + rest, params).value;
              values[0] == params[name] && values[1..] == Bind(rest, params).value
  {
    assert ([name] + rest)[1..] == rest;
  }

  lemma EraseFirst(p: Piece, rest: seq<Piece>)
    ensures Erase([p] + rest) == [Forget(p)] + Erase(rest) && Erase([p] + rest)[1..] == Erase(rest)
  {
    assert ([p] + rest)[1..] == rest;
  }

  /** Filling a text whose names are forgotten, from the values bound for them, is filling the text. */
  lemma {:induction false} FillErased<V>(pieces: seq<Piece>, params: map<string, V>)
    ensures Bind(Slots(pieces), params).Some? <==> FillNamed(pieces, params).Some?
    ensures Bind(Slots(pieces), params).Some? ==>
              FillMarks(Erase(pieces), Bind(Slots(pieces), params).value) == FillNamed(pieces, params)
  {
    if pieces != [] {
      var p, rest := pieces[0], pieces[1..];
      FillErased(rest, params);
      assert pieces == [p] + rest;
      EraseFirst(p, rest);
      SeenFirst(p, rest);
      if p.Slot? {
        BindFirst(p.name, Slots(rest), params);
      } else {
        assert Slots(pieces) == Slots(rest);
      }
    }
  }

  lemma {:induction false} MarksAreErased(s: string, quoted: bool)
    ensures Erase(ReadMarks(s, quoted)) == ReadMarks(s, quoted)
  {
    if s != "" {
      MarksAreErased(s[1..], if s[0] == QUOTE then !quoted else quoted);
    }
  }

  /** End to end: filling the rewritten text with the values bound for the names returned gives what
      filling the original text from the mapping gives, exactly for the readable texts, whatever the
      values; repeated names included. */
  lemma NamedEndToEnd<V>(op: string, letters: set<char>, params: map<string, V>)
    requires Bind(QmarkNames(op, letters), params).Some?
    ensures FillMarks(ReadMarks(QmarkText(op, letters), false), Bind(QmarkNames(op, letters), params).value)
         == FillNamed(ReadNamed(op, false, letters), params)
       <==> Readable(op, letters)
  {
    var pieces, marks := ReadNamed(op, false, letters), ReadMarks(QmarkText(op, letters), false);
    NamesAreTheParameters(op, letters);
    NamedKeepsMeaningIff(op, letters);
    FillErased(pieces, params);
    NamedShape(pieces, params);
    MarkedShape(marks, Bind(Slots(pieces), params).value);
    MarksAreErased(QmarkText(op, letters), false);
  }

  /** A name missing from the mapping is an error on both sides. */
  lemma MissingName<V>(op: string, letters: set<char>, params: map<string, V>)
    ensures Bind(QmarkNames(op, letters), params).None? <==> FillNamed(ReadNamed(op, false, letters), params).None?
  {
    NamesAreTheParameters(op, letters);
    FillErased(ReadNamed(op, false, letters), params);
  }

  /* ---- The loops ---- */

  /** `s.find(c)`, or the length of `s`: where `s.split(c, 1)` cuts. */
  function Cut(s: string, c: char): (k: nat)
    ensures k <= |s| && c !in s[..k] && (k < |s| ==> s[k] == c)
  {
    if s == "" || s[0] == c then 0 else 1 + Cut(s[1..], c)
  }

  lemma {:induction false} RewriteUpTo(s: string, k: nat, letters: set<char>)
    requires k <= |s| && ':' !in s[..k]
    ensures RewriteCode(s, letters) == s[..k] + RewriteCode(s[k..], letters)
    ensures CodeNames(s, letters) == CodeNames(s[k..], letters)
  {
    if k > 0 {
      assert s[0] == s[..k][0] && s[1..][..k - 1] == s[..k][1..];
      RewriteUpTo(s[1..], k - 1, letters);
      assert s[1..][k - 1..] == s[k..];
      assert s[..k] == [s[0]] + s[1..][..k - 1];
    }
  }

  lemma {:induction false} NameLengthIs(s: string, n: nat, letters: set<char>)
    requires n <= |s| && (forall i | 0 <= i < n :: NameChar(s[i], letters))
    requires n < |s| ==> !NameChar(s[n], letters)
    ensures NameLength(s, letters) == n
  {
    if n > 0 {
      NameLengthIs(s[1..], n - 1, letters);
    }
  }

  /** Read past one name. */
  method TakeName(s: string, letters: set<char>) returns (name: string, rest: string)
    ensures name == s[..NameLength(s, letters)] && rest == s[NameLength(s, letters)..]
  {
    var i := 0;
    while i < |s| && NameChar(s[i], letters)
      invariant i <= |s| && forall k | 0 <= k < i :: NameChar(s[k], letters)
    {
      i := i + 1;
    }
    NameLengthIs(s, i, letters);
    name, rest := s[..i], s[i..];
  }

  /** What one turn of the inner loop leaves to do: `n` is the length of the name after the colon. */
  lemma CutStep(s: string, k: nat, n: nat, letters: set<char>)
    requires k < |s| && ':' !in s[..k] && s[k] == ':' && n == NameLength(s[k + 1..], letters)
    ensures RewriteCode(s, letters)
         == s[..k] + ((if n == 0 then "" else "?") + RewriteCode(s[k + 1..][n..], letters))
    ensures CodeNames(s, letters)
         == (if n == 0 then [] else [s[k + 1..][..n]]) + CodeNames(s[k + 1..][n..], letters)
  {
    RewriteUpTo(s, k, letters);
    assert s[k..][0] == ':' && s[k..][1..] == s[k + 1..];
  }

  lemma Regroup<T>(a: seq<T>, b: seq<T>, c: seq<T>, d: seq<T>)
    ensures a + b + c + d == a + (b + (c + d)) && a + b + c == a + (b + c)
  {
  }

  /** The inner loop: one code chunk cut at its colons. */
  method RewriteChunk(code: string, letters: set<char>) returns (text: string, names: seq<string>)
    requires Unquoted(code)
    ensures text == RewriteCode(code, letters)
    ensures names == CodeNames(code, letters) == Slots(ReadNamed(code, false, letters))
    ensures ReadMarks(text, false) == AllSeen(ReadNamed(code, false, letters))
  {
    text, names := "", [];
    var chunk := code;
    while chunk != ""
      invariant text + RewriteCode(chunk, letters) == RewriteCode(code, letters)
      invariant names + CodeNames(chunk, letters) == CodeNames(code, letters)
      decreases |chunk|
    {
      var k := Cut(chunk, ':');
      if k == |chunk| {
        RewriteUpTo(chunk, k, letters);
        text, chunk := text + chunk[..k], "";
      } else {
        var s, rest := TakeName(chunk[k + 1..], letters);
        var mark, named := if s == "" then "" else "?", if s == "" then [] else [s];
        CutStep(chunk, k, |s|, letters);
        Regroup(text, chunk[..k], mark, RewriteCode(rest, letters));
        Regroup(names, named, CodeNames(rest, letters), []);
        text, names, chunk := text + chunk[..k] + mark, names + named, rest;
      }
    }
    RewriteReads(code, letters);
  }

  lemma OutputAppend(chunks: seq<string>, chunk: string, letters: set<char>)
    ensures var longer := chunks + [chunk];
            Assemble(longer, Rewritten(longer, letters), Named)
            == AddChunk(Assemble(chunks, Rewritten(chunks, letters), Named), chunk, RewriteCode(chunk, letters),
                        IsLiteral(|chunks|), Named)
  {
    var longer := chunks + [chunk];
    assert longer[..|chunks|] == chunks;
    assert Rewritten(longer, letters)[..|chunks|] == Rewritten(chunks, letters);
  }

  lemma OutputSoFar(chunks: seq<string>, i: nat, letters: set<char>)
    requires i < |chunks|
    ensures Assemble(chunks[..i + 1], Rewritten(chunks[..i + 1], letters), Named)
         == AddChunk(Assemble(chunks[..i], Rewritten(chunks[..i], letters), Named), chunks[i],
                     RewriteCode(chunks[i], letters), IsLiteral(i), Named)
  {
    OutputAppend(chunks[..i], chunks[i], letters);
    assert chunks[..i] + [chunks[i]] == chunks[..i + 1];
  }

  lemma NamesToCome(chunks: seq<string>, i: nat, quoted: bool, letters: set<char>)
    requires i < |chunks|
    ensures ChunkNames(chunks[i..], quoted, letters)
         == (if quoted then [] else CodeNames(chunks[i], letters)) + ChunkNames(chunks[i + 1..], !quoted, letters)
  {
    assert chunks[i..][1..] == chunks[i + 1..];
  }

  /** The outer loop, over the chunks between apostrophes. */
  method RewriteChunks(chunks: seq<string>, letters: set<char>) returns (outOp: string, outparms: seq<string>)
    requires AllUnquoted(chunks)
    ensures outOp == Assemble(chunks, Rewritten(chunks, letters), Named)
    ensures outparms == ChunkNames(chunks, false, letters)
  {
    outOp, outparms := "", [];
    var inQuotes := false;
    for i := 0 to |chunks|
      invariant inQuotes == IsLiteral(i)
      invariant outOp == Assemble(chunks[..i], Rewritten(chunks[..i], letters), Named)
      invariant outparms + ChunkNames(chunks[i..], inQuotes, letters) == ChunkNames(chunks, false, letters)
    {
      var chunk := chunks[i];
      OutputSoFar(chunks, i, letters);
      NamesToCome(chunks, i, inQuotes, letters);
      Alternates(i);
      if inQuotes {
        if chunk == "" {
          outOp := if outOp == "" then "" else outOp[..|outOp| - 1];
        } else {
          outOp := outOp + [QUOTE] + chunk + [QUOTE];
        }
      } else {
        var text, names := RewriteChunk(chunk, letters);
        Regroup(outparms, names, ChunkNames(chunks[i + 1..], true, letters), []);
        outOp := outOp + text;
        outparms := outparms + names;
      }
      inQuotes := !inQuotes;
    }
    assert chunks[..|chunks|] == chunks;
  }

  /** `changeNamedToQmark`.  It keeps the meaning of the text exactly for the readable texts, and
      always names the parameters. */
  method ChangeNamedToQmark(op: string, letters: set<char>) returns (outOp: string, outparms: seq<string>)
    ensures outOp == QmarkText(op, letters)
    ensures outparms == Slots(ReadNamed(op, false, letters))
    ensures ReadMarks(outOp, false) == Erase(ReadNamed(op, false, letters)) <==> Readable(op, letters)
  {
    outOp, outparms := RewriteChunks(Split(op), letters);
    NamesAreTheParameters(op, letters);
    NamedKeepsMeaningIff(op, letters);
  }

  /* ---- When the text stays as it is ---- */

  /** Every literal is closed and not empty, and there is no colon outside literals. */
  predicate PlainText(op: string) {
    WellQuoted(op) && forall i | 0 <= i < |Split(op)| && !IsLiteral(i) :: ':' !in Split(op)[i]
  }

  /** A colon costs at least one character; without one nothing changes. */
  lemma {:induction false} CodeShrinks(s: string, letters: set<char>)
    ensures |RewriteCode(s, letters)| <= |s|
    ensures ':' in s ==> |RewriteCode(s, letters)| < |s|
    ensures ':' !in s ==> RewriteCode(s, letters) == s && CodeNames(s, letters) == []
    decreases |s|
  {
    if s != "" {
      if s[0] != ':' {
        CodeShrinks(s[1..], letters);
        assert s == [s[0]] + s[1..];
      } else {
        CodeShrinks(s[1..][NameLength(s[1..], letters)..], letters);
      }
    }
  }

  lemma {:induction false} PlainHasNoNames(chunks: seq<string>, quoted: bool, letters: set<char>)
    requires forall i | 0 <= i < |chunks| && (IsLiteral(i) == quoted) :: ':' !in chunks[i]
    ensures ChunkNames(chunks, quoted, letters) == []
    decreases |chunks|
  {
    if chunks != [] {
      Alternates(0);
      assert !IsLiteral(0);
      if !quoted {
        CodeShrinks(chunks[0], letters);
      }
      forall i | 0 <= i < |chunks[1..]| && (IsLiteral(i) == !quoted) ensures ':' !in chunks[1..][i] {
        Alternates(i);
        assert chunks[1..][i] == chunks[i + 1];
      }
      PlainHasNoNames(chunks[1..], !quoted, letters);
    }
  }

  lemma UnchangedIsWellQuoted(op: string, letters: set<char>)
    requires QmarkText(op, letters) == op
    ensures WellQuoted(op)
  {
    var chunks := Split(op);
    SplitJoins(op);
    RewrittenUnquoted(chunks, letters);
    QuotesKeptIff(chunks, Rewritten(chunks, letters), Named);
    LossesAreEmptyLiterals(chunks, Rewritten(chunks, letters));
  }

  lemma {:induction false} PlainIsMixed(chunks: seq<string>, letters: set<char>)
    requires forall i | 0 <= i < |chunks| && !IsLiteral(i) :: ':' !in chunks[i]
    ensures Mixed(chunks, Rewritten(chunks, letters)) == chunks
    decreases |chunks|
  {
    if chunks != [] {
      var n := |chunks| - 1;
      PlainIsMixed(chunks[..n], letters);
      if !IsLiteral(n) {
        CodeShrinks(chunks[n], letters);
      }
      assert chunks == chunks[..n] + [chunks[n]];
    }
  }

  lemma MixedIsPlain(chunks: seq<string>, i: nat, letters: set<char>)
    requires Mixed(chunks, Rewritten(chunks, letters)) == chunks && i < |chunks| && !IsLiteral(i)
    ensures ':' !in chunks[i]
  {
    CodeShrinks(chunks[i], letters);
  }

  lemma WellQuotedUnchangedIff(op: string, letters: set<char>)
    requires WellQuoted(op)
    ensures QmarkText(op, letters) == op <==> PlainText(op)
  {
    SplitJoins(op);
    WellQuotedOutput(op, letters);
    if QmarkText(op, letters) == op {
      JoinInjective(Mixed(Split(op), Rewritten(Split(op), letters)), Split(op));
      forall i | 0 <= i < |Split(op)| && !IsLiteral(i) ensures ':' !in Split(op)[i] {
        MixedIsPlain(Split(op), i, letters);
      }
    }
    if PlainText(op) {
      PlainIsMixed(Split(op), letters);
    }
  }

  /** The rewriting returns the text it was given exactly if the quotes are in order and no colon stands
      outside literals; then it names nothing. */
  lemma UnchangedIff(op: string, letters: set<char>)
    ensures QmarkText(op, letters) == op <==> PlainText(op)
    ensures PlainText(op) ==> QmarkNames(op, letters) == []
  {
    if PlainText(op) {
      PlainHasNoNames(Split(op), false, letters);
    }
    if QmarkText(op, letters) == op {
      UnchangedIsWellQuoted(op, letters);
    }
    if WellQuoted(op) {
      WellQuotedUnchangedIff(op, letters);
    }
  }

  /* ---- The three ways the code fails ---- */

  /** The text after one more chunk. */
  lemma AppendChunk(chunks: seq<string>, chunk: string, letters: set<char>)
    requires |chunks| > 0
    ensures var out := Assemble(chunks, Rewritten(chunks, letters), Named);
            Assemble(chunks + [chunk], Rewritten(chunks + [chunk], letters), Named)
            == if !IsLiteral(|chunks|) then out + RewriteCode(chunk, letters)
               else if chunk == "" then Chop(out) else out + [QUOTE] + chunk + [QUOTE]
  {
    OutputAppend(chunks, chunk, letters);
  }

  lemma RewrittenAround(a: seq<string>, chunk: string, b: seq<string>, letters: set<char>)
    ensures Rewritten(a + [chunk] + b, letters)
         == Rewritten(a, letters) + [RewriteCode(chunk, letters)] + Rewritten(b, letters)
  {
  }

  lemma EmptyLiteralOutput(a: seq<string>, b: seq<string>, letters: set<char>)
    requires IsLiteral(|a|) && NoEmptyLiteral(b)
    ensures Assemble(a + [""] + b, Rewritten(a + [""] + b, letters), Named)
         == Chop(Assemble(a, Rewritten(a, letters), Named)) + Assemble(b, Rewritten(b, letters), Named)
  {
    RewrittenAround(a, "", b, letters);
    AroundEmptyLiteral(a, b, Rewritten(a, letters), RewriteCode("", letters), Rewritten(b, letters), Named);
  }

  lemma EmptyIsUnreadable(op: string, a: seq<string>, b: seq<string>, letters: set<char>)
    requires IsLiteral(|a|) && Split(op) == a + [""] + b
    ensures !Readable(op, letters)
  {
    assert Split(op)[|a|] == "";
  }

  lemma TextOf(op: string, chunks: seq<string>, letters: set<char>)
    requires Split(op) == chunks
    ensures QmarkText(op, letters) == Assemble(chunks, Rewritten(chunks, letters), Named)
  {
  }

  /** With an empty literal behind code, the character before it is gone and the rest is rewritten as if it
      stood alone. */
  lemma EmptyLiteralText(op: string, a: string, b: string, letters: set<char>)
    requires EndsInCode(a) && NoEmptyLiteral(Split(b)) && Split(op) == Split(a) + [""] + Split(b)
    ensures QmarkText(op, letters) == Chop(QmarkText(a, letters)) + QmarkText(b, letters)
  {
    Alternates(|Split(a)| - 1);
    TextOf(op, Split(a) + [""] + Split(b), letters);
    EmptyLiteralOutput(Split(a), Split(b), letters);
  }

  lemma EmptyLiteralIsUnreadable(op: string, a: string, b: string, letters: set<char>)
    requires EndsInCode(a) && Split(op) == Split(a) + [""] + Split(b)
    ensures !Readable(op, letters)
  {
    Alternates(|Split(a)| - 1);
    EmptyIsUnreadable(op, Split(a), Split(b), letters);
  }

  /** An empty literal vanishes together with the character before it, and what follows is rewritten as if
      it stood alone. */
  lemma EmptyLiteralEatsACharacter(a: string, b: string, letters: set<char>)
    requires EndsInCode(a) && NoEmptyLiteral(Split(b))
    ensures QmarkText(a + [QUOTE] + [QUOTE] + b, letters) == Chop(QmarkText(a, letters)) + QmarkText(b, letters)
    ensures !Readable(a + [QUOTE] + [QUOTE] + b, letters)
  {
    SplitEmptyLiteral(a, b);
    EmptyLiteralIsUnreadable(a + [QUOTE] + [QUOTE] + b, a, b, letters);
    EmptyLiteralText(a + [QUOTE] + [QUOTE] + b, a, b, letters);
  }

  lemma OpenLiteralText(op: string, a: string, b: string, letters: set<char>)
    requires EndsInCode(a) && b != "" && Split(op) == Split(a) + [b]
    ensures QmarkText(op, letters) == QmarkText(a, letters) + [QUOTE] + b + [QUOTE]
  {
    Alternates(|Split(a)| - 1);
    TextOf(op, Split(a) + [b], letters);
    AppendChunk(Split(a), b, letters);
  }

  lemma OpenIsUnreadable(op: string, a: string, b: string, letters: set<char>)
    requires EndsInCode(a) && Split(op) == Split(a) + [b]
    ensures !Readable(op, letters)
  {
    Alternates(|Split(a)| - 1);
  }

  lemma SplitAtLast(a: string, b: string)
    requires Unquoted(b)
    ensures Split(a + [QUOTE] + b) == Split(a) + [b]
  {
    SplitUnquoted(b);
    SplitAtQuote(a, b);
  }

  /** An open literal is closed. */
  lemma OpenLiteralIsClosed(a: string, b: string, letters: set<char>)
    requires EndsInCode(a) && Unquoted(b) && b != ""
    ensures QmarkText(a + [QUOTE] + b, letters) == QmarkText(a, letters) + [QUOTE] + b + [QUOTE]
    ensures !Readable(a + [QUOTE] + b, letters)
  {
    SplitAtLast(a, b);
    OpenIsUnreadable(a + [QUOTE] + b, a, b, letters);
    OpenLiteralText(a + [QUOTE] + b, a, b, letters);
  }

  /** What is left of a text behind the name at its front. */
  lemma BehindName(a: string, b: string, letters: set<char>) returns (n: nat)
    requires Unquoted(a) && a != "" && a[0] == ':' && (b == "" || !NameChar(b[0], letters))
    ensures n == NameLength(a[1..], letters) == NameLength((a + b)[1..], letters)
    ensures (a + b)[1..][n..] == a[1..][n..] + b && (a + b)[1..][..n] == a[1..][..n] && Unquoted(a[1..][n..])
  {
    n := NameLength(a[1..], letters);
    TailOfConcat(a, b);
    if b != "" {
      NameConcat(a[1..], b, n, letters);
      assert (a[1..] + b)[..n] == a[1..][..n];
    } else {
      assert a + b == a;
    }
    UnquotedSlice(a[1..], n);
  }

  lemma AtBareColon(b: string, letters: set<char>)
    requires b == "" || !NameChar(b[0], letters)
    ensures RewriteCode(":" + b, letters) == RewriteCode(b, letters)
    ensures CodeNames(":" + b, letters) == CodeNames(b, letters)
    ensures ReadNamed(":" + b, false, letters) == [Text(':', false)] + ReadNamed(b, false, letters)
  {
    assert (":" + b)[1..] == b && b[0..] == b;
  }

  /** Inside one code chunk a colon that begins no name makes no difference. */
  lemma {:induction false} AroundBareColon(a: string, b: string, letters: set<char>)
    requires Unquoted(a) && (b == "" || !NameChar(b[0], letters))
    ensures RewriteCode(a + (":" + b), letters) == RewriteCode(a + b, letters)
    ensures CodeNames(a + (":" + b), letters) == CodeNames(a + b, letters)
    ensures Text(':', false) in ReadNamed(a + (":" + b), false, letters)
    decreases |a|
  {
    if a == "" {
      AtBareColon(b, letters);
      assert "" + (":" + b) == ":" + b && "" + b == b;
    } else if a[0] != ':' {
      AroundBareColon(a[1..], b, letters);
      TailOfConcat(a, b);
      TailOfConcat(a, ":" + b);
    } else {
      var n := BehindName(a, b, letters);
      var m := BehindName(a, ":" + b, letters);
      AroundBareColon(a[1..][n..], b, letters);
    }
  }

  /** A piece of a code chunk is a piece of the text. */
  lemma {:induction false} ChunkIsRead(chunks: seq<string>, i: nat, quoted: bool, p: Piece, letters: set<char>)
    requires i < |chunks| && p in ReadNamed(chunks[i], IsLiteral(i) != quoted, letters)
    ensures p in NamedChunks(chunks, quoted, letters)
    decreases i
  {
    if i > 0 {
      Alternates(i - 1);
      ChunkIsRead(chunks[1..], i - 1, !quoted, p, letters);
    }
  }

  lemma {:induction false} NamesAgree(a: seq<string>, b: seq<string>, quoted: bool, letters: set<char>)
    requires |a| == |b|
    requires forall i | 0 <= i < |a| && IsLiteral(i) == quoted :: CodeNames(a[i], letters) == CodeNames(b[i], letters)
    ensures ChunkNames(a, quoted, letters) == ChunkNames(b, quoted, letters)
    decreases |a|
  {
    if a != [] {
      assert !IsLiteral(0);
      forall i | 0 <= i < |a| - 1 && IsLiteral(i) == !quoted
        ensures CodeNames(a[1..][i], letters) == CodeNames(b[1..][i], letters)
      {
        Alternates(i);
        assert a[1..][i] == a[i + 1] && b[1..][i] == b[i + 1];
      }
      NamesAgree(a[1..], b[1..], !quoted, letters);
    }
  }

  /** Two texts cut into the same chunks except for one code chunk that is rewritten alike. */
  lemma OneChunkAgrees(before: seq<string>, a: string, b: string, after: seq<string>, letters: set<char>)
    requires !IsLiteral(|before|)
    requires RewriteCode(a, letters) == RewriteCode(b, letters) && CodeNames(a, letters) == CodeNames(b, letters)
    ensures var x, y := before + [a] + after, before + [b] + after;
            && Assemble(x, Rewritten(x, letters), Named) == Assemble(y, Rewritten(y, letters), Named)
            && ChunkNames(x, false, letters) == ChunkNames(y, false, letters)
  {
    var x, y := before + [a] + after, before + [b] + after;
    assert forall i | 0 <= i < |x| && i != |before| :: x[i] == y[i];
    AssembleAgrees(x, y, Rewritten(x, letters), Rewritten(y, letters), Named);
    NamesAgree(x, y, false, letters);
  }

  /** Where a text cut in two outside an apostrophe has its chunks. */
  lemma ColonChunks(a: string, b: string)
    ensures var before, last := Split(a)[..|Split(a)| - 1], Split(a)[|Split(a)| - 1];
            && Split(a + ":" + b) == before + [last + (":" + Split(b)[0])] + Split(b)[1..]
            && Split(a + b) == before + [last + Split(b)[0]] + Split(b)[1..]
    ensures Split(b)[0] == "" || (b != "" && Split(b)[0][0] == b[0])
  {
    SplitConcat(a, b);
    SplitConcat(a, ":" + b);
    assert a + ":" + b == a + (":" + b);
    assert (":" + b)[1..] == b;
  }

  lemma ColonText(op: string, plain: string, before: seq<string>, a: string, b: string, after: seq<string>,
                  letters: set<char>)
    requires !IsLiteral(|before|) && Unquoted(a) && (b == "" || !NameChar(b[0], letters))
    requires Split(op) == before + [a + (":" + b)] + after && Split(plain) == before + [a + b] + after
    ensures QmarkText(op, letters) == QmarkText(plain, letters)
    ensures QmarkNames(op, letters) == QmarkNames(plain, letters)
  {
    AroundBareColon(a, b, letters);
    OneChunkAgrees(before, a + (":" + b), a + b, after, letters);
  }

  lemma ColonIsUnreadable(op: string, before: seq<string>, a: string, b: string, after: seq<string>,
                          letters: set<char>)
    requires !IsLiteral(|before|) && Unquoted(a) && (b == "" || !NameChar(b[0], letters))
    requires Split(op) == before + [a + (":" + b)] + after
    ensures !Readable(op, letters)
  {
    AroundBareColon(a, b, letters);
    SplitJoins(op);
    ReadNamedJoined(Split(op), false, letters);
    ChunkIsRead(Split(op), |before|, false, Text(':', false), letters);
  }

  /** A colon that begins no name makes no difference, wherever it stands outside literals. */
  lemma BareColonIsDropped(a: string, b: string, letters: set<char>)
    requires EndsInCode(a) && (b == "" || !NameChar(b[0], letters))
    ensures QmarkText(a + ":" + b, letters) == QmarkText(a + b, letters)
    ensures QmarkNames(a + ":" + b, letters) == QmarkNames(a + b, letters)
    ensures !Readable(a + ":" + b, letters)
  {
    var n := |Split(a)| - 1;
    ColonChunks(a, b);
    ColonIsUnreadable(a + ":" + b, Split(a)[..n], Split(a)[n], Split(b)[0], Split(b)[1..], letters);
    ColonText(a + ":" + b, a + b, Split(a)[..n], Split(a)[n], Split(b)[0], Split(b)[1..], letters);
  }
}
