/** The rewriting of 'format' and 'pyformat' SQL into 'qmark' SQL, and when it can be undone. */
module FormatStyle {
  import opened Counting
  import opened SqlText
  import opened SqlAssembly
  import opened Wrappers

  predicate Starts(s: string, token: string) {
    |token| <= |s| && s[..|token|] == token
  }

  /** `s.find(token)`, or the length of `s`: where `s.split(token, 1)` cuts. */
  function Find(s: string, token: string): (k: nat)
    ensures k <= |s|
    ensures k < |s| ==> Starts(s[k..], token)
  {
    if s == "" || Starts(s, token) then 0 else 1 + Find(s[1..], token)
  }

  predicate Has(s: string, token: string) {
    Find(s, token) < |s|
  }

  const OPEN := "%("
  const CLOSE := ")s"
  const PLAIN := "%s"

  /** A rewritten code chunk and the names it mentions. */
  datatype Code = Code(text: string, names: seq<string>)

  /** A 'pyformat' chunk rewritten; `None` when a placeholder is not closed. */
  function RewritePy(s: string): Option<Code>
    decreases |s|
  {
    if s == "" then Some(Code("", []))
    else if !Starts(s, OPEN) then
      match RewritePy(s[1..])
      case None => None
      case Some(rest) => Some(Code([s[0]] + rest.text, rest.names))
    else
      var k := Find(s[2..], CLOSE);
      if k == |s[2..]| then None
      else
        match RewritePy(s[2..][k + 2..])
        case None => None
        case Some(rest) => Some(Code("?" + rest.text, [s[2..][..k]] + rest.names))
  }

  /** `"?".join(s.split("%s"))`. */
  function RewritePlain(s: string): string
    decreases |s|
  {
    if s == "" then ""
    else if Starts(s, PLAIN) then "?" + RewritePlain(s[2..])
    else [s[0]] + RewritePlain(s[1..])
  }

  function RewriteCode(s: string): Option<Code> {
    if Has(s, OPEN) then RewritePy(s) else Some(Code(RewritePlain(s), []))
  }

  /* ---- When the rewriting can be undone ---- */

  /** No `?` outside the placeholders of a 'pyformat' chunk. */
  predicate PyWithoutMarks(s: string)
    decreases |s|
  {
    if s == "" then true
    else if !Starts(s, OPEN) then s[0] != '?' && PyWithoutMarks(s[1..])
    else
      var k := Find(s[2..], CLOSE);
      k == |s[2..]| || PyWithoutMarks(s[2..][k + 2..])
  }

  /** A code chunk either names all its parameters or has none, and has no `?` of its own. */
  predicate RestorableCode(s: string) {
    if Has(s, OPEN) then PyWithoutMarks(s) else '?' !in s && !Has(s, PLAIN)
  }

  /** Every literal is closed, and the only empty literal chunk opens the text. */
  predicate WellQuoted(op: string) {
    var chunks := Split(op);
    !IsLiteral(|chunks| - 1) && EmptyOnlyFirst(chunks)
  }

  predicate EmptyOnlyFirst(chunks: seq<string>) {
    forall i | 0 <= i < |chunks| && IsLiteral(i) && chunks[i] == "" :: i == 1 && chunks[0] == ""
  }

  predicate Restorable(op: string) {
    && WellQuoted(op)
    && forall i | 0 <= i < |Split(op)| && !IsLiteral(i) :: RestorableCode(Split(op)[i])
  }

  /** Replace the k-th marker by `%(` + name k + `)s`; `None` when there are not as many. */
  function Restore(pieces: seq<Piece>, names: seq<string>): Option<string> {
    if pieces == [] then if names == [] then Some("") else None
    else if pieces[0].Text? then
      match Restore(pieces[1..], names)
      case None => None
      case Some(rest) => Some([pieces[0].c] + rest)
    else if names == [] then None
    else
      match Restore(pieces[1..], names[1..])
      case None => None
      case Some(rest) => Some(OPEN + names[0] + CLOSE + rest)
  }

  lemma {:induction false} RestoreCounts(pieces: seq<Piece>, names: seq<string>)
    ensures Restore(pieces, names).Some? <==> |Slots(pieces)| == |names|
  {
    if pieces != [] {
      RestoreCounts(pieces[1..], if pieces[0].Text? || names == [] then names else names[1..]);
    }
  }

  lemma RestoreText(p: Piece, rest: seq<Piece>, names: seq<string>)
    requires p.Text?
    ensures Restore([p] + rest, names).Some? <==> Restore(rest, names).Some?
    ensures Restore(rest, names).Some? ==> Restore([p] + rest, names).value == [p.c] + Restore(rest, names).value
  {
    assert ([p] + rest)[1..] == rest;
  }

  lemma RestoreSlot(p: Piece, rest: seq<Piece>, name: string, names: seq<string>)
    requires p.Slot?
    ensures Restore([p] + rest, [name] + names).Some? <==> Restore(rest, names).Some?
    ensures Restore(rest, names).Some? ==>
              Restore([p] + rest, [name] + names).value == OPEN + name + CLOSE + Restore(rest, names).value
  {
    assert ([p] + rest)[1..] == rest && ([name] + names)[1..] == names;
  }

  lemma Regroup(a: string, b: string, c: string, d: string)
    ensures a + b + c + d == a + (b + (c + d)) && a + b + c == a + (b + c)
    ensures (a + b + c + d) == (a + b + c) + d
  {
  }

  lemma {:induction false} RestoreConcat(a: seq<Piece>, first: seq<string>, b: seq<Piece>, second: seq<string>)
    requires Restore(a, first).Some? && Restore(b, second).Some?
    ensures Restore(a + b, first + second) == Some(Restore(a, first).value + Restore(b, second).value)
    decreases |a|
  {
    if a == [] {
      assert a + b == b && first + second == second;
      assert "" + Restore(b, second).value == Restore(b, second).value;
    } else {
      TailOfConcat(a, b);
      assert a + b == [a[0]] + (a[1..] + b);
      if a[0].Text? {
        RestoreConcat(a[1..], first, b, second);
        RestoreText(a[0], a[1..] + b, first + second);
        Regroup([a[0].c], Restore(a[1..], first).value, Restore(b, second).value, "");
      } else {
        RestoreConcat(a[1..], first[1..], b, second);
        TailOfConcat(first, second);
        assert first + second == [first[0]] + (first[1..] + second);
        RestoreSlot(a[0], a[1..] + b, first[0], first[1..] + second);
        Regroup(OPEN + first[0] + CLOSE, Restore(a[1..], first[1..]).value, Restore(b, second).value, "");
      }
    }
  }

  /* ---- One code chunk ---- */

  lemma ReadFirst(c: char, rest: string)
    requires c != QUOTE
    ensures ReadMarks([c] + rest, false) == [if c == '?' then MARK else Text(c, false)] + ReadMarks(rest, false)
    ensures |Slots(ReadMarks([c] + rest, false))| == Unit(c == '?') + |Slots(ReadMarks(rest, false))|
  {
    assert ([c] + rest)[1..] == rest;
    var head := if c == '?' then MARK else Text(c, false);
    assert ([head] + ReadMarks(rest, false))[1..] == ReadMarks(rest, false);
  }

  lemma UnquotedSlice(s: string, i: nat, j: nat)
    requires Unquoted(s) && i <= j <= |s|
    ensures Unquoted(s[i..j]) && Unquoted(s[i..])
  {
  }

  lemma StartsWith(s: string, token: string)
    requires Starts(s, token)
    ensures s == token + s[|token|..]
  {
  }

  lemma CutAt(s: string, k: nat, middle: string, end: string)
    requires k <= |s| && s[k..] == middle + end
    ensures s == s[..k] + (middle + end)
  {
    assert s == s[..k] + s[k..];
  }

  /** A 'pyformat' placeholder is what it is made of. */
  lemma PlaceholderParts(s: string, k: nat)
    requires Starts(s, OPEN) && k == Find(s[2..], CLOSE) < |s[2..]|
    ensures k + 2 <= |s[2..]| && s == OPEN + s[2..][..k] + CLOSE + s[2..][k + 2..]
  {
    var rest := s[2..];
    StartsWith(s, OPEN);
    StartsWith(rest[k..], CLOSE);
    assert rest[k..] == CLOSE + rest[k + 2..] by { assert rest[k..][2..] == rest[k + 2..]; }
    CutAt(rest, k, CLOSE, rest[k + 2..]);
    Regroup(OPEN, rest[..k], CLOSE, rest[k + 2..]);
  }

  lemma {:induction false} PyReads(s: string)
    requires Unquoted(s) && RewritePy(s).Some?
    ensures var Code(text, names) := RewritePy(s).value;
            && Unquoted(text) && (text == "" <==> s == "") && (forall i | 0 <= i < |names| :: Unquoted(names[i]))
            && |Slots(ReadMarks(text, false))| >= |names|
            && (|Slots(ReadMarks(text, false))| == |names| <==> PyWithoutMarks(s))
            && (PyWithoutMarks(s) ==> Restore(ReadMarks(text, false), names) == Some(s))
    decreases |s|
  {
    if s == "" {
    } else if !Starts(s, OPEN) {
      PyReads(s[1..]);
      var Code(text, names) := RewritePy(s[1..]).value;
      ReadFirst(s[0], text);
      assert s == [s[0]] + s[1..];
      if s[0] != '?' {
        RestoreText(Text(s[0], false), ReadMarks(text, false), names);
      }
    } else {
      PlaceholderReads(s);
    }
  }

  lemma {:induction false} PlaceholderReads(s: string)
    requires Unquoted(s) && RewritePy(s).Some? && Starts(s, OPEN)
    ensures var Code(text, names) := RewritePy(s).value;
            && Unquoted(text) && text != "" && (forall i | 0 <= i < |names| :: Unquoted(names[i]))
            && |Slots(ReadMarks(text, false))| >= |names|
            && (|Slots(ReadMarks(text, false))| == |names| <==> PyWithoutMarks(s))
            && (PyWithoutMarks(s) ==> Restore(ReadMarks(text, false), names) == Some(s))
    decreases |s|, 0
  {
    var k := Find(s[2..], CLOSE);
    var name, after := s[2..][..k], s[2..][k + 2..];
    PlaceholderParts(s, k);
    UnquotedSlice(s, 2, 2 + k);
    UnquotedSlice(s, 4 + k, 4 + k);
    assert after == s[4 + k..] && name == s[2..2 + k];
    PyReads(after);
    var Code(text, names) := RewritePy(after).value;
    ReadFirst('?', text);
    RestoreSlot(MARK, ReadMarks(text, false), name, names);
  }

  lemma {:induction false} PlainReads(s: string)
    requires Unquoted(s)
    ensures var text := RewritePlain(s);
            && Unquoted(text) && (text == "" <==> s == "")
            && (|Slots(ReadMarks(text, false))| == 0 <==> '?' !in s && !Has(s, PLAIN))
            && ('?' !in s && !Has(s, PLAIN) ==> Restore(ReadMarks(text, false), []) == Some(s))
    decreases |s|
  {
    if s == "" {
    } else if Starts(s, PLAIN) {
      ReadFirst('?', RewritePlain(s[2..]));
      PlainReads(s[2..]);
    } else {
      PlainReads(s[1..]);
      ReadFirst(s[0], RewritePlain(s[1..]));
      assert s == [s[0]] + s[1..];
      assert '?' in s <==> s[0] == '?' || '?' in s[1..];
      if s[0] != '?' {
        RestoreText(Text(s[0], false), ReadMarks(RewritePlain(s[1..]), false), []);
      }
    }
  }

  /** A rewritten chunk has at least as many markers as names, as many exactly when it can be restored,
      and then restoring gives it back. */
  lemma CodeReads(s: string)
    requires Unquoted(s) && RewriteCode(s).Some?
    ensures var Code(text, names) := RewriteCode(s).value;
            && Unquoted(text) && (text == "" <==> s == "") && (forall i | 0 <= i < |names| :: Unquoted(names[i]))
            && |Slots(ReadMarks(text, false))| >= |names|
            && (|Slots(ReadMarks(text, false))| == |names| <==> RestorableCode(s))
            && (RestorableCode(s) ==> Restore(ReadMarks(text, false), names) == Some(s))
  {
    if Has(s, OPEN) {
      PyReads(s);
    } else {
      PlainReads(s);
    }
  }

  /* ---- The whole text ---- */

  /** No code chunk has a placeholder that is not closed. */
  predicate AllRewrite(chunks: seq<string>) {
    forall i | 0 <= i < |chunks| && !IsLiteral(i) :: RewriteCode(chunks[i]).Some?
  }

  function CodeText(s: string): string {
    if RewriteCode(s).Some? then RewriteCode(s).value.text else ""
  }

  function CodeNames(s: string): seq<string> {
    if RewriteCode(s).Some? then RewriteCode(s).value.names else []
  }

  function Rewritten(chunks: seq<string>): (code: seq<string>)
    ensures |code| == |chunks|
    ensures forall i | 0 <= i < |chunks| :: code[i] == CodeText(chunks[i])
  {
    if chunks == [] then []
    else var n := |chunks| - 1; Rewritten(chunks[..n]) + [CodeText(chunks[n])]
  }

  function ChunkNames(chunks: seq<string>, quoted: bool): seq<string>
    decreases |chunks|
  {
    if chunks == [] then []
    else (if quoted then [] else CodeNames(chunks[0])) + ChunkNames(chunks[1..], !quoted)
  }

  /** The text `changeFormatToQmark` returns when it does not raise. */
  function QmarkText(op: string): string {
    Assemble(Split(op), Rewritten(Split(op)), Format)
  }

  /** The names `changeFormatToQmark` returns when it does not raise. */
  function QmarkNames(op: string): seq<string> {
    ChunkNames(Split(op), false)
  }

  lemma RewrittenUnquoted(chunks: seq<string>)
    requires AllUnquoted(chunks)
    ensures AllUnquoted(Rewritten(chunks))
  {
    forall i | 0 <= i < |chunks| ensures Unquoted(Rewritten(chunks)[i]) {
      if RewriteCode(chunks[i]).Some? {
        CodeReads(chunks[i]);
      }
    }
  }

  lemma {:induction false} NonEmptyOutput(chunks: seq<string>)
    requires AllUnquoted(chunks) && AllRewrite(chunks) && Losses(chunks, Rewritten(chunks), Format) == 0
    ensures Assemble(chunks, Rewritten(chunks), Format) == "" <==> chunks == [] || chunks == [""]
    decreases |chunks|
  {
    if chunks != [] {
      var n := |chunks| - 1;
      LastChunk(chunks, Rewritten(chunks), Format);
      assert Rewritten(chunks)[..n] == Rewritten(chunks[..n]);
      NonEmptyOutput(chunks[..n]);
      if !IsLiteral(n) {
        CodeReads(chunks[n]);
      }
      assert n == 0 ==> chunks == [chunks[0]];
    }
  }

  lemma EmptyOnlyFirstStep(chunks: seq<string>, n: nat)
    requires n + 1 == |chunks|
    ensures EmptyOnlyFirst(chunks)
       <==> EmptyOnlyFirst(chunks[..n]) && (IsLiteral(n) && chunks[n] == "" ==> n == 1 && chunks[0] == "")
  {
    assert forall i | 0 <= i < n :: chunks[..n][i] == chunks[i];
  }

  lemma LossStep(chunks: seq<string>, n: nat)
    requires n + 1 == |chunks|
    ensures var out := Assemble(chunks[..n], Rewritten(chunks[..n]), Format);
            (Losses(chunks, Rewritten(chunks), Format) == 0
             <==> Losses(chunks[..n], Rewritten(chunks[..n]), Format) == 0
                  && !(IsLiteral(n) && TakesAway(out, chunks[n], Format)))
  {
    assert Rewritten(chunks)[..n] == Rewritten(chunks[..n]);
  }

  lemma OutputBefore(chunks: seq<string>, n: nat)
    requires n + 1 == |chunks| && AllUnquoted(chunks) && AllRewrite(chunks)
    requires Losses(chunks[..n], Rewritten(chunks[..n]), Format) == 0
    ensures IsLiteral(n) ==>
              (Assemble(chunks[..n], Rewritten(chunks[..n]), Format) == "" <==> n == 1 && chunks[0] == "")
  {
    NonEmptyOutput(chunks[..n]);
    if n > 0 {
      assert chunks[..n][0] == chunks[0];
    }
  }

  /** Under 'format', an empty literal chunk does no harm exactly when it opens the text. */
  lemma {:induction false} LossesAreMisplacedEmptyLiterals(chunks: seq<string>)
    requires AllUnquoted(chunks) && AllRewrite(chunks)
    ensures Losses(chunks, Rewritten(chunks), Format) == 0 <==> EmptyOnlyFirst(chunks)
    decreases |chunks|
  {
    if chunks != [] {
      var n := |chunks| - 1;
      LossesAreMisplacedEmptyLiterals(chunks[..n]);
      EmptyOnlyFirstStep(chunks, n);
      LossStep(chunks, n);
      if Losses(chunks[..n], Rewritten(chunks[..n]), Format) == 0 {
        OutputBefore(chunks, n);
      }
    }
  }

  /** `mixed` holds the literals of `chunks` and the rewriting of its code. */
  ghost predicate IsRewriting(chunks: seq<string>, mixed: seq<string>, quoted: bool) {
    && |mixed| == |chunks|
    && forall i | 0 <= i < |chunks| ::
         if IsLiteral(i) != quoted then mixed[i] == chunks[i]
         else RewriteCode(chunks[i]).Some? && mixed[i] == CodeText(chunks[i])
  }

  ghost predicate AllRestorable(chunks: seq<string>, quoted: bool) {
    forall i | 0 <= i < |chunks| && IsLiteral(i) == quoted :: RestorableCode(chunks[i])
  }

  lemma RestIsRewriting(chunks: seq<string>, mixed: seq<string>, quoted: bool)
    requires |chunks| > 0 && IsRewriting(chunks, mixed, quoted)
    ensures IsRewriting(chunks[1..], mixed[1..], !quoted)
    ensures AllRestorable(chunks, quoted)
       <==> (quoted || RestorableCode(chunks[0])) && AllRestorable(chunks[1..], !quoted)
  {
    forall i | 0 <= i < |chunks| - 1
      ensures IsLiteral(i + 1) == !IsLiteral(i) && mixed[1..][i] == mixed[i + 1] && chunks[1..][i] == chunks[i + 1]
    {
      Alternates(i);
    }
    assert !IsLiteral(0);
    if (quoted || RestorableCode(chunks[0])) && AllRestorable(chunks[1..], !quoted) {
      forall i | 0 <= i < |chunks| && IsLiteral(i) == quoted ensures RestorableCode(chunks[i]) {
        if i > 0 {
          assert chunks[1..][i - 1] == chunks[i] && IsLiteral(i - 1 + 1) == !IsLiteral(i - 1);
        }
      }
    }
  }

  lemma {:induction false} LiteralRestores(s: string)
    requires Unquoted(s)
    ensures Restore(ReadMarks(s, true), []) == Some(s) && Slots(ReadMarks(s, true)) == []
  {
    if s != "" {
      LiteralRestores(s[1..]);
      RestoreText(Text(s[0], true), ReadMarks(s[1..], true), []);
      assert s == [s[0]] + s[1..];
    }
  }

  /** What reading the first chunk of a rewritten text gives. */
  lemma FirstChunk(chunks: seq<string>, mixed: seq<string>, quoted: bool)
    requires |chunks| > 0 && AllUnquoted(chunks) && IsRewriting(chunks, mixed, quoted)
    ensures var pieces, names := ReadMarks(mixed[0], quoted), if quoted then [] else CodeNames(chunks[0]);
            && |Slots(pieces)| >= |names|
            && (|Slots(pieces)| == |names| <==> quoted || RestorableCode(chunks[0]))
            && (quoted || RestorableCode(chunks[0]) ==> Restore(pieces, names) == Some(chunks[0]))
  {
    assert !IsLiteral(0);
    if quoted {
      LiteralRestores(chunks[0]);
    } else {
      CodeReads(chunks[0]);
    }
  }

  lemma SlotsFirst(p: Piece, rest: seq<Piece>)
    ensures Slots([p] + rest) == (if p.Slot? then [p.name] else []) + Slots(rest)
  {
    assert ([p] + rest)[1..] == rest;
  }

  lemma {:induction false} ChunksCount(chunks: seq<string>, mixed: seq<string>, quoted: bool)
    requires |chunks| > 0 && AllUnquoted(chunks) && IsRewriting(chunks, mixed, quoted)
    ensures var marks := |Slots(MarkedChunks(mixed, quoted))|;
            && marks >= |ChunkNames(chunks, quoted)|
            && (marks == |ChunkNames(chunks, quoted)| <==> AllRestorable(chunks, quoted))
    decreases |chunks|
  {
    FirstChunk(chunks, mixed, quoted);
    RestIsRewriting(chunks, mixed, quoted);
    if |chunks| > 1 {
      ChunksCount(chunks[1..], mixed[1..], !quoted);
      var rest := MarkedChunks(mixed[1..], !quoted);
      SlotsConcat(ReadMarks(mixed[0], quoted), [Text(QUOTE, quoted)] + rest);
      SlotsFirst(Text(QUOTE, quoted), rest);
    } else {
      assert chunks[1..] == [];
    }
  }

  lemma {:induction false} ChunksRestore(chunks: seq<string>, mixed: seq<string>, quoted: bool)
    requires |chunks| > 0 && AllUnquoted(chunks) && IsRewriting(chunks, mixed, quoted)
    requires AllRestorable(chunks, quoted)
    ensures Restore(MarkedChunks(mixed, quoted), ChunkNames(chunks, quoted)) == Some(Join(chunks))
    decreases |chunks|
  {
    FirstChunk(chunks, mixed, quoted);
    RestIsRewriting(chunks, mixed, quoted);
    var first, names := ReadMarks(mixed[0], quoted), if quoted then [] else CodeNames(chunks[0]);
    if |chunks| > 1 {
      ChunksRestore(chunks[1..], mixed[1..], !quoted);
      var rest, later := MarkedChunks(mixed[1..], !quoted), ChunkNames(chunks[1..], !quoted);
      RestoreText(Text(QUOTE, quoted), rest, later);
      RestoreConcat(first, names, [Text(QUOTE, quoted)] + rest, later);
      Regroup(chunks[0], [QUOTE], Join(chunks[1..]), "");
    } else {
      assert chunks[1..] == [] && names + [] == names;
    }
  }

  /** With the quotes in order, the output is the input's chunks with the code rewritten. */
  lemma WellQuotedOutput(op: string)
    requires WellQuoted(op) && AllRewrite(Split(op))
    ensures var mixed := Mixed(Split(op), Rewritten(Split(op)));
            && ReadMarks(QmarkText(op), false) == MarkedChunks(mixed, false)
            && IsRewriting(Split(op), mixed, false)
  {
    var chunks := Split(op);
    LossesAreMisplacedEmptyLiterals(chunks);
    AssembleJoins(chunks, Rewritten(chunks), Format);
    RewrittenUnquoted(chunks);
    ReadMarksJoined(Mixed(chunks, Rewritten(chunks)), false);
  }

  lemma {:induction false} NamesUnquoted(chunks: seq<string>, quoted: bool)
    requires AllUnquoted(chunks)
    ensures forall i | 0 <= i < |ChunkNames(chunks, quoted)| :: Unquoted(ChunkNames(chunks, quoted)[i])
    decreases |chunks|
  {
    if chunks != [] {
      NamesUnquoted(chunks[1..], !quoted);
      if RewriteCode(chunks[0]).Some? {
        CodeReads(chunks[0]);
      }
    }
  }

  lemma {:induction false} RestoreKeepsQuotes(pieces: seq<Piece>, names: seq<string>)
    requires Restore(pieces, names).Some? && forall i | 0 <= i < |names| :: Unquoted(names[i])
    ensures Quotes(Restore(pieces, names).value) == QuotePieces(pieces)
  {
    if pieces != [] {
      if pieces[0].Text? {
        RestoreKeepsQuotes(pieces[1..], names);
        QuotesConcat([pieces[0].c], Restore(pieces[1..], names).value);
        OneCharacter(pieces[0].c);
      } else {
        RestoreKeepsQuotes(pieces[1..], names[1..]);
        var placeholder := OPEN + names[0] + CLOSE;
        QuotesConcat(placeholder, Restore(pieces[1..], names[1..]).value);
        assert Unquoted(OPEN + names[0] + CLOSE);
        UnquotedQuotes(placeholder);
      }
    }
  }

  lemma OneCharacter(c: char)
    ensures Quotes([c]) == Unit(c == QUOTE)
  {
    CountAppend([], c, Is(QUOTE));
    assert [] + [c] == [c];
  }

  /** When the rewriting does not raise, putting the names back in place of the markers gives the
      original text exactly for the restorable texts. */
  lemma FormatIsInvertibleIff(op: string)
    requires AllRewrite(Split(op))
    ensures Restore(ReadMarks(QmarkText(op), false), QmarkNames(op)) == Some(op) <==> Restorable(op)
  {
    var chunks := Split(op);
    SplitJoins(op);
    if WellQuoted(op) {
      var mixed := Mixed(chunks, Rewritten(chunks));
      WellQuotedOutput(op);
      ChunksCount(chunks, mixed, false);
      RestoreCounts(MarkedChunks(mixed, false), QmarkNames(op));
      if AllRestorable(chunks, false) {
        ChunksRestore(chunks, mixed, false);
      }
    } else {
      IllQuotedIsLost(op);
    }
  }

  lemma IllQuotedIsLost(op: string)
    requires AllRewrite(Split(op)) && !WellQuoted(op)
    ensures Restore(ReadMarks(QmarkText(op), false), QmarkNames(op)) != Some(op)
  {
    var chunks := Split(op);
    var pieces := ReadMarks(QmarkText(op), false);
    SplitJoins(op);
    RewrittenUnquoted(chunks);
    LossesAreMisplacedEmptyLiterals(chunks);
    QuotesKeptIff(chunks, Rewritten(chunks), Format);
    MarksKeepQuotes(QmarkText(op), false);
    NamesUnquoted(chunks, false);
    if Restore(pieces, QmarkNames(op)).Some? {
      RestoreKeepsQuotes(pieces, QmarkNames(op));
    }
  }

  lemma OutputAppend(chunks: seq<string>, chunk: string)
    ensures Assemble(chunks + [chunk], Rewritten(chunks + [chunk]), Format)
            == AddChunk(Assemble(chunks, Rewritten(chunks), Format), chunk, CodeText(chunk), IsLiteral(|chunks|),
                        Format)
  {
    RewrittenAppend(chunks, chunk);
    var longer, code := chunks + [chunk], Rewritten(chunks) + [CodeText(chunk)];
    assert longer[..|chunks|] == chunks && code[..|chunks|] == Rewritten(chunks);
  }

  lemma RewrittenAppend(chunks: seq<string>, chunk: string)
    ensures Rewritten(chunks + [chunk]) == Rewritten(chunks) + [CodeText(chunk)]
  {
    assert (chunks + [chunk])[..|chunks|] == chunks;
  }

  lemma RewrittenStep(a: seq<string>, b: seq<string>, chunk: string)
    requires Rewritten(a + b) == Rewritten(a) + Rewritten(b)
    ensures Rewritten(a + b + [chunk]) == Rewritten(a) + Rewritten(b + [chunk])
  {
    RewrittenAppend(a + b, chunk);
    RewrittenAppend(b, chunk);
  }

  lemma {:induction false} RewrittenConcat(a: seq<string>, b: seq<string>)
    ensures Rewritten(a + b) == Rewritten(a) + Rewritten(b)
    decreases |b|
  {
    if b == [] {
      assert a + b == a && Rewritten(a) + [] == Rewritten(a);
    } else {
      var n := |b| - 1;
      RewrittenConcat(a, b[..n]);
      RewrittenStep(a, b[..n], b[n]);
      AppendLast(a, b);
    }
  }

  lemma RewrittenAround(a: seq<string>, chunk: string, b: seq<string>)
    ensures Rewritten(a + [chunk] + b) == Rewritten(a) + [CodeText(chunk)] + Rewritten(b)
  {
    RewrittenConcat(a + [chunk], b);
    RewrittenAppend(a, chunk);
  }

  lemma EmptyLiteralOutput(a: seq<string>, b: seq<string>)
    requires IsLiteral(|a|) && NoEmptyLiteral(b) && Assemble(a, Rewritten(a), Format) != ""
    ensures Assemble(a + [""] + b, Rewritten(a + [""] + b), Format)
         == Chop(Assemble(a, Rewritten(a), Format)) + Assemble(b, Rewritten(b), Format)
  {
    RewrittenAround(a, "", b);
    AroundEmptyLiteral(a, b, Rewritten(a), CodeText(""), Rewritten(b), Format);
  }

  lemma TextOf(op: string, chunks: seq<string>)
    requires Split(op) == chunks
    ensures QmarkText(op) == Assemble(chunks, Rewritten(chunks), Format)
  {
  }

  lemma EmptyLiteralText(op: string, a: string, b: string)
    requires EndsInCode(a) && NoEmptyLiteral(Split(b)) && Split(op) == Split(a) + [""] + Split(b)
    requires QmarkText(a) != ""
    ensures QmarkText(op) == Chop(QmarkText(a)) + QmarkText(b)
  {
    Alternates(|Split(a)| - 1);
    TextOf(op, Split(a) + [""] + Split(b));
    EmptyLiteralOutput(Split(a), Split(b));
  }

  lemma EmptyText()
    ensures QmarkText("") == ""
  {
    assert Split("") == [""];
    OutputAppend([], "");
    assert [] + [""] == [""];
  }

  lemma BehindTextIsMisplaced(op: string, a: string, rest: seq<string>)
    requires IsLiteral(|Split(a)|) && Split(op) == Split(a) + [""] + rest && QmarkText(a) != ""
    ensures !WellQuoted(op)
  {
    var i := |Split(a)|;
    assert Split(op)[i] == "" && Split(op)[0] == Split(a)[0];
    if i == 1 && Split(a)[0] == "" {
      SplitJoins(a);
      EmptyText();
    }
  }

  lemma AllRewriteAround(op: string, a: seq<string>, b: seq<string>)
    requires AllRewrite(a) && AllRewrite(b) && IsLiteral(|a|) && Split(op) == a + [""] + b
    ensures AllRewrite(Split(op))
  {
    forall i | 0 <= i < |a| + 1 + |b| && !IsLiteral(i) ensures RewriteCode(Split(op)[i]).Some? {
      if i > |a| {
        Alternates(|a|);
        SameParity(|a| + 1, i - |a| - 1);
        assert Split(op)[i] == b[i - |a| - 1];
      }
    }
  }

  lemma MisplacedIsLost(op: string, a: string, b: string)
    requires EndsInCode(a) && Split(op) == Split(a) + [""] + Split(b) && QmarkText(a) != ""
    requires AllRewrite(Split(a)) && AllRewrite(Split(b))
    ensures AllRewrite(Split(op))
    ensures Restore(ReadMarks(QmarkText(op), false), QmarkNames(op)) != Some(op)
  {
    Alternates(|Split(a)| - 1);
    AllRewriteAround(op, Split(a), Split(b));
    BehindTextIsMisplaced(op, a, Split(b));
    IllQuotedIsLost(op);
  }

  /** Behind any output an empty literal vanishes together with the character before it, and what follows is
      rewritten as if it stood alone. */
  lemma EmptyLiteralEatsACharacter(a: string, b: string)
    requires EndsInCode(a) && NoEmptyLiteral(Split(b)) && QmarkText(a) != ""
    ensures QmarkText(a + [QUOTE] + [QUOTE] + b) == Chop(QmarkText(a)) + QmarkText(b)
  {
    SplitEmptyLiteral(a, b);
    EmptyLiteralText(a + [QUOTE] + [QUOTE] + b, a, b);
  }

  /** Then the names do not put the text back. */
  lemma EmptyLiteralIsLost(a: string, b: string)
    requires EndsInCode(a) && QmarkText(a) != "" && AllRewrite(Split(a)) && AllRewrite(Split(b))
    ensures var op := a + [QUOTE] + [QUOTE] + b;
            AllRewrite(Split(op)) && Restore(ReadMarks(QmarkText(op), false), QmarkNames(op)) != Some(op)
  {
    SplitEmptyLiteral(a, b);
    MisplacedIsLost(a + [QUOTE] + [QUOTE] + b, a, b);
  }

  /* ---- When the text stays as it is ---- */

  /** A code chunk without a parameter of either kind. */
  predicate PlainChunk(s: string) {
    !Has(s, OPEN) && !Has(s, PLAIN)
  }

  /** The quotes are in order, and no parameter stands outside literals. */
  predicate PlainText(op: string) {
    WellQuoted(op) && forall i | 0 <= i < |Split(op)| && !IsLiteral(i) :: PlainChunk(Split(op)[i])
  }

  lemma HasStep(s: string, token: string)
    requires s != "" && !Starts(s, token)
    ensures Has(s, token) <==> Has(s[1..], token)
  {
  }

  lemma {:induction false} PyShrinks(s: string)
    requires RewritePy(s).Some?
    ensures |RewritePy(s).value.text| <= |s|
    ensures Has(s, OPEN) ==> |RewritePy(s).value.text| < |s|
    decreases |s|
  {
    if s != "" {
      if Starts(s, OPEN) {
        PyShrinks(s[2..][Find(s[2..], CLOSE) + 2..]);
      } else {
        HasStep(s, OPEN);
        PyShrinks(s[1..]);
      }
    }
  }

  lemma {:induction false} PlainShrinks(s: string)
    ensures |RewritePlain(s)| <= |s|
    ensures Has(s, PLAIN) ==> |RewritePlain(s)| < |s|
    ensures !Has(s, PLAIN) ==> RewritePlain(s) == s
    decreases |s|
  {
    if s != "" {
      if Starts(s, PLAIN) {
        PlainShrinks(s[2..]);
      } else {
        HasStep(s, PLAIN);
        PlainShrinks(s[1..]);
        assert s == [s[0]] + s[1..];
      }
    }
  }

  lemma ChunkUnchangedIff(s: string)
    requires RewriteCode(s).Some?
    ensures RewriteCode(s).value.text == s <==> PlainChunk(s)
    ensures PlainChunk(s) ==> RewriteCode(s).value.names == []
  {
    if Has(s, OPEN) {
      PyShrinks(s);
    } else {
      PlainShrinks(s);
    }
  }

  lemma {:induction false} PlainHasNoNames(chunks: seq<string>, quoted: bool)
    requires forall i | 0 <= i < |chunks| && (IsLiteral(i) == quoted) :: PlainChunk(chunks[i])
    ensures ChunkNames(chunks, quoted) == []
    decreases |chunks|
  {
    if chunks != [] {
      Alternates(0);
      assert !IsLiteral(0);
      forall i | 0 <= i < |chunks[1..]| && (IsLiteral(i) == !quoted) ensures PlainChunk(chunks[1..][i]) {
        Alternates(i);
        assert chunks[1..][i] == chunks[i + 1];
      }
      PlainHasNoNames(chunks[1..], !quoted);
    }
  }

  lemma PlainRewrites(op: string)
    requires PlainText(op)
    ensures AllRewrite(Split(op)) && QmarkNames(op) == []
  {
    PlainHasNoNames(Split(op), false);
  }

  lemma UnchangedIsWellQuoted(op: string)
    requires AllRewrite(Split(op)) && QmarkText(op) == op
    ensures WellQuoted(op)
  {
    var chunks := Split(op);
    SplitJoins(op);
    RewrittenUnquoted(chunks);
    QuotesKeptIff(chunks, Rewritten(chunks), Format);
    LossesAreMisplacedEmptyLiterals(chunks);
  }

  /** With the quotes in order the chunks of the output are the literals and the rewritten code. */
  lemma WellQuotedChunks(op: string)
    requires WellQuoted(op) && AllRewrite(Split(op))
    ensures var mixed := Mixed(Split(op), Rewritten(Split(op))); AllUnquoted(mixed) && QmarkText(op) == Join(mixed)
  {
    var chunks := Split(op);
    LossesAreMisplacedEmptyLiterals(chunks);
    AssembleJoins(chunks, Rewritten(chunks), Format);
    RewrittenUnquoted(chunks);
  }

  lemma MixedAt(chunks: seq<string>, i: nat)
    requires AllRewrite(chunks) && i < |chunks|
    ensures var mixed := Mixed(chunks, Rewritten(chunks));
            mixed[i] == chunks[i] <==> IsLiteral(i) || PlainChunk(chunks[i])
  {
    if !IsLiteral(i) {
      ChunkUnchangedIff(chunks[i]);
    }
  }

  lemma MixedIsPlain(chunks: seq<string>, i: nat)
    requires AllRewrite(chunks) && Mixed(chunks, Rewritten(chunks)) == chunks && i < |chunks| && !IsLiteral(i)
    ensures PlainChunk(chunks[i])
  {
    MixedAt(chunks, i);
  }

  lemma {:induction false} PlainIsMixed(chunks: seq<string>)
    requires AllRewrite(chunks) && forall i | 0 <= i < |chunks| && !IsLiteral(i) :: PlainChunk(chunks[i])
    ensures Mixed(chunks, Rewritten(chunks)) == chunks
    decreases |chunks|
  {
    if chunks != [] {
      var n := |chunks| - 1;
      PlainIsMixed(chunks[..n]);
      if !IsLiteral(n) {
        ChunkUnchangedIff(chunks[n]);
      }
      assert chunks == chunks[..n] + [chunks[n]];
    }
  }

  lemma WellQuotedUnchangedIff(op: string)
    requires WellQuoted(op) && AllRewrite(Split(op))
    ensures QmarkText(op) == op <==> PlainText(op)
  {
    SplitJoins(op);
    WellQuotedChunks(op);
    if QmarkText(op) == op {
      JoinInjective(Mixed(Split(op), Rewritten(Split(op))), Split(op));
      forall i | 0 <= i < |Split(op)| && !IsLiteral(i) ensures PlainChunk(Split(op)[i]) {
        MixedIsPlain(Split(op), i);
      }
    }
    if PlainText(op) {
      PlainIsMixed(Split(op));
    }
  }

  /** The rewriting returns the text it was given exactly if the quotes are in order and no parameter
      stands outside literals; then it names nothing. */
  lemma UnchangedIff(op: string)
    ensures AllRewrite(Split(op)) && QmarkText(op) == op <==> PlainText(op)
    ensures PlainText(op) ==> QmarkNames(op) == []
  {
    if PlainText(op) {
      PlainRewrites(op);
    }
    if AllRewrite(Split(op)) {
      if QmarkText(op) == op {
        UnchangedIsWellQuoted(op);
      }
      if WellQuoted(op) {
        WellQuotedUnchangedIff(op);
      }
    }
  }

  /* ---- The loops ---- */

  function Prepend(text: string, names: seq<string>, code: Option<Code>): Option<Code> {
    match code
    case None => None
    case Some(Code(t, ns)) => Some(Code(text + t, names + ns))
  }

  lemma PrependTwice(text: string, names: seq<string>, text': string, names': seq<string>, code: Option<Code>)
    ensures Prepend(text, names, Prepend(text', names', code)) == Prepend(text + text', names + names', code)
  {
    if code.Some? {
      Regroup(text, text', code.value.text, "");
      assert names + (names' + code.value.names) == names + names' + code.value.names;
    }
  }

  lemma SliceShift(s: string, k: nat)
    requires 0 < k <= |s|
    ensures s[1..][k - 1..] == s[k..] && s[..k] == [s[0]] + s[1..][..k - 1]
  {
  }

  lemma {:induction false} RewritePyUpTo(s: string, k: nat)
    requires k <= Find(s, OPEN)
    ensures RewritePy(s) == Prepend(s[..k], [], RewritePy(s[k..]))
  {
    if k == 0 {
      assert s[0..] == s;
      PrependNothing(RewritePy(s));
    } else {
      RewritePyUpTo(s[1..], k - 1);
      SliceShift(s, k);
      PrependTwice([s[0]], [], s[1..][..k - 1], [], RewritePy(s[k..]));
      RewritePyFirst(s);
    }
  }

  lemma PrependNothing(code: Option<Code>)
    ensures Prepend("", [], code) == code
  {
    if code.Some? {
      assert "" + code.value.text == code.value.text && [] + code.value.names == code.value.names;
    }
  }

  lemma RewritePyFirst(s: string)
    requires s != "" && !Starts(s, OPEN)
    ensures RewritePy(s) == Prepend([s[0]], [], RewritePy(s[1..]))
  {
    if RewritePy(s[1..]).Some? {
      assert [] + RewritePy(s[1..]).value.names == RewritePy(s[1..]).value.names;
    }
  }

  /** What one turn of the 'pyformat' loop leaves to do. */
  lemma PlaceholderStep(s: string, k: nat, j: nat)
    requires k == Find(s, OPEN) < |s| && k + 2 <= |s| && j == Find(s[k + 2..], CLOSE)
    ensures j == |s[k + 2..]| ==> RewritePy(s) == None
    ensures j < |s[k + 2..]| ==>
              && j + 2 <= |s[k + 2..]|
              && RewritePy(s) == Prepend(s[..k] + "?", [s[k + 2..][..j]], RewritePy(s[k + 2..][j + 2..]))
  {
    RewritePyUpTo(s, k);
    assert s[k..][2..] == s[k + 2..];
    if j < |s[k + 2..]| {
      assert Starts(s[k + 2..][j..], CLOSE);
      PrependTwice(s[..k], [], "?", [s[k + 2..][..j]], RewritePy(s[k + 2..][j + 2..]));
      assert [] + [s[k + 2..][..j]] == [s[k + 2..][..j]];
    }
  }

  /** The inner loop of the 'pyformat' branch. */
  method RewritePyChunk(code: string) returns (r: Option<Code>)
    ensures r == RewritePy(code)
  {
    var text, names, chunk := "", [], code;
    PrependNothing(RewritePy(code));
    while chunk != ""
      invariant RewritePy(code) == Prepend(text, names, RewritePy(chunk))
      decreases |chunk|
    {
      var k := Find(chunk, OPEN);
      if k == |chunk| {
        RewritePyUpTo(chunk, k);
        PrependTwice(text, names, chunk[..k], [], RewritePy(chunk[k..]));
        assert names + [] == names;
        text, chunk := text + chunk[..k], "";
      } else {
        assert Starts(chunk[k..], OPEN);
        var after := chunk[k + 2..];
        var j := Find(after, CLOSE);
        PlaceholderStep(chunk, k, j);
        if j == |after| {
          return None;
        }
        PrependTwice(text, names, chunk[..k] + "?", [after[..j]], RewritePy(after[j + 2..]));
        text, names, chunk := text + (chunk[..k] + "?"), names + [after[..j]], after[j + 2..];
      }
    }
    assert text + "" == text && names + [] == names;
    r := Some(Code(text, names));
  }

  lemma OutputSoFar(chunks: seq<string>, i: nat)
    requires i < |chunks|
    ensures Assemble(chunks[..i + 1], Rewritten(chunks[..i + 1]), Format)
         == AddChunk(Assemble(chunks[..i], Rewritten(chunks[..i]), Format), chunks[i], CodeText(chunks[i]),
                     IsLiteral(i), Format)
  {
    assert chunks[..i + 1][..i] == chunks[..i];
    assert Rewritten(chunks[..i + 1])[..i] == Rewritten(chunks[..i]);
  }

  lemma NamesToCome(chunks: seq<string>, i: nat, quoted: bool)
    requires i < |chunks|
    ensures ChunkNames(chunks[i..], quoted)
         == (if quoted then [] else CodeNames(chunks[i])) + ChunkNames(chunks[i + 1..], !quoted)
  {
    assert chunks[i..][1..] == chunks[i + 1..];
  }

  lemma AllRewriteSoFar(chunks: seq<string>, i: nat)
    requires i < |chunks|
    ensures AllRewrite(chunks[..i + 1])
       <==> AllRewrite(chunks[..i]) && (!IsLiteral(i) ==> RewriteCode(chunks[i]).Some?)
    ensures AllRewrite(chunks) ==> AllRewrite(chunks[..i + 1])
  {
    assert forall k | 0 <= k <= i :: chunks[..i + 1][k] == chunks[k];
    assert forall k | 0 <= k < i :: chunks[..i][k] == chunks[k];
  }

  method RewriteCodeChunk(chunk: string) returns (code: Option<Code>)
    ensures code == RewriteCode(chunk)
  {
    if Has(chunk, OPEN) {
      code := RewritePyChunk(chunk);
    } else {
      code := Some(Code(RewritePlain(chunk), []));
    }
  }

  lemma RegroupNames(a: seq<string>, b: seq<string>, c: seq<string>)
    ensures a + (b + c) == (a + b) + c && [] + c == c && a + [] == a
  {
  }

  /** The outer loop, over the chunks between apostrophes; `None` when a chunk raises. */
  method RewriteChunks(chunks: seq<string>) returns (r: Option<Code>)
    ensures r.Some? <==> AllRewrite(chunks)
    ensures r.Some? ==> r.value == Code(Assemble(chunks, Rewritten(chunks), Format), ChunkNames(chunks, false))
  {
    var outOp, outparams, inQuotes := "", [], false;
    for i := 0 to |chunks|
      invariant inQuotes == IsLiteral(i)
      invariant AllRewrite(chunks[..i])
      invariant outOp == Assemble(chunks[..i], Rewritten(chunks[..i]), Format)
      invariant outparams + ChunkNames(chunks[i..], inQuotes) == ChunkNames(chunks, false)
    {
      var chunk := chunks[i];
      OutputSoFar(chunks, i);
      NamesToCome(chunks, i, inQuotes);
      Alternates(i);
      AllRewriteSoFar(chunks, i);
      if inQuotes {
        RegroupNames(outparams, [], ChunkNames(chunks[i + 1..], false));
        if outOp != "" && chunk == "" {
          outOp := outOp[..|outOp| - 1];
        } else {
          outOp := outOp + [QUOTE] + chunk + [QUOTE];
        }
      } else {
        var code := RewriteCodeChunk(chunk);
        if code == None {
          return None;
        }
        RegroupNames(outparams, code.value.names, ChunkNames(chunks[i + 1..], true));
        outOp, outparams := outOp + code.value.text, outparams + code.value.names;
      }
      inQuotes := !inQuotes;
    }
    assert chunks[..|chunks|] == chunks;
    RegroupNames(outparams, [], []);
    r := Some(Code(outOp, outparams));
  }

  /** `changeFormatToQmark`: it raises exactly for an open placeholder, and otherwise the names it
      returns put back the original text exactly for the restorable texts. */
  method ChangeFormatToQmark(op: string) returns (r: Option<Code>)
    ensures r.Some? <==> AllRewrite(Split(op))
    ensures r.Some? ==>
              && r.value == Code(QmarkText(op), QmarkNames(op))
              && (Restore(ReadMarks(r.value.text, false), r.value.names) == Some(op) <==> Restorable(op))
  {
    r := RewriteChunks(Split(op));
    if r.Some? {
      FormatIsInvertibleIff(op);
    }
  }
}
