/** The loop the two rewriters share: literals and rewritten code put back together, with the rule for
    an empty literal chunk, and the account of the apostrophes that shows when that rule does harm. */
module SqlAssembly {
  import opened Counting
  import opened SqlText

  /** Which of the two rewriters runs; they treat an empty literal chunk differently. */
  datatype Style = Named | Format

  predicate IsLiteral(i: int) {
    i % 2 == 1
  }

  lemma Alternates(i: int)
    ensures IsLiteral(i + 1) == !IsLiteral(i)
  {
  }

  /** An empty literal chunk takes a character away instead of being copied. */
  predicate TakesAway(out: string, chunk: string, style: Style) {
    chunk == "" && (style == Named || out != "")
  }

  function Chop(out: string): string {
    if out == "" then "" else out[..|out| - 1]
  }

  /** The output after one more chunk. */
  function AddChunk(out: string, chunk: string, code: string, literal: bool, style: Style): string {
    if !literal then out + code
    else if TakesAway(out, chunk, style) then Chop(out)
    else out + [QUOTE] + chunk + [QUOTE]
  }

  /** The output after the given chunks; `code[i]` is the rewriting of code chunk `i`. */
  function Assemble(chunks: seq<string>, code: seq<string>, style: Style): string
    requires |code| == |chunks|
    decreases |chunks|
  {
    if chunks == [] then ""
    else
      var n := |chunks| - 1;
      AddChunk(Assemble(chunks[..n], code[..n], style), chunks[n], code[n], IsLiteral(n), style)
  }

  /** How many chunks took a character away. */
  function Losses(chunks: seq<string>, code: seq<string>, style: Style): nat
    requires |code| == |chunks|
    decreases |chunks|
  {
    if chunks == [] then 0
    else
      var n := |chunks| - 1;
      Losses(chunks[..n], code[..n], style)
      + Unit(IsLiteral(n) && TakesAway(Assemble(chunks[..n], code[..n], style), chunks[n], style))
  }

  /** The chunks of the output when nothing is taken away. */
  function Mixed(chunks: seq<string>, code: seq<string>): (mixed: seq<string>)
    requires |code| == |chunks|
    ensures |mixed| == |chunks|
    ensures forall i | 0 <= i < |chunks| :: mixed[i] == if IsLiteral(i) then chunks[i] else code[i]
  {
    if chunks == [] then []
    else
      var n := |chunks| - 1;
      Mixed(chunks[..n], code[..n]) + [if IsLiteral(n) then chunks[n] else code[n]]
  }

  lemma MixedEqualIff(chunks: seq<string>, code: seq<string>, code': seq<string>)
    requires |code| == |chunks| == |code'|
    ensures Mixed(chunks, code) == Mixed(chunks, code')
       <==> forall i: nat | i < |chunks| && !IsLiteral(i) :: code[i] == code'[i]
  {
    if Mixed(chunks, code) == Mixed(chunks, code') {
      forall i: nat | i < |chunks| && !IsLiteral(i) ensures code[i] == code'[i] {
        assert Mixed(chunks, code)[i] == Mixed(chunks, code')[i];
      }
    }
  }

  lemma LastChunk(chunks: seq<string>, code: seq<string>, style: Style)
    requires |code| == |chunks| > 0 && Losses(chunks, code, style) == 0
    ensures var n := |chunks| - 1;
            var out := Assemble(chunks[..n], code[..n], style);
            && Losses(chunks[..n], code[..n], style) == 0
            && IsLiteral(n - 1) == !IsLiteral(n)
            && Assemble(chunks, code, style)
               == if IsLiteral(n) then out + [QUOTE] + chunks[n] + [QUOTE] else out + code[n]
  {
    Alternates(|chunks| - 2);
  }

  lemma JoinLast(chunks: seq<string>, code: seq<string>)
    requires |code| == |chunks| > 1
    ensures var n := |chunks| - 1;
            Join(Mixed(chunks, code))
            == Join(Mixed(chunks[..n], code[..n])) + [QUOTE] + if IsLiteral(n) then chunks[n] else code[n]
  {
    var n := |chunks| - 1;
    JoinAppend(Mixed(chunks[..n], code[..n]), if IsLiteral(n) then chunks[n] else code[n]);
  }

  /** Nothing taken away: the output is the chunks put back together, with an open literal closed. */
  lemma {:induction false} AssembleJoins(chunks: seq<string>, code: seq<string>, style: Style)
    requires |code| == |chunks| > 0 && Losses(chunks, code, style) == 0
    ensures !IsLiteral(|chunks| - 1) ==> Assemble(chunks, code, style) == Join(Mixed(chunks, code))
    ensures IsLiteral(|chunks| - 1) ==> Assemble(chunks, code, style) == Join(Mixed(chunks, code)) + [QUOTE]
    decreases |chunks|
  {
    var n := |chunks| - 1;
    LastChunk(chunks, code, style);
    if n == 0 {
      assert Mixed(chunks, code) == [code[0]];
    } else {
      AssembleJoins(chunks[..n], code[..n], style);
      JoinLast(chunks, code);
    }
  }

  /** The chunks put together, with an open literal closed. */
  function Closed(mixed: seq<string>): string
    requires |mixed| > 0
  {
    if IsLiteral(|mixed| - 1) then Join(mixed) + [QUOTE] else Join(mixed)
  }

  lemma ClosedInjective(a: seq<string>, b: seq<string>)
    requires |a| == |b| > 0 && AllUnquoted(a) && AllUnquoted(b) && Closed(a) == Closed(b)
    ensures a == b
  {
    if IsLiteral(|a| - 1) {
      assert (Join(a) + [QUOTE])[..|Join(a)|] == Join(a) && (Join(b) + [QUOTE])[..|Join(b)|] == Join(b);
    }
    JoinInjective(a, b);
  }

  lemma AssembleCloses(chunks: seq<string>, code: seq<string>, style: Style)
    requires |code| == |chunks| > 0 && Losses(chunks, code, style) == 0 && AllUnquoted(chunks) && AllUnquoted(code)
    ensures Assemble(chunks, code, style) == Closed(Mixed(chunks, code)) && AllUnquoted(Mixed(chunks, code))
  {
    AssembleJoins(chunks, code, style);
  }

  /** Only the literals and the rewritten code reach the output. */
  lemma {:induction false} AssembleAgrees(chunks: seq<string>, chunks': seq<string>, code: seq<string>,
                                          code': seq<string>, style: Style)
    requires |code| == |chunks| == |chunks'| == |code'|
    requires forall i | 0 <= i < |chunks| :: if IsLiteral(i) then chunks[i] == chunks'[i] else code[i] == code'[i]
    ensures Assemble(chunks, code, style) == Assemble(chunks', code', style)
    decreases |chunks|
  {
    if chunks != [] {
      var n := |chunks| - 1;
      AssembleAgrees(chunks[..n], chunks'[..n], code[..n], code'[..n], style);
    }
  }

  /** What follows the text is code, not a literal. */
  predicate EndsInCode(s: string) {
    !IsLiteral(|Split(s)| - 1)
  }

  predicate NoEmptyLiteral(chunks: seq<string>) {
    forall i | 0 <= i < |chunks| && IsLiteral(i) :: chunks[i] != ""
  }

  /** One more chunk at the end. */
  lemma AssembleLast(chunks: seq<string>, code: seq<string>, chunk: string, rewritten: string, style: Style)
    requires |code| == |chunks|
    ensures Assemble(chunks + [chunk], code + [rewritten], style)
         == AddChunk(Assemble(chunks, code, style), chunk, rewritten, IsLiteral(|chunks|), style)
  {
    var n := |chunks|;
    assert (chunks + [chunk])[..n] == chunks && (code + [rewritten])[..n] == code;
  }

  lemma AppendLast<T>(a: seq<T>, b: seq<T>)
    requires |b| > 0
    ensures b == b[..|b| - 1] + [b[|b| - 1]] && a + b == (a + b[..|b| - 1]) + [b[|b| - 1]]
  {
  }

  lemma SameParity(m: nat, n: nat)
    requires !IsLiteral(m)
    ensures IsLiteral(m + n) == IsLiteral(n)
  {
  }

  lemma ConcatStep(a: seq<string>, b: seq<string>, code: seq<string>, code': seq<string>, chunk: string,
                   rewritten: string, style: Style)
    requires |code| == |a| && |code'| == |b| && !IsLiteral(|a|) && (IsLiteral(|b|) ==> chunk != "")
    requires Assemble(a + b, code + code', style) == Assemble(a, code, style) + Assemble(b, code', style)
    ensures Assemble(a + b + [chunk], code + code' + [rewritten], style)
         == Assemble(a, code, style) + Assemble(b + [chunk], code' + [rewritten], style)
  {
    SameParity(|a|, |b|);
    AssembleLast(a + b, code + code', chunk, rewritten, style);
    AssembleLast(b, code', chunk, rewritten, style);
    Appended(Assemble(a, code, style), Assemble(b, code', style), chunk, rewritten, IsLiteral(|b|), style);
  }

  /** Chunks that begin with code and have no empty literal are put together whatever stands before. */
  lemma {:induction false} AssembleConcat(a: seq<string>, b: seq<string>, code: seq<string>, code': seq<string>,
                                          style: Style)
    requires |code| == |a| && |code'| == |b| && !IsLiteral(|a|) && NoEmptyLiteral(b)
    ensures Assemble(a + b, code + code', style) == Assemble(a, code, style) + Assemble(b, code', style)
    decreases |b|
  {
    if b == [] {
      assert a + b == a && code + code' == code;
    } else {
      var n := |b| - 1;
      AssembleConcat(a, b[..n], code, code'[..n], style);
      ConcatStep(a, b[..n], code, code'[..n], b[n], code'[n], style);
      AppendLast(a, b);
      AppendLast(code, code');
    }
  }

  lemma Appended(before: string, out: string, chunk: string, code: string, literal: bool, style: Style)
    requires literal ==> chunk != ""
    ensures AddChunk(before + out, chunk, code, literal, style) == before + AddChunk(out, chunk, code, literal, style)
  {
  }

  lemma AfterEmptyLiteral(chunks: seq<string>, code: seq<string>, c: string, style: Style)
    requires |code| == |chunks| && IsLiteral(|chunks|) && TakesAway(Assemble(chunks, code, style), "", style)
    ensures Assemble(chunks + [""], code + [c], style) == Chop(Assemble(chunks, code, style))
  {
    AssembleLast(chunks, code, "", c, style);
  }

  /** An empty literal that takes a character away, and what follows it. */
  lemma AroundEmptyLiteral(a: seq<string>, b: seq<string>, code: seq<string>, c: string, code': seq<string>,
                           style: Style)
    requires |code| == |a| && |code'| == |b| && IsLiteral(|a|) && NoEmptyLiteral(b)
    requires TakesAway(Assemble(a, code, style), "", style)
    ensures Assemble(a + [""] + b, code + [c] + code', style)
         == Chop(Assemble(a, code, style)) + Assemble(b, code', style)
  {
    Alternates(|a|);
    AfterEmptyLiteral(a, code, c, style);
    AssembleConcat(a + [""], b, code + [c], code', style);
  }

  function Quotes(s: string): nat {
    Count(s, Is(QUOTE))
  }

  lemma {:induction false} UnquotedQuotes(s: string)
    requires Unquoted(s)
    ensures Quotes(s) == 0
  {
    CountZero(s, Is(QUOTE));
  }

  lemma QuotesConcat(s: string, t: string)
    ensures Quotes(s + t) == Quotes(s) + Quotes(t)
  {
    CountConcat(s, t, Is(QUOTE));
  }

  lemma OneQuote(s: string)
    ensures Quotes(s + [QUOTE]) == Quotes(s) + 1
  {
    CountAppend(s, QUOTE, Is(QUOTE));
  }

  lemma {:induction false} JoinQuotes(chunks: seq<string>)
    requires |chunks| > 0 && AllUnquoted(chunks)
    ensures Quotes(Join(chunks)) == |chunks| - 1
  {
    UnquotedQuotes(chunks[0]);
    if |chunks| > 1 {
      JoinQuotes(chunks[1..]);
      OneQuote(chunks[0]);
      QuotesConcat(chunks[0] + [QUOTE], Join(chunks[1..]));
    }
  }

  lemma LiteralQuotes(out: string, chunk: string)
    requires Unquoted(chunk)
    ensures Quotes(out + [QUOTE] + chunk + [QUOTE]) == Quotes(out) + 2
  {
    OneQuote(out);
    QuotesConcat(out + [QUOTE], chunk);
    UnquotedQuotes(chunk);
    OneQuote(out + [QUOTE] + chunk);
  }

  lemma ChopQuotes(out: string)
    ensures Quotes(out) - 1 <= Quotes(Chop(out)) <= Quotes(out)
  {
    if out != "" {
      assert out == Chop(out) + [out[|out| - 1]];
      CountAppend(Chop(out), out[|out| - 1], Is(QUOTE));
    }
  }

  lemma AddChunkQuotes(out: string, chunk: string, code: string, literal: bool, style: Style)
    requires Unquoted(chunk) && Unquoted(code)
    ensures !literal ==> Quotes(AddChunk(out, chunk, code, literal, style)) == Quotes(out)
    ensures literal && TakesAway(out, chunk, style) ==>
              Quotes(out) - 1 <= Quotes(AddChunk(out, chunk, code, literal, style)) <= Quotes(out)
    ensures literal && !TakesAway(out, chunk, style) ==>
              Quotes(AddChunk(out, chunk, code, literal, style)) == Quotes(out) + 2
  {
    QuotesConcat(out, code);
    UnquotedQuotes(code);
    ChopQuotes(out);
    LiteralQuotes(out, chunk);
  }

  /** The number of literals among the first `n` chunks. */
  function LiteralsIn(n: nat): nat {
    if n == 0 then 0 else LiteralsIn(n - 1) + Unit(IsLiteral(n - 1))
  }

  lemma {:induction false} LiteralsAreHalf(n: nat)
    ensures n == 2 * LiteralsIn(n) + Unit(IsLiteral(n))
  {
    if n > 0 {
      LiteralsAreHalf(n - 1);
    }
  }

  /** Every literal copied adds two apostrophes, every chunk that takes away adds none and costs at most
      one. */
  lemma {:induction false} AssembleQuotes(chunks: seq<string>, code: seq<string>, style: Style)
    requires |code| == |chunks| && AllUnquoted(chunks) && AllUnquoted(code)
    ensures var literals, losses := LiteralsIn(|chunks|), Losses(chunks, code, style);
            2 * literals - 3 * losses <= Quotes(Assemble(chunks, code, style)) <= 2 * literals - 2 * losses
    decreases |chunks|
  {
    if chunks != [] {
      var n := |chunks| - 1;
      AssembleQuotes(chunks[..n], code[..n], style);
      AddChunkQuotes(Assemble(chunks[..n], code[..n], style), chunks[n], code[n], IsLiteral(n), style);
    }
  }

  /** The output has as many apostrophes as the input exactly when the input closes its last literal and
      nothing was taken away. */
  lemma QuotesKeptIff(chunks: seq<string>, code: seq<string>, style: Style)
    requires |code| == |chunks| > 0 && AllUnquoted(chunks) && AllUnquoted(code)
    ensures Quotes(Assemble(chunks, code, style)) == Quotes(Join(chunks))
       <==> !IsLiteral(|chunks| - 1) && Losses(chunks, code, style) == 0
  {
    AssembleQuotes(chunks, code, style);
    LiteralsAreHalf(|chunks|);
    JoinQuotes(chunks);
  }

  predicate IsQuote(p: Piece) {
    p.Text? && p.c == QUOTE
  }

  function QuotePieces(pieces: seq<Piece>): nat {
    Count(pieces, IsQuote)
  }

  lemma {:induction false} MarksKeepQuotes(s: string, quoted: bool)
    ensures QuotePieces(ReadMarks(s, quoted)) == Quotes(s)
  {
    if s != "" {
      MarksKeepQuotes(s[1..], if s[0] == QUOTE then !quoted else quoted);
    }
  }

  lemma {:induction false} NamesHoldNoQuotes(s: string, n: nat, letters: set<char>)
    requires n <= |s| && forall i | 0 <= i < n :: NameChar(s[i], letters)
    ensures Quotes(s[n..]) == Quotes(s)
  {
    UnquotedQuotes(s[..n]);
    QuotesConcat(s[..n], s[n..]);
    assert s == s[..n] + s[n..];
  }

  lemma {:induction false} NamedKeepsQuotes(s: string, quoted: bool, letters: set<char>)
    ensures QuotePieces(ReadNamed(s, quoted, letters)) == Quotes(s)
    decreases |s|
  {
    if s != "" {
      var n := if quoted || s[0] != ':' then 0 else NameLength(s[1..], letters);
      NamesHoldNoQuotes(s[1..], n, letters);
      assert s[1..][0..] == s[1..];
      NamedKeepsQuotes(s[1..][n..], if s[0] == QUOTE then !quoted else quoted, letters);
    }
  }

  lemma {:induction false} EraseKeepsQuotes(pieces: seq<Piece>)
    ensures QuotePieces(Erase(pieces)) == QuotePieces(pieces)
  {
    if pieces != [] {
      EraseKeepsQuotes(pieces[1..]);
    }
  }
}
