/** SQL text as the parameter-style rewriters see it: cut at the apostrophes into code and literals, and
    read, one character at a time, as text with slots where parameters go. */
module SqlText {
  const QUOTE := '\''

  lemma TailOfConcat<T>(a: seq<T>, b: seq<T>)
    requires a != []
    ensures (a + b)[0] == a[0] && (a + b)[1..] == a[1..] + b
  {
  }

  lemma Reassociate<T>(x: T, a: seq<T>, b: seq<T>)
    ensures [x] + (a + b) == ([x] + a) + b
  {
  }

  /* ---- str.split("'") and its inverse ---- */

  predicate Unquoted(s: string) {
    QUOTE !in s
  }

  predicate AllUnquoted(chunks: seq<string>) {
    forall i | 0 <= i < |chunks| :: Unquoted(chunks[i])
  }

  /** `s.split("'")`: what stands between the apostrophes; the odd-numbered chunks are literals. */
  function Split(s: string): (chunks: seq<string>)
    ensures |chunks| > 0 && AllUnquoted(chunks)
  {
    if s == "" then [""]
    else
      var chunks := Split(s[1..]);
      if s[0] == QUOTE then [""] + chunks else [[s[0]] + chunks[0]] + chunks[1..]
  }

  function Join(chunks: seq<string>): string
    requires |chunks| > 0
  {
    if |chunks| == 1 then chunks[0] else chunks[0] + [QUOTE] + Join(chunks[1..])
  }

  lemma {:induction false} SplitJoins(s: string)
    ensures Join(Split(s)) == s
  {
    if s != "" {
      var chunks := Split(s[1..]);
      SplitJoins(s[1..]);
      if s[0] == QUOTE {
        assert ([""] + chunks)[1..] == chunks;
      } else {
        assert ([[s[0]] + chunks[0]] + chunks[1..])[1..] == chunks[1..];
      }
    }
  }

  lemma {:induction false} SplitUnquoted(s: string)
    requires Unquoted(s)
    ensures Split(s) == [s]
  {
    if s != "" {
      SplitUnquoted(s[1..]);
      assert s == [s[0]] + s[1..];
    }
  }

  /** An apostrophe cuts the text in two, wherever it stands. */
  lemma {:induction false} SplitAtQuote(a: string, b: string)
    ensures Split(a + [QUOTE] + b) == Split(a) + Split(b)
  {
    var s := a + [QUOTE] + b;
    if a == "" {
      assert s[1..] == b;
    } else {
      SplitAtQuote(a[1..], b);
      assert s[1..] == a[1..] + [QUOTE] + b;
      var chunks := Split(a[1..]);
      if a[0] == QUOTE {
        Reassociate("", chunks, Split(b));
      } else {
        TailOfConcat(chunks, Split(b));
        Reassociate([a[0]] + chunks[0], chunks[1..], Split(b));
      }
    }
  }

  lemma SplitEmptyLiteral(a: string, b: string)
    ensures Split(a + [QUOTE] + [QUOTE] + b) == Split(a) + [""] + Split(b)
  {
    SplitUnquoted("");
    SplitAtQuote(a, "");
    assert a + [QUOTE] + "" == a + [QUOTE];
    SplitAtQuote(a + [QUOTE], b);
  }

  /** The chunks of two texts put together without an apostrophe between them. */
  function Welded(a: seq<string>, b: seq<string>): seq<string>
    requires |a| > 0 && |b| > 0
  {
    a[..|a| - 1] + [a[|a| - 1] + b[0]] + b[1..]
  }

  lemma WeldedCons(first: string, a: seq<string>, b: seq<string>)
    requires |a| > 0 && |b| > 0
    ensures Welded([first] + a, b) == [first] + Welded(a, b)
  {
    assert ([first] + a)[..|a|] == [first] + a[..|a| - 1];
  }

  lemma WeldedFirst(c: char, a: seq<string>, b: seq<string>)
    requires |a| > 0 && |b| > 0
    ensures Welded([[c] + a[0]] + a[1..], b) == [[c] + Welded(a, b)[0]] + Welded(a, b)[1..]
  {
    if |a| == 1 {
      Reassociate(c, a[0], b[0]);
    }
  }

  lemma {:induction false} SplitConcat(a: string, b: string)
    ensures Split(a + b) == Welded(Split(a), Split(b))
  {
    if a == "" {
      assert a + b == b && "" + Split(b)[0] == Split(b)[0];
    } else {
      SplitConcat(a[1..], b);
      TailOfConcat(a, b);
      if a[0] == QUOTE {
        WeldedCons("", Split(a[1..]), Split(b));
      } else {
        WeldedFirst(a[0], Split(a[1..]), Split(b));
      }
    }
  }

  lemma {:induction false} JoinSplits(chunks: seq<string>)
    requires |chunks| > 0 && AllUnquoted(chunks)
    ensures Split(Join(chunks)) == chunks
  {
    SplitUnquoted(chunks[0]);
    if |chunks| > 1 {
      JoinSplits(chunks[1..]);
      SplitAtQuote(chunks[0], Join(chunks[1..]));
    }
  }

  /** Equal texts have equal chunks. */
  lemma JoinInjective(a: seq<string>, b: seq<string>)
    requires |a| > 0 && |b| > 0 && AllUnquoted(a) && AllUnquoted(b) && Join(a) == Join(b)
    ensures a == b
  {
    JoinSplits(a);
    JoinSplits(b);
  }

  lemma {:induction false} JoinAppend(chunks: seq<string>, chunk: string)
    requires |chunks| > 0
    ensures Join(chunks + [chunk]) == Join(chunks) + [QUOTE] + chunk
  {
    var longer := chunks + [chunk];
    if |chunks| > 1 {
      JoinAppend(chunks[1..], chunk);
      assert longer[1..] == chunks[1..] + [chunk];
    } else {
      assert longer[1..] == [chunk];
    }
  }

  /* ---- Reading the text ---- */

  /** One character, inside or outside a literal, or the place of a parameter; a `?` names none. */
  datatype Piece = Text(c: char, quoted: bool) | Slot(name: string)

  const MARK := Slot("")

  /** What `c.isalnum() or c == "_"` accepts; `letters` are the alphanumerics beyond ASCII. */
  predicate NameChar(c: char, letters: set<char>) {
    || '0' <= c <= '9' || 'A' <= c <= 'Z' || 'a' <= c <= 'z' || c == '_'
    || (c >= 128 as char && c in letters)
  }

  function NameLength(s: string, letters: set<char>): (n: nat)
    ensures n <= |s|
    ensures forall i | 0 <= i < n :: NameChar(s[i], letters)
    ensures n < |s| ==> !NameChar(s[n], letters)
  {
    if s == "" || !NameChar(s[0], letters) then 0 else 1 + NameLength(s[1..], letters)
  }

  /** What a colon outside literals stands for when `n` characters of a name follow it. */
  function NamePiece(s: string, n: nat): Piece
    requires n <= |s|
  {
    if n == 0 then Text(':', false) else Slot(s[..n])
  }

  /** What a text in 'named' style means: `:name` outside literals is a parameter. */
  function ReadNamed(s: string, quoted: bool, letters: set<char>): seq<Piece>
    decreases |s|
  {
    if s == "" then []
    else if s[0] == QUOTE then [Text(QUOTE, quoted)] + ReadNamed(s[1..], !quoted, letters)
    else if quoted || s[0] != ':' then [Text(s[0], quoted)] + ReadNamed(s[1..], quoted, letters)
    else
      var n := NameLength(s[1..], letters);
      [NamePiece(s[1..], n)] + ReadNamed(s[1..][n..], false, letters)
  }

  /** What a text in 'qmark' style means: `?` outside literals is a parameter. */
  function ReadMarks(s: string, quoted: bool): seq<Piece> {
    if s == "" then []
    else if s[0] == QUOTE then [Text(QUOTE, quoted)] + ReadMarks(s[1..], !quoted)
    else if quoted || s[0] != '?' then [Text(s[0], quoted)] + ReadMarks(s[1..], quoted)
    else [MARK] + ReadMarks(s[1..], false)
  }

  function Slots(pieces: seq<Piece>): seq<string> {
    if pieces == [] then []
    else (if pieces[0].Slot? then [pieces[0].name] else []) + Slots(pieces[1..])
  }

  function Forget(p: Piece): Piece {
    if p.Slot? then MARK else p
  }

  /** The same text with the names of its slots forgotten. */
  function Erase(pieces: seq<Piece>): seq<Piece> {
    if pieces == [] then [] else [Forget(pieces[0])] + Erase(pieces[1..])
  }

  lemma {:induction false} SlotsConcat(a: seq<Piece>, b: seq<Piece>)
    ensures Slots(a + b) == Slots(a) + Slots(b)
  {
    if a == [] {
      assert a + b == b;
    } else {
      SlotsConcat(a[1..], b);
      TailOfConcat(a, b);
      if a[0].Slot? {
        Reassociate(a[0].name, Slots(a[1..]), Slots(b));
      }
    }
  }

  /* ---- Reading chunk by chunk ---- */

  lemma {:induction false} NameLengthConcat(a: string, b: string, letters: set<char>)
    requires b != "" && !NameChar(b[0], letters)
    ensures NameLength(a + b, letters) == NameLength(a, letters)
  {
    if a == "" {
      assert a + b == b;
    } else if NameChar(a[0], letters) {
      NameLengthConcat(a[1..], b, letters);
      TailOfConcat(a, b);
    }
  }

  lemma NameConcat(a: string, b: string, n: nat, letters: set<char>)
    requires b != "" && !NameChar(b[0], letters) && n == NameLength(a, letters)
    ensures NameLength(a + b, letters) == n
    ensures NamePiece(a + b, n) == NamePiece(a, n) && (a + b)[n..] == a[n..] + b
  {
    NameLengthConcat(a, b, letters);
    assert (a + b)[..n] == a[..n];
  }

  /** A name never runs across an apostrophe, so a text can be read in two parts there. */
  lemma {:induction false} ReadNamedConcat(a: string, b: string, quoted: bool, letters: set<char>)
    requires Unquoted(a) && b != "" && b[0] == QUOTE
    ensures ReadNamed(a + b, quoted, letters) == ReadNamed(a, quoted, letters) + ReadNamed(b, quoted, letters)
    decreases |a|, 1
  {
    if a == "" {
      assert a + b == b;
    } else if quoted || a[0] != ':' {
      ReadNamedConcat(a[1..], b, quoted, letters);
      TailOfConcat(a, b);
      Reassociate(Text(a[0], quoted), ReadNamed(a[1..], quoted, letters), ReadNamed(b, quoted, letters));
    } else {
      ReadColonConcat(a, b, letters);
    }
  }

  lemma {:induction false} ReadColonConcat(a: string, b: string, letters: set<char>)
    requires Unquoted(a) && a != "" && a[0] == ':' && b != "" && b[0] == QUOTE
    ensures ReadNamed(a + b, false, letters) == ReadNamed(a, false, letters) + ReadNamed(b, false, letters)
    decreases |a|, 0
  {
    var rest := a[1..];
    var n := NameLength(rest, letters);
    NameConcat(rest, b, n, letters);
    ReadNamedConcat(rest[n..], b, false, letters);
    TailOfConcat(a, b);
    Reassociate(NamePiece(rest, n), ReadNamed(rest[n..], false, letters), ReadNamed(b, false, letters));
  }

  lemma {:induction false} ReadMarksConcat(a: string, b: string, quoted: bool)
    requires Unquoted(a)
    ensures ReadMarks(a + b, quoted) == ReadMarks(a, quoted) + ReadMarks(b, quoted)
  {
    if a == "" {
      assert a + b == b;
    } else {
      ReadMarksConcat(a[1..], b, quoted);
      TailOfConcat(a, b);
      var head := if quoted || a[0] != '?' then Text(a[0], quoted) else MARK;
      Reassociate(head, ReadMarks(a[1..], quoted), ReadMarks(b, quoted));
    }
  }

  /** The reading of a text cut into chunks, the first of which is a literal or not. */
  function NamedChunks(chunks: seq<string>, quoted: bool, letters: set<char>): seq<Piece>
    requires |chunks| > 0
    decreases |chunks|
  {
    if |chunks| == 1 then ReadNamed(chunks[0], quoted, letters)
    else ReadNamed(chunks[0], quoted, letters) + ([Text(QUOTE, quoted)] + NamedChunks(chunks[1..], !quoted, letters))
  }

  function MarkedChunks(chunks: seq<string>, quoted: bool): seq<Piece>
    requires |chunks| > 0
    decreases |chunks|
  {
    if |chunks| == 1 then ReadMarks(chunks[0], quoted)
    else ReadMarks(chunks[0], quoted) + ([Text(QUOTE, quoted)] + MarkedChunks(chunks[1..], !quoted))
  }

  /** Cutting at apostrophes refines the one-pass scanner, for every text. */
  lemma {:induction false} ReadNamedJoined(chunks: seq<string>, quoted: bool, letters: set<char>)
    requires |chunks| > 0 && AllUnquoted(chunks)
    ensures ReadNamed(Join(chunks), quoted, letters) == NamedChunks(chunks, quoted, letters)
    decreases |chunks|
  {
    if |chunks| > 1 {
      var tail := [QUOTE] + Join(chunks[1..]);
      ReadNamedJoined(chunks[1..], !quoted, letters);
      ReadNamedConcat(chunks[0], tail, quoted, letters);
      assert Join(chunks) == chunks[0] + tail;
      assert tail[1..] == Join(chunks[1..]);
    }
  }

  lemma {:induction false} ReadMarksJoined(chunks: seq<string>, quoted: bool)
    requires |chunks| > 0 && AllUnquoted(chunks)
    ensures ReadMarks(Join(chunks), quoted) == MarkedChunks(chunks, quoted)
    decreases |chunks|
  {
    if |chunks| > 1 {
      var tail := [QUOTE] + Join(chunks[1..]);
      ReadMarksJoined(chunks[1..], !quoted);
      ReadMarksConcat(chunks[0], tail, quoted);
      assert Join(chunks) == chunks[0] + tail;
      assert tail[1..] == Join(chunks[1..]);
    }
  }
}
