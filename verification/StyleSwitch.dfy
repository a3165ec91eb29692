/** When a command text formed in one way may stand for the one a fresh cursor would form in another: within
    one parameter style, and when the style of a cursor changes between two calls on one operation object. */
module StyleSwitch {
  import opened AdoCursor
  import opened SqlAssembly
  import opened SqlText
  import opened Wrappers

  lemma {:induction false} NoColonIsLeft(s: string, letters: set<char>)
    ensures ':' !in NamedStyle.RewriteCode(s, letters)
    decreases |s|
  {
    if s != "" {
      NoColonIsLeft(if s[0] == ':' then s[1..][NameLength(s[1..], letters)..] else s[1..], letters);
    }
  }

  lemma {:induction false} ColonsAreKept(s: string)
    requires ':' in s
    ensures ':' in FormatStyle.RewritePlain(s)
    decreases |s|
  {
    if FormatStyle.Starts(s, FormatStyle.PLAIN) {
      assert s == FormatStyle.PLAIN + s[2..];
      ColonsAreKept(s[2..]);
    } else if s[0] != ':' {
      ColonsAreKept(s[1..]);
    }
  }

  lemma OpensIff(s: string)
    ensures FormatStyle.Starts(s, FormatStyle.OPEN) <==> |s| >= 2 && s[0] == '%' && s[1] == '('
  {
    if |s| >= 2 {
      assert s[..2] == [s[0], s[1]] && FormatStyle.OPEN == ['%', '('];
    }
  }

  lemma HasBehind(c: char, s: string)
    ensures FormatStyle.Has([c] + s, FormatStyle.OPEN)
       <==> (c == '%' && s != "" && s[0] == '(') || FormatStyle.Has(s, FormatStyle.OPEN)
  {
    OpensIff([c] + s);
    assert ([c] + s)[1..] == s;
  }

  /** A rewritten 'pyformat' chunk has no placeholder left. */
  lemma {:induction false} NoPlaceholderIsLeft(s: string)
    requires FormatStyle.RewritePy(s).Some?
    ensures !FormatStyle.Has(FormatStyle.RewritePy(s).value.text, FormatStyle.OPEN)
    ensures FormatStyle.RewritePy(s).value.text != "" && FormatStyle.RewritePy(s).value.text[0] == '(' ==> s[0] == '('
    decreases |s|
  {
    if s != "" {
      OpensIff(s);
      if FormatStyle.Starts(s, FormatStyle.OPEN) {
        var rest := s[2..][FormatStyle.Find(s[2..], FormatStyle.CLOSE) + 2..];
        NoPlaceholderIsLeft(rest);
        HasBehind('?', FormatStyle.RewritePy(rest).value.text);
      } else {
        NoPlaceholderIsLeft(s[1..]);
        HasBehind(s[0], FormatStyle.RewritePy(s[1..]).value.text);
      }
    }
  }

  lemma {:induction false} HasBehindName(s: string, n: nat, letters: set<char>)
    requires n <= |s| && (forall i | 0 <= i < n :: NameChar(s[i], letters)) && FormatStyle.Has(s, FormatStyle.OPEN)
    ensures FormatStyle.Has(s[n..], FormatStyle.OPEN)
  {
    if n > 0 {
      assert s[0] != '%';
      FormatStyle.HasStep(s, FormatStyle.OPEN);
      HasBehindName(s[1..], n - 1, letters);
      assert s[1..][n - 1..] == s[n..];
    } else {
      assert s[0..] == s;
    }
  }

  /** The 'named' rewriting leaves every placeholder of the other style where it is. */
  lemma {:induction false} PlaceholdersAreKept(s: string, letters: set<char>)
    requires FormatStyle.Has(s, FormatStyle.OPEN)
    ensures FormatStyle.Has(NamedStyle.RewriteCode(s, letters), FormatStyle.OPEN)
    decreases |s|
  {
    OpensIff(s);
    if FormatStyle.Starts(s, FormatStyle.OPEN) {
      HasBehind('%', NamedStyle.RewriteCode(s[1..], letters));
      assert NamedStyle.RewriteCode(s[1..], letters)[0] == '(';
    } else {
      FormatStyle.HasStep(s, FormatStyle.OPEN);
      if s[0] == ':' {
        var n := NameLength(s[1..], letters);
        HasBehindName(s[1..], n, letters);
        PlaceholdersAreKept(s[1..][n..], letters);
        HasBehind('?', NamedStyle.RewriteCode(s[1..][n..], letters));
        assert "" + NamedStyle.RewriteCode(s[1..][n..], letters) == NamedStyle.RewriteCode(s[1..][n..], letters);
      } else {
        PlaceholdersAreKept(s[1..], letters);
        HasBehind(s[0], NamedStyle.RewriteCode(s[1..], letters));
      }
    }
  }

  /** The two rewriters agree on a code chunk exactly if neither has anything to do. */
  lemma ChunksAgreeIff(s: string, letters: set<char>)
    requires FormatStyle.RewriteCode(s).Some?
    ensures NamedStyle.RewriteCode(s, letters) == FormatStyle.RewriteCode(s).value.text
       <==> ':' !in s && FormatStyle.PlainChunk(s)
  {
    NoColonIsLeft(s, letters);
    NamedStyle.CodeShrinks(s, letters);
    FormatStyle.ChunkUnchangedIff(s);
    if FormatStyle.Has(s, FormatStyle.OPEN) {
      NoPlaceholderIsLeft(s);
      PlaceholdersAreKept(s, letters);
    } else if ':' in s {
      ColonsAreKept(s);
    }
  }

  lemma NoLosses(op: string, letters: set<char>)
    requires NoEmptyLiteral(Split(op)) && FormatStyle.AllRewrite(Split(op))
    ensures Losses(Split(op), NamedStyle.Rewritten(Split(op), letters), Named) == 0
    ensures Losses(Split(op), FormatStyle.Rewritten(Split(op)), Format) == 0
  {
    NamedStyle.LossesAreEmptyLiterals(Split(op), NamedStyle.Rewritten(Split(op), letters));
    FormatStyle.LossesAreMisplacedEmptyLiterals(Split(op));
  }

  lemma NamedIsJoined(op: string, letters: set<char>)
    requires NoEmptyLiteral(Split(op)) && FormatStyle.AllRewrite(Split(op))
    ensures var mixed := Mixed(Split(op), NamedStyle.Rewritten(Split(op), letters));
            AllUnquoted(mixed) && NamedStyle.QmarkText(op, letters) == Closed(mixed)
  {
    NoLosses(op, letters);
    NamedStyle.RewrittenUnquoted(Split(op), letters);
    AssembleCloses(Split(op), NamedStyle.Rewritten(Split(op), letters), Named);
  }

  lemma FormatIsJoined(op: string, letters: set<char>)
    requires NoEmptyLiteral(Split(op)) && FormatStyle.AllRewrite(Split(op))
    ensures var mixed := Mixed(Split(op), FormatStyle.Rewritten(Split(op)));
            AllUnquoted(mixed) && FormatStyle.QmarkText(op) == Closed(mixed)
  {
    NoLosses(op, letters);
    FormatStyle.RewrittenUnquoted(Split(op));
    AssembleCloses(Split(op), FormatStyle.Rewritten(Split(op)), Format);
  }

  lemma EqualTextsHaveEqualChunks(op: string, letters: set<char>)
    requires NoEmptyLiteral(Split(op)) && FormatStyle.AllRewrite(Split(op))
    ensures NamedStyle.QmarkText(op, letters) == FormatStyle.QmarkText(op)
       <==> Mixed(Split(op), NamedStyle.Rewritten(Split(op), letters))
            == Mixed(Split(op), FormatStyle.Rewritten(Split(op)))
  {
    NamedIsJoined(op, letters);
    FormatIsJoined(op, letters);
    if NamedStyle.QmarkText(op, letters) == FormatStyle.QmarkText(op) {
      ClosedInjective(Mixed(Split(op), NamedStyle.Rewritten(Split(op), letters)),
                      Mixed(Split(op), FormatStyle.Rewritten(Split(op))));
    }
  }

  /** Outside literals there is nothing for either rewriter to do. */
  predicate PlainCode(op: string) {
    PlainChunks(Split(op))
  }

  predicate PlainChunks(chunks: seq<string>) {
    forall i: nat | i < |chunks| && !IsLiteral(i) :: ':' !in chunks[i] && FormatStyle.PlainChunk(chunks[i])
  }

  lemma MixedAgreeIff(chunks: seq<string>, letters: set<char>)
    requires FormatStyle.AllRewrite(chunks)
    ensures Mixed(chunks, NamedStyle.Rewritten(chunks, letters)) == Mixed(chunks, FormatStyle.Rewritten(chunks))
       <==> PlainChunks(chunks)
  {
    MixedEqualIff(chunks, NamedStyle.Rewritten(chunks, letters), FormatStyle.Rewritten(chunks));
    forall i: nat | i < |chunks| && !IsLiteral(i)
      ensures NamedStyle.Rewritten(chunks, letters)[i] == FormatStyle.Rewritten(chunks)[i]
         <==> ':' !in chunks[i] && FormatStyle.PlainChunk(chunks[i])
    {
      ChunksAgreeIff(chunks[i], letters);
    }
  }

  /** Without an empty literal the two rewriters agree on a text exactly if there is nothing for either to
      do. */
  lemma TextsAgreeIff(op: string, letters: set<char>)
    requires NoEmptyLiteral(Split(op)) && FormatStyle.AllRewrite(Split(op))
    ensures NamedStyle.QmarkText(op, letters) == FormatStyle.QmarkText(op) <==> PlainCode(op)
  {
    EqualTextsHaveEqualChunks(op, letters);
    MixedAgreeIff(Split(op), letters);
  }

  /** The call raises before anything is executed. */
  predicate CannotBind<V>(names: seq<string>, a: Attempt<V>) {
    a.answer.Refuses? || BindParameters(names, a.params) == None
  }

  /** Two command texts do the same: neither is sent, or both are the same text with the same values. */
  predicate Alike<V(==)>(x: FormatStyle.Code, y: Option<FormatStyle.Code>, a: Attempt<V>) {
    if CannotBind(x.names, a) then y == None || CannotBind(y.value.names, a)
    else
      && y.Some? && y.value.text == x.text
      && BindParameters(y.value.names, a.params) == BindParameters(x.names, a.params)
  }

  lemma EmitsAlikeIff<V>(x: FormatStyle.Code, y: Option<FormatStyle.Code>, a: Attempt<V>)
    ensures Emit(x, a) == (match y case None => Raised case Some(code) => Emit(code, a))
       <==> a.answer.Refuses? || Alike(x, y, a)
  {
  }

  /** The rewriting leaves the text as it is. */
  predicate LeavesAlone(mode: Mode, text: string) {
    match mode
    case Raw => true
    case AsNamed => NamedStyle.PlainText(text)
    case AsFormat => FormatStyle.PlainText(text)
  }

  /** A text formed in one way may stand for the text formed in the other. */
  predicate Serves<V(==)>(cached: Mode, now: Mode, text: string, a: Attempt<V>, letters: set<char>) {
    if cached == now then true
    else if cached == Raw then LeavesAlone(now, text)
    else if now == Raw then LeavesAlone(cached, text)
    else
      && Rewrite(cached, text, letters).Some?
      && Alike(Rewrite(cached, text, letters).value, Rewrite(now, text, letters), a)
  }

  lemma RewriteUnchangedIff(mode: Mode, text: string, letters: set<char>)
    requires mode != Raw
    ensures Rewrite(mode, text, letters) == Some(FormatStyle.Code(text, [])) <==> LeavesAlone(mode, text)
    ensures Rewrite(mode, text, letters).Some? && Rewrite(mode, text, letters).value.text == text ==>
              LeavesAlone(mode, text)
  {
    if mode == AsNamed {
      NamedStyle.UnchangedIff(text, letters);
    } else {
      FormatStyle.UnchangedIff(text);
    }
  }

  /** A call that reuses a text formed for the same operation in one way, whatever the style was then, does
      what a fresh cursor of the style of now does exactly if the one text may stand for the other. */
  lemma ReuseServesIff<V>(style: ParamStyle, op: Operation, cached: Mode, a: Attempt<V>, letters: set<char>)
    requires Rewrite(cached, op.text, letters).Some?
    ensures Emit(Rewrite(cached, op.text, letters).value, a) == Fresh(style, op, a, letters)
       <==> a.answer.Refuses? || Serves(cached, ModeOf(style, a.params), op.text, a, letters)
  {
    var now := ModeOf(style, a.params);
    FreshIs(style, op, a, letters);
    EmitsAlikeIff(Rewrite(cached, op.text, letters).value, Rewrite(now, op.text, letters), a);
    if cached != now && (cached == Raw || now == Raw) {
      RewriteUnchangedIff(if cached == Raw then now else cached, op.text, letters);
      if !a.answer.Refuses? {
        NamelessSends(op.text, a);
      }
    }
  }

  lemma PlainNamesNothing(text: string, letters: set<char>)
    ensures PlainCode(text) ==> NamedStyle.QmarkNames(text, letters) == [] && FormatStyle.QmarkNames(text) == []
  {
    if PlainCode(text) {
      NamedStyle.PlainHasNoNames(Split(text), false, letters);
      FormatStyle.PlainHasNoNames(Split(text), false);
    }
  }

  lemma AlikeCodes<V>(x: FormatStyle.Code, y: FormatStyle.Code, a: Attempt<V>, agree: bool)
    requires (x.text == y.text <==> agree) && (agree ==> x.names == y.names)
    ensures Alike(x, Some(y), a) <==> agree || (CannotBind(x.names, a) && CannotBind(y.names, a))
  {
  }

  lemma RewritesAre(text: string, letters: set<char>) returns (x: FormatStyle.Code, y: FormatStyle.Code)
    requires FormatStyle.AllRewrite(Split(text))
    ensures Rewrite(AsNamed, text, letters) == Some(x) && Rewrite(AsFormat, text, letters) == Some(y)
    ensures x.text == NamedStyle.QmarkText(text, letters) && x.names == NamedStyle.QmarkNames(text, letters)
    ensures y.text == FormatStyle.QmarkText(text) && y.names == FormatStyle.QmarkNames(text)
  {
    x := FormatStyle.Code(NamedStyle.QmarkText(text, letters), NamedStyle.QmarkNames(text, letters));
    y := FormatStyle.Code(FormatStyle.QmarkText(text), FormatStyle.QmarkNames(text));
  }

  /** Between 'named' and 'format' style, for a text without an empty literal, that is so exactly if there is
      nothing for either rewriter to do, or neither call gets as far as executing anything. */
  lemma AlikeIff<V>(text: string, a: Attempt<V>, letters: set<char>)
    requires NoEmptyLiteral(Split(text)) && FormatStyle.AllRewrite(Split(text))
    ensures var x, y := Rewrite(AsNamed, text, letters).value, Rewrite(AsFormat, text, letters).value;
            && (Alike(x, Some(y), a) <==> PlainCode(text) || (CannotBind(x.names, a) && CannotBind(y.names, a)))
            && (Alike(y, Some(x), a) <==> PlainCode(text) || (CannotBind(x.names, a) && CannotBind(y.names, a)))
  {
    var x, y := RewritesAre(text, letters);
    TextsAgreeIff(text, letters);
    PlainNamesNothing(text, letters);
    AlikeCodes(x, y, a, PlainCode(text));
    AlikeCodes(y, x, a, PlainCode(text));
  }

  lemma EmitsAgreeIff<V>(text: string, a: Attempt<V>, letters: set<char>)
    requires NoEmptyLiteral(Split(text)) && FormatStyle.AllRewrite(Split(text))
    ensures Emit(Rewrite(AsNamed, text, letters).value, a) == Emit(Rewrite(AsFormat, text, letters).value, a)
       <==> || PlainCode(text)
            || (&& CannotBind(NamedStyle.QmarkNames(text, letters), a)
                && CannotBind(FormatStyle.QmarkNames(text), a))
  {
    var x, y := RewritesAre(text, letters);
    TextsAgreeIff(text, letters);
    PlainNamesNothing(text, letters);
    AlikeCodes(x, y, a, PlainCode(text));
    EmitsAlikeIff(x, Some(y), a);
  }

  lemma RaisedIff<V>(code: FormatStyle.Code, a: Attempt<V>)
    ensures Emit(code, a) == Raised <==> CannotBind(code.names, a)
  {
  }

  /** A text formed in 'named' style and reused where 'format' style is asked for does what a fresh cursor
      does exactly if neither rewriter has anything to do, or neither call gets as far as executing
      anything. */
  lemma NamedForFormatIff<V>(op: Operation, a: Attempt<V>, letters: set<char>)
    requires NoEmptyLiteral(Split(op.text)) && ModeOf(FormatParams, a.params) == AsFormat
    ensures Emit(Rewrite(AsNamed, op.text, letters).value, a) == Fresh(FormatParams, op, a, letters)
       <==> || (PlainCode(op.text) && FormatStyle.AllRewrite(Split(op.text)))
            || (&& CannotBind(NamedStyle.QmarkNames(op.text, letters), a)
                && (!FormatStyle.AllRewrite(Split(op.text)) || CannotBind(FormatStyle.QmarkNames(op.text), a)))
  {
    if FormatStyle.AllRewrite(Split(op.text)) {
      FreshEmits(FormatParams, AsFormat, op, a, letters);
      EmitsAgreeIff(op.text, a, letters);
    } else {
      FreshIs(FormatParams, op, a, letters);
      RaisedIff(Rewrite(AsNamed, op.text, letters).value, a);
    }
  }

  /** And the other way round, for a text that could be formed in 'format' style. */
  lemma FormatForNamedIff<V>(op: Operation, a: Attempt<V>, letters: set<char>)
    requires NoEmptyLiteral(Split(op.text)) && FormatStyle.AllRewrite(Split(op.text))
    requires ModeOf(NamedParams, a.params) == AsNamed
    ensures Emit(Rewrite(AsFormat, op.text, letters).value, a) == Fresh(NamedParams, op, a, letters)
       <==> || PlainCode(op.text)
            || (&& CannotBind(NamedStyle.QmarkNames(op.text, letters), a)
                && CannotBind(FormatStyle.QmarkNames(op.text), a))
  {
    FreshEmits(NamedParams, AsNamed, op, a, letters);
    EmitsAgreeIff(op.text, a, letters);
  }
}
