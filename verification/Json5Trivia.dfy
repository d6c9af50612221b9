/**
 White space and comments carry no meaning: any amount of either may be inserted
 between two tokens of an accepted text (sections 7 and 8 of the JSON5 Data
 Interchange Format 1.0.0).
 */
module Json5Trivia {
  import opened Wrappers
  import opened Json5Text
  import opened Json5Lexer
  import opened Json5Parser

  /** One piece of text between tokens: a white-space character or a closed comment. */
  datatype Gap =
    | Blank(c: char)
    | LineComment(body: string, end: char)
    | BlockComment(body: string)

  predicate ClosesEarly(body: string)
  {
    |body| > 1 && ((body[0] == '*' && body[1] == '/') || ClosesEarly(body[1..]))
  }

  predicate IsGap(g: Gap)
  {
    match g
    case Blank(c) => IsWhite(c)
    case LineComment(body, end) =>
      IsLineTerminator(end) && forall i :: 0 <= i < |body| ==> !IsLineTerminator(body[i])
    case BlockComment(body) => !ClosesEarly(body)
  }

  function Spell(g: Gap): string
  {
    match g
    case Blank(c) => [c]
    case LineComment(body, end) => "//" + (body + [end])
    case BlockComment(body) => "/*" + (body + "*/")
  }

  function SpellAll(gaps: seq<Gap>): string
  {
    if gaps == [] then "" else Spell(gaps[0]) + SpellAll(gaps[1..])
  }

  // ----- the lexer skips gaps -------------------------------------------------

  lemma {:induction false} SkipLine(u: Tables, ps: ParseState, body: string, end: char, r: string)
    requires IsGap(LineComment(body, end))
    ensures Run(u, ps, FRESH.(state := SingleLineComment), body + [end] + r) == Lex(u, ps, r)
  {
    var text := body + [end] + r;
    if body == "" {
      assert text[1..] == r;
    } else {
      SkipLine(u, ps, body[1..], end, r);
      assert text[1..] == body[1..] + [end] + r;
    }
  }

  lemma {:induction false} SkipBlock(u: Tables, ps: ParseState, star: bool, body: string, r: string)
    requires !ClosesEarly(body) && !(star && body != "" && body[0] == '/')
    ensures var state := if star then MultiLineCommentAsterisk else MultiLineComment;
            Run(u, ps, FRESH.(state := state), body + "*/" + r) == Lex(u, ps, r)
    decreases |body|
  {
    var text := body + "*/" + r;
    if body == "" {
      assert text[1..] == "/" + r;
      assert ("/" + r)[1..] == r;
      assert Run(u, ps, FRESH.(state := MultiLineCommentAsterisk), "/" + r) == Lex(u, ps, r);
      assert text[0] == '*';
    } else {
      SkipBlock(u, ps, body[0] == '*', body[1..], r);
      assert text[1..] == body[1..] + "*/" + r;
    }
  }

  lemma OpenComment(u: Tables, ps: ParseState, c: char, r: string)
    requires c == '*' || c == '/'
    ensures var state := if c == '*' then MultiLineComment else SingleLineComment;
            Lex(u, ps, ['/', c] + r) == Run(u, ps, FRESH.(state := state), r)
  {
    var text := ['/', c] + r;
    assert text[0] == '/' && text[1..] == [c] + r;
    assert Lex(u, ps, text) == Run(u, ps, FRESH.(state := Comment), [c] + r);
    assert ([c] + r)[0] == c && ([c] + r)[1..] == r;
  }

  lemma SkipLineComment(u: Tables, ps: ParseState, body: string, end: char, r: string)
    requires IsGap(LineComment(body, end))
    ensures Lex(u, ps, ['/', '/'] + (body + [end] + r)) == Lex(u, ps, r)
  {
    SkipLine(u, ps, body, end, r);
    OpenComment(u, ps, '/', body + [end] + r);
  }

  lemma SkipBlockComment(u: Tables, ps: ParseState, body: string, r: string)
    requires IsGap(BlockComment(body))
    ensures Lex(u, ps, ['/', '*'] + (body + "*/" + r)) == Lex(u, ps, r)
  {
    SkipBlock(u, ps, false, body, r);
    OpenComment(u, ps, '*', body + "*/" + r);
  }

  lemma SpellThen(g: Gap, r: string)
    requires !g.Blank?
    ensures Spell(g) + r ==
            if g.LineComment? then ['/', '/'] + (g.body + [g.end] + r) else ['/', '*'] + (g.body + "*/" + r)
  {
  }

  lemma SkipGap(u: Tables, ps: ParseState, g: Gap, r: string)
    requires IsGap(g)
    ensures Lex(u, ps, Spell(g) + r) == Lex(u, ps, r)
  {
    if g.Blank? {
      SkipBlank(u, ps, g.c, r);
    } else {
      SpellThen(g, r);
      if g.LineComment? {
        SkipLineComment(u, ps, g.body, g.end, r);
      } else {
        SkipBlockComment(u, ps, g.body, r);
      }
    }
  }

  lemma SkipBlank(u: Tables, ps: ParseState, c: char, r: string)
    requires IsWhite(c)
    ensures Lex(u, ps, [c] + r) == Lex(u, ps, r)
  {
    assert ([c] + r)[0] == c && ([c] + r)[1..] == r;
  }

  /** lex gives the same token, and leaves the same text, with or without gaps
      in front of it. */
  lemma {:induction false} SkipGaps(u: Tables, ps: ParseState, gaps: seq<Gap>, r: string)
    requires forall g <- gaps :: IsGap(g)
    ensures Lex(u, ps, SpellAll(gaps) + r) == Lex(u, ps, r)
  {
    if gaps == [] {
      assert SpellAll(gaps) + r == r;
    } else {
      SkipGaps(u, ps, gaps[1..], r);
      SkipGap(u, ps, gaps[0], SpellAll(gaps[1..]) + r);
      assert SpellAll(gaps) + r == Spell(gaps[0]) + (SpellAll(gaps[1..]) + r);
    }
  }

  // ----- a token does not see past a gap ----------------------------------------

  /** r' goes on with a gap, or at least with the character r goes on with. */
  predicate Breaks(r: string, r': string)
  {
    r' != "" && (IsWhite(r'[0]) || r'[0] == '/' || (r != "" && r[0] == r'[0]))
  }

  lemma CodeEscapeLocal(n: nat, y: string, r: string, r': string)
    requires n <= |y| && CodeEscape(n, y + r).Scanned?
    ensures CodeEscape(n, y + r) == Scanned(CodeEscape(n, y + r).text, y[n..] + r)
    ensures CodeEscape(n, y + r') == Scanned(CodeEscape(n, y + r).text, y[n..] + r')
  {
    assert (y + r)[..n] == y[..n] == (y + r')[..n];
    assert (y + r)[n..] == y[n..] + r;
    assert (y + r')[n..] == y[n..] + r';
  }

  /** The escape y starts with depends on nothing after y. */
  lemma EscapeLocal(y: string, r: string, r': string) returns (z: string)
    requires var e := Escape(y + r); e.Scanned? && |e.rest| > |r|
    ensures Escape(y + r) == Scanned(Escape(y + r).text, z + r)
    ensures Escape(y + r') == Scanned(Escape(y + r).text, z + r')
    ensures 0 < |z| < |y|
  {
    var c := y[0];
    assert (y + r)[0] == c == (y + r')[0] && |y| > 1;
    z := y[1..];
    assert (y + r)[1..] == z + r && (y + r')[1..] == z + r';
    if LetterEscape(c) == "" {
      assert (z + r)[0] == z[0] == (z + r')[0];
      if c == 'x' || c == 'u' {
        var n := if c == 'x' then 2 else 4;
        CodeEscapeLocal(n, z, r, r');
        z := z[n..];
      } else if c == '\r' && z[0] == '\n' {
        assert (z + r)[1..] == z[1..] + r && (z + r')[1..] == z[1..] + r';
        z := z[1..];
      }
    }
  }

  lemma KeywordLocal(word: string, t: Token, x: string, r: string, r': string)
    requires x != "" && word != ""
    requires var k := Keyword(word, t, x + r); k.Emit? && |k.rest| == |r|
    ensures Keyword(word, t, x + r) == Emit(t, r)
    ensures Keyword(word, t, x + r') == Emit(t, r')
  {
    var y := x[1..];
    assert (x + r)[1..] == y + r && (x + r')[1..] == y + r';
    assert word == (y + r)[..|word|] == y;
    assert (y + r')[..|word|] == y;
    assert (y + r)[|word|..] == r && (y + r')[|word|..] == r';
  }

  /** b does after another continuation what a does: same token, or same next state
      with the same part z of the token still to come. */
  ghost predicate SameTurn(a: Turn, b: Turn, z: string, r: string, r': string)
  {
    match a
    case More(l, rest) => rest == z + r && b == More(l, z + r')
    case Emit(t, rest) => rest == z + r && b == Emit(t, z + r')
    case Bad(_) => true
  }

  lemma ReadOne(x: string, r: string, r': string)
    requires x != ""
    ensures (x + r)[0] == x[0] == (x + r')[0]
    ensures (x + r)[1..] == x[1..] + r && (x + r')[1..] == x[1..] + r'
  {
  }

  lemma ParserStateLocal(u: Tables, ps: ParseState, l: Lexer, x: string, r: string, r': string)
    returns (z: string)
    requires x != "" && l.state.Default?
    ensures SameTurn(StepParserState(u, ps, l, x + r), StepParserState(u, ps, l, x + r'), z, r, r')
  {
    ReadOne(x, r, r');
    var a := StepParserState(u, ps, l, x + r);
    z := if |a.rest| == |x + r| then x else x[1..];
  }

  lemma NumberStartLocal(l: Lexer, x: string, r: string, r': string) returns (z: string)
    requires x != "" && |NumberStart(l, x + r).rest| >= |r|
    requires NumberStart(l, x + r).Emit? ==> |NumberStart(l, x + r).rest| == |r|
    ensures SameTurn(NumberStart(l, x + r), NumberStart(l, x + r'), z, r, r')
  {
    ReadOne(x, r, r');
    var a := NumberStart(l, x + r);
    z := x[1..];
    if a.Emit? {
      z := "";
      if x[0] == 'I' {
        KeywordLocal("nfinity", a.token, x, r, r');
      } else {
        KeywordLocal("aN", a.token, x, r, r');
      }
    }
  }

  lemma ValueLocal(l: Lexer, x: string, r: string, r': string) returns (z: string)
    requires x != "" && |StepValue(l, x + r).rest| >= |r|
    requires StepValue(l, x + r).Emit? ==> |StepValue(l, x + r).rest| == |r|
    ensures SameTurn(StepValue(l, x + r), StepValue(l, x + r'), z, r, r')
  {
    ReadOne(x, r, r');
    var a, c := StepValue(l, x + r), x[0];
    z := x[1..];
    if c == 'n' || c == 't' || c == 'f' {
      if a.Emit? {
        z := "";
        KeywordLocal(if c == 'n' then "ull" else if c == 't' then "rue" else "alse", a.token, x, r, r');
      }
    } else if c !in {'{', '[', '-', '+', '"', '\''} {
      z := NumberStartLocal(l, x, r, r');
    }
  }

  lemma NameLocal(u: Tables, l: Lexer, x: string, r: string, r': string) returns (z: string)
    requires SoundTables(u) && IsName(l.state) && Breaks(r, r')
    requires x != "" || l.state.IdentifierName?
    requires var a := StepName(u, l, x + r); |a.rest| >= |r| && (a.Emit? ==> |a.rest| == |r|)
    ensures SameTurn(StepName(u, l, x + r), StepName(u, l, x + r'), z, r, r')
  {
    z := "";
    if x == "" {
      assert x + r == r && x + r' == r';
    } else {
      ReadOne(x, r, r');
      z := x[1..];
      if !l.state.IdentifierName? && x[0] == 'u' && CodeEscape(4, (x + r)[1..]).Scanned? {
        CodeEscapeLocal(4, z, r, r');
        z := z[4..];
      }
    }
  }

  lemma NumberEnds(l: Lexer, r: string, r': string)
    requires MayEnd(l.state) && Breaks(r, r') && StepNumber(l, r).Emit?
    ensures StepNumber(l, r) == Emit(StepNumber(l, r).token, r)
    ensures StepNumber(l, r') == Emit(StepNumber(l, r).token, r')
  {
    assert NumericNext(l.state, r'[0]).Default?;
  }

  lemma NumberLocal(l: Lexer, x: string, r: string, r': string) returns (z: string)
    requires IsNumeric(l.state) && Breaks(r, r')
    requires x != "" || MayEnd(l.state)
    requires var a := StepNumber(l, x + r); |a.rest| >= |r| && (a.Emit? ==> |a.rest| == |r|)
    ensures SameTurn(StepNumber(l, x + r), StepNumber(l, x + r'), z, r, r')
  {
    if x == "" {
      z := "";
      assert x + r == r && x + r' == r';
      NumberEnds(l, r, r');
    } else {
      ReadOne(x, r, r');
      z := x[1..];
    }
  }

  lemma StringLocal(l: Lexer, x: string, r: string, r': string) returns (z: string)
    requires l.state.InString? && x != ""
    requires var a := StepString(l, x + r); |a.rest| >= |r| && (a.More? ==> |a.rest| > |r|)
    ensures SameTurn(StepString(l, x + r), StepString(l, x + r'), z, r, r')
  {
    ReadOne(x, r, r');
    z := x[1..];
    if x[0] == '\\' && Escape((x + r)[1..]).Scanned? {
      z := EscapeLocal(z, r, r');
    }
  }

  /** One turn that stays within x does the same whatever follows x, provided that
      what follows is a gap where the turn looks ahead. */
  lemma StepLocal(u: Tables, ps: ParseState, l: Lexer, x: string, r: string, r': string) returns (z: string)
    requires SoundTables(u) && Breaks(r, r')
    requires x != "" || Pending(l.state)
    requires var a := Step(u, ps, l, x + r);
             && |a.rest| >= |r| && (a.Emit? ==> |a.rest| == |r|)
             && (a.More? && l.state.InString? ==> |a.rest| > |r|)
    ensures SameTurn(Step(u, ps, l, x + r), Step(u, ps, l, x + r'), z, r, r')
  {
    if l.state.InValue? {
      z := ValueLocal(l, x, r, r');
    } else if IsName(l.state) {
      z := NameLocal(u, l, x, r, r');
    } else if l.state.InString? {
      z := StringLocal(l, x, r, r');
    } else if IsNumeric(l.state) {
      z := NumberLocal(l, x, r, r');
    } else {
      z := OtherLocal(u, ps, l, x, r, r');
    }
  }

  lemma OtherLocal(u: Tables, ps: ParseState, l: Lexer, x: string, r: string, r': string) returns (z: string)
    requires x != "" && (l.state.Default? || l.state.Sign? || IsComment(l.state))
    requires var a := Step(u, ps, l, x + r); |a.rest| >= |r| && (a.Emit? ==> |a.rest| == |r|)
    ensures SameTurn(Step(u, ps, l, x + r), Step(u, ps, l, x + r'), z, r, r')
  {
    ReadOne(x, r, r');
    z := x[1..];
    if l.state.Sign? {
      z := NumberStartLocal(l, x, r, r');
    } else if l.state.Default? && !IsWhite(x[0]) && x[0] != '/' {
      z := ParserStateLocal(u, ps, l, x, r, r');
    }
  }

  /** A token that ends just before r ends there too when a gap comes first. */
  lemma {:induction false} RunLocal(u: Tables, ps: ParseState, l: Lexer, x: string, r: string, r': string)
    requires SoundTables(u) && Reachable(ps, l.state) && Breaks(r, r')
    requires var t := Run(u, ps, l, x + r); t.Lexed? && !t.token.Eof? && t.rest == r
    ensures Run(u, ps, l, x + r') == Lexed(Run(u, ps, l, x + r).token, r')
    decreases |x|, if l.state.Default? then 1 else 0
  {
    RunPromises(u, ps, l, x + r);
    StepKeeps(u, ps, l, x + r);
    var a := Step(u, ps, l, x + r);
    if a.More? {
      RunPromises(u, ps, a.lexer, a.rest);
    }
    var z := StepLocal(u, ps, l, x, r, r');
    if a.More? {
      RunLocal(u, ps, a.lexer, z, r, r');
    } else {
      assert z == "" by { assert |z + r| == |r|; }
      assert z + r' == r';
    }
  }

  // ----- whole texts ------------------------------------------------------------

  lemma {:induction false} ReachesShrinks(lex: LexFunction, p: Parser, rest: string, q: Parser, rest': string)
    requires Sound(lex) && Consistent(p) && Reaches(lex, p, rest, q, rest')
    ensures |rest'| <= |rest|
    decreases |rest|
  {
    if q != p || rest' != rest {
      var t, after := ReachesOne(lex, p, rest, q, rest');
      ReachesShrinks(lex, Advance(p, t), after, q, rest');
    }
  }

  ghost predicate AreGaps(gaps: seq<Gap>)
  {
    forall g <- gaps :: IsGap(g)
  }

  lemma GapStart(gaps: seq<Gap>, b: string)
    requires gaps != [] && AreGaps(gaps)
    ensures Breaks(b, SpellAll(gaps) + b)
  {
    var first := Spell(gaps[0]);
    assert IsGap(gaps[0]);
    assert IsWhite(first[0]) || first[0] == '/';
    assert (SpellAll(gaps) + b)[0] == first[0];
  }

  lemma LexLocal(lex: LexFunction, u: Tables, ps: ParseState, x: string, t: Token, r: string, r': string)
    requires IsLexer(lex, u) && SoundTables(u) && Breaks(r, r')
    requires lex(ps, x + r) == Lexed(t, r) && !t.Eof?
    ensures lex(ps, x + r') == Lexed(t, r')
  {
    assert lex(ps, x + r) == Lex(u, ps, x + r);
    assert lex(ps, x + r') == Lex(u, ps, x + r');
    RunLocal(u, ps, FRESH, x, r, r');
  }

  lemma CutWithin(a: string, b: string, after: string) returns (x: string, a': string)
    requires Remains(after, a + b) && |after| >= |b|
    ensures a == x + a' && after == a' + b
  {
    var n := |a + b| - |after|;
    x, a' := a[..n], a[n..];
    assert (a + b)[n..] == a' + b;
  }

  lemma Regroup(x: string, a: string, w: string, b: string)
    ensures x + a + b == x + (a + b) && x + a + w + b == x + (a + w + b)
  {
  }

  lemma NothingBefore(a: string, w: string, b: string)
    requires a == ""
    ensures a + w + b == w + b && a + b == b
  {
  }

  lemma NothingBetween(a: string, w: string, b: string)
    requires w == ""
    ensures a + w + b == a + b
  {
  }

  lemma BreaksAfter(a: string, w: string, b: string)
    requires Breaks(b, w + b)
    ensures Breaks(a + b, a + w + b)
  {
    if a == "" {
      NothingBefore(a, w, b);
    } else {
      assert (a + w + b)[0] == a[0] == (a + b)[0];
    }
  }

  lemma GapAfter(gaps: seq<Gap>, a: string, b: string)
    requires gaps != [] && AreGaps(gaps)
    ensures Breaks(a + b, a + SpellAll(gaps) + b)
  {
    GapStart(gaps, b);
    BreaksAfter(a, SpellAll(gaps), b);
  }

  /** The first token of a + b, when it lies within a, is also the first token of
      a + w + b, and leaves the same part of a. */
  lemma FirstTokenKept(
    lex: LexFunction, u: Tables, ps: ParseState, a: string, b: string, gaps: seq<Gap>, t: Token, after: string)
    returns (a': string)
    requires IsLexer(lex, u) && SoundTables(u) && gaps != [] && AreGaps(gaps)
    requires lex(ps, a + b) == Lexed(t, after) && !t.Eof? && |after| >= |b|
    ensures after == a' + b && |a'| <= |a|
    ensures lex(ps, a + SpellAll(gaps) + b) == Lexed(t, a' + SpellAll(gaps) + b)
  {
    var w, x := SpellAll(gaps), "";
    LexRemains(lex, u, ps, a + b);
    x, a' := CutWithin(a, b, after);
    GapAfter(gaps, a', b);
    Regroup(x, a', w, b);
    LexLocal(lex, u, ps, x, t, after, a' + w + b);
  }

  lemma LexSkipsGaps(lex: LexFunction, u: Tables, ps: ParseState, gaps: seq<Gap>, r: string)
    requires IsLexer(lex, u) && AreGaps(gaps)
    ensures lex(ps, SpellAll(gaps) + r) == lex(ps, r)
  {
    SkipGaps(u, ps, gaps, r);
    assert lex(ps, SpellAll(gaps) + r) == Lex(u, ps, SpellAll(gaps) + r);
    assert lex(ps, r) == Lex(u, ps, r);
  }

  lemma InsertHere(rd: Reader, u: Tables, p: Parser, b: string, gaps: seq<Gap>)
    requires IsReader(rd, u) && Consistent(p) && AreGaps(gaps)
    ensures rd.parse(p, SpellAll(gaps) + b) == rd.parse(p, b)
  {
    LexSkipsGaps(rd.lex, u, p.state, gaps, b);
    SameLexSameParse(rd, u, p, SpellAll(gaps) + b, b);
  }

  lemma SameToken(rd: Reader, u: Tables, p: Parser, x: string, y: string, t: Token, x': string, y': string)
    requires IsReader(rd, u) && Consistent(p) && TokenFits(p.state, t) && !t.Eof?
    requires rd.lex(p.state, x) == Lexed(t, x') && rd.lex(p.state, y) == Lexed(t, y')
    requires rd.parse(Advance(p, t), y') == rd.parse(Advance(p, t), x')
    ensures rd.parse(p, y) == rd.parse(p, x)
  {
    ParseOne(rd, u, p, x, t, x');
    ParseOne(rd, u, p, y, t, y');
  }

  lemma TakeToken(
    rd: Reader, u: Tables, p: Parser, a: string, b: string, q: Parser, gaps: seq<Gap>)
    returns (t: Token, a': string)
    requires IsReader(rd, u) && SoundTables(u) && AreGaps(gaps) && gaps != []
    requires Consistent(p) && Reaches(rd.lex, p, a + b, q, b) && a != ""
    ensures TokenFits(p.state, t) && !t.Eof? && |a'| < |a|
    ensures rd.lex(p.state, a + b) == Lexed(t, a' + b)
    ensures rd.lex(p.state, a + SpellAll(gaps) + b) == Lexed(t, a' + SpellAll(gaps) + b)
    ensures Reaches(rd.lex, Advance(p, t), a' + b, q, b)
  {
    var after: string;
    assert |a + b| != |b|;
    t, after := ReachesOne(rd.lex, p, a + b, q, b);
    ReachesShrinks(rd.lex, Advance(p, t), after, q, b);
    a' := FirstTokenKept(rd.lex, u, p.state, a, b, gaps, t, after);
  }

  /** The law: at any point the reader reaches between two tokens of a text, white
      space and closed comments may be inserted without changing what is read. */
  lemma {:induction false} InsertGaps(
    rd: Reader, u: Tables, p: Parser, a: string, b: string, q: Parser, gaps: seq<Gap>)
    requires IsReader(rd, u) && SoundTables(u) && AreGaps(gaps)
    requires Consistent(p) && Reaches(rd.lex, p, a + b, q, b)
    ensures rd.parse(p, a + SpellAll(gaps) + b) == rd.parse(p, a + b)
    decreases |a|
  {
    var w := SpellAll(gaps);
    if gaps == [] {
      NothingBetween(a, w, b);
    } else if a == "" {
      NothingBefore(a, w, b);
      InsertHere(rd, u, p, b, gaps);
    } else {
      var t, a' := TakeToken(rd, u, p, a, b, q, gaps);
      InsertGaps(rd, u, Advance(p, t), a', b, q, gaps);
      SameToken(rd, u, p, a + b, a + w + b, t, a' + b, a' + w + b);
    }
  }
}
