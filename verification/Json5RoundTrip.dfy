/**
 Reading undoes writing: for every finite tree and every style, parsing the text
 that stringify produces gives back the value of the tree.
 */
module Json5RoundTrip {
  import opened Sequences
  import opened Wrappers
  import opened Json5Text
  import opened Json5Lexer
  import opened Json5Parser
  import opened Json5Writer
  import Json5Trivia

  // ----- strings --------------------------------------------------------------------

  lemma Associative(a: string, b: string, c: string)
    ensures a + b + c == a + (b + c)
  {
  }

  lemma {:induction false} EscapeAllConcat(a: string, b: string, q: char)
    ensures EscapeAll(a + b, q) == EscapeAll(a, q) + EscapeAll(b, q)
  {
    if a == "" {
      assert a + b == b;
    } else {
      EscapeAllConcat(a[1..], b, q);
      assert (a + b)[1..] == a[1..] + b && (a + b)[0] == a[0];
      Associative(if a[0] == q then ['\\', q] else [a[0]], EscapeAll(a[1..], q), EscapeAll(b, q));
    }
  }

  /** The turns of lex from state InString on. */
  function StringLoop(l: Lexer, rest: string): Lexed
    requires l.state.InString?
    decreases |rest|
  {
    match StepString(l, rest)
    case More(l', rest') => StringLoop(l', rest')
    case Emit(token, rest') => Lexed(token, rest')
    case Bad(rest') => LexError(rest')
  }

  lemma {:induction false} RunString(u: Tables, ps: ParseState, l: Lexer, rest: string)
    requires l.state.InString?
    ensures Run(u, ps, l, rest) == StringLoop(l, rest)
    decreases |rest|
  {
    var s := StepString(l, rest);
    assert Step(u, ps, l, rest) == s;
    if s.More? {
      RunString(u, ps, s.lexer, s.rest);
    }
  }

  lemma StepEscape(l: Lexer, code: string, c: char, r: string)
    requires l.state.InString? && Escape(code + r) == Scanned([c], r)
    ensures StringLoop(l, "\\" + code + r) == StringLoop(l.(buffer := l.buffer + [c]), r)
  {
    var text := "\\" + code + r;
    assert text[0] == '\\' && text[1..] == code + r;
  }

  /** Reading back what the writer made of one character. */
  lemma ReadPiece(l: Lexer, q: char, c: char, tail: string, r: string)
    requires q == '\'' || q == '"'
    requires l.state.InString? && l.doubleQuote == (q == '"')
    requires StartsWithDigit(r) ==> StartsWithDigit(tail)
    ensures StringLoop(l, EscapeAll(Piece(c, tail), q) + r) == StringLoop(l.(buffer := l.buffer + [c]), r)
  {
    var piece := Piece(c, tail);
    if c == q {
      assert EscapeAll(piece, q) == ['\\', q];
      assert ([q] + r)[0] == q && ([q] + r)[1..] == r;
      StepEscape(l, [q], c, r);
      assert ['\\', q] + r == "\\" + [q] + r;
    } else if piece == [c] {
      assert EscapeAll(piece, q) == [c];
      assert ([c] + r)[0] == c && ([c] + r)[1..] == r;
    } else {
      var code := piece[1..];
      assert EscapeAll(piece, q) == "\\" + code by {
        PieceHasNoQuote(c, tail, q);
        NothingToEscape(piece, q);
        assert piece == "\\" + code;
      }
      ReadCode(c, tail, r);
      StepEscape(l, code, c, r);
    }
  }

  lemma PieceHasNoQuote(c: char, tail: string, q: char)
    requires c != q && (q == '\'' || q == '"') && Piece(c, tail) != [c]
    ensures q !in Piece(c, tail) && Piece(c, tail)[0] == '\\'
  {
  }

  lemma {:induction false} NothingToEscape(text: string, q: char)
    requires q !in text
    ensures EscapeAll(text, q) == text
  {
    if text != "" {
      NothingToEscape(text[1..], q);
    }
  }

  lemma HexTwo(a: char, b: char)
    requires IsHexDigit(a) && IsHexDigit(b)
    ensures AllHex([a, b]) && PositionalValue([a, b], 16) == HexValue(a) * 16 + HexValue(b)
  {
    assert [a, b][..1] == [a] && [a][..0] == "";
    assert PositionalValue([a], 16) == HexValue(a);
  }

  lemma HexFour(a: char, b: char, c: char, d: char)
    requires IsHexDigit(a) && IsHexDigit(b) && IsHexDigit(c) && IsHexDigit(d)
    ensures AllHex([a, b, c, d])
    ensures PositionalValue([a, b, c, d], 16) == (HexValue(a) * 16 + HexValue(b)) * 256 + HexValue(c) * 16 + HexValue(d)
  {
    HexTwo(a, b);
    assert [a, b, c, d][..3] == [a, b, c] && [a, b, c][..2] == [a, b];
    assert PositionalValue([a, b, c], 16) == PositionalValue([a, b], 16) * 16 + HexValue(c);
  }

  lemma ReadHex(n: nat, digits: string, r: string)
    requires |digits| == n && AllHex(digits)
    ensures CodeEscape(n, digits + r) == Scanned([FromCodePoint(PositionalValue(digits, 16))], r)
  {
    assert (digits + r)[..n] == digits && (digits + r)[n..] == r;
  }

  /** The escape codes of the writer mean to the reader what they replaced. */
  lemma ReadCode(c: char, tail: string, r: string)
    requires Piece(c, tail) != [c]
    requires StartsWithDigit(r) ==> StartsWithDigit(tail)
    ensures Escape(Piece(c, tail)[1..] + r) == Scanned([c], r)
  {
    var code := Piece(c, tail)[1..];
    if c == LINE_SEPARATOR || c == PARAGRAPH_SEPARATOR {
      ReadUnicode(if c == LINE_SEPARATOR then '8' else '9', r);
    } else if code[0] == 'x' {
      ReadByte(c as int, r);
      assert code == "x" + [HexDigitOf(c as int / 16), HexDigitOf(c as int % 16)];
    } else {
      ReadSimple(c, code[0], r);
      assert code == [code[0]];
    }
  }

  lemma ReadSimple(c: char, e: char, r: string)
    requires Replacement(c) == ['\\', e] && (c == '\0' ==> !StartsWithDigit(r))
    ensures Escape([e] + r) == Scanned([c], r)
  {
    assert ([e] + r)[0] == e && ([e] + r)[1..] == r;
  }

  lemma ReadUnicode(last: char, r: string)
    requires last == '8' || last == '9'
    ensures Escape(['u', '2', '0', '2', last] + r) ==
            Scanned([if last == '8' then LINE_SEPARATOR else PARAGRAPH_SEPARATOR], r)
  {
    var text := ['u', '2', '0', '2', last] + r;
    HexFour('2', '0', '2', last);
    ReadHex(4, ['2', '0', '2', last], r);
    assert text[0] == 'u' && text[1..] == ['2', '0', '2', last] + r;
  }

  lemma ReadByte(n: nat, r: string)
    requires n < 0x100
    ensures Escape("x" + [HexDigitOf(n / 16), HexDigitOf(n % 16)] + r) == Scanned([n as char], r)
  {
    var a, b := HexDigitOf(n / 16), HexDigitOf(n % 16);
    var text := "x" + [a, b] + r;
    HexTwo(a, b);
    ReadHex(2, [a, b], r);
    assert text[0] == 'x' && text[1..] == [a, b] + r;
  }

  /** The text of a literal after its opening quote, and what follows it. */
  function Body(s: string, q: char, r: string): string
  {
    EscapeAll(Product(s), q) + [q] + r
  }

  lemma BodyStart(s: string, q: char, r: string)
    requires q == '\'' || q == '"'
    ensures StartsWithDigit(Body(s, q, r)) ==> StartsWithDigit(s)
  {
    if s != "" {
      var piece := Piece(s[0], s[1..]);
      assert Product(s)[0] == piece[0];
      assert piece[0] == s[0] || piece[0] == '\\';
    }
  }

  lemma BodySplit(s: string, q: char, r: string)
    requires s != ""
    ensures Body(s, q, r) == EscapeAll(Piece(s[0], s[1..]), q) + Body(s[1..], q, r)
  {
    EscapeAllConcat(Piece(s[0], s[1..]), Product(s[1..]), q);
  }

  lemma RunPiece(run: RunFunction, u: Tables, ps: ParseState, l: Lexer, q: char, c: char, tail: string, r: string)
    requires IsRun(run, u, ps)
    requires q == '\'' || q == '"'
    requires l.state.InString? && l.doubleQuote == (q == '"')
    requires StartsWithDigit(r) ==> StartsWithDigit(tail)
    ensures run(l, EscapeAll(Piece(c, tail), q) + r) == run(l.(buffer := l.buffer + [c]), r)
  {
    ReadPiece(l, q, c, tail, r);
    RunString(u, ps, l, EscapeAll(Piece(c, tail), q) + r);
    RunString(u, ps, l.(buffer := l.buffer + [c]), r);
  }

  lemma RunClose(run: RunFunction, u: Tables, ps: ParseState, l: Lexer, q: char, r: string)
    requires IsRun(run, u, ps)
    requires q == '\'' || q == '"'
    requires l.state.InString? && l.doubleQuote == (q == '"')
    ensures run(l, [q] + r) == Lexed(StringToken(l.buffer), r)
  {
    assert run(l, [q] + r) == Run(u, ps, l, [q] + r);
    assert ([q] + r)[0] == q && ([q] + r)[1..] == r;
  }

  /** The lexer inside a literal reads the whole body, the closing quote included,
      and nothing after it. */
  lemma {:induction false} ReadBody(
    run: RunFunction, u: Tables, ps: ParseState, l: Lexer, q: char, s: string, r: string)
    requires IsRun(run, u, ps)
    requires q == '\'' || q == '"'
    requires l.state.InString? && l.doubleQuote == (q == '"')
    ensures run(l, Body(s, q, r)) == Lexed(StringToken(l.buffer + s), r)
    decreases |s|
  {
    if s == "" {
      RunClose(run, u, ps, l, q, r);
      assert Body(s, q, r) == [q] + r && l.buffer + s == l.buffer;
    } else {
      var c, tail := s[0], s[1..];
      assert s == [c] + tail;
      BodyStart(tail, q, r);
      BodySplit(s, q, r);
      RunPiece(run, u, ps, l, q, c, tail, Body(tail, q, r));
      ReadBody(run, u, ps, l.(buffer := l.buffer + [c]), q, tail, r);
      Associative(l.buffer, [c], tail);
    }
  }

  predicate TakesString(ps: ParseState)
  {
    ExpectsValue(ps) || ps.BeforePropertyName?
  }

  lemma OpenString(u: Tables, ps: ParseState, q: char, body: string)
    requires TakesString(ps) && (q == '\'' || q == '"')
    ensures Lex(u, ps, [q] + body) == Run(u, ps, Lexer(InString, "", q == '"', false), body)
  {
    var text := [q] + body;
    assert text[0] == q && text[1..] == body;
    if ExpectsValue(ps) {
      assert Lex(u, ps, text) == Run(u, ps, FRESH.(state := InValue), text);
    }
  }

  lemma LexOpen(lex: LexFunction, run: RunFunction, u: Tables, ps: ParseState, q: char, body: string)
    requires IsLexer(lex, u) && IsRun(run, u, ps)
    requires TakesString(ps) && (q == '\'' || q == '"')
    ensures lex(ps, [q] + body) == run(Lexer(InString, "", q == '"', false), body)
  {
    OpenString(u, ps, q, body);
  }

  /** Section 5.1: the lexer started on quoteString(s) consumes exactly the whole
      literal and yields s, whichever quote is chosen. */
  lemma ReadQuoted(lex: LexFunction, u: Tables, ps: ParseState, s: string, quote: Quote, r: string)
    requires IsLexer(lex, u) && TakesString(ps)
    ensures lex(ps, QuoteString(s, quote) + r) == Lexed(StringToken(s), r)
  {
    var run: RunFunction := (l, rest) => Run(u, ps, l, rest);
    ReadQuotedBy(lex, run, u, ps, s, quote, r);
  }

  lemma ReadQuotedBy(
    lex: LexFunction, run: RunFunction, u: Tables, ps: ParseState, s: string, quote: Quote, r: string)
    requires IsLexer(lex, u) && IsRun(run, u, ps) && TakesString(ps)
    ensures lex(ps, QuoteString(s, quote) + r) == Lexed(StringToken(s), r)
  {
    var q := QuoteChar(s, quote);
    LexOpen(lex, run, u, ps, q, Body(s, q, r));
    ReadBody(run, u, ps, Lexer(InString, "", q == '"', false), q, s, r);
    assert "" + s == s;
    assert QuoteString(s, quote) + r == [q] + Body(s, q, r);
  }

  // ----- numbers ----------------------------------------------------------------------

  /** What follows a value in written text. */
  predicate Delimited(r: string)
  {
    r == "" || r[0] == ',' || r[0] == ']' || r[0] == '}'
  }

  lemma {:induction false} DigitsValue(n: nat)
    ensures PositionalValue(Digits(n), 10) == n
    ensures n > 0 ==> Digits(n)[0] != '0'
  {
    var d := Digits(n);
    if n < 10 {
      assert d[..0] == "" && PositionalValue(d, 10) == PositionalValue(d[..0], 10) * 10 + HexValue(d[0]);
    } else {
      DigitsValue(n / 10);
      assert d[..|d| - 1] == Digits(n / 10) && d[|d| - 1] == HexDigitOf(n % 10);
      assert d[0] == Digits(n / 10)[0];
    }
  }

  lemma RunDigit(run: RunFunction, u: Tables, ps: ParseState, l: Lexer, c: char, r: string)
    requires IsRun(run, u, ps) && l.state.DecimalInteger? && IsDigit(c)
    ensures run(l, [c] + r) == run(l.(buffer := l.buffer + [c]), r)
  {
    assert run(l, [c] + r) == Run(u, ps, l, [c] + r);
    assert run(l.(buffer := l.buffer + [c]), r) == Run(u, ps, l.(buffer := l.buffer + [c]), r);
    assert ([c] + r)[0] == c && ([c] + r)[1..] == r;
  }

  lemma RunNumberEnd(run: RunFunction, u: Tables, ps: ParseState, l: Lexer, r: string)
    requires IsRun(run, u, ps) && (l.state.DecimalInteger? || l.state.Zero?) && Delimited(r)
    ensures run(l, r) ==
            Lexed(NumericToken(if l.state.Zero? then Int(0) else ToNumber(l.negative, l.buffer)), r)
  {
    assert run(l, r) == Run(u, ps, l, r);
  }

  lemma {:induction false} RunDigits(run: RunFunction, u: Tables, ps: ParseState, l: Lexer, d: string, r: string)
    requires IsRun(run, u, ps) && l.state.DecimalInteger? && AllDigits(d) && Delimited(r)
    ensures run(l, d + r) == Lexed(NumericToken(ToNumber(l.negative, l.buffer + d)), r)
    decreases |d|
  {
    if d == "" {
      assert d + r == r && l.buffer + d == l.buffer;
      RunNumberEnd(run, u, ps, l, r);
    } else {
      assert d + r == [d[0]] + (d[1..] + r);
      RunDigit(run, u, ps, l, d[0], d[1..] + r);
      RunDigits(run, u, ps, l.(buffer := l.buffer + [d[0]]), d[1..], r);
      assert l.buffer + [d[0]] + d[1..] == l.buffer + d;
    }
  }

  function DigitState(c: char, negative: bool): Lexer
  {
    Lexer(if c == '0' then Zero else DecimalInteger, [c], false, negative)
  }

  lemma LexDigit(lex: LexFunction, run: RunFunction, u: Tables, ps: ParseState, c: char, body: string)
    requires IsLexer(lex, u) && IsRun(run, u, ps) && ExpectsValue(ps) && IsDigit(c)
    ensures lex(ps, [c] + body) == run(DigitState(c, false), body)
  {
    var text := [c] + body;
    assert text[0] == c && text[1..] == body;
    assert lex(ps, text) == Lex(u, ps, text);
    assert Lex(u, ps, text) == Run(u, ps, FRESH.(state := InValue), text);
    assert run(DigitState(c, false), body) == Run(u, ps, DigitState(c, false), body);
  }

  lemma LexMinus(lex: LexFunction, run: RunFunction, u: Tables, ps: ParseState, body: string)
    requires IsLexer(lex, u) && IsRun(run, u, ps) && ExpectsValue(ps)
    ensures lex(ps, "-" + body) == run(Lexer(Sign, "", false, true), body)
  {
    var text := "-" + body;
    assert text[0] == '-' && text[1..] == body;
    assert lex(ps, text) == Lex(u, ps, text);
    assert Lex(u, ps, text) == Run(u, ps, FRESH.(state := InValue), text);
    assert run(Lexer(Sign, "", false, true), body) == Run(u, ps, Lexer(Sign, "", false, true), body);
  }

  lemma RunSignDigit(run: RunFunction, u: Tables, ps: ParseState, c: char, body: string)
    requires IsRun(run, u, ps) && IsDigit(c)
    ensures run(Lexer(Sign, "", false, true), [c] + body) == run(DigitState(c, true), body)
  {
    var text := [c] + body;
    assert text[0] == c && text[1..] == body;
    assert run(Lexer(Sign, "", false, true), text) == Run(u, ps, Lexer(Sign, "", false, true), text);
    assert run(DigitState(c, true), body) == Run(u, ps, DigitState(c, true), body);
  }

  /** From the first digit of n on. */
  lemma RunMagnitude(run: RunFunction, u: Tables, ps: ParseState, negative: bool, n: nat, r: string)
    requires IsRun(run, u, ps) && Delimited(r) && n <= MAX_SAFE_INTEGER && (negative ==> n > 0)
    ensures run(DigitState(Digits(n)[0], negative), Digits(n)[1..] + r) ==
            Lexed(NumericToken(Int(if negative then 0 - n else n)), r)
  {
    var d := Digits(n);
    DigitsValue(n);
    assert [d[0]] + d[1..] == d;
    if n == 0 {
      assert d[1..] + r == r;
      RunNumberEnd(run, u, ps, DigitState(d[0], negative), r);
    } else {
      RunDigits(run, u, ps, DigitState(d[0], negative), d[1..], r);
    }
  }

  lemma ReadNatural(lex: LexFunction, run: RunFunction, u: Tables, ps: ParseState, n: nat, r: string)
    requires IsLexer(lex, u) && IsRun(run, u, ps) && ExpectsValue(ps) && Delimited(r) && n <= MAX_SAFE_INTEGER
    ensures lex(ps, Digits(n) + r) == Lexed(NumericToken(Int(n)), r)
  {
    var c, body := Digits(n)[0], Digits(n)[1..] + r;
    RunMagnitude(run, u, ps, false, n, r);
    assert Digits(n) + r == [c] + body;
    LexDigit(lex, run, u, ps, c, body);
  }

  lemma ReadNegative(lex: LexFunction, run: RunFunction, u: Tables, ps: ParseState, n: nat, r: string)
    requires IsLexer(lex, u) && IsRun(run, u, ps) && ExpectsValue(ps) && Delimited(r) && 0 < n <= MAX_SAFE_INTEGER
    ensures lex(ps, "-" + (Digits(n) + r)) == Lexed(NumericToken(Int(0 - n)), r)
  {
    var c, body := Digits(n)[0], Digits(n)[1..] + r;
    RunMagnitude(run, u, ps, true, n, r);
    assert Digits(n) + r == [c] + body;
    LexMinus(lex, run, u, ps, [c] + body);
    RunSignDigit(run, u, ps, c, body);
  }

  lemma KeywordRead(word: string, t: Token, c: char, r: string)
    ensures Keyword(word, t, [c] + (word + r)) == Emit(t, r)
  {
    assert ([c] + (word + r))[1..] == word + r;
    assert (word + r)[|word|..] == r;
  }

  predicate IsKeyword(c: char, word: string, t: Token)
  {
    (c, word, t) in {('n', "ull", NullToken), ('t', "rue", BooleanToken(true)), ('f', "alse", BooleanToken(false)),
                     ('I', "nfinity", NumericToken(Infinite(false))), ('N', "aN", NumericToken(NaN))}
  }

  lemma StepKeyword(l: Lexer, c: char, word: string, t: Token, r: string)
    requires IsKeyword(c, word, t) && !l.negative
    ensures StepValue(l, [c] + (word + r)) == Emit(t, r)
  {
    KeywordRead(word, t, c, r);
    assert ([c] + (word + r))[0] == c;
  }

  lemma StepToValue(u: Tables, ps: ParseState, c: char, text: string)
    requires ExpectsValue(ps) && c in {'n', 't', 'f', 'I', 'N'}
    ensures Step(u, ps, FRESH, [c] + text) == More(FRESH.(state := InValue), [c] + text)
  {
    assert ([c] + text)[0] == c;
  }

  lemma KeywordStart(u: Tables, ps: ParseState, c: char, text: string)
    requires ExpectsValue(ps) && c in {'n', 't', 'f', 'I', 'N'}
    ensures Lex(u, ps, [c] + text) == Run(u, ps, FRESH.(state := InValue), [c] + text)
  {
    StepToValue(u, ps, c, text);
  }

  /** null, true, false, Infinity and NaN. */
  lemma ReadKeyword(lex: LexFunction, u: Tables, ps: ParseState, c: char, word: string, t: Token, r: string)
    requires IsLexer(lex, u) && ExpectsValue(ps) && IsKeyword(c, word, t)
    ensures lex(ps, [c] + (word + r)) == Lexed(t, r)
  {
    assert lex(ps, [c] + (word + r)) == Lex(u, ps, [c] + (word + r));
    KeywordStart(u, ps, c, word + r);
    StepKeyword(FRESH.(state := InValue), c, word, t, r);
  }

  lemma ReadMinusInfinity(lex: LexFunction, run: RunFunction, u: Tables, ps: ParseState, r: string)
    requires IsLexer(lex, u) && IsRun(run, u, ps) && ExpectsValue(ps)
    ensures lex(ps, "-Infinity" + r) == Lexed(NumericToken(Infinite(true)), r)
  {
    var text, l := ['I'] + ("nfinity" + r), Lexer(Sign, "", false, true);
    LexMinus(lex, run, u, ps, text);
    assert "-Infinity" + r == "-" + text;
    KeywordRead("nfinity", NumericToken(Infinite(true)), 'I', r);
    assert text[0] == 'I';
    assert run(l, text) == Run(u, ps, l, text);
  }

  lemma ReadNumber(lex: LexFunction, u: Tables, ps: ParseState, n: Number, r: string)
    requires IsLexer(lex, u) && ExpectsValue(ps) && Delimited(r) && Printable(TNum(n))
    ensures lex(ps, NumberText(n) + r) == Lexed(NumericToken(n), r)
  {
    var run: RunFunction := (l, rest) => Run(u, ps, l, rest);
    ReadNumberBy(lex, run, u, ps, n, r);
  }

  lemma ReadInt(lex: LexFunction, run: RunFunction, u: Tables, ps: ParseState, i: int, r: string)
    requires IsLexer(lex, u) && IsRun(run, u, ps)
    requires ExpectsValue(ps) && Delimited(r) && Printable(TNum(Int(i)))
    ensures lex(ps, NumberText(Int(i)) + r) == Lexed(NumericToken(Int(i)), r)
  {
    if i < 0 {
      ReadNegative(lex, run, u, ps, -i, r);
      Associative("-", Digits(-i), r);
    } else {
      ReadNatural(lex, run, u, ps, i, r);
    }
  }

  lemma ReadNumberBy(lex: LexFunction, run: RunFunction, u: Tables, ps: ParseState, n: Number, r: string)
    requires IsLexer(lex, u) && IsRun(run, u, ps)
    requires ExpectsValue(ps) && Delimited(r) && Printable(TNum(n))
    ensures lex(ps, NumberText(n) + r) == Lexed(NumericToken(n), r)
  {
    match n
    case Int(i) => ReadInt(lex, run, u, ps, i, r);
    case Infinite(true) => ReadMinusInfinity(lex, run, u, ps, r);
    case Infinite(false) =>
      assert "Infinity" == "I" + "nfinity";
      Associative("I", "nfinity", r);
      ReadKeyword(lex, u, ps, 'I', "nfinity", NumericToken(n), r);
    case NaN =>
      assert "NaN" == "N" + "aN";
      Associative("N", "aN", r);
      ReadKeyword(lex, u, ps, 'N', "aN", NumericToken(n), r);
  }

  // ----- keys, punctuation, white space ------------------------------------------------

  lemma LexNameStart(lex: LexFunction, run: RunFunction, u: Tables, c: char, body: string)
    requires IsLexer(lex, u) && IsRun(run, u, BeforePropertyName) && SoundTables(u) && IsIdStart(u, c)
    ensures lex(BeforePropertyName, [c] + body) == run(Lexer(IdentifierName, [c], false, false), body)
  {
    var text, l := [c] + body, Lexer(IdentifierName, [c], false, false);
    assert text[0] == c && text[1..] == body;
    assert lex(BeforePropertyName, text) == Lex(u, BeforePropertyName, text);
    assert run(l, body) == Run(u, BeforePropertyName, l, body);
    assert !IsWhite(c) && c != '/' && FRESH.buffer + [c] == [c];
  }

  lemma RunNameChar(run: RunFunction, u: Tables, ps: ParseState, l: Lexer, c: char, r: string)
    requires IsRun(run, u, ps) && SoundTables(u) && l.state.IdentifierName? && IsIdContinue(u, c)
    ensures run(l, [c] + r) == run(l.(buffer := l.buffer + [c]), r)
  {
    assert run(l, [c] + r) == Run(u, ps, l, [c] + r);
    assert run(l.(buffer := l.buffer + [c]), r) == Run(u, ps, l.(buffer := l.buffer + [c]), r);
    assert ([c] + r)[0] == c && ([c] + r)[1..] == r;
  }

  lemma RunNameEnd(run: RunFunction, u: Tables, ps: ParseState, l: Lexer, r: string)
    requires IsRun(run, u, ps) && SoundTables(u) && l.state.IdentifierName?
    ensures run(l, ":" + r) == Lexed(IdentifierToken(l.buffer), ":" + r)
  {
    assert run(l, ":" + r) == Run(u, ps, l, ":" + r);
    assert (":" + r)[0] == ':' && !IsIdContinue(u, ':');
  }

  lemma {:induction false} RunName(run: RunFunction, u: Tables, ps: ParseState, l: Lexer, name: string, r: string)
    requires IsRun(run, u, ps) && SoundTables(u) && l.state.IdentifierName?
    requires forall i :: 0 <= i < |name| ==> IsIdContinue(u, name[i])
    ensures run(l, name + (":" + r)) == Lexed(IdentifierToken(l.buffer + name), ":" + r)
    decreases |name|
  {
    if name == "" {
      assert name + (":" + r) == ":" + r && l.buffer + name == l.buffer;
      RunNameEnd(run, u, ps, l, r);
    } else {
      var c, tail := name[0], name[1..];
      assert name + (":" + r) == [c] + (tail + (":" + r));
      RunNameChar(run, u, ps, l, c, tail + (":" + r));
      RunName(run, u, ps, l.(buffer := l.buffer + [c]), tail, r);
      assert l.buffer + [c] + tail == l.buffer + name;
    }
  }

  /** A written key, bare or quoted, is read back as itself. */
  lemma ReadKey(lex: LexFunction, u: Tables, key: string, quote: Quote, r: string)
    requires IsLexer(lex, u) && SoundTables(u)
    ensures var t := if IsBareKey(u, key) then IdentifierToken(key) else StringToken(key);
            lex(BeforePropertyName, SerializeKey(u, key, quote) + (":" + r)) == Lexed(t, ":" + r)
  {
    if IsBareKey(u, key) {
      var run: RunFunction := (l, rest) => Run(u, BeforePropertyName, l, rest);
      ReadBareKey(lex, run, u, key, r);
    } else {
      ReadQuoted(lex, u, BeforePropertyName, key, quote, ":" + r);
    }
  }

  lemma ReadBareKey(lex: LexFunction, run: RunFunction, u: Tables, key: string, r: string)
    requires IsLexer(lex, u) && IsRun(run, u, BeforePropertyName) && SoundTables(u) && IsBareKey(u, key)
    ensures lex(BeforePropertyName, key + (":" + r)) == Lexed(IdentifierToken(key), ":" + r)
  {
    var c, tail := key[0], key[1..];
    assert key + (":" + r) == [c] + (tail + (":" + r)) && [c] + tail == key;
    LexNameStart(lex, run, u, c, tail + (":" + r));
    RunName(run, u, BeforePropertyName, Lexer(IdentifierName, [c], false, false), tail, r);
  }

  lemma ReadPunctuator(lex: LexFunction, u: Tables, ps: ParseState, c: char, r: string)
    requires IsLexer(lex, u) && c in {'{', '}', '[', ']', ':', ','} && TokenFits(ps, Punctuator(c))
    ensures lex(ps, [c] + r) == Lexed(Punctuator(c), r)
  {
    var text := [c] + r;
    assert text[0] == c && text[1..] == r;
    assert lex(ps, text) == Lex(u, ps, text);
    if (c == '{' || c == '[') && !ps.Start? {
      assert Lex(u, ps, text) == Run(u, ps, FRESH.(state := InValue), text);
    }
  }

  predicate AllWhite(w: string)
  {
    forall i :: 0 <= i < |w| ==> IsWhite(w[i])
  }

  lemma {:induction false} SkipWhite(lex: LexFunction, u: Tables, ps: ParseState, w: string, r: string)
    requires IsLexer(lex, u) && AllWhite(w)
    ensures lex(ps, w + r) == lex(ps, r)
    decreases |w|
  {
    if w == "" {
      assert w + r == r;
    } else {
      SkipWhite(lex, u, ps, w[1..], r);
      SkipWhiteChar(lex, u, ps, w[0], w[1..] + r);
      assert w + r == [w[0]] + (w[1..] + r);
    }
  }

  lemma SkipWhiteChar(lex: LexFunction, u: Tables, ps: ParseState, c: char, r: string)
    requires IsLexer(lex, u) && IsWhite(c)
    ensures lex(ps, [c] + r) == lex(ps, r)
  {
    Json5Trivia.SkipBlank(u, ps, c, r);
  }

  // ----- whole trees --------------------------------------------------------------------

  /** What the lemmas below have in common. */
  ghost predicate Setting(rd: Reader, u: Tables, style: Style)
  {
    IsReader(rd, u) && SoundTables(u) && AllWhite(style.gap)
  }

  lemma ParsePunctuator(rd: Reader, u: Tables, p: Parser, c: char, r: string)
    requires IsReader(rd, u) && Consistent(p)
    requires c in {'{', '}', '[', ']', ':', ','} && TokenFits(p.state, Punctuator(c))
    ensures rd.parse(p, [c] + r) == rd.parse(Advance(p, Punctuator(c)), r)
  {
    ReadPunctuator(rd.lex, u, p.state, c, r);
    ParseOne(rd, u, p, [c] + r, Punctuator(c), r);
  }

  lemma ParseWhite(rd: Reader, u: Tables, p: Parser, w: string, r: string)
    requires IsReader(rd, u) && Consistent(p) && AllWhite(w)
    ensures rd.parse(p, w + r) == rd.parse(p, r)
  {
    SkipWhite(rd.lex, u, p.state, w, r);
    SameLexSameParse(rd, u, p, w + r, r);
  }

  predicate IsLeaf(t: Tree)
  {
    !t.TArr? && !t.TObj?
  }

  lemma ReadLeaf(rd: Reader, u: Tables, style: Style, indent: string, t: Tree, ps: ParseState, r: string)
    returns (token: Token)
    requires IsReader(rd, u) && IsLeaf(t) && Printable(t) && ExpectsValue(ps) && Delimited(r)
    ensures IsScalarToken(token) && TokenValue(token) == ValueOf(t)
    ensures rd.lex(ps, Serialize(u, style, indent, t) + r) == Lexed(token, r)
  {
    match t
    case TNull =>
      token := NullToken;
      assert "null" + r == ['n'] + ("ull" + r);
      ReadKeyword(rd.lex, u, ps, 'n', "ull", token, r);
    case TBool(b) =>
      token := BooleanToken(b);
      if b {
        assert "true" + r == ['t'] + ("rue" + r);
        ReadKeyword(rd.lex, u, ps, 't', "rue", token, r);
      } else {
        assert "false" + r == ['f'] + ("alse" + r);
        ReadKeyword(rd.lex, u, ps, 'f', "alse", token, r);
      }
    case TNum(n) =>
      token := NumericToken(n);
      ReadNumber(rd.lex, u, ps, n, r);
    case TStr(s) =>
      token := StringToken(s);
      ReadQuoted(rd.lex, u, ps, s, style.quote, r);
  }

  /** Where the reader stands after the last part of a container: white space and a
      trailing comma, if the style has them, and the closing bracket. */
  lemma ParseClose(rd: Reader, u: Tables, style: Style, indent: string, p: Parser, close: char, r: string)
    requires Setting(rd, u, style) && AllWhite(indent) && Consistent(p)
    requires (p.state.AfterArrayValue? && close == ']') || (p.state.AfterPropertyValue? && close == '}')
    ensures rd.parse(p, Trail(style.gap, indent) + [close] + r) == rd.parse(Pop(p), r)
  {
    if style.gap == "" {
      assert Trail(style.gap, indent) + [close] + r == [close] + r;
      ParsePunctuator(rd, u, p, close, r);
    } else {
      var w := "\n" + indent;
      assert Trail(style.gap, indent) + [close] + r == [','] + (w + ([close] + r));
      ParsePunctuator(rd, u, p, ',', w + ([close] + r));
      var p' := Advance(p, Punctuator(','));
      ParseWhite(rd, u, p', w, [close] + r);
      ParsePunctuator(rd, u, p', close, r);
    }
  }

  /** The law, one value at a time: whatever is open and whatever follows, reading a
      written value completes exactly that value and leaves what follows. */
  lemma {:induction false} ReadValue(
    rd: Reader, u: Tables, style: Style, indent: string, t: Tree, p: Parser, r: string)
    requires Setting(rd, u, style) && AllWhite(indent) && Printable(t)
    requires Consistent(p) && ExpectsValue(p.state) && Delimited(r)
    ensures rd.parse(p, Serialize(u, style, indent, t) + r) ==
            rd.parse(Complete(p.stack, ValueOf(t)), r)
    decreases t
  {
    match t
    case TArr(items) => ReadArray(rd, u, style, indent, items, p, r);
    case TObj(members) => ReadObject(rd, u, style, indent, members, p, r);
    case _ =>
      var token := ReadLeaf(rd, u, style, indent, t, p.state, r);
      ParseOne(rd, u, p, Serialize(u, style, indent, t) + r, token, r);
  }

  lemma ArrayOpens(u: Tables, style: Style, indent: string, items: seq<Tree>, r: string)
    ensures Serialize(u, style, indent, TArr(items)) + r ==
            ['['] + if items == [] then [']'] + r else ItemsText(u, style, indent, items, r)
  {
  }

  lemma {:induction false} ReadArray(
    rd: Reader, u: Tables, style: Style, indent: string, items: seq<Tree>, p: Parser, r: string)
    requires Setting(rd, u, style) && AllWhite(indent)
    requires forall i | 0 <= i < |items| :: Printable(items[i])
    requires Consistent(p) && ExpectsValue(p.state)
    ensures rd.parse(p, Serialize(u, style, indent, TArr(items)) + r) ==
            rd.parse(Complete(p.stack, Arr(ValuesOf(items))), r)
    decreases items, 2
  {
    var p' := Push(p, Punctuator('['));
    ArrayOpens(u, style, indent, items, r);
    if items == [] {
      ParsePunctuator(rd, u, p, '[', [']'] + r);
      ParsePunctuator(rd, u, p', ']', r);
      assert Front(p'.stack) == p.stack;
    } else {
      ParsePunctuator(rd, u, p, '[', ItemsText(u, style, indent, items, r));
      ReadItems(rd, u, style, indent, [], items, p.stack, r);
      assert [] + ValuesOf(items) == ValuesOf(items);
    }
  }

  /** The text of the items of an array, up to the bracket and what follows it. */
  function ItemsText(u: Tables, style: Style, indent: string, items: seq<Tree>, r: string): string
  {
    Lead(style.gap, indent) +
    (Join(SerializeItems(u, style, indent + style.gap, items), "," + Lead(style.gap, indent)) +
     (Trail(style.gap, indent) + [']'] + r))
  }

  /** The part of that text after the first item. */
  function ItemsRest(u: Tables, style: Style, indent: string, items: seq<Tree>, r: string): string
    requires items != []
  {
    if |items| == 1 then Trail(style.gap, indent) + [']'] + r
    else "," + ItemsText(u, style, indent, items[1..], r)
  }

  lemma ItemsSplit(u: Tables, style: Style, indent: string, items: seq<Tree>, r: string)
    requires items != []
    ensures ItemsText(u, style, indent, items, r) ==
            Lead(style.gap, indent) +
            (Serialize(u, style, indent + style.gap, items[0]) + ItemsRest(u, style, indent, items, r))
    ensures Delimited(ItemsRest(u, style, indent, items, r))
  {
  }

  lemma {:induction false} ReadItem(
    rd: Reader, u: Tables, style: Style, indent: string, done: seq<Value>, items: seq<Tree>, stack: seq<Frame>,
    r: string)
    requires Setting(rd, u, style) && AllWhite(indent) && items != [] && Printable(items[0])
    ensures rd.parse(Parser(BeforeArrayValue, stack + [ArrayFrame(done)], None),
                      ItemsText(u, style, indent, items, r)) ==
            rd.parse(Parser(AfterArrayValue, stack + [ArrayFrame(done + [ValueOf(items[0])])], None),
                      ItemsRest(u, style, indent, items, r))
    decreases items, 0
  {
    var p := Parser(BeforeArrayValue, stack + [ArrayFrame(done)], None);
    var first, rest := Serialize(u, style, indent + style.gap, items[0]), ItemsRest(u, style, indent, items, r);
    ItemsSplit(u, style, indent, items, r);
    ParseWhite(rd, u, p, Lead(style.gap, indent), first + rest);
    ReadValue(rd, u, style, indent + style.gap, items[0], p, rest);
  }

  lemma ValuesGrow(done: seq<Value>, items: seq<Tree>)
    requires items != []
    ensures done + ValuesOf(items) ==
            if |items| == 1 then done + [ValueOf(items[0])] else done + [ValueOf(items[0])] + ValuesOf(items[1..])
  {
    assert |items| == 1 ==> ValuesOf(items[1..]) == [];
  }

  lemma {:induction false} ReadItems(
    rd: Reader, u: Tables, style: Style, indent: string, done: seq<Value>, items: seq<Tree>, stack: seq<Frame>,
    r: string)
    requires Setting(rd, u, style) && AllWhite(indent) && items != []
    requires forall i | 0 <= i < |items| :: Printable(items[i])
    ensures rd.parse(Parser(BeforeArrayValue, stack + [ArrayFrame(done)], None),
                      ItemsText(u, style, indent, items, r)) ==
            rd.parse(Complete(stack, Arr(done + ValuesOf(items))), r)
    decreases items, 1
  {
    var v := ValueOf(items[0]);
    var p := Parser(AfterArrayValue, stack + [ArrayFrame(done + [v])], None);
    ReadItem(rd, u, style, indent, done, items, stack, r);
    ValuesGrow(done, items);
    if |items| == 1 {
      ParseClose(rd, u, style, indent, p, ']', r);
      assert Front(p.stack) == stack;
    } else {
      ParsePunctuator(rd, u, p, ',', ItemsText(u, style, indent, items[1..], r));
      ReadItems(rd, u, style, indent, done + [v], items[1..], stack, r);
    }
  }

  lemma ObjectOpens(u: Tables, style: Style, indent: string, members: seq<Member>, r: string)
    ensures Serialize(u, style, indent, TObj(members)) + r ==
            ['{'] + if members == [] then ['}'] + r else MembersText(u, style, indent, members, r)
  {
  }

  lemma {:induction false} ReadObject(
    rd: Reader, u: Tables, style: Style, indent: string, members: seq<Member>, p: Parser, r: string)
    requires Setting(rd, u, style) && AllWhite(indent)
    requires forall i | 0 <= i < |members| :: Printable(members[i].value)
    requires Consistent(p) && ExpectsValue(p.state)
    ensures rd.parse(p, Serialize(u, style, indent, TObj(members)) + r) ==
            rd.parse(Complete(p.stack, Obj(Collected(map[], members))), r)
    decreases members, 1
  {
    var p' := Push(p, Punctuator('{'));
    ObjectOpens(u, style, indent, members, r);
    if members == [] {
      ParsePunctuator(rd, u, p, '{', ['}'] + r);
      ParsePunctuator(rd, u, p', '}', r);
      assert Front(p'.stack) == p.stack;
    } else {
      ParsePunctuator(rd, u, p, '{', MembersText(u, style, indent, members, r));
      ReadMembers(rd, u, style, indent, map[], "", members, p.stack, r);
    }
  }

  function MembersText(u: Tables, style: Style, indent: string, members: seq<Member>, r: string): string
  {
    Lead(style.gap, indent) +
    (Join(SerializeMembers(u, style, indent + style.gap, members), "," + Lead(style.gap, indent)) +
     (Trail(style.gap, indent) + ['}'] + r))
  }

  function MembersRest(u: Tables, style: Style, indent: string, members: seq<Member>, r: string): string
    requires members != []
  {
    if |members| == 1 then Trail(style.gap, indent) + ['}'] + r
    else "," + MembersText(u, style, indent, members[1..], r)
  }

  lemma MembersSplit(u: Tables, style: Style, indent: string, members: seq<Member>, r: string)
    requires members != []
    ensures MembersText(u, style, indent, members, r) ==
            Lead(style.gap, indent) +
            (SerializeMember(u, style, indent + style.gap, members[0]) + MembersRest(u, style, indent, members, r))
    ensures Delimited(MembersRest(u, style, indent, members, r))
  {
  }

  lemma {:induction false} ReadMembers(
    rd: Reader, u: Tables, style: Style, indent: string, done: map<string, Value>, key: string,
    members: seq<Member>, stack: seq<Frame>, r: string)
    requires Setting(rd, u, style) && AllWhite(indent) && members != []
    requires forall i | 0 <= i < |members| :: Printable(members[i].value)
    ensures rd.parse(Parser(BeforePropertyName, stack + [ObjectFrame(done, key)], None),
                      MembersText(u, style, indent, members, r)) ==
            rd.parse(Complete(stack, Obj(Collected(done, members))), r)
    decreases members, 0
  {
    var p := Parser(BeforePropertyName, stack + [ObjectFrame(done, key)], None);
    var m := members[0];
    var done' := done[m.key := ValueOf(m.value)];
    var p' := Parser(AfterPropertyValue, stack + [ObjectFrame(done', m.key)], None);
    var first, rest := SerializeMember(u, style, indent + style.gap, m), MembersRest(u, style, indent, members, r);
    MembersSplit(u, style, indent, members, r);
    ParseWhite(rd, u, p, Lead(style.gap, indent), first + rest);
    ReadMember(rd, u, style, indent + style.gap, done, key, m, stack, rest);
    if |members| == 1 {
      ParseClose(rd, u, style, indent, p', '}', r);
      assert Front(p'.stack) == stack;
    } else {
      ParsePunctuator(rd, u, p', ',', MembersText(u, style, indent, members[1..], r));
      ReadMembers(rd, u, style, indent, done', m.key, members[1..], stack, r);
    }
  }

  lemma {:induction false} ReadMember(
    rd: Reader, u: Tables, style: Style, indent: string, done: map<string, Value>, key: string,
    m: Member, stack: seq<Frame>, r: string)
    requires Setting(rd, u, style) && AllWhite(indent) && Printable(m.value) && Delimited(r)
    ensures rd.parse(Parser(BeforePropertyName, stack + [ObjectFrame(done, key)], None),
                      SerializeMember(u, style, indent, m) + r) ==
            rd.parse(Parser(AfterPropertyValue, stack + [ObjectFrame(done[m.key := ValueOf(m.value)], m.key)], None), r)
    decreases m
  {
    var p := Parser(BeforePropertyName, stack + [ObjectFrame(done, key)], None);
    var keyText := SerializeKey(u, m.key, style.quote);
    var space := if style.gap == "" then "" else " ";
    var value := Serialize(u, style, indent, m.value) + r;
    assert SerializeMember(u, style, indent, m) + r == keyText + (":" + (space + value));
    ReadKey(rd.lex, u, m.key, style.quote, space + value);
    var t := if IsBareKey(u, m.key) then IdentifierToken(m.key) else StringToken(m.key);
    ParseOne(rd, u, p, keyText + (":" + (space + value)), t, ":" + (space + value));
    var named := Parser(AfterPropertyName, stack + [ObjectFrame(done, m.key)], None);
    assert Advance(p, t) == named;
    ParsePunctuator(rd, u, named, ':', space + value);
    var p' := named.(state := BeforePropertyValue);
    ParseWhite(rd, u, p', space, value);
    ReadValue(rd, u, style, indent, m.value, p', r);
  }

  /** For every finite tree, every white-space gap and every quote, parse undoes
      stringify. */
  lemma ParseUndoesStringify(u: Tables, lex: LexFunction, style: Style, t: Tree)
    requires IsLexer(lex, u) && SoundTables(u) && AllWhite(style.gap) && Printable(t)
    ensures Sound(lex)
    ensures Parse(lex, Stringify(u, style, t)) == Accepted(ValueOf(t))
  {
    var rd := TheReader(u, lex);
    var text := Stringify(u, style, t);
    ReadValue(rd, u, style, "", t, INITIAL, "");
    assert text + "" == text;
    assert rd.parse(INITIAL, text) == ParseFrom(lex, INITIAL, text);
    ReadEnd(rd, u, ValueOf(t));
  }

  /** In particular for every numeric space option, which stringify cuts to ten. */
  lemma ParseUndoesIndented(u: Tables, lex: LexFunction, space: int, quote: Quote, t: Tree)
    requires IsLexer(lex, u) && SoundTables(u) && Printable(t)
    ensures Sound(lex)
    ensures Parse(lex, Stringify(u, Style(GapOf(space), quote), t)) == Accepted(ValueOf(t))
  {
    ParseUndoesStringify(u, lex, Style(GapOf(space), quote), t);
  }

  lemma ReadEnd(rd: Reader, u: Tables, v: Value)
    requires IsReader(rd, u)
    ensures rd.parse(Complete([], v), "") == Accepted(v)
  {
    var p := Complete([], v);
    assert rd.lex(p.state, "") == Lex(u, p.state, "");
    assert rd.parse(p, "") == ParseFrom(rd.lex, p, "");
  }
}
