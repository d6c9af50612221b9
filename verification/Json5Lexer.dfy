/**
 The lexer of scripts/vendor-json5.js as a transition system.  `Step` is one
 turn of the `for (;;)` loop of `lex`: the entry of `lexStates` that the
 current state selects, applied to the text that is still unread.
 */
module Json5Lexer {
  import opened Json5Text

  datatype LexState =
    | Default
    | Comment
    | MultiLineComment
    | MultiLineCommentAsterisk
    | SingleLineComment
    | InValue
    | IdentifierNameStartEscape
    | IdentifierName
    | IdentifierNameEscape
    | Sign
    | Zero
    | DecimalInteger
    | DecimalPointLeading
    | DecimalPoint
    | DecimalFraction
    | DecimalExponent
    | DecimalExponentSign
    | DecimalExponentInteger
    | Hexadecimal
    | HexadecimalInteger
    | InString

  /** The module variables lexState, buffer, doubleQuote and sign. */
  datatype Lexer = Lexer(state: LexState, buffer: string, doubleQuote: bool, negative: bool)

  const FRESH: Lexer := Lexer(Default, "", false, false)

  /** More: no token yet.  Emit: lex returns.  Bad: a syntax error is thrown.
      Each carries the text left unread. */
  datatype Turn =
    | More(lexer: Lexer, rest: string)
    | Emit(token: Token, rest: string)
    | Bad(rest: string)

  /** Staying in the loop costs a character. */
  predicate Advances(r: Turn, rest: string)
  {
    |r.rest| <= |rest| && (r.More? ==> |r.rest| < |rest|)
  }

  /** The text after reading n characters, or all of it. */
  function After(n: nat, rest: string): (r: string)
    ensures |r| <= |rest|
  {
    if n <= |rest| then rest[n..] else ""
  }

  /** throw invalidChar(read()) */
  function InvalidChar(rest: string): (r: Turn)
    ensures Advances(r, rest)
  {
    Bad(After(1, rest))
  }

  /** read() and stay in the loop. */
  function Enter(l: Lexer, rest: string): (r: Turn)
    requires rest != ""
    ensures Advances(r, rest)
  {
    More(l, rest[1..])
  }

  /** read(); lexState = state */
  function Goto(l: Lexer, state: LexState, rest: string): (r: Turn)
    requires rest != ""
    ensures Advances(r, rest)
  {
    Enter(l.(state := state), rest)
  }

  /** buffer += read(); lexState = state */
  function Collect(l: Lexer, state: LexState, rest: string): (r: Turn)
    requires rest != ""
    ensures Advances(r, rest)
  {
    Enter(l.(state := state, buffer := l.buffer + [rest[0]]), rest)
  }

  /** return newToken('punctuator', read()) */
  function Punctuation(rest: string): (r: Turn)
    requires rest != ""
    ensures Advances(r, rest)
  {
    Emit(Punctuator(rest[0]), rest[1..])
  }

  // ----- multi-character reads ------------------------------------------------

  datatype Scan = Scanned(text: string, rest: string) | Refused(rest: string)

  function RefuseChar(rest: string): (r: Scan)
    ensures |r.rest| <= |rest|
  {
    Refused(After(1, rest))
  }

  /** How many characters of s the text starts with. */
  function Matching(s: string, rest: string): (n: nat)
    ensures n <= |s| && n <= |rest| && s[..n] == rest[..n]
    decreases |rest|
  {
    if s == "" || rest == "" || s[0] != rest[0] then 0 else 1 + Matching(s[1..], rest[1..])
  }

  /** literal(s): the characters of s, or a syntax error at the first that differs. */
  function Literal(s: string, rest: string): (r: Scan)
    ensures |r.rest| <= |rest|
    ensures r.Scanned? ==> |r.rest| == |rest| - |s|
  {
    if s <= rest then Scanned(s, rest[|s|..]) else Refused(After(Matching(s, rest) + 1, rest))
  }

  /** How many hexadecimal digits the text starts with. */
  function LeadingHex(rest: string): (n: nat)
    ensures n <= |rest|
  {
    if rest == "" || !IsHexDigit(rest[0]) then 0 else 1 + LeadingHex(rest[1..])
  }

  /** n hexadecimal digits, or a syntax error at the first other character. */
  function HexDigits(n: nat, rest: string): (r: Scan)
    ensures |r.rest| <= |rest|
    ensures r.Scanned? ==> |r.rest| == |rest| - n && |r.text| == n && AllHex(r.text)
  {
    if n <= |rest| && AllHex(rest[..n]) then Scanned(rest[..n], rest[n..])
    else Refused(After(LeadingHex(rest) + 1, rest))
  }

  /** String.fromCodePoint(n) for a value of at most four hexadecimal digits; the
      surrogate halves, which are not scalar values, read as U+FFFD. */
  function FromCodePoint(n: nat): char
  {
    if n < 0xD800 || 0xE000 <= n < 0x11_0000 then n as char else REPLACEMENT
  }

  /** hexEscape (n == 2) and unicodeEscape (n == 4). */
  function CodeEscape(n: nat, rest: string): (r: Scan)
    ensures |r.rest| <= |rest|
    ensures r.Scanned? ==> |r.rest| == |rest| - n && |r.text| == 1
  {
    match HexDigits(n, rest)
    case Scanned(text, rest') => Scanned([FromCodePoint(PositionalValue(text, 16))], rest')
    case Refused(rest') => Refused(rest')
  }

  /** The one-letter escapes; "" for every other character. */
  function LetterEscape(c: char): string
  {
    if c == 'b' then [BACKSPACE]
    else if c == 'f' then [FORM_FEED]
    else if c == 'n' then "\n"
    else if c == 'r' then "\r"
    else if c == 't' then "\t"
    else if c == 'v' then [VERTICAL_TAB]
    else ""
  }

  /** escape(): what a backslash in a string stands for. */
  function Escape(rest: string): (r: Scan)
    ensures |r.rest| <= |rest|
    ensures r.Scanned? ==> |r.rest| < |rest|
  {
    if rest == "" then RefuseChar(rest)
    else
      var c, tail := rest[0], rest[1..];
      if LetterEscape(c) != "" then Scanned(LetterEscape(c), tail)
      else if c == '0' then
        if tail != "" && IsDigit(tail[0]) then RefuseChar(tail) else Scanned("\0", tail)
      else if c == 'x' then CodeEscape(2, tail)
      else if c == 'u' then CodeEscape(4, tail)
      else if c == '\r' then Scanned("", if tail != "" && tail[0] == '\n' then tail[1..] else tail)
      else if IsLineTerminator(c) then Scanned("", tail)
      else if IsDigit(c) then RefuseChar(rest)
      else Scanned([c], tail)
  }

  // ----- the states -----------------------------------------------------------

  /** read(); literal(s); return the token */
  function Keyword(s: string, token: Token, rest: string): (r: Turn)
    requires rest != ""
    ensures Advances(r, rest)
  {
    match Literal(s, rest[1..])
    case Scanned(_, rest') => Emit(token, rest')
    case Refused(rest') => Bad(rest')
  }

  /** lexStates[parseState]() */
  function StepParserState(u: Tables, ps: ParseState, l: Lexer, rest: string): (r: Turn)
    requires rest != ""
    ensures |r.rest| <= |rest|
    ensures r.More? && |r.rest| == |rest| ==> r.lexer == l.(state := InValue)
  {
    var c := rest[0];
    match ps
    case Start =>
      if c == '{' || c == '[' then Punctuation(rest) else More(l.(state := InValue), rest)
    case BeforePropertyName =>
      if c == '$' || c == '_' then Enter(l.(state := IdentifierName, buffer := [c]), rest)
      else if c == '\\' then Goto(l, IdentifierNameStartEscape, rest)
      else if c == '}' then Punctuation(rest)
      else if c == '"' || c == '\'' then Enter(l.(state := InString, doubleQuote := c == '"'), rest)
      else if IsIdStart(u, c) then Collect(l, IdentifierName, rest)
      else InvalidChar(rest)
    case AfterPropertyName => if c == ':' then Punctuation(rest) else InvalidChar(rest)
    case BeforePropertyValue => More(l.(state := InValue), rest)
    case AfterPropertyValue => if c == ',' || c == '}' then Punctuation(rest) else InvalidChar(rest)
    case BeforeArrayValue => if c == ']' then Punctuation(rest) else More(l.(state := InValue), rest)
    case AfterArrayValue => if c == ',' || c == ']' then Punctuation(rest) else InvalidChar(rest)
    case End => InvalidChar(rest)
  }

  function StepDefault(u: Tables, ps: ParseState, l: Lexer, rest: string): (r: Turn)
    ensures |r.rest| <= |rest|
    ensures r.More? && |r.rest| == |rest| ==> r.lexer == l.(state := InValue)
  {
    if rest == "" then Emit(Eof, rest)
    else if IsWhite(rest[0]) then Goto(l, Default, rest)
    else if rest[0] == '/' then Goto(l, Comment, rest)
    else StepParserState(u, ps, l, rest)
  }

  predicate IsComment(s: LexState)
  {
    s.Comment? || s.MultiLineComment? || s.MultiLineCommentAsterisk? || s.SingleLineComment?
  }

  function StepComment(l: Lexer, rest: string): (r: Turn)
    requires IsComment(l.state)
    ensures Advances(r, rest)
  {
    if rest == "" then
      if l.state.SingleLineComment? then Emit(Eof, rest) else InvalidChar(rest)
    else if l.state.Comment? then
      if rest[0] == '*' then Goto(l, MultiLineComment, rest)
      else if rest[0] == '/' then Goto(l, SingleLineComment, rest)
      else InvalidChar(rest)
    else if l.state.MultiLineComment? then
      Goto(l, if rest[0] == '*' then MultiLineCommentAsterisk else MultiLineComment, rest)
    else if l.state.MultiLineCommentAsterisk? then
      if rest[0] == '*' then Goto(l, MultiLineCommentAsterisk, rest)
      else Goto(l, if rest[0] == '/' then Default else MultiLineComment, rest)
    else
      Goto(l, if IsLineTerminator(rest[0]) then Default else SingleLineComment, rest)
  }

  /** The first character of a number, shared by `value` and `sign`. */
  function NumberStart(l: Lexer, rest: string): (r: Turn)
    requires rest != ""
    ensures Advances(r, rest)
  {
    var c := rest[0];
    if c == '.' then Enter(l.(state := DecimalPointLeading, buffer := [c]), rest)
    else if c == '0' then Enter(l.(state := Zero, buffer := [c]), rest)
    else if '1' <= c <= '9' then Enter(l.(state := DecimalInteger, buffer := [c]), rest)
    else if c == 'I' then Keyword("nfinity", NumericToken(Infinite(l.negative)), rest)
    else if c == 'N' then Keyword("aN", NumericToken(NaN), rest)
    else InvalidChar(rest)
  }

  function StepValue(l: Lexer, rest: string): (r: Turn)
    ensures Advances(r, rest)
  {
    if rest == "" then InvalidChar(rest)
    else
      var c := rest[0];
      if c == '{' || c == '[' then Punctuation(rest)
      else if c == 'n' then Keyword("ull", NullToken, rest)
      else if c == 't' then Keyword("rue", BooleanToken(true), rest)
      else if c == 'f' then Keyword("alse", BooleanToken(false), rest)
      else if c == '-' || c == '+' then Enter(l.(state := Sign, negative := c == '-'), rest)
      else if c == '"' || c == '\'' then
        Enter(l.(state := InString, buffer := "", doubleQuote := c == '"'), rest)
      else NumberStart(l, rest)
  }

  predicate IsName(s: LexState)
  {
    s.IdentifierNameStartEscape? || s.IdentifierName? || s.IdentifierNameEscape?
  }

  predicate IsNameEscape(u: Tables, first: bool, c: char)
  {
    if first then IsIdStart(u, c) else IsIdContinue(u, c)
  }

  function StepName(u: Tables, l: Lexer, rest: string): (r: Turn)
    requires IsName(l.state)
    ensures Advances(r, rest)
  {
    if l.state.IdentifierName? then
      if rest != "" && rest[0] == '\\' then Goto(l, IdentifierNameEscape, rest)
      else if rest != "" && IsIdContinue(u, rest[0]) then Collect(l, IdentifierName, rest)
      else Emit(IdentifierToken(l.buffer), rest)
    else if rest == "" || rest[0] != 'u' then InvalidChar(rest)
    else
      match CodeEscape(4, rest[1..])
      case Refused(rest') => Bad(rest')
      case Scanned(text, rest') =>
        if IsNameEscape(u, l.state.IdentifierNameStartEscape?, text[0])
        then More(l.(state := IdentifierName, buffer := l.buffer + text), rest')
        else Bad(rest')
  }

  predicate IsNumeric(s: LexState)
  {
    || s.Zero? || s.DecimalInteger? || s.DecimalPointLeading? || s.DecimalPoint? || s.DecimalFraction?
    || s.DecimalExponent? || s.DecimalExponentSign? || s.DecimalExponentInteger?
    || s.Hexadecimal? || s.HexadecimalInteger?
  }

  /** The state a character leads to from a numeric state, if it belongs to the number. */
  function NumericNext(s: LexState, c: char): (next: LexState)
    requires IsNumeric(s)
    ensures IsNumeric(next) || next.Default?
  {
    var exponent := c == 'e' || c == 'E';
    if s.Zero? then
      if c == '.' then DecimalPoint
      else if exponent then DecimalExponent
      else if c == 'x' || c == 'X' then Hexadecimal
      else Default
    else if s.DecimalInteger? && c == '.' then DecimalPoint
    else if exponent && (s.DecimalInteger? || s.DecimalPoint? || s.DecimalFraction?) then DecimalExponent
    else if s.DecimalExponent? && (c == '+' || c == '-') then DecimalExponentSign
    else if s.Hexadecimal? || s.HexadecimalInteger? then
      if IsHexDigit(c) then HexadecimalInteger else Default
    else if !IsDigit(c) then Default
    else if s.DecimalInteger? then DecimalInteger
    else if s.DecimalPointLeading? || s.DecimalPoint? || s.DecimalFraction? then DecimalFraction
    else DecimalExponentInteger
  }

  /** The numeric states in which the number may end. */
  predicate MayEnd(s: LexState)
  {
    s.Zero? || s.DecimalInteger? || s.DecimalPoint? || s.DecimalFraction? || s.DecimalExponentInteger? ||
    s.HexadecimalInteger?
  }

  function StepNumber(l: Lexer, rest: string): (r: Turn)
    requires IsNumeric(l.state)
    ensures Advances(r, rest)
  {
    if rest != "" && !NumericNext(l.state, rest[0]).Default? then
      Collect(l, NumericNext(l.state, rest[0]), rest)
    else if !MayEnd(l.state) then InvalidChar(rest)
    else if l.state.Zero? then Emit(NumericToken(Int(0)), rest)
    else Emit(NumericToken(ToNumber(l.negative, l.buffer)), rest)
  }

  function StepString(l: Lexer, rest: string): (r: Turn)
    ensures Advances(r, rest)
  {
    if rest == "" then InvalidChar(rest)
    else
      var c := rest[0];
      if c == '\\' then
        match Escape(rest[1..])
        case Scanned(text, rest') => More(l.(buffer := l.buffer + text), rest')
        case Refused(rest') => Bad(rest')
      else if c == (if l.doubleQuote then '"' else '\'') then Emit(StringToken(l.buffer), rest[1..])
      else if c == '\n' || c == '\r' then InvalidChar(rest)
      else Collect(l, InString, rest)
  }

  /** One turn of the loop in lex. */
  function Step(u: Tables, ps: ParseState, l: Lexer, rest: string): (r: Turn)
    ensures |r.rest| <= |rest|
    ensures r.More? && |r.rest| == |rest| ==> l.state.Default? && r.lexer.state.InValue?
  {
    if l.state.Default? then StepDefault(u, ps, l, rest)
    else if IsComment(l.state) then StepComment(l, rest)
    else if l.state.InValue? then StepValue(l, rest)
    else if IsName(l.state) then StepName(u, l, rest)
    else if l.state.Sign? then if rest == "" then InvalidChar(rest) else NumberStart(l, rest)
    else if l.state.InString? then StepString(l, rest)
    else StepNumber(l, rest)
  }

  datatype Lexed = Lexed(token: Token, rest: string) | LexError(rest: string)

  /** The loop of lex from a given state.  It ends because each turn reads a
      character, leaves the loop, or moves once from Default to InValue. */
  function Run(u: Tables, ps: ParseState, l: Lexer, rest: string): (r: Lexed)
    ensures |r.rest| <= |rest|
    decreases |rest|, if l.state.Default? then 1 else 0
  {
    match Step(u, ps, l, rest)
    case More(l', rest') => Run(u, ps, l', rest')
    case Emit(token, rest') => Lexed(token, rest')
    case Bad(rest') => LexError(rest')
  }

  function Lex(u: Tables, ps: ParseState, rest: string): Lexed
  {
    Run(u, ps, FRESH, rest)
  }

  /** The loop of lex under one parser state, as a function on its own. */
  type RunFunction = (Lexer, string) -> Lexed

  ghost predicate IsRun(run: RunFunction, u: Tables, ps: ParseState)
  {
    forall l, rest {:trigger Run(u, ps, l, rest)} :: run(l, rest) == Run(u, ps, l, rest)
  }

  // ----- what lex promises the parser ----------------------------------------

  predicate IsScalarToken(t: Token)
  {
    t.NullToken? || t.BooleanToken? || t.NumericToken? || t.StringToken?
  }

  predicate OpensValue(t: Token)
  {
    IsScalarToken(t) || t == Punctuator('{') || t == Punctuator('[')
  }

  predicate ExpectsValue(ps: ParseState)
  {
    ps.Start? || ps.BeforePropertyValue? || ps.BeforeArrayValue?
  }

  /** The tokens each parser state can be handed. */
  predicate TokenFits(ps: ParseState, t: Token)
  {
    || t.Eof?
    || (ExpectsValue(ps) && OpensValue(t))
    || (ps.BeforePropertyName? && (t.IdentifierToken? || t.StringToken? || t == Punctuator('}')))
    || (ps.AfterPropertyName? && t == Punctuator(':'))
    || (ps.BeforeArrayValue? && t == Punctuator(']'))
    || (ps.AfterPropertyValue? && (t == Punctuator(',') || t == Punctuator('}')))
    || (ps.AfterArrayValue? && (t == Punctuator(',') || t == Punctuator(']')))
  }

  /** The lexer states that lex can be in under a given parser state. */
  predicate Reachable(ps: ParseState, s: LexState)
  {
    || s.Default?
    || IsComment(s)
    || (IsName(s) && ps.BeforePropertyName?)
    || (s.InString? && (ps.BeforePropertyName? || ExpectsValue(ps)))
    || ((s.InValue? || s.Sign? || IsNumeric(s)) && ExpectsValue(ps))
  }

  /** The states that can emit a token without reading anything more. */
  predicate Pending(s: LexState)
  {
    s.IdentifierName? || MayEnd(s)
  }

  /** What the caller of Step may rely on, turn by turn. */
  ghost predicate Keeps(ps: ParseState, l: Lexer, rest: string, r: Turn)
  {
    match r
    case More(l', _) => Reachable(ps, l'.state) && (|r.rest| == |rest| ==> !Pending(l'.state))
    case Emit(t, _) =>
      && TokenFits(ps, t)
      && (t.Eof? ==> r.rest == "")
      && (!t.Eof? && !Pending(l.state) ==> |r.rest| < |rest|)
    case Bad(_) => true
  }

  lemma StepKeeps(u: Tables, ps: ParseState, l: Lexer, rest: string)
    requires Reachable(ps, l.state)
    ensures Keeps(ps, l, rest, Step(u, ps, l, rest))
  {
    if l.state.Default? {
      if rest != "" {
        ParserStateKeeps(u, ps, l, rest);
      }
    } else if l.state.InValue? {
      ValueKeeps(ps, l, rest);
    } else if l.state.Sign? {
      NumberStartKeeps(ps, l, rest);
    } else if IsNumeric(l.state) {
      NumberKeeps(ps, l, rest);
    } else {
      OtherKeeps(u, ps, l, rest);
    }
  }

  lemma ParserStateKeeps(u: Tables, ps: ParseState, l: Lexer, rest: string)
    requires l.state.Default? && rest != ""
    ensures Keeps(ps, l, rest, StepParserState(u, ps, l, rest))
  {
  }

  lemma ValueKeeps(ps: ParseState, l: Lexer, rest: string)
    requires l.state.InValue? && ExpectsValue(ps)
    ensures Keeps(ps, l, rest, StepValue(l, rest))
  {
  }

  lemma OtherKeeps(u: Tables, ps: ParseState, l: Lexer, rest: string)
    requires Reachable(ps, l.state) && (IsComment(l.state) || IsName(l.state) || l.state.InString?)
    ensures Keeps(ps, l, rest, Step(u, ps, l, rest))
  {
  }

  lemma NumberStartKeeps(ps: ParseState, l: Lexer, rest: string)
    requires !Pending(l.state) && ExpectsValue(ps)
    ensures rest != "" ==> Keeps(ps, l, rest, NumberStart(l, rest))
  {
  }

  lemma NumberKeeps(ps: ParseState, l: Lexer, rest: string)
    requires IsNumeric(l.state) && ExpectsValue(ps)
    ensures Keeps(ps, l, rest, StepNumber(l, rest))
  {
  }

  /** Whatever the text, a token that comes back is one the parser state has a
      branch for, and unless it is the end of input or was already under way
      it uses up at least one character. */
  lemma {:induction false} RunPromises(u: Tables, ps: ParseState, l: Lexer, rest: string)
    requires Reachable(ps, l.state)
    ensures Promised(ps, Pending(l.state), rest, Run(u, ps, l, rest))
    decreases |rest|, if l.state.Default? then 1 else 0
  {
    StepKeeps(u, ps, l, rest);
    var s := Step(u, ps, l, rest);
    if s.More? {
      RunPromises(u, ps, s.lexer, s.rest);
    }
  }

  ghost predicate Promised(ps: ParseState, pending: bool, rest: string, r: Lexed)
  {
    r.Lexed? ==>
      && TokenFits(ps, r.token)
      && (r.token.Eof? ==> r.rest == "")
      && (!pending && !r.token.Eof? ==> |r.rest| < |rest|)
  }

  lemma LexPromises(u: Tables, ps: ParseState, rest: string)
    ensures Promised(ps, false, rest, Lex(u, ps, rest))
  {
    RunPromises(u, ps, FRESH, rest);
  }

  // ----- what is left unread is the end of what there was -----------------------

  lemma DropRemains(n: nat, a: string)
    requires n <= |a|
    ensures Remains(a[n..], a)
  {
  }

  lemma RemainsTransitive(c: string, b: string, a: string)
    requires Remains(c, b) && Remains(b, a)
    ensures Remains(c, a)
  {
    assert c == a[|a| - |b|..][|b| - |c|..];
  }

  lemma AfterRemains(n: nat, a: string)
    ensures Remains(After(n, a), a)
  {
    DropRemains(if n <= |a| then n else |a|, a);
  }

  lemma CodeEscapeRemains(n: nat, rest: string)
    ensures Remains(CodeEscape(n, rest).rest, rest)
  {
    AfterRemains(n, rest);
    AfterRemains(LeadingHex(rest) + 1, rest);
  }

  lemma EscapeRemains(rest: string)
    ensures Remains(Escape(rest).rest, rest)
  {
    AfterRemains(1, rest);
    if rest != "" {
      var tail := rest[1..];
      AfterRemains(1, tail);
      RemainsTransitive(After(1, tail), tail, rest);
      CodeEscapeRemains(2, tail);
      RemainsTransitive(CodeEscape(2, tail).rest, tail, rest);
      CodeEscapeRemains(4, tail);
      RemainsTransitive(CodeEscape(4, tail).rest, tail, rest);
    }
  }

  lemma KeywordRemains(word: string, t: Token, rest: string)
    requires rest != ""
    ensures Remains(Keyword(word, t, rest).rest, rest)
  {
    var tail := rest[1..];
    DropRemains(1, rest);
    AfterRemains(|word|, tail);
    RemainsTransitive(After(|word|, tail), tail, rest);
    AfterRemains(Matching(word, tail) + 1, tail);
    RemainsTransitive(After(Matching(word, tail) + 1, tail), tail, rest);
  }

  lemma NumberStartRemains(l: Lexer, rest: string)
    requires rest != ""
    ensures Remains(NumberStart(l, rest).rest, rest)
  {
    var c := rest[0];
    if c == 'I' {
      KeywordRemains("nfinity", NumericToken(Infinite(l.negative)), rest);
    } else if c == 'N' {
      KeywordRemains("aN", NumericToken(NaN), rest);
    } else {
      assert NumberStart(l, rest).rest == rest[1..];
      DropRemains(1, rest);
    }
  }

  lemma ValueRemains(l: Lexer, rest: string)
    ensures Remains(StepValue(l, rest).rest, rest)
  {
    if rest == "" {
      assert StepValue(l, rest).rest == "";
    } else {
      var c := rest[0];
      if c == 'n' {
        KeywordRemains("ull", NullToken, rest);
      } else if c == 't' {
        KeywordRemains("rue", BooleanToken(true), rest);
      } else if c == 'f' {
        KeywordRemains("alse", BooleanToken(false), rest);
      } else if c == '{' || c == '[' || c == '-' || c == '+' || c == '"' || c == '\'' {
        assert StepValue(l, rest).rest == rest[1..];
        DropRemains(1, rest);
      } else {
        NumberStartRemains(l, rest);
      }
    }
  }

  lemma NameRemains(u: Tables, l: Lexer, rest: string)
    requires IsName(l.state)
    ensures Remains(StepName(u, l, rest).rest, rest)
  {
    AfterRemains(1, rest);
    if rest != "" {
      CodeEscapeRemains(4, rest[1..]);
      RemainsTransitive(CodeEscape(4, rest[1..]).rest, rest[1..], rest);
    }
  }

  lemma StringRemains(l: Lexer, rest: string)
    requires l.state.InString?
    ensures Remains(StepString(l, rest).rest, rest)
  {
    AfterRemains(1, rest);
    if rest != "" {
      EscapeRemains(rest[1..]);
      RemainsTransitive(Escape(rest[1..]).rest, rest[1..], rest);
    }
  }

  /** In these states a turn reads one character, or none. */
  lemma PlainRemains(u: Tables, ps: ParseState, l: Lexer, rest: string)
    requires !l.state.InValue? && !IsName(l.state) && !l.state.InString? && !l.state.Sign?
    ensures Remains(Step(u, ps, l, rest).rest, rest)
  {
    var left := Step(u, ps, l, rest).rest;
    assert left == rest || left == After(1, rest);
    AfterRemains(1, rest);
  }

  lemma StepRemains(u: Tables, ps: ParseState, l: Lexer, rest: string)
    ensures Remains(Step(u, ps, l, rest).rest, rest)
  {
    if l.state.InValue? {
      ValueRemains(l, rest);
    } else if IsName(l.state) {
      NameRemains(u, l, rest);
    } else if l.state.InString? {
      StringRemains(l, rest);
    } else if !l.state.Sign? {
      PlainRemains(u, ps, l, rest);
    } else if rest != "" {
      NumberStartRemains(l, rest);
    } else {
      AfterRemains(1, rest);
    }
  }

  lemma {:induction false} RunRemains(u: Tables, ps: ParseState, l: Lexer, rest: string)
    ensures Remains(Run(u, ps, l, rest).rest, rest)
    decreases |rest|, if l.state.Default? then 1 else 0
  {
    StepRemains(u, ps, l, rest);
    var s := Step(u, ps, l, rest);
    if s.More? {
      RunRemains(u, ps, s.lexer, s.rest);
      RemainsTransitive(Run(u, ps, s.lexer, s.rest).rest, s.rest, rest);
    }
  }
}
