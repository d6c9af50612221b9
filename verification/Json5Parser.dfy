/**
 The parser of scripts/vendor-json5.js as a transition system over the tokens a
 lexer hands it, and the whole reader as a function of the text.  A frame is a
 container still being filled; it joins its parent when it is closed.
 */
module Json5Parser {
  import opened Sequences
  import opened Wrappers
  import opened Json5Text
  import opened Json5Lexer

  /** lex(), as the parser sees it: the next token under a parser state, and the
      text left after it. */
  type LexFunction = (ParseState, string) -> Lexed

  /** What the parser relies on: the token is one it has a branch for, and a token
      other than the end of input costs at least one character. */
  ghost predicate Sound(lex: LexFunction)
  {
    forall ps, rest :: Promised(ps, false, rest, lex(ps, rest))
  }

  /** lex is the lexer of the source, under the given tables. */
  ghost predicate IsLexer(lex: LexFunction, u: Tables)
  {
    forall ps, rest {:trigger Lex(u, ps, rest)} :: lex(ps, rest) == Lex(u, ps, rest)
  }

  lemma LexerPromises(lex: LexFunction, u: Tables, ps: ParseState, rest: string)
    requires IsLexer(lex, u)
    ensures Promised(ps, false, rest, lex(ps, rest))
  {
    LexPromises(u, ps, rest);
    assert Promised(ps, false, rest, Lex(u, ps, rest));
  }

  lemma LexerIsSound(lex: LexFunction, u: Tables)
    requires IsLexer(lex, u)
    ensures Sound(lex)
  {
    forall ps, rest ensures Promised(ps, false, rest, lex(ps, rest)) {
      LexerPromises(lex, u, ps, rest);
    }
  }

  datatype Frame =
    | ArrayFrame(items: seq<Value>)
    | ObjectFrame(members: map<string, Value>, key: string)

  /** parseState, stack (with the key the top object waits on) and the finished root. */
  datatype Parser = Parser(state: ParseState, stack: seq<Frame>, root: Option<Value>)

  const INITIAL: Parser := Parser(Start, [], None)

  predicate InObject(s: ParseState)
  {
    s.BeforePropertyName? || s.AfterPropertyName? || s.BeforePropertyValue? || s.AfterPropertyValue?
  }

  predicate InArray(s: ParseState)
  {
    s.BeforeArrayValue? || s.AfterArrayValue?
  }

  /** The parser state agrees with the top of the stack and with the root. */
  predicate Consistent(p: Parser)
  {
    && (p.state.Start? || p.state.End? <==> p.stack == [])
    && (p.state.End? <==> p.root.Some?)
    && (p.stack != [] ==>
          if Last(p.stack).ArrayFrame? then InArray(p.state) else InObject(p.state))
  }

  /** parent.push(value), or defineProperty(parent, key, value). */
  function Add(f: Frame, v: Value): Frame
  {
    match f
    case ArrayFrame(items) => ArrayFrame(items + [v])
    case ObjectFrame(members, key) => ObjectFrame(members[key := v], key)
  }

  function Content(f: Frame): Value
  {
    match f
    case ArrayFrame(items) => Arr(items)
    case ObjectFrame(members, _) => Obj(members)
  }

  /** A value is complete: it joins the innermost container, or is the document. */
  function Complete(stack: seq<Frame>, v: Value): (p: Parser)
    ensures Consistent(p)
  {
    if stack == [] then Parser(End, [], Some(v))
    else
      Parser(if Last(stack).ArrayFrame? then AfterArrayValue else AfterPropertyValue,
             Front(stack) + [Add(Last(stack), v)], None)
  }

  function TokenValue(t: Token): Value
    requires IsScalarToken(t)
  {
    match t
    case NullToken => Null
    case BooleanToken(b) => Bool(b)
    case NumericToken(n) => Num(n)
    case StringToken(s) => Str(s)
  }

  /** push() */
  function Push(p: Parser, t: Token): (p': Parser)
    requires Consistent(p) && OpensValue(t)
    ensures Consistent(p')
  {
    if t == Punctuator('{') then
      Parser(BeforePropertyName, p.stack + [ObjectFrame(map[], "")], None)
    else if t == Punctuator('[') then
      Parser(BeforeArrayValue, p.stack + [ArrayFrame([])], None)
    else
      Complete(p.stack, TokenValue(t))
  }

  /** pop() */
  function Pop(p: Parser): (p': Parser)
    requires Consistent(p) && p.stack != []
    ensures Consistent(p')
  {
    Complete(Front(p.stack), Content(Last(p.stack)))
  }

  /** key = token.value */
  function SetKey(p: Parser, key: string): (p': Parser)
    requires Consistent(p) && InObject(p.state)
    ensures Consistent(p')
  {
    Parser(AfterPropertyName, Front(p.stack) + [Last(p.stack).(key := key)], None)
  }

  /** parseStates[parseState](), for every token but the end of input.  There is no
      branch for any other token: the lexer never hands one over. */
  function Advance(p: Parser, t: Token): (p': Parser)
    requires Consistent(p) && TokenFits(p.state, t) && !t.Eof?
    ensures Consistent(p') && !p'.state.Start?
  {
    match p.state
    case Start => Push(p, t)
    case BeforePropertyName =>
      if t.IdentifierToken? || t.StringToken? then SetKey(p, t.s) else Pop(p)
    case AfterPropertyName => p.(state := BeforePropertyValue)
    case BeforePropertyValue => Push(p, t)
    case BeforeArrayValue => if t == Punctuator(']') then Pop(p) else Push(p, t)
    case AfterPropertyValue => if t == Punctuator(',') then p.(state := BeforePropertyName) else Pop(p)
    case AfterArrayValue => if t == Punctuator(',') then p.(state := BeforeArrayValue) else Pop(p)
  }

  /** Accepted: parse returns the value.  Rejected: it throws with that much text unread. */
  datatype Outcome = Accepted(value: Value) | Rejected(rest: string)

  /** The do-while loop of parse.  Every token but the last shortens the text. */
  function ParseFrom(lex: LexFunction, p: Parser, rest: string): Outcome
    requires Sound(lex) && Consistent(p)
    decreases |rest|
  {
    match lex(p.state, rest)
    case LexError(rest') => Rejected(rest')
    case Lexed(t, rest') =>
      if !t.Eof? then ParseFrom(lex, Advance(p, t), rest')
      else if p.state.End? then Accepted(p.root.value)
      else Rejected(rest')
  }

  /** parse(text), for a given lexer. */
  function Parse(lex: LexFunction, text: string): Outcome
    requires Sound(lex)
  {
    ParseFrom(lex, INITIAL, text)
  }

  // ----- the reader as a pair of functions ---------------------------------------

  /** lex and the loop of parse.  Proofs about whole texts use them through the
      lemmas below only. */
  datatype Reader = Reader(lex: LexFunction, parse: (Parser, string) -> Outcome)

  ghost predicate IsReader(rd: Reader, u: Tables)
  {
    && IsLexer(rd.lex, u)
    && Sound(rd.lex)
    && forall p, rest {:trigger ParseFrom(rd.lex, p, rest)} ::
         Consistent(p) ==> rd.parse(p, rest) == ParseFrom(rd.lex, p, rest)
  }

  /** The reader of the source. */
  function TheReader(u: Tables, lex: LexFunction): (rd: Reader)
    requires IsLexer(lex, u)
    ensures rd.lex == lex && IsReader(rd, u)
  {
    LexerIsSound(lex, u);
    Reader(lex, (p, rest) => if Consistent(p) then ParseFrom(lex, p, rest) else Rejected(rest))
  }

  lemma LexRemains(lex: LexFunction, u: Tables, ps: ParseState, rest: string)
    requires IsLexer(lex, u)
    ensures Remains(lex(ps, rest).rest, rest)
  {
    assert lex(ps, rest) == Lex(u, ps, rest);
    RunRemains(u, ps, FRESH, rest);
  }

  /** One token forward. */
  lemma ParseOne(rd: Reader, u: Tables, p: Parser, rest: string, t: Token, after: string)
    requires IsReader(rd, u) && Consistent(p) && rd.lex(p.state, rest) == Lexed(t, after) && !t.Eof?
    ensures TokenFits(p.state, t) && |after| < |rest|
    ensures rd.parse(p, rest) == rd.parse(Advance(p, t), after)
  {
    assert rd.parse(p, rest) == ParseFrom(rd.lex, p, rest);
    assert rd.parse(Advance(p, t), after) == ParseFrom(rd.lex, Advance(p, t), after);
  }

  lemma SameLexSameParse(rd: Reader, u: Tables, p: Parser, a: string, b: string)
    requires IsReader(rd, u) && Consistent(p) && rd.lex(p.state, a) == rd.lex(p.state, b)
    ensures rd.parse(p, a) == rd.parse(p, b)
  {
    assert rd.parse(p, a) == ParseFrom(rd.lex, p, a);
    assert rd.parse(p, b) == ParseFrom(rd.lex, p, b);
  }

  // ----- every reachable state --------------------------------------------------

  /** q can be reached from p by reading the text up to rest'. */
  ghost predicate Reaches(lex: LexFunction, p: Parser, rest: string, q: Parser, rest': string)
    requires Sound(lex) && Consistent(p)
    decreases |rest|
  {
    || (q == p && rest' == rest)
    || match lex(p.state, rest)
       case Lexed(t, after) => !t.Eof? && Reaches(lex, Advance(p, t), after, q, rest')
       case LexError(_) => false
  }

  lemma ReachesOne(lex: LexFunction, p: Parser, rest: string, q: Parser, rest': string)
    returns (t: Token, after: string)
    requires Sound(lex) && Consistent(p) && Reaches(lex, p, rest, q, rest') && !(q == p && rest' == rest)
    ensures lex(p.state, rest) == Lexed(t, after) && !t.Eof?
    ensures TokenFits(p.state, t) && |after| < |rest|
    ensures Reaches(lex, Advance(p, t), after, q, rest')
  {
    t, after := lex(p.state, rest).token, lex(p.state, rest).rest;
  }

  /** In every state reached, the parser state agrees with the stack and the root. */
  lemma {:induction false} ReachedIsConsistent(lex: LexFunction, p: Parser, rest: string, q: Parser, rest': string)
    requires Sound(lex) && Consistent(p) && Reaches(lex, p, rest, q, rest')
    ensures Consistent(q)
    decreases |rest|
  {
    if q != p || rest' != rest {
      var t, after := ReachesOne(lex, p, rest, q, rest');
      ReachedIsConsistent(lex, Advance(p, t), after, q, rest');
    }
  }

  /** A value comes back exactly when some reachable state is End with an empty
      stack, that value as its root and nothing but the end of input to read. */
  lemma AcceptsAtEndOnly(lex: LexFunction, p: Parser, rest: string, v: Value)
    requires Sound(lex) && Consistent(p)
    ensures ParseFrom(lex, p, rest) == Accepted(v) <==>
            exists q, rest' :: Reaches(lex, p, rest, q, rest') && Finished(lex, q, rest', v)
  {
    if ParseFrom(lex, p, rest) == Accepted(v) {
      var q, rest' := AcceptedReachesEnd(lex, p, rest, v);
    }
    forall q, rest' | Reaches(lex, p, rest, q, rest') && Finished(lex, q, rest', v)
      ensures ParseFrom(lex, p, rest) == Accepted(v)
    {
      EndIsAccepted(lex, p, rest, q, rest', v);
    }
  }

  ghost predicate Finished(lex: LexFunction, q: Parser, rest: string, v: Value)
  {
    q == Parser(End, [], Some(v)) && lex(q.state, rest) == Lexed(Eof, "")
  }

  lemma {:induction false} AcceptedReachesEnd(lex: LexFunction, p: Parser, rest: string, v: Value)
    returns (q: Parser, rest': string)
    requires Sound(lex) && Consistent(p) && ParseFrom(lex, p, rest) == Accepted(v)
    ensures Reaches(lex, p, rest, q, rest') && Finished(lex, q, rest', v)
    decreases |rest|
  {
    var Lexed(t, after) := lex(p.state, rest);
    if t.Eof? {
      q, rest' := p, rest;
    } else {
      q, rest' := AcceptedReachesEnd(lex, Advance(p, t), after, v);
    }
  }

  lemma {:induction false} EndIsAccepted(lex: LexFunction, p: Parser, rest: string, q: Parser, rest': string, v: Value)
    requires Sound(lex) && Consistent(p) && Reaches(lex, p, rest, q, rest') && Finished(lex, q, rest', v)
    ensures ParseFrom(lex, p, rest) == Accepted(v)
    decreases |rest|
  {
    if q != p || rest' != rest {
      var t, after := ReachesOne(lex, p, rest, q, rest');
      EndIsAccepted(lex, Advance(p, t), after, q, rest', v);
    }
  }
}
