/**
 The reader of scripts/vendor-json5.js as the source runs it: module variables
 that lex, push and pop update step by step, and containers on the heap that are
 filled while they already hang in their parent.
 */
module Json5Reader {
  import opened Sequences
  import opened Wrappers
  import opened Json5Text
  import opened Json5Lexer
  import opened Json5Parser

  datatype JsValue = Scalar(v: Value) | Ref(c: Container)

  /** An object or array of the document.  `meaning` is the value it stands for,
      from the moment it is closed. */
  class Container {
    const isArray: bool
    var items: seq<JsValue>
    var members: map<string, JsValue>
    ghost var meaning: Value

    constructor (isArray: bool)
      ensures this.isArray == isArray && items == [] && members == map[]
    {
      this.isArray := isArray;
      items := [];
      members := map[];
      meaning := Null;
    }
  }

  /** v stands for m: a scalar by itself, a reference through a closed container. */
  ghost predicate Denotes(closed: set<Container>, v: JsValue, m: Value)
    reads closed
  {
    match v
    case Scalar(x) => x == m
    case Ref(c) => c in closed && c.meaning == m
  }

  ghost predicate ItemsDenote(closed: set<Container>, items: seq<JsValue>, ms: seq<Value>)
    reads closed
  {
    |items| == |ms| && forall i :: 0 <= i < |items| ==> Denotes(closed, items[i], ms[i])
  }

  ghost predicate MembersDenote(closed: set<Container>, members: map<string, JsValue>, ms: map<string, Value>)
    reads closed
  {
    members.Keys == ms.Keys && forall k :: k in members ==> Denotes(closed, members[k], ms[k])
  }

  /** A closed container holds what its meaning says, all of it closed in turn. */
  ghost predicate Whole(closed: set<Container>, c: Container)
    reads closed, c
  {
    match c.meaning
    case Arr(ms) => c.isArray && ItemsDenote(closed, c.items, ms)
    case Obj(ms) => !c.isArray && MembersDenote(closed, c.members, ms)
    case _ => false
  }

  /** An open container holds the finished part f and, unless it is the innermost,
      a reference to the container opened inside it. */
  ghost predicate Holds(closed: set<Container>, c: Container, f: Frame, child: Option<Container>)
    reads closed, c
  {
    match f
    case ArrayFrame(ms) =>
      && c.isArray
      && match child {
           case None => ItemsDenote(closed, c.items, ms)
           case Some(d) => c.items != [] && Last(c.items) == Ref(d) && ItemsDenote(closed, Front(c.items), ms)
         }
    case ObjectFrame(ms, key) =>
      && !c.isArray
      && match child {
           case None => MembersDenote(closed, c.members, ms)
           case Some(d) =>
             && key in c.members && c.members[key] == Ref(d)
             && MembersDenote(closed, c.members - {key}, ms - {key})
         }
  }

  ghost predicate AllWhole(closed: set<Container>)
    reads closed
  {
    forall c :: c in closed ==> Whole(closed, c)
  }

  /** The open containers are distinct, and none is closed. */
  ghost predicate Separate(closed: set<Container>, stack: seq<Container>)
  {
    && (forall i, j :: 0 <= i < j < |stack| ==> stack[i] != stack[j])
    && (forall i :: 0 <= i < |stack| ==> stack[i] !in closed)
  }

  /** Every open container but the innermost holds the next one. */
  ghost predicate Outer(closed: set<Container>, stack: seq<Container>, frames: seq<Frame>)
    requires |stack| == |frames|
    reads closed, stack
  {
    forall i :: 0 <= i < |stack| - 1 ==> Holds(closed, stack[i], frames[i], Some(stack[i + 1]))
  }

  lemma PopOuter(closed: set<Container>, stack: seq<Container>, p: Parser)
    requires Consistent(p) && p.stack != [] && |stack| == |p.stack|
    requires Outer(closed, Front(stack), Front(p.stack))
    ensures |Front(stack)| == |Json5Parser.Pop(p).stack| && Outer(closed, Front(stack), Json5Parser.Pop(p).stack)
  {
    var a, b := Front(p.stack), Json5Parser.Pop(p).stack;
    forall i | 0 <= i < |a| - 1 ensures a[i] == b[i] {
      assert a != [] && b == Front(a) + [Last(b)];
    }
  }

  /** Frames that differ in the innermost only. */
  lemma OuterSame(closed: set<Container>, stack: seq<Container>, frames: seq<Frame>, frames': seq<Frame>)
    requires |stack| == |frames| == |frames'| && Outer(closed, stack, frames)
    requires stack != [] ==> Front(frames') == Front(frames)
    ensures Outer(closed, stack, frames')
  {
    forall i | 0 <= i < |stack| - 1 ensures frames'[i] == frames[i] {
      assert Front(frames')[i] == Front(frames)[i];
    }
  }

  /** What remains of the end of a text. */
  lemma RemainsAt(text: string, pos: nat, rest: string)
    requires pos <= |text| && Remains(rest, text[pos..])
    ensures pos <= |text| - |rest| && rest == text[|text| - |rest|..]
  {
  }

  lemma PopSeparate(closed: set<Container>, stack: seq<Container>)
    requires stack != [] && Separate(closed, stack)
    ensures Separate(closed + {Last(stack)}, Front(stack))
  {
  }

  // ----- closing one more container --------------------------------------------------

  lemma DenotesMore(closed: set<Container>, more: set<Container>, c: Container, f: Frame, child: Option<Container>)
    requires closed <= more && Holds(closed, c, f, child)
    ensures Holds(more, c, f, child)
  {
  }

  lemma WholeMore(closed: set<Container>, c: Container)
    requires AllWhole(closed) && Whole(closed, c)
    ensures AllWhole(closed + {c})
  {
    forall d | d in closed + {c} ensures Whole(closed + {c}, d) {
      assert Whole(closed, d);
    }
  }

  lemma OuterMore(closed: set<Container>, c: Container, stack: seq<Container>, frames: seq<Frame>)
    requires |stack| == |frames| && Outer(closed, stack, frames)
    ensures Outer(closed + {c}, stack, frames)
  {
    forall i | 0 <= i < |stack| - 1 ensures Holds(closed + {c}, stack[i], frames[i], Some(stack[i + 1])) {
      DenotesMore(closed, closed + {c}, stack[i], frames[i], Some(stack[i + 1]));
    }
  }

  lemma OuterExtended(closed: set<Container>, stack: seq<Container>, frames: seq<Frame>, c: Container, f: Frame)
    requires |stack| == |frames| && Outer(closed, stack, frames)
    requires stack != [] ==> Holds(closed, Last(stack), Last(frames), Some(c))
    ensures Outer(closed, stack + [c], frames + [f])
  {
  }

  /** A full container is whole. */
  lemma FullIsWhole(closed: set<Container>, c: Container, f: Frame)
    requires Holds(closed, c, f, None) && c.meaning == Content(f)
    ensures Whole(closed, c)
  {
  }

  /** Once the container inside is closed, its meaning has joined the one around it. */
  lemma Settle(closed: set<Container>, d: Container, f: Frame, c: Container)
    requires Holds(closed, d, f, Some(c)) && c in closed
    ensures Holds(closed, d, Add(f, c.meaning), None)
  {
    match f
    case ArrayFrame(ms) =>
      assert d.items == Front(d.items) + [Last(d.items)];
    case ObjectFrame(ms, key) =>
      var rest, ms' := d.members - {key}, ms[key := c.meaning];
      assert rest.Keys == (ms - {key}).Keys;
      assert d.members.Keys == rest.Keys + {key} == ms'.Keys;
      forall k | k in d.members ensures Denotes(closed, d.members[k], ms'[k]) {
        assert k != key ==> k in rest && Denotes(closed, rest[k], (ms - {key})[k]);
      }
  }

  /** The innermost container joins the closed ones. */
  lemma OneMoreClosed(closed: set<Container>, stack: seq<Container>, frames: seq<Frame>)
    requires |stack| == |frames| > 0 && AllWhole(closed) && Separate(closed, stack) && Outer(closed, stack, frames)
    requires Holds(closed, Last(stack), Last(frames), None) && Last(stack).meaning == Content(Last(frames))
    ensures var c := Last(stack);
            && AllWhole(closed + {c}) && Separate(closed + {c}, Front(stack))
            && Outer(closed + {c}, Front(stack), Front(frames))
            && (|stack| > 1 ==>
                  Holds(closed + {c}, stack[|stack| - 2], Add(frames[|stack| - 2], c.meaning), None))
  {
    var c := Last(stack);
    FullIsWhole(closed, c, Last(frames));
    WholeMore(closed, c);
    OuterMore(closed, c, stack, frames);
    PopSeparate(closed, stack);
    if |stack| > 1 {
      Settle(closed + {c}, stack[|stack| - 2], frames[|stack| - 2], c);
    }
  }

  function Newlines(text: string): nat
  {
    if text == "" then 0 else Newlines(Front(text)) + (if Last(text) == '\n' then 1 else 0)
  }

  datatype ReadResult = Parsed(root: JsValue) | SyntaxError(lineNumber: nat)

  class Json5Reader {
    const tables: Tables
    var source: string
    var parseState: ParseState
    var stack: seq<Container>
    var pos: nat
    var line: nat
    var token: Token
    var key: string
    var root: Option<JsValue>
    var lexer: Lexer

    ghost var parser: Parser
    ghost var closed: set<Container>

    constructor (tables: Tables)
      ensures this.tables == tables
    {
      this.tables := tables;
      source, pos, line, key := "", 0, 1, "";
      parseState, stack, token, root, lexer := Start, [], Eof, None, FRESH;
      parser, closed := INITIAL, {};
    }

    /** Where the reader is in the text, and on which line. */
    ghost predicate AtLine()
      reads this
    {
      pos <= |source| && line == 1 + Newlines(source[..pos])
    }

    /** The heap and the module variables represent the parser. */
    ghost predicate Valid()
      reads this, closed, stack
    {
      && Consistent(parser) && parseState == parser.state
      && |stack| == |parser.stack|
      && Separate(closed, stack)
      && Outer(closed, stack, parser.stack)
      && (stack != [] ==> Holds(closed, Last(stack), Last(parser.stack), None))
      && AllWhole(closed)
      && (parseState.Start? <==> root.None?)
      && (stack != [] ==> root == Some(Ref(stack[0])))
      && (parseState.End? ==> Denotes(closed, root.value, parser.root.value))
      && (parseState.AfterPropertyName? || parseState.BeforePropertyValue? ==> key == Last(parser.stack).key)
    }

    /** read() */
    method Read()
      requires AtLine()
      modifies this`pos, this`line
      ensures AtLine() && pos == if old(pos) < |source| then old(pos) + 1 else old(pos)
    {
      if pos < |source| {
        if source[pos] == '\n' {
          line := line + 1;
        }
        pos := pos + 1;
        assert Front(source[..pos]) == source[..pos - 1];
      }
    }

    method ReadTo(end: nat)
      requires AtLine() && pos <= end <= |source|
      modifies this`pos, this`line
      ensures AtLine() && pos == end
    {
      while pos < end
        invariant AtLine() && pos <= end
      {
        Read();
      }
    }

    /** lexStates[lexState](): one turn, told only by what it means for the loop. */
    static method TakeTurn(u: Tables, ps: ParseState, l: Lexer, rest: string, ghost run: RunFunction)
      returns (t: Turn)
      requires IsRun(run, u, ps)
      ensures Remains(t.rest, rest)
      ensures t.More? ==> run(t.lexer, t.rest) == run(l, rest)
      ensures t.More? ==> |t.rest| < |rest| || (t.rest == rest && l.state.Default? && !t.lexer.state.Default?)
      ensures t.Emit? ==> run(l, rest) == Lexed(t.token, t.rest)
      ensures t.Bad? ==> run(l, rest) == LexError(t.rest)
    {
      t := Step(u, ps, l, rest);
      StepRemains(u, ps, l, rest);
      assert run(l, rest) == Run(u, ps, l, rest);
      if t.More? {
        assert run(t.lexer, t.rest) == Run(u, ps, t.lexer, t.rest);
      }
    }

    /** One turn and the reading it does. */
    method ReadTurn(ghost run: RunFunction) returns (t: Turn)
      requires AtLine() && IsRun(run, tables, parseState)
      modifies this`pos, this`line
      ensures AtLine() && old(pos) <= pos && t.rest == source[pos..]
      ensures t.More? ==> run(t.lexer, t.rest) == run(lexer, source[old(pos)..])
      ensures t.More? ==> old(pos) < pos || (lexer.state.Default? && !t.lexer.state.Default?)
      ensures t.Emit? ==> run(lexer, source[old(pos)..]) == Lexed(t.token, t.rest)
      ensures t.Bad? ==> run(lexer, source[old(pos)..]) == LexError(t.rest)
    {
      t := TakeTurn(tables, parseState, lexer, source[pos..], run);
      RemainsAt(source, pos, t.rest);
      ReadTo(|source| - |t.rest|);
    }

    /** lex() */
    method Lex(ghost run: RunFunction) returns (failed: bool)
      requires AtLine() && IsRun(run, tables, parseState)
      modifies this`pos, this`line, this`lexer, this`token
      ensures AtLine() && old(pos) <= pos
      ensures run(FRESH, source[old(pos)..]) ==
              if failed then LexError(source[pos..]) else Lexed(token, source[pos..])
    {
      lexer := FRESH;
      ghost var start := source[pos..];
      while true
        invariant AtLine() && old(pos) <= pos
        invariant run(lexer, source[pos..]) == run(FRESH, start)
        decreases |source| - pos, if lexer.state.Default? then 1 else 0
      {
        var t := ReadTurn(run);
        match t {
          case More(l, _) => lexer := l;
          case Emit(tok, _) => token := tok; return false;
          case Bad(_) => return true;
        }
      }
    }

    /** The end of push and pop: the state that the innermost container asks for. */
    method Resume()
      requires |stack| == |parser.stack|
      requires stack != [] ==> (Last(stack).isArray <==> Last(parser.stack).ArrayFrame?)
      modifies this`parseState
      ensures parseState ==
              if stack == [] then End
              else if Last(parser.stack).ArrayFrame? then AfterArrayValue else AfterPropertyValue
    {
      if |stack| == 0 {
        parseState := End;
      } else if stack[|stack| - 1].isArray {
        parseState := AfterArrayValue;
      } else {
        parseState := AfterPropertyValue;
      }
    }

    /** parent.push(value), defineProperty(parent, key, value), or root = value. */
    method Attach(value: JsValue)
      requires Valid() && ExpectsValue(parseState)
      modifies this`root, Innermost()
      ensures root == if stack == [] then Some(value) else old(root)
      ensures AllWhole(closed) && Outer(closed, stack, parser.stack)
      ensures stack != [] ==>
                match value
                case Scalar(v) => Holds(closed, Last(stack), Add(Last(parser.stack), v), None)
                case Ref(c) => Holds(closed, Last(stack), Last(parser.stack), Some(c))
    {
      if root.None? {
        root := Some(value);
      } else {
        var parent := stack[|stack| - 1];
        if parent.isArray {
          parent.items := parent.items + [value];
          assert Front(parent.items) == old(parent.items);
        } else {
          parent.members := parent.members[key := value];
          assert parent.members - {key} == old(parent.members) - {key};
        }
      }
    }

    ghost function Innermost(): set<Container>
      reads this
    {
      if stack == [] then {} else {Last(stack)}
    }

    /** push(), for a scalar. */
    method PushScalar(t: Token)
      requires Valid() && ExpectsValue(parseState) && IsScalarToken(t)
      modifies this`root, this`parseState, this`parser, Innermost()
      ensures Valid() && parser == Push(old(parser), t)
    {
      ghost var frames := parser.stack;
      Attach(Scalar(TokenValue(t)));
      parser := Push(parser, t);
      Resume();
      assert stack != [] ==> Front(parser.stack) == Front(frames);
      OuterSame(closed, stack, frames, parser.stack);
    }

    /** push(), for a bracket: the new container is filled where it hangs. */
    method PushContainer(isArray: bool)
      requires Valid() && ExpectsValue(parseState)
      modifies this`root, this`parseState, this`parser, this`stack, Innermost()
      ensures Valid() && parser == Push(old(parser), Punctuator(if isArray then '[' else '{'))
      ensures stack != [] && fresh(Last(stack)) && Front(stack) == old(stack)
    {
      var c := new Container(isArray);
      Attach(Ref(c));
      Descend(c);
    }

    /** stack.push(value), and the state inside the new container. */
    method Descend(c: Container)
      requires Consistent(parser) && ExpectsValue(parser.state) && parseState == parser.state
      requires |stack| == |parser.stack| && Separate(closed, stack) && c !in closed && c !in stack
      requires c.items == [] && c.members == map[]
      requires AllWhole(closed) && Outer(closed, stack, parser.stack)
      requires stack != [] ==> Holds(closed, Last(stack), Last(parser.stack), Some(c))
      requires root == Some(Ref(if stack == [] then c else stack[0]))
      modifies this`stack, this`parseState, this`parser
      ensures Valid() && parser == Push(old(parser), Punctuator(if c.isArray then '[' else '{'))
      ensures stack == old(stack) + [c]
    {
      ghost var frame := if c.isArray then ArrayFrame([]) else ObjectFrame(map[], "");
      OuterExtended(closed, stack, parser.stack, c, frame);
      parser := Push(parser, Punctuator(if c.isArray then '[' else '{'));
      stack := stack + [c];
      parseState := if c.isArray then BeforeArrayValue else BeforePropertyName;
    }

    /** pop() */
    method Pop()
      requires Valid() && stack != []
      modifies this`parseState, this`parser, this`stack, this`closed, Innermost()
      ensures Valid() && parser == Json5Parser.Pop(old(parser))
      ensures stack == Front(old(stack)) && closed == old(closed) + {Last(old(stack))}
    {
      Close();
      PopOuter(closed, stack, parser);
      Drop();
    }

    /** stack.pop() and the state after it, once the innermost container is whole. */
    method Drop()
      requires Consistent(parser) && parser.stack != [] && |stack| == |parser.stack|
      requires Separate(closed, Front(stack)) && AllWhole(closed) && root == Some(Ref(stack[0]))
      requires Last(stack) in closed && Last(stack).meaning == Content(Last(parser.stack))
      requires |Front(stack)| == |Json5Parser.Pop(parser).stack|
      requires Outer(closed, Front(stack), Json5Parser.Pop(parser).stack)
      requires |stack| > 1 ==> Holds(closed, stack[|stack| - 2], Last(Json5Parser.Pop(parser).stack), None)
      modifies this`parseState, this`parser, this`stack
      ensures Valid() && parser == Json5Parser.Pop(old(parser)) && stack == Front(old(stack))
    {
      parser := Json5Parser.Pop(parser);
      stack := stack[..|stack| - 1];
      Resume();
    }

    ghost method GiveMeaning()
      requires Valid() && stack != []
      modifies Innermost()
      ensures Last(stack).meaning == Content(Last(parser.stack)) && AllWhole(closed)
      ensures Outer(closed, stack, parser.stack) && Holds(closed, Last(stack), Last(parser.stack), None)
      ensures |stack| == |parser.stack| && Separate(closed, stack)
    {
      Last(stack).meaning := Content(Last(parser.stack));
    }

    /** The bookkeeping of pop: the innermost container gets its meaning. */
    ghost method Close()
      requires Valid() && stack != []
      modifies this`closed, Innermost()
      ensures var c := Last(stack);
              && closed == old(closed) + {c} && c.meaning == Content(Last(parser.stack))
              && AllWhole(closed) && Separate(closed, Front(stack))
              && Outer(closed, Front(stack), Front(parser.stack))
              && (|stack| > 1 ==>
                    Holds(closed, stack[|stack| - 2], Add(parser.stack[|stack| - 2], c.meaning), None))
    {
      GiveMeaning();
      OneMoreClosed(closed, stack, parser.stack);
      closed := closed + {Last(stack)};
    }

    /** push() */
    method PushToken()
      requires Valid() && ExpectsValue(parseState) && OpensValue(token)
      modifies this`root, this`parseState, this`parser, this`stack, Innermost()
      ensures Valid() && parser == Push(old(parser), token)
      ensures forall c :: c in stack && c !in old(stack) ==> fresh(c)
    {
      ghost var was := stack;
      if token == Punctuator('{') || token == Punctuator('[') {
        PushContainer(token == Punctuator('['));
        assert stack == was + [Last(stack)];
      } else {
        PushScalar(token);
      }
    }

    /** parseState = state, inside the same container. */
    method Await(state: ParseState)
      requires Valid() && !parseState.Start? && !parseState.End? && !state.Start? && !state.End?
      requires InArray(state) <==> InArray(parseState)
      requires state.BeforePropertyValue? ==> parseState.AfterPropertyName?
      requires !state.AfterPropertyName?
      modifies this`parseState, this`parser
      ensures Valid() && parser == old(parser).(state := state)
    {
      parser := parser.(state := state);
      parseState := state;
    }

    method NameProperty()
      requires Valid() && parseState.BeforePropertyName? && (token.IdentifierToken? || token.StringToken?)
      modifies this`parseState, this`parser, this`key
      ensures Valid() && parser == SetKey(old(parser), token.s)
    {
      ghost var frames := parser.stack;
      key := token.s;
      parser := SetKey(parser, token.s);
      parseState := AfterPropertyName;
      assert Front(parser.stack) == Front(frames);
    }

    /** parseStates[parseState](), for every token but the end of input. */
    method ParseToken()
      requires Valid() && TokenFits(parseState, token) && !token.Eof?
      modifies this`root, this`parseState, this`parser, this`stack, this`closed, this`key, Innermost()
      ensures Valid() && parser == Advance(old(parser), token)
      ensures forall c :: c in stack && c !in old(stack) ==> fresh(c)
      ensures forall c :: c in closed ==> c in old(closed) || c in old(stack)
    {
      match parseState {
        case Start => PushToken();
        case BeforePropertyName =>
          if token.IdentifierToken? || token.StringToken? { NameProperty(); } else { Pop(); }
        case AfterPropertyName => Await(BeforePropertyValue);
        case BeforePropertyValue => PushToken();
        case BeforeArrayValue =>
          if token == Punctuator(']') { Pop(); } else { PushToken(); }
        case AfterPropertyValue =>
          if token == Punctuator(',') { Await(BeforePropertyName); } else { Pop(); }
        case AfterArrayValue =>
          if token == Punctuator(',') { Await(BeforeArrayValue); } else { Pop(); }
      }
    }

    /** lex(), told by what the parser reads of it. */
    method NextToken(ghost rd: Reader) returns (failed: bool)
      requires AtLine() && IsReader(rd, tables)
      modifies this`pos, this`line, this`lexer, this`token
      ensures AtLine() && old(pos) <= pos
      ensures rd.lex(parseState, source[old(pos)..]) ==
              if failed then LexError(source[pos..]) else Lexed(token, source[pos..])
    {
      ghost var u, ps := tables, parseState;
      ghost var run: RunFunction := (l, rest) => Run(u, ps, l, rest);
      failed := Lex(run);
      LexIsRun(rd, run, u, ps, source[old(pos)..]);
    }

    /** The result of parse is right for the outcome the text has. */
    ghost predicate Answers(r: ReadResult, outcome: Outcome)
      reads this, closed
    {
      match outcome
      case Accepted(v) => r.Parsed? && Denotes(closed, r.root, v) && AllWhole(closed)
      case Rejected(rest) =>
        |rest| <= |source| && r == SyntaxError(1 + Newlines(source[..|source| - |rest|]))
    }

    /** The body of the do-while loop of parse. */
    method ReadToken(ghost rd: Reader) returns (r: Option<ReadResult>)
      requires Valid() && AtLine() && IsReader(rd, tables)
      modifies this`pos, this`line, this`lexer, this`token
      modifies this`root, this`parseState, this`parser, this`stack, this`closed, this`key, Innermost()
      ensures r.Some? ==> Answers(r.value, rd.parse(old(parser), old(source[pos..]))) && closed == old(closed)
      ensures r.None? ==>
                && Valid() && AtLine() && old(pos) < pos
                && rd.parse(parser, source[pos..]) == rd.parse(old(parser), old(source[pos..]))
      ensures forall c :: c in stack && c !in old(stack) ==> fresh(c)
      ensures forall c :: c in closed ==> c in old(closed) || c in old(stack)
    {
      var failed := NextToken(rd);
      ReadStep(rd, tables, parser, old(source[pos..]));
      if failed {
        return Some(SyntaxError(line));
      }
      if token.Eof? {
        return Some(if parseState.End? then Parsed(root.value) else SyntaxError(line));
      }
      ParseToken();
      return None;
    }

    method Reset(text: string)
      modifies this
      ensures Valid() && AtLine() && source == text && pos == 0
      ensures parser == INITIAL && stack == [] && closed == {}
    {
      source, parseState, stack, pos, line, key, root := text, Start, [], 0, 1, "", None;
      parser, closed := INITIAL, {};
    }

    /** parse(text): the value on the heap is the value of the text, or the error
        carries the line the reader had come to. */
    method Parse(text: string, ghost rd: Reader) returns (r: ReadResult)
      requires IsReader(rd, tables)
      modifies this
      ensures source == text && Answers(r, rd.parse(INITIAL, text))
      ensures forall c :: c in closed ==> fresh(c)
    {
      Reset(text);
      assert source[pos..] == text;
      while true
        invariant Valid() && AtLine() && source == text
        invariant rd.parse(parser, source[pos..]) == rd.parse(INITIAL, text)
        invariant forall c :: c in stack || c in closed ==> fresh(c)
        decreases |source| - pos
      {
        var done := ReadToken(rd);
        if done.Some? {
          return done.value;
        }
      }
    }
  }

  lemma LexIsRun(rd: Reader, run: RunFunction, u: Tables, ps: ParseState, rest: string)
    requires IsReader(rd, u) && IsRun(run, u, ps)
    ensures rd.lex(ps, rest) == run(FRESH, rest)
  {
    assert rd.lex(ps, rest) == Lex(u, ps, rest);
    assert run(FRESH, rest) == Run(u, ps, FRESH, rest);
  }

  /** What the next token means for the loop of parse. */
  lemma ReadStep(rd: Reader, u: Tables, p: Parser, rest: string)
    requires IsReader(rd, u) && Consistent(p)
    ensures match rd.lex(p.state, rest)
            case LexError(rest') => rd.parse(p, rest) == Rejected(rest')
            case Lexed(t, rest') =>
              if t.Eof? then
                rd.parse(p, rest) == if p.state.End? then Accepted(p.root.value) else Rejected(rest')
              else
                && TokenFits(p.state, t) && |rest'| < |rest|
                && rd.parse(p, rest) == rd.parse(Advance(p, t), rest')
  {
    assert rd.parse(p, rest) == ParseFrom(rd.lex, p, rest);
    match rd.lex(p.state, rest)
    case LexError(_) =>
    case Lexed(t, rest') =>
      if !t.Eof? {
        ParseOne(rd, u, p, rest, t, rest');
      }
  }

  // ----- the line an error reports --------------------------------------------------

  /** raw.split('\n') */
  function SplitLines(text: string): (lines: seq<string>)
    ensures |lines| == 1 + Newlines(text)
  {
    if text == "" then [""]
    else
      var lines := SplitLines(Front(text));
      if Last(text) == '\n' then lines + [""] else Front(lines) + [Last(lines) + [Last(text)]]
  }

  lemma {:induction false} NewlinesOfPrefix(text: string, n: nat)
    requires n <= |text|
    ensures Newlines(text[..n]) <= Newlines(text)
  {
    if n == |text| {
      assert text[..n] == text;
    } else {
      NewlinesOfPrefix(Front(text), n);
      assert text[..n] == Front(text)[..n];
    }
  }

  function Max(a: int, b: int): int { if a < b then b else a }

  function Min(a: int, b: int): int { if a < b then a else b }

  lemma RemainsAgain(a: string, b: string, c: string)
    requires Remains(b, a) && Remains(c, b)
    ensures Remains(c, a)
  {
  }

  /** A text is rejected at one of its own ends. */
  lemma {:induction false} RejectedWithin(rd: Reader, u: Tables, p: Parser, text: string, rest: string)
    requires IsReader(rd, u) && Consistent(p) && rd.parse(p, text) == Rejected(rest)
    ensures Remains(rest, text)
    decreases |text|
  {
    ReadStep(rd, u, p, text);
    var t := rd.lex(p.state, text);
    LexRemains(rd.lex, u, p.state, text);
    if t.Lexed? && !t.token.Eof? {
      RejectedWithin(rd, u, Advance(p, t.token), t.rest, rest);
      RemainsAgain(text, t.rest, rest);
    }
  }

  /** readJsonc: the line reported for a text that is rejected is one of the lines of the
      file, the window of lines it prints lies within the file, and the marked line is in
      the window. */
  lemma ReportedLineExists(rd: Reader, u: Tables, text: string, rest: string)
    requires IsReader(rd, u) && rd.parse(INITIAL, text) == Rejected(rest)
    ensures Remains(rest, text)
    ensures var lineNo, count := 1 + Newlines(text[..|text| - |rest|]), |SplitLines(text)|;
            var start, end := Max(1, lineNo - 3), Min(count, lineNo + 3);
            1 <= start <= lineNo <= end <= count
  {
    RejectedWithin(rd, u, INITIAL, text, rest);
    NewlinesOfPrefix(text, |text| - |rest|);
  }
}
