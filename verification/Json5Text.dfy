/**
 Characters, tokens and values of the JSON5 reader and writer
 (scripts/vendor-json5.js).  Text is a sequence of Unicode scalar values.
 */
module Json5Text {

  /** The two identifier tables of the Unicode standard that the source embeds. */
  datatype Tables = Tables(idStart: set<char>, idContinue: set<char>)

  /** What is true of those tables and used here: they start above ASCII, hold no
      white space, and a character that may start an identifier may continue one. */
  ghost predicate SoundTables(u: Tables)
  {
    && u.idStart <= u.idContinue
    && forall c :: c in u.idContinue ==> '\U{AA}' <= c && !IsWhite(c)
  }

  const BACKSPACE: char := '\U{08}'
  const VERTICAL_TAB: char := '\U{0B}'
  const FORM_FEED: char := '\U{0C}'
  const LINE_SEPARATOR: char := '\U{2028}'
  const PARAGRAPH_SEPARATOR: char := '\U{2029}'
  const REPLACEMENT: char := '\U{FFFD}'

  predicate IsSpaceSeparator(c: char)
  {
    c == '\U{1680}' || '\U{2000}' <= c <= '\U{200A}' || c == '\U{202F}' || c == '\U{205F}' || c == '\U{3000}'
  }

  predicate IsLineTerminator(c: char)
  {
    c == '\n' || c == '\r' || c == LINE_SEPARATOR || c == PARAGRAPH_SEPARATOR
  }

  /** What the lexer skips between tokens. */
  predicate IsWhite(c: char)
  {
    || c == '\t' || c == VERTICAL_TAB || c == FORM_FEED || c == ' '
    || c == '\U{A0}' || c == '\U{FEFF}' || IsLineTerminator(c) || IsSpaceSeparator(c)
  }

  predicate IsIdStart(u: Tables, c: char)
  {
    'a' <= c <= 'z' || 'A' <= c <= 'Z' || c == '$' || c == '_' || c in u.idStart
  }

  predicate IsIdContinue(u: Tables, c: char)
  {
    || 'a' <= c <= 'z' || 'A' <= c <= 'Z' || '0' <= c <= '9' || c == '$' || c == '_'
    || c == '\U{200C}' || c == '\U{200D}' || c in u.idContinue
  }

  predicate IsDigit(c: char) { '0' <= c <= '9' }

  predicate IsHexDigit(c: char) { '0' <= c <= '9' || 'a' <= c <= 'f' || 'A' <= c <= 'F' }

  function HexValue(c: char): (n: nat)
    requires IsHexDigit(c)
    ensures n < 16
  {
    if c <= '9' then c as int - '0' as int
    else if c <= 'F' then c as int - 'A' as int + 10
    else c as int - 'a' as int + 10
  }

  /** How many UTF-16 units the character takes in the source's strings. */
  function Width(c: char): nat { if c as int < 0x1_0000 then 1 else 2 }

  predicate AllDigits(text: string)
  {
    forall i :: 0 <= i < |text| ==> IsDigit(text[i])
  }

  predicate AllHex(text: string)
  {
    forall i :: 0 <= i < |text| ==> IsHexDigit(text[i])
  }

  /** parseInt(text, radix), for text that holds digits of that radix only. */
  function PositionalValue(text: string, radix: nat): nat
    requires AllHex(text)
  {
    if text == "" then 0
    else PositionalValue(text[..|text| - 1], radix) * radix + HexValue(text[|text| - 1])
  }

  // ----- values ----------------------------------------------------------

  const MAX_SAFE_INTEGER: nat := 9007199254740991

  /** A JavaScript number: integers a double holds exactly, the non-finite
      values, and everything else kept as the text handed to Number(). */
  datatype Number =
    | Int(i: int)
    | Inexact(negative: bool, text: string)
    | Infinite(negative: bool)
    | NaN

  /** What reading a document yields: objects are key-unique maps. */
  datatype Value =
    | Null
    | Bool(b: bool)
    | Num(n: Number)
    | Str(s: string)
    | Arr(items: seq<Value>)
    | Obj(members: map<string, Value>)

  /** sign * Number(buffer) for the buffers the numeric lexer states build. */
  function ToNumber(negative: bool, buffer: string): Number
  {
    if buffer != "" && AllDigits(buffer) then
      Exact(negative, PositionalValue(buffer, 10), buffer)
    else if |buffer| > 2 && (buffer[1] == 'x' || buffer[1] == 'X') && AllHex(buffer[2..]) then
      Exact(negative, PositionalValue(buffer[2..], 16), buffer)
    else
      Inexact(negative, buffer)
  }

  function Exact(negative: bool, magnitude: int, buffer: string): Number
  {
    if magnitude > MAX_SAFE_INTEGER then Inexact(negative, buffer)
    else Int(if negative then -magnitude else magnitude)
  }

  // ----- tokens ----------------------------------------------------------

  datatype Token =
    | Punctuator(c: char)
    | NullToken
    | BooleanToken(b: bool)
    | NumericToken(n: Number)
    | StringToken(s: string)
    | IdentifierToken(s: string)
    | Eof

  /** The parser states; the lexer consults them too. */
  datatype ParseState =
    | Start
    | BeforePropertyName
    | AfterPropertyName
    | BeforePropertyValue
    | BeforeArrayValue
    | AfterPropertyValue
    | AfterArrayValue
    | End

  /** b is what is left of a after reading some of it. */
  predicate Remains(b: string, a: string)
  {
    |b| <= |a| && b == a[|a| - |b|..]
  }
}
