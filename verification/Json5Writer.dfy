/**
 The writer of scripts/vendor-json5.js: what `stringify` makes of a finite tree.
 */
module Json5Writer {
  import opened Json5Text

  /** What is written.  An object lists its members in the order of Object.keys. */
  datatype Tree =
    | TNull
    | TBool(b: bool)
    | TNum(n: Number)
    | TStr(s: string)
    | TArr(items: seq<Tree>)
    | TObj(members: seq<Member>)

  datatype Member = Member(key: string, value: Tree)

  datatype Quote = Auto | Single | Double

  /** The options space and quote. */
  datatype Style = Style(gap: string, quote: Quote)

  /** gap for a numeric space option. */
  function GapOf(space: int): (gap: string)
    ensures |gap| <= 10 && forall c <- gap :: c == ' '
  {
    if space > 0 then seq(if space < 10 then space else 10, _ => ' ') else ""
  }

  // ----- quoteString ------------------------------------------------------------

  /** The table of replacements, without its two quote entries; "" for no entry. */
  function Replacement(c: char): string
  {
    if c == '\\' then "\\\\"
    else if c == BACKSPACE then "\\b"
    else if c == FORM_FEED then "\\f"
    else if c == '\n' then "\\n"
    else if c == '\r' then "\\r"
    else if c == '\t' then "\\t"
    else if c == VERTICAL_TAB then "\\v"
    else if c == '\0' then "\\0"
    else if c == LINE_SEPARATOR then "\\u2028"
    else if c == PARAGRAPH_SEPARATOR then "\\u2029"
    else ""
  }

  function HexDigitOf(n: nat): (c: char)
    requires n < 16
    ensures IsHexDigit(c) && HexValue(c) == n
  {
    if n < 10 then ('0' as int + n) as char else ('a' as int + n - 10) as char
  }

  predicate StartsWithDigit(text: string)
  {
    text != "" && IsDigit(text[0])
  }

  /** What the loop appends for c, when the string goes on with tail. */
  function Piece(c: char, tail: string): string
  {
    if c == '\'' || c == '"' then [c]
    else if c == '\0' && StartsWithDigit(tail) then "\\x00"
    else if Replacement(c) != "" then Replacement(c)
    else if c < ' ' then "\\x" + [HexDigitOf(c as int / 16), HexDigitOf(c as int % 16)]
    else [c]
  }

  /** The loop over the whole string. */
  function Product(s: string): string
  {
    if s == "" then "" else Piece(s[0], s[1..]) + Product(s[1..])
  }

  /** product.replace(new RegExp(q, 'g'), '\\' + q) */
  function EscapeAll(text: string, q: char): string
  {
    if text == "" then ""
    else (if text[0] == q then ['\\', q] else [text[0]]) + EscapeAll(text[1..], q)
  }

  function Count(s: string, c: char): nat
  {
    if s == "" then 0 else (if s[0] == c then 1 else 0) + Count(s[1..], c)
  }

  /** The quote that needs fewer escapes; a tie goes to the single quote. */
  function QuoteChar(s: string, quote: Quote): (q: char)
    ensures q == '\'' || q == '"'
  {
    match quote
    case Single => '\''
    case Double => '"'
    case Auto => if Count(s, '\'') <= Count(s, '"') then '\'' else '"'
  }

  function QuoteString(s: string, quote: Quote): string
  {
    var q := QuoteChar(s, quote);
    [q] + EscapeAll(Product(s), q) + [q]
  }

  /** What one turn of the loop appends. */
  method ScanChar(value: string, i: nat) returns (piece: string)
    requires i < |value|
    ensures piece == Piece(value[i], value[i + 1..])
  {
    var c := value[i];
    if c == '\'' || c == '"' {
      return [c];
    }
    if c == '\0' && i + 1 < |value| && IsDigit(value[i + 1]) {
      return "\\x00";
    }
    if Replacement(c) != "" {
      return Replacement(c);
    }
    if c < ' ' {
      return "\\x" + [HexDigitOf(c as int / 16), HexDigitOf(c as int % 16)];
    }
    return [c];
  }

  /** The loop of quoteString: one pass that counts the quotes and builds the product. */
  method ScanString(value: string) returns (product: string, single: nat, double: nat)
    ensures product == Product(value)
    ensures single == Count(value, '\'') && double == Count(value, '"')
  {
    single, double, product := 0, 0, "";
    assert value[0..] == value;
    for i := 0 to |value|
      invariant single == Count(value[..i], '\'') && double == Count(value[..i], '"')
      invariant product + Product(value[i..]) == Product(value)
    {
      CountStep(value, i, '\'');
      CountStep(value, i, '"');
      if value[i] == '\'' {
        single := single + 1;
      } else if value[i] == '"' {
        double := double + 1;
      }
      var piece := ScanChar(value, i);
      ProductStep(value, i);
      assert product + Product(value[i..]) == product + piece + Product(value[i + 1..]);
      product := product + piece;
    }
    assert value[..|value|] == value && value[|value|..] == "" && product + "" == product;
  }

  /** quoteString(value) */
  method QuoteStringLoop(value: string, quote: Quote) returns (text: string)
    ensures text == QuoteString(value, quote)
  {
    var product, single, double := ScanString(value);
    var quoteChar :=
      if quote.Single? then '\'' else if quote.Double? then '"' else if single <= double then '\'' else '"';
    text := [quoteChar] + EscapeAll(product, quoteChar) + [quoteChar];
  }

  lemma ProductStep(s: string, i: nat)
    requires i < |s|
    ensures Product(s[i..]) == Piece(s[i], s[i + 1..]) + Product(s[i + 1..])
  {
    assert s[i..][1..] == s[i + 1..];
  }

  lemma CountStep(s: string, i: nat, c: char)
    requires i < |s|
    ensures Count(s[..i + 1], c) == Count(s[..i], c) + (if s[i] == c then 1 else 0)
  {
    CountSnoc(s[..i], s[i], c);
    assert s[..i + 1] == s[..i] + [s[i]];
  }

  lemma {:induction false} CountSnoc(s: string, last: char, c: char)
    ensures Count(s + [last], c) == Count(s, c) + (if last == c then 1 else 0)
  {
    if s != "" {
      CountSnoc(s[1..], last, c);
      assert (s + [last])[1..] == s[1..] + [last];
    }
  }

  // ----- scalars and keys ---------------------------------------------------------

  /** String(n) for a natural number a double holds exactly. */
  function Digits(n: nat): (text: string)
    ensures text != "" && AllDigits(text)
  {
    if n < 10 then [HexDigitOf(n)] else Digits(n / 10) + [HexDigitOf(n % 10)]
  }

  /** String(value).  Inexact numbers stand for their own text. */
  function NumberText(n: Number): string
  {
    match n
    case Int(i) => if i < 0 then "-" + Digits(-i) else Digits(i)
    case Inexact(negative, text) => if negative then "-" + text else text
    case Infinite(negative) => if negative then "-Infinity" else "Infinity"
    case NaN => "NaN"
  }

  /** A key is written bare when its first character may start an identifier and
      every further UTF-16 unit may continue one; half of a pair never may. */
  predicate IsBareKey(u: Tables, key: string)
  {
    && key != ""
    && IsIdStart(u, key[0])
    && forall i :: 1 <= i < |key| ==> IsIdContinue(u, key[i]) && Width(key[i]) == 1
  }

  function SerializeKey(u: Tables, key: string, quote: Quote): string
  {
    if IsBareKey(u, key) then key else QuoteString(key, quote)
  }

  // ----- containers ---------------------------------------------------------------

  function Join(parts: seq<string>, separator: string): string
  {
    if parts == [] then ""
    else if |parts| == 1 then parts[0]
    else parts[0] + (separator + Join(parts[1..], separator))
  }

  /** What stands before the first part and after each comma between parts. */
  function Lead(gap: string, indent: string): string
  {
    if gap == "" then "" else "\n" + indent + gap
  }

  /** What stands between the last part and the closing bracket. */
  function Trail(gap: string, indent: string): string
  {
    if gap == "" then "" else ",\n" + indent
  }

  /** The end of serializeObject and serializeArray: parts in brackets. */
  function Bracket(open: char, parts: seq<string>, gap: string, indent: string, close: char): string
  {
    if parts == [] then [open, close]
    else
      [open] + (Lead(gap, indent) + (Join(parts, "," + Lead(gap, indent)) + (Trail(gap, indent) + [close])))
  }

  /** serializeProperty, at the current indent. */
  function Serialize(u: Tables, style: Style, indent: string, t: Tree): string
    decreases t
  {
    match t
    case TNull => "null"
    case TBool(b) => if b then "true" else "false"
    case TNum(n) => NumberText(n)
    case TStr(s) => QuoteString(s, style.quote)
    case TArr(items) => Bracket('[', SerializeItems(u, style, indent + style.gap, items), style.gap, indent, ']')
    case TObj(members) => Bracket('{', SerializeMembers(u, style, indent + style.gap, members), style.gap, indent, '}')
  }

  function SerializeItems(u: Tables, style: Style, indent: string, items: seq<Tree>): (parts: seq<string>)
    ensures |parts| == |items|
    decreases items
  {
    if items == [] then []
    else [Serialize(u, style, indent, items[0])] + SerializeItems(u, style, indent, items[1..])
  }

  /** key: value, with a blank after the colon unless the text is compact. */
  function SerializeMember(u: Tables, style: Style, indent: string, m: Member): string
    decreases m
  {
    SerializeKey(u, m.key, style.quote) +
    (":" + ((if style.gap == "" then "" else " ") + Serialize(u, style, indent, m.value)))
  }

  function SerializeMembers(u: Tables, style: Style, indent: string, members: seq<Member>): (parts: seq<string>)
    ensures |parts| == |members|
    decreases members
  {
    if members == [] then []
    else [SerializeMember(u, style, indent, members[0])] + SerializeMembers(u, style, indent, members[1..])
  }

  /** stringify(value, { space, quote }) */
  function Stringify(u: Tables, style: Style, t: Tree): string
  {
    Serialize(u, style, "", t)
  }

  // ----- the value a tree stands for -----------------------------------------------

  function ValueOf(t: Tree): Value
    decreases t
  {
    match t
    case TNull => Null
    case TBool(b) => Bool(b)
    case TNum(n) => Num(n)
    case TStr(s) => Str(s)
    case TArr(items) => Arr(ValuesOf(items))
    case TObj(members) => Obj(Collected(map[], members))
  }

  function ValuesOf(items: seq<Tree>): (vs: seq<Value>)
    ensures |vs| == |items|
    decreases items
  {
    if items == [] then [] else [ValueOf(items[0])] + ValuesOf(items[1..])
  }

  /** The members added to acc from left to right. */
  function Collected(acc: map<string, Value>, members: seq<Member>): map<string, Value>
    decreases members
  {
    if members == [] then acc
    else Collected(acc[members[0].key := ValueOf(members[0].value)], members[1..])
  }

  /** Every number of the tree is one the writer spells exactly. */
  predicate Printable(t: Tree)
    decreases t
  {
    match t
    case TNum(Int(i)) => -(MAX_SAFE_INTEGER as int) <= i <= MAX_SAFE_INTEGER
    case TNum(Inexact(_, _)) => false
    case TArr(items) => forall i | 0 <= i < |items| :: Printable(items[i])
    case TObj(members) => forall i | 0 <= i < |members| :: Printable(members[i].value)
    case _ => true
  }

  /** With distinct keys, each member is found under its own key. */
  lemma {:induction false} CollectedLookup(acc: map<string, Value>, members: seq<Member>)
    requires forall i, j :: 0 <= i < j < |members| ==> members[i].key != members[j].key
    ensures var m := Collected(acc, members);
            && m.Keys == acc.Keys + (set i | 0 <= i < |members| :: members[i].key)
            && (forall i :: 0 <= i < |members| ==>
                  members[i].key in m && m[members[i].key] == ValueOf(members[i].value))
            && (forall k :: k in acc && (forall i :: 0 <= i < |members| ==> members[i].key != k) ==>
                  m[k] == acc[k])
    decreases members
  {
    if members != [] {
      var tail := members[1..];
      var acc' := acc[members[0].key := ValueOf(members[0].value)];
      CollectedLookup(acc', tail);
      assert forall i :: 0 <= i < |tail| ==> tail[i] == members[i + 1];
    }
  }
}
