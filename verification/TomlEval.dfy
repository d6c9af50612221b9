/**
 A reader of TOML lines, after TOML v1.0.0 (sections "Keys", "Table" and "Array of
 Tables"): a document under construction and a pointer to the current table.  It
 fails on whatever the standard forbids, and is stricter in one place: no header may
 lead below a table that dotted keys made, where the standard allows a new sub-table.
 */
module TomlEval {
  import opened Sequences
  import opened Wrappers
  import opened TomlWriter

  /** What a document means. */
  datatype Toml =
    | Atom(p: Scalar)
    | Array(items: seq<Toml>)
    | Table(entries: map<string, Toml>)

  /** How a table came to be: through a longer header only, by its own header, or by
      dotted keys.  A header may define only a table of the first kind. */
  datatype Origin = Implicit | Headed | Dotted

  datatype Node =
    | Leaf(v: Toml)
    | Sub(table: map<string, Node>, origin: Origin)
    | Items(tables: seq<Node>)

  type Root = map<string, Node>

  datatype Document = Document(root: Root, current: seq<string>)

  const EMPTY: Document := Document(map[], [])

  /** The value written after "=", unless it has no TOML spelling: null has none. */
  function Inline(v: Config): Option<Toml>
    decreases v
  {
    match v
    case Null => None
    case Prim(p) => Some(Atom(p))
    case List(items) =>
      if exists i | 0 <= i < |items| :: Inline(items[i]).None? then None
      else Some(Array(seq(|items|, i requires 0 <= i < |items| => Inline(items[i]).value)))
    case Record(entries) =>
      if exists i | 0 <= i < |entries| :: !entries[i].value.Null? && Inline(entries[i].value).None? then None
      else Some(Table(InlineEntries(entries)))
  }

  /** An inline table; its null members are left out. */
  function InlineEntries(entries: seq<Entry>): map<string, Toml>
    decreases entries
  {
    if entries == [] then map[]
    else
      var m, e := InlineEntries(Front(entries)), Last(entries);
      if Inline(e.value).None? then m else m[e.key := Inline(e.value).value]
  }

  /** The table a header step or a pointer step leads into from node n.  The standard would
      let a header add a sub-table to a dotted table; what the writer writes is read
      without that. */
  function Inside(n: Node): Option<Root>
  {
    match n
    case Sub(table, origin) => if origin.Dotted? then None else Some(table)
    case Items(tables) => if tables != [] && Last(tables).Sub? then Some(Last(tables).table) else None
    case Leaf(_) => None
  }

  /** n with the table that a step leads into replaced. */
  function Rebuilt(n: Node, table: Root): Node
    requires Inside(n).Some?
  {
    match n
    case Sub(_, origin) => Sub(table, origin)
    case Items(tables) => Items(Front(tables) + [Last(tables).(table := table)])
  }

  /** [path] */
  function OpenTable(t: Root, path: seq<string>): Option<Root>
    requires path != []
    decreases |path|
  {
    var k := path[0];
    if |path| == 1 then
      if k !in t then Some(t[k := Sub(map[], Headed)])
      else if t[k].Sub? && t[k].origin.Implicit? then Some(t[k := Sub(t[k].table, Headed)])
      else None
    else if k !in t then
      match OpenTable(map[], path[1..])
      case None => None
      case Some(sub) => Some(t[k := Sub(sub, Implicit)])
    else
      match Inside(t[k])
      case None => None
      case Some(sub) =>
        match OpenTable(sub, path[1..])
        case None => None
        case Some(sub') => Some(t[k := Rebuilt(t[k], sub')])
  }

  /** [[path]] */
  function AddItem(t: Root, path: seq<string>): Option<Root>
    requires path != []
    decreases |path|
  {
    var k := path[0];
    if |path| == 1 then
      if k !in t then Some(t[k := Items([Sub(map[], Headed)])])
      else if t[k].Items? then Some(t[k := Items(t[k].tables + [Sub(map[], Headed)])])
      else None
    else if k !in t then
      match AddItem(map[], path[1..])
      case None => None
      case Some(sub) => Some(t[k := Sub(sub, Implicit)])
    else
      match Inside(t[k])
      case None => None
      case Some(sub) =>
        match AddItem(sub, path[1..])
        case None => None
        case Some(sub') => Some(t[k := Rebuilt(t[k], sub')])
  }

  /** key = v in the table t; a dotted key makes tables on its way. */
  function PutDotted(t: Root, key: seq<string>, v: Toml): Option<Root>
    requires key != []
    decreases |key|
  {
    var k := key[0];
    if |key| == 1 then
      if k in t then None else Some(t[k := Leaf(v)])
    else if k in t && !(t[k].Sub? && t[k].origin.Dotted?) then None
    else
      match PutDotted(if k in t then t[k].table else map[], key[1..], v)
      case None => None
      case Some(sub) => Some(t[k := Sub(sub, Dotted)])
  }

  /** key = v in the current table. */
  function Put(t: Root, current: seq<string>, key: seq<string>, v: Toml): Option<Root>
    requires key != []
    decreases |current|
  {
    if current == [] then PutDotted(t, key, v)
    else if current[0] !in t then None
    else
      var k := current[0];
      match Inside(t[k])
      case None => None
      case Some(sub) =>
        match Put(sub, current[1..], key, v)
        case None => None
        case Some(sub') => Some(t[k := Rebuilt(t[k], sub')])
  }

  /** One line. */
  function Read(d: Document, line: Line): Option<Document>
  {
    match line
    case Blank => Some(d)
    case Header(path) =>
      if path == [] then None
      else (match OpenTable(d.root, path) case None => None case Some(t) => Some(Document(t, path)))
    case ItemHeader(path) =>
      if path == [] then None
      else (match AddItem(d.root, path) case None => None case Some(t) => Some(Document(t, path)))
    case KeyValue(key, v) =>
      if key == [] || Inline(v).None? then None
      else
        match Put(d.root, d.current, key, Inline(v).value)
        case None => None
        case Some(t) => Some(Document(t, d.current))
  }

  function Eval(d: Document, lines: seq<Line>): Option<Document>
  {
    if lines == [] then Some(d)
    else
      match Eval(d, Front(lines))
      case None => None
      case Some(d') => Read(d', Last(lines))
  }

  /** The meaning of what has been built. */
  function Meaning(n: Node): Toml
    decreases n
  {
    match n
    case Leaf(v) => v
    case Sub(table, _) => Table(map k | k in table :: Meaning(table[k]))
    case Items(tables) => Array(seq(|tables|, i requires 0 <= i < |tables| => Meaning(tables[i])))
  }

  function RootMeaning(t: Root): map<string, Toml>
  {
    map k | k in t :: Meaning(t[k])
  }

  lemma {:induction false} EvalConcat(d: Document, a: seq<Line>, b: seq<Line>)
    ensures Eval(d, a + b) ==
            match Eval(d, a) { case None => None case Some(d') => Eval(d', b) }
  {
    if b == [] {
      assert a + b == a;
    } else {
      EvalConcat(d, a, Front(b));
      assert Front(a + b) == a + Front(b);
    }
  }
}
