/**
 writeToml of scripts/migrate-from-poracle.js: a nested configuration compiled to
 the lines of a TOML document.  A line is kept as what it says: keys and values
 are not yet spelled out as characters.
 */
module TomlWriter {
  import opened Sequences

  datatype Scalar = Text(s: string) | Flag(b: bool) | Whole(i: int)

  /** A JSON configuration; the entries of an object in the order of Object.entries. */
  datatype Config =
    | Null
    | Prim(p: Scalar)
    | List(items: seq<Config>)
    | Record(entries: seq<Entry>)

  datatype Entry = Entry(key: string, value: Config)

  datatype Line =
    | Blank
    | Header(path: seq<string>)
    | ItemHeader(path: seq<string>)
    | KeyValue(key: seq<string>, value: Config)

  predicate IsLetter(c: char) { 'A' <= c <= 'Z' || 'a' <= c <= 'z' }

  predicate IsBareChar(c: char) { IsLetter(c) || '0' <= c <= '9' || c == '_' || c == '-' }

  /** /^[A-Za-z_][A-Za-z0-9_-]*$/ */
  predicate IsConfigKey(key: string)
  {
    key != "" && (IsLetter(key[0]) || key[0] == '_') && forall i :: 0 <= i < |key| ==> IsBareChar(key[i])
  }

  predicate HasOnlyConfigKeys(entries: seq<Entry>)
  {
    forall i :: 0 <= i < |entries| ==> IsConfigKey(entries[i].key)
  }

  predicate IsArrayOfTables(items: seq<Config>)
  {
    items != [] && forall i :: 0 <= i < |items| ==> items[i].Record?
  }

  /** The three places an entry can be written to, or none. */
  datatype Place = Nowhere | Direct | AsTable | AsTableArray

  function PlaceOf(v: Config): Place
  {
    match v
    case Null => Nowhere
    case Prim(_) => Direct
    case List(items) => if IsArrayOfTables(items) then AsTableArray else Direct
    case Record(entries) => if HasOnlyConfigKeys(entries) then AsTable else Direct
  }

  /** Whether a table needs its own header: some entry of it is not a sub-table. */
  predicate HasDirect(entries: seq<Entry>)
  {
    exists i :: 0 <= i < |entries| && NeedsHeader(entries[i].value)
  }

  predicate NeedsHeader(v: Config)
  {
    !v.Null? && (!v.Record? || !HasOnlyConfigKeys(v.entries))
  }

  // ----- the lines ---------------------------------------------------------------------

  /** The first loop: what is written right away. */
  function DirectLines(entries: seq<Entry>): seq<Line>
  {
    if entries == [] then []
    else DirectLines(Front(entries)) + DirectLine(Last(entries))
  }

  function DirectLine(e: Entry): seq<Line>
  {
    if PlaceOf(e.value).Direct? then [KeyValue([e.key], e.value)] else []
  }

  /** An empty text still makes a line when it is pushed. */
  function Pushed(lines: seq<Line>): seq<Line>
  {
    if lines == [] then [Blank] else lines
  }

  /** The loop over tables. */
  function TableLines(entries: seq<Entry>, prefix: seq<string>): seq<Line>
    decreases entries, 0
  {
    if entries == [] then [] else TableLines(Front(entries), prefix) + OneTable(Last(entries), prefix)
  }

  function OneTable(e: Entry, prefix: seq<string>): seq<Line>
    decreases e
  {
    if !PlaceOf(e.value).AsTable? then []
    else HeaderLines(e, prefix) + Pushed(Written(e.value.entries, prefix + [e.key]))
  }

  function HeaderLines(e: Entry, prefix: seq<string>): seq<Line>
    requires e.value.Record?
  {
    if HasDirect(e.value.entries) then [Blank, Header(prefix + [e.key])] else []
  }

  /** writeItemField */
  function FieldLines(key: seq<string>, v: Config): seq<Line>
    decreases v
  {
    match v
    case Null => []
    case Record(entries) =>
      if HasOnlyConfigKeys(entries) then FieldsLines(key, entries) else [KeyValue(key, v)]
    case _ => [KeyValue(key, v)]
  }

  function FieldsLines(key: seq<string>, entries: seq<Entry>): seq<Line>
    decreases entries
  {
    if entries == [] then []
    else FieldsLines(key, Front(entries)) + FieldLines(key + [Last(entries).key], Last(entries).value)
  }

  predicate AllRecords(items: seq<Config>)
  {
    forall i :: 0 <= i < |items| ==> items[i].Record?
  }

  function ItemLines(path: seq<string>, items: seq<Config>): seq<Line>
    requires AllRecords(items)
  {
    if items == [] then []
    else ItemLines(path, Front(items)) + ([Blank, ItemHeader(path)] + FieldsLines([], Last(items).entries))
  }

  /** The loop over arrays of tables. */
  function TableArrayLines(entries: seq<Entry>, prefix: seq<string>): seq<Line>
  {
    if entries == [] then [] else TableArrayLines(Front(entries), prefix) + OneTableArray(Last(entries), prefix)
  }

  function OneTableArray(e: Entry, prefix: seq<string>): seq<Line>
  {
    if PlaceOf(e.value).AsTableArray? then ItemLines(prefix + [e.key], e.value.items) else []
  }

  /** What writeToml returns, line by line. */
  function Written(entries: seq<Entry>, prefix: seq<string>): seq<Line>
    decreases entries, 1
  {
    DirectLines(entries) + TableLines(entries, prefix) + TableArrayLines(entries, prefix)
  }

  // ----- the function as the source runs it ----------------------------------------------

  /** writeToml: one pass that sorts the entries into places, then a loop per place. */
  method WriteToml(entries: seq<Entry>, prefix: seq<string>) returns (lines: seq<Line>)
    ensures lines == Written(entries, prefix)
    decreases entries, 1
  {
    var direct, tables, arrayTables := SortEntries(entries, prefix);
    var below := WriteTables(entries, tables, prefix);
    var last := WriteTableArrays(arrayTables, prefix);
    lines := direct + below + last;
  }

  method WriteTableArrays(arrayTables: seq<Entry>, prefix: seq<string>) returns (lines: seq<Line>)
    requires forall e :: e in arrayTables ==> PlaceOf(e.value).AsTableArray?
    ensures lines == TableArrayLines(arrayTables, prefix)
  {
    lines := [];
    var i := 0;
    while i < |arrayTables|
      invariant i <= |arrayTables| && lines == TableArrayLines(arrayTables[..i], prefix)
    {
      var e := arrayTables[i];
      assert e in arrayTables;
      var added := WriteItems(prefix + [e.key], e.value.items);
      assert Front(arrayTables[..i + 1]) == arrayTables[..i];
      lines := lines + added;
      i := i + 1;
    }
    assert arrayTables[..i] == arrayTables;
  }

  lemma OneMore(es: seq<Entry>, e: Entry, prefix: seq<string>)
    ensures DirectLines(es + [e]) == DirectLines(es) + DirectLine(e)
    ensures TableLines(es + [e], prefix) == TableLines(es, prefix) + OneTable(e, prefix)
    ensures TableArrayLines(es + [e], prefix) == TableArrayLines(es, prefix) + OneTableArray(e, prefix)
  {
    assert Front(es + [e]) == es;
  }

  /** These entries have gone to the places that write them. */
  ghost predicate SortsOut(done: seq<Entry>, lines: seq<Line>, tables: seq<Entry>, arrayTables: seq<Entry>,
                           prefix: seq<string>)
  {
    && lines == DirectLines(done)
    && TableLines(tables, prefix) == TableLines(done, prefix)
    && TableArrayLines(arrayTables, prefix) == TableArrayLines(done, prefix)
    && (forall e :: e in tables ==> e in done && PlaceOf(e.value).AsTable?)
    && (forall e :: e in arrayTables ==> PlaceOf(e.value).AsTableArray?)
  }

  lemma SortsOneMore(done: seq<Entry>, lines: seq<Line>, tables: seq<Entry>, arrayTables: seq<Entry>,
                     prefix: seq<string>, e: Entry)
    requires SortsOut(done, lines, tables, arrayTables, prefix)
    ensures match PlaceOf(e.value)
            case Nowhere => SortsOut(done + [e], lines, tables, arrayTables, prefix)
            case AsTableArray => SortsOut(done + [e], lines, tables, arrayTables + [e], prefix)
            case AsTable => SortsOut(done + [e], lines, tables + [e], arrayTables, prefix)
            case Direct => SortsOut(done + [e], lines + [KeyValue([e.key], e.value)], tables, arrayTables, prefix)
  {
    OneMore(done, e, prefix);
    match PlaceOf(e.value)
    case AsTableArray => OneMore(arrayTables, e, prefix);
    case AsTable => OneMore(tables, e, prefix);
    case _ =>
  }

  lemma UpTo(entries: seq<Entry>, i: nat)
    requires i < |entries|
    ensures entries[..i + 1] == entries[..i] + [entries[i]]
  {
  }

  method SortEntries(entries: seq<Entry>, prefix: seq<string>)
    returns (lines: seq<Line>, tables: seq<Entry>, arrayTables: seq<Entry>)
    ensures lines == DirectLines(entries)
    ensures TableLines(tables, prefix) == TableLines(entries, prefix)
    ensures TableArrayLines(arrayTables, prefix) == TableArrayLines(entries, prefix)
    ensures forall e :: e in tables ==> e in entries && PlaceOf(e.value).AsTable?
    ensures forall e :: e in arrayTables ==> PlaceOf(e.value).AsTableArray?
  {
    lines, tables, arrayTables := [], [], [];
    var i := 0;
    while i < |entries|
      invariant i <= |entries| && SortsOut(entries[..i], lines, tables, arrayTables, prefix)
    {
      var e := entries[i];
      SortsOneMore(entries[..i], lines, tables, arrayTables, prefix, e);
      UpTo(entries, i);
      match PlaceOf(e.value) {
        case Nowhere =>
        case AsTableArray => arrayTables := arrayTables + [e];
        case AsTable => tables := tables + [e];
        case Direct => lines := lines + [KeyValue([e.key], e.value)];
      }
      i := i + 1;
    }
    assert entries[..i] == entries;
  }

  lemma OneMoreTable(tables: seq<Entry>, i: nat, prefix: seq<string>)
    requires i < |tables| && PlaceOf(tables[i].value).AsTable?
    ensures var e := tables[i];
            TableLines(tables[..i + 1], prefix) ==
            TableLines(tables[..i], prefix) + HeaderLines(e, prefix)
            + Pushed(Written(e.value.entries, prefix + [e.key]))
  {
    UpTo(tables, i);
    OneMore(tables[..i], tables[i], prefix);
  }

  method WriteTables(ghost entries: seq<Entry>, tables: seq<Entry>, prefix: seq<string>) returns (lines: seq<Line>)
    requires forall e :: e in tables ==> e in entries && PlaceOf(e.value).AsTable?
    ensures lines == TableLines(tables, prefix)
    decreases entries, 0
  {
    lines := [];
    var i := 0;
    while i < |tables|
      invariant i <= |tables| && lines == TableLines(tables[..i], prefix)
    {
      var e := tables[i];
      assert e in tables && e in entries;
      var content := WriteToml(e.value.entries, prefix + [e.key]);
      OneMoreTable(tables, i, prefix);
      if HasDirect(e.value.entries) {
        lines := lines + [Blank, Header(prefix + [e.key])];
      }
      assert lines == TableLines(tables[..i], prefix) + HeaderLines(e, prefix);
      lines := lines + Pushed(content);
      i := i + 1;
    }
    assert tables[..i] == tables;
  }

  /** The lines that writeToml passes down to be pushed onto. */
  class Output {
    var lines: seq<Line>

    constructor ()
      ensures lines == []
    {
      lines := [];
    }
  }

  method WriteItemField(key: seq<string>, v: Config, out: Output)
    modifies out
    ensures out.lines == old(out.lines) + FieldLines(key, v)
    decreases v, 0
  {
    if v.Null? {
      return;
    }
    if v.Record? && HasOnlyConfigKeys(v.entries) {
      WriteFields(key, v.entries, out);
      return;
    }
    out.lines := out.lines + [KeyValue(key, v)];
  }

  method WriteFields(key: seq<string>, entries: seq<Entry>, out: Output)
    modifies out
    ensures out.lines == old(out.lines) + FieldsLines(key, entries)
    decreases entries
  {
    var i := 0;
    while i < |entries|
      invariant i <= |entries| && out.lines == old(out.lines) + FieldsLines(key, entries[..i])
    {
      var e := entries[i];
      assert e in entries;
      assert Front(entries[..i + 1]) == entries[..i] && Last(entries[..i + 1]) == e;
      WriteItemField(key + [e.key], e.value, out);
      i := i + 1;
    }
    assert entries[..i] == entries;
  }

  method WriteItems(path: seq<string>, items: seq<Config>) returns (lines: seq<Line>)
    requires AllRecords(items)
    ensures lines == ItemLines(path, items)
  {
    var out := new Output();
    var i := 0;
    while i < |items|
      invariant i <= |items| && fresh(out) && out.lines == ItemLines(path, items[..i])
    {
      assert Front(items[..i + 1]) == items[..i];
      out.lines := out.lines + [Blank, ItemHeader(path)];
      WriteFields([], items[i].entries, out);
      i := i + 1;
    }
    assert items[..i] == items;
    lines := out.lines;
  }
}
