/**
 writeToml preserves meaning: a reader with a current-table pointer rebuilds from
 its lines the configuration it was given, without the nulls and without the
 tables that hold nothing.
 */
module TomlCorrect {
  import opened Sequences
  import opened Wrappers
  import opened TomlWriter
  import opened TomlEval

  // ----- the configuration that should come back -------------------------------------

  /** The meaning of one value, or None if nothing of it should be left.  Inside an
      entry of an array of tables an array is always a plain value. */
  function Kept(v: Config, inItem: bool): Option<Toml>
    decreases v
  {
    match v
    case Record(entries) =>
      if HasOnlyConfigKeys(entries) then
        if Cleaned(entries, inItem) == map[] then None else Some(Table(Cleaned(entries, inItem)))
      else Inline(v)
    case List(items) =>
      if IsArrayOfTables(items) && !inItem then
        Some(Array(seq(|items|, i requires 0 <= i < |items| => Table(Cleaned(items[i].entries, true)))))
      else Inline(v)
    case _ => Inline(v)
  }

  function Cleaned(entries: seq<Entry>, inItem: bool): map<string, Toml>
    decreases entries
  {
    if entries == [] then map[]
    else With(Cleaned(Front(entries), inItem), Last(entries).key, Kept(Last(entries).value, inItem))
  }

  function With(m: map<string, Toml>, key: string, v: Option<Toml>): map<string, Toml>
  {
    if v.None? then m else m[key := v.value]
  }

  /** No object, at any depth, has the same key twice. */
  ghost predicate DistinctKeys(entries: seq<Entry>)
    decreases entries
  {
    && (forall i, j :: 0 <= i < j < |entries| ==> entries[i].key != entries[j].key)
    && forall i | 0 <= i < |entries| :: Proper(entries[i].value)
  }

  ghost predicate Proper(v: Config)
    decreases v
  {
    match v
    case Record(entries) => DistinctKeys(entries)
    case List(items) => forall i | 0 <= i < |items| :: Proper(items[i])
    case _ => true
  }

  /** No array, at any depth, holds a null. */
  ghost predicate Spellable(v: Config)
    decreases v
  {
    match v
    case Record(entries) => AllSpellable(entries)
    case List(items) => forall i | 0 <= i < |items| :: !items[i].Null? && Spellable(items[i])
    case _ => true
  }

  ghost predicate AllSpellable(entries: seq<Entry>)
    decreases entries
  {
    forall i | 0 <= i < |entries| :: Spellable(entries[i].value)
  }

  lemma {:induction false} InlineDefined(v: Config)
    ensures Inline(v).Some? <==> !v.Null? && Spellable(v)
    decreases v
  {
    match v
    case List(items) =>
      forall i | 0 <= i < |items| { InlineDefined(items[i]); }
    case Record(entries) =>
      forall i | 0 <= i < |entries| { InlineDefined(entries[i].value); }
      if !AllSpellable(entries) {
        var i :| 0 <= i < |entries| && !Spellable(entries[i].value);
        assert !entries[i].value.Null? && Inline(entries[i].value).None?;
      }
    case _ =>
  }

  lemma FrontEntries(entries: seq<Entry>)
    requires entries != []
    ensures DistinctKeys(entries) ==> DistinctKeys(Front(entries)) && Proper(Last(entries).value)
    ensures AllSpellable(entries) ==> AllSpellable(Front(entries)) && Spellable(Last(entries).value)
    ensures DistinctKeys(entries) ==> forall e :: e in Front(entries) ==> e.key != Last(entries).key
  {
  }

  // ----- lines under a common prefix --------------------------------------------------

  function UnderLine(k: string, line: Line): Line
  {
    match line
    case Header(path) => Header([k] + path)
    case ItemHeader(path) => ItemHeader([k] + path)
    case _ => line
  }

  function Under(k: string, lines: seq<Line>): seq<Line>
  {
    if lines == [] then [] else Under(k, Front(lines)) + [UnderLine(k, Last(lines))]
  }

  lemma {:induction false} UnderConcat(k: string, a: seq<Line>, b: seq<Line>)
    ensures Under(k, a + b) == Under(k, a) + Under(k, b)
  {
    if b == [] {
      assert a + b == a;
    } else {
      UnderConcat(k, a, Front(b));
      assert Front(a + b) == a + Front(b);
    }
  }

  /** Writing a table under a longer prefix only lengthens the headers. */
  lemma {:induction false} WrittenUnder(k: string, entries: seq<Entry>, prefix: seq<string>)
    ensures Written(entries, [k] + prefix) == Under(k, Written(entries, prefix))
    decreases entries, 1
  {
    DirectUnder(k, entries);
    TablesUnder(k, entries, prefix);
    TableArraysUnder(k, entries, prefix);
    UnderConcat(k, DirectLines(entries), TableLines(entries, prefix));
    UnderConcat(k, DirectLines(entries) + TableLines(entries, prefix), TableArrayLines(entries, prefix));
  }

  lemma {:induction false} DirectUnder(k: string, entries: seq<Entry>)
    ensures Under(k, DirectLines(entries)) == DirectLines(entries)
  {
    if entries != [] {
      DirectUnder(k, Front(entries));
      UnderConcat(k, DirectLines(Front(entries)), DirectLine(Last(entries)));
      var one := DirectLine(Last(entries));
      assert one != [] ==> Front(one) == [];
    }
  }

  lemma {:induction false} TablesUnder(k: string, entries: seq<Entry>, prefix: seq<string>)
    ensures TableLines(entries, [k] + prefix) == Under(k, TableLines(entries, prefix))
    decreases entries, 0
  {
    if entries != [] {
      TablesUnder(k, Front(entries), prefix);
      OneTableUnder(k, Last(entries), prefix);
      UnderConcat(k, TableLines(Front(entries), prefix), OneTable(Last(entries), prefix));
    }
  }

  lemma {:induction false} OneTableUnder(k: string, e: Entry, prefix: seq<string>)
    ensures OneTable(e, [k] + prefix) == Under(k, OneTable(e, prefix))
    decreases e
  {
    if PlaceOf(e.value).AsTable? {
      var content := Written(e.value.entries, prefix + [e.key]);
      assert [k] + prefix + [e.key] == [k] + (prefix + [e.key]);
      WrittenUnder(k, e.value.entries, prefix + [e.key]);
      UnderConcat(k, HeaderLines(e, prefix), Pushed(content));
      UnderPair(k, Blank, Header(prefix + [e.key]));
      UnderPushed(k, content);
    }
  }

  lemma UnderPair(k: string, a: Line, b: Line)
    ensures Under(k, [a, b]) == [UnderLine(k, a), UnderLine(k, b)]
  {
    assert Front([a, b]) == [a] && Front([a]) == [];
    assert Under(k, [a]) == [UnderLine(k, a)];
  }

  lemma UnderPushed(k: string, lines: seq<Line>)
    ensures Under(k, Pushed(lines)) == Pushed(Under(k, lines))
  {
    assert Front([Blank]) == [];
  }

  lemma {:induction false} ItemsUnder(k: string, path: seq<string>, items: seq<Config>)
    requires AllRecords(items)
    ensures ItemLines([k] + path, items) == Under(k, ItemLines(path, items))
  {
    if items != [] {
      var fields := FieldsLines([], Last(items).entries);
      ItemsUnder(k, path, Front(items));
      UnderConcat(k, ItemLines(path, Front(items)), [Blank, ItemHeader(path)] + fields);
      UnderConcat(k, [Blank, ItemHeader(path)], fields);
      UnderPair(k, Blank, ItemHeader(path));
      FieldsAreKeys([], Last(items).entries);
      UnderKeys(k, fields);
    }
  }

  ghost predicate OnlyKeys(lines: seq<Line>)
  {
    forall i :: 0 <= i < |lines| ==> lines[i].KeyValue?
  }

  lemma Rejoined(lines: seq<Line>)
    requires lines != []
    ensures Front(lines) + [Last(lines)] == lines
  {
  }

  lemma {:induction false} UnderKeys(k: string, lines: seq<Line>)
    requires OnlyKeys(lines)
    ensures Under(k, lines) == lines
  {
    if lines != [] {
      UnderKeys(k, Front(lines));
      Rejoined(lines);
    }
  }

  lemma {:induction false} FieldsAreKeys(key: seq<string>, entries: seq<Entry>)
    ensures OnlyKeys(FieldsLines(key, entries))
    decreases entries
  {
    if entries != [] {
      FieldsAreKeys(key, Front(entries));
      FieldIsKeys(key + [Last(entries).key], Last(entries).value);
    }
  }

  lemma {:induction false} FieldIsKeys(key: seq<string>, v: Config)
    ensures OnlyKeys(FieldLines(key, v))
    decreases v
  {
    if v.Record? {
      FieldsAreKeys(key, v.entries);
    }
  }

  lemma {:induction false} TableArraysUnder(k: string, entries: seq<Entry>, prefix: seq<string>)
    ensures TableArrayLines(entries, [k] + prefix) == Under(k, TableArrayLines(entries, prefix))
  {
    if entries != [] {
      var e := Last(entries);
      TableArraysUnder(k, Front(entries), prefix);
      UnderConcat(k, TableArrayLines(Front(entries), prefix), OneTableArray(e, prefix));
      if PlaceOf(e.value).AsTableArray? {
        assert [k] + prefix + [e.key] == [k] + (prefix + [e.key]);
        ItemsUnder(k, prefix + [e.key], e.value.items);
      }
    }
  }

  // ----- a sub-table is read like a document of its own -----------------------------------

  /** One line under k, when k is a table of t that headers may enter. */
  lemma ReadUnder(t: Root, k: string, origin: Origin, d: Document, line: Line)
    requires k in t && t[k] == Sub(d.root, origin) && !origin.Dotted? && Read(d, line).Some?
    ensures var d' := Read(d, line).value;
            Read(Document(t, [k] + d.current), UnderLine(k, line)) ==
            Some(Document(t[k := Sub(d'.root, origin)], [k] + d'.current))
  {
    match line
    case Blank =>
      assert t[k := Sub(d.root, origin)] == t;
    case Header(path) =>
      assert ([k] + path)[1..] == path;
    case ItemHeader(path) =>
      assert ([k] + path)[1..] == path;
    case KeyValue(_, _) =>
      assert ([k] + d.current)[1..] == d.current;
  }

  lemma {:induction false} EvalUnder(t: Root, k: string, origin: Origin, d: Document, lines: seq<Line>)
    requires k in t && t[k] == Sub(d.root, origin) && !origin.Dotted? && Eval(d, lines).Some?
    ensures var d' := Eval(d, lines).value;
            Eval(Document(t, [k] + d.current), Under(k, lines)) ==
            Some(Document(t[k := Sub(d'.root, origin)], [k] + d'.current))
  {
    if lines == [] {
      assert t[k := Sub(d.root, origin)] == t;
    } else {
      EvalUnder(t, k, origin, d, Front(lines));
      var d1 := Eval(d, Front(lines)).value;
      var t1 := t[k := Sub(d1.root, origin)];
      ReadUnder(t1, k, origin, d1, Last(lines));
      var d2 := Read(d1, Last(lines)).value;
      assert t1[k := Sub(d2.root, origin)] == t[k := Sub(d2.root, origin)];
    }
  }

  predicate AllBlank(lines: seq<Line>)
  {
    forall i :: 0 <= i < |lines| ==> lines[i].Blank?
  }

  /** No key is written before the first header. */
  predicate HeaderFirst(lines: seq<Line>)
  {
    lines == [] || (HeaderFirst(Front(lines)) && (Last(lines).KeyValue? ==> !AllBlank(Front(lines))))
  }

  lemma {:induction false} BlankDoesNothing(d: Document, lines: seq<Line>)
    requires AllBlank(lines)
    ensures Eval(d, lines) == Some(d)
  {
    if lines != [] {
      BlankDoesNothing(d, Front(lines));
    }
  }

  lemma {:induction false} BlankUnder(k: string, lines: seq<Line>)
    requires AllBlank(lines)
    ensures AllBlank(Under(k, lines))
  {
    if lines != [] {
      BlankUnder(k, Front(lines));
    }
  }

  /** The first header inside a table that is not there yet makes it. */
  lemma FirstUnder(t: Root, current: seq<string>, k: string, line: Line)
    requires k !in t && (line.Header? || line.ItemHeader?) && Read(EMPTY, line).Some?
    ensures var d := Read(EMPTY, line).value;
            Read(Document(t, current), UnderLine(k, line)) ==
              Some(Document(t[k := Sub(d.root, Implicit)], [k] + d.current))
  {
    assert ([k] + line.path)[1..] == line.path;
  }

  lemma NextUnder(t: Root, k: string, d: Document, line: Line)
    requires Read(d, line).Some?
    ensures var d' := Read(d, line).value;
            Read(Document(t[k := Sub(d.root, Implicit)], [k] + d.current), UnderLine(k, line)) ==
            Some(Document(t[k := Sub(d'.root, Implicit)], [k] + d'.current))
  {
    var t1, d' := t[k := Sub(d.root, Implicit)], Read(d, line).value;
    ReadUnder(t1, k, Implicit, d, line);
    assert t1[k := Sub(d'.root, Implicit)] == t[k := Sub(d'.root, Implicit)];
  }

  /** Without a header of its own, the table comes to be with the first header inside
      it, and wherever the pointer was, no key is misplaced. */
  lemma {:induction false} EvalUnderFresh(t: Root, current: seq<string>, k: string, lines: seq<Line>)
    requires k !in t && HeaderFirst(lines) && Eval(EMPTY, lines).Some?
    ensures var d := Eval(EMPTY, lines).value;
            Eval(Document(t, current), Under(k, lines)) ==
            Some(if AllBlank(lines) then Document(t, current)
                 else Document(t[k := Sub(d.root, Implicit)], [k] + d.current))
  {
    if AllBlank(lines) {
      BlankUnder(k, lines);
      BlankDoesNothing(Document(t, current), Under(k, lines));
    } else {
      EvalUnderFresh(t, current, k, Front(lines));
      if AllBlank(Front(lines)) {
        BlankDoesNothing(EMPTY, Front(lines));
        FirstUnder(t, current, k, Last(lines));
      } else {
        NextUnder(t, k, Eval(EMPTY, Front(lines)).value, Last(lines));
      }
    }
  }

  // ----- what is written is never lost ---------------------------------------------------

  lemma {:induction false} RootGrows(d: Document, lines: seq<Line>)
    requires Eval(d, lines).Some?
    ensures var d' := Eval(d, lines).value;
            d.root.Keys <= d'.root.Keys && (!AllBlank(lines) ==> d'.root != map[])
  {
    if lines != [] {
      RootGrows(d, Front(lines));
      var d1 := Eval(d, Front(lines)).value;
      ReadGrows(d1, Last(lines));
    }
  }

  lemma ReadGrows(d: Document, line: Line)
    requires Read(d, line).Some?
    ensures var d' := Read(d, line).value;
            d.root.Keys <= d'.root.Keys && (!line.Blank? ==> d'.root != map[])
  {
    match line
    case Blank =>
    case Header(path) => assert path[0] in Read(d, line).value.root;
    case ItemHeader(path) => assert path[0] in Read(d, line).value.root;
    case KeyValue(key, _) =>
      var k := if d.current == [] then key[0] else d.current[0];
      assert k in Read(d, line).value.root;
  }

  // ----- entries of one place -------------------------------------------------------------

  /** The part of the meaning that the entries of one place make up. */
  function At(entries: seq<Entry>, place: Place): map<string, Toml>
  {
    if entries == [] then map[]
    else
      var m, e := At(Front(entries), place), Last(entries);
      if PlaceOf(e.value) == place then With(m, e.key, Kept(e.value, false)) else m
  }

  lemma {:induction false} AtKeys(entries: seq<Entry>, place: Place)
    ensures forall k :: k in At(entries, place) ==> exists e :: e in entries && e.key == k && PlaceOf(e.value) == place
  {
    if entries != [] {
      AtKeys(Front(entries), place);
      assert Last(entries) in entries;
    }
  }

  lemma {:induction false} FreshKey(entries: seq<Entry>, e: Entry, place: Place)
    requires forall x :: x in entries && x.key == e.key ==> PlaceOf(x.value) != place
    ensures e.key !in At(entries, place)
  {
    AtKeys(entries, place);
  }

  lemma SumGrows(a: map<string, Toml>, b: map<string, Toml>, k: string, v: Toml)
    ensures a + b[k := v] == (a + b)[k := v]
    ensures k !in b ==> a[k := v] + b == (a + b)[k := v]
  {
  }

  /** Adding a key that is new to three maps to one of them adds it to their union. */
  lemma UnionGrows(a: map<string, Toml>, b: map<string, Toml>, c: map<string, Toml>, k: string, v: Toml)
    requires k !in a && k !in b && k !in c
    ensures a[k := v] + b + c == (a + b + c)[k := v]
    ensures a + b[k := v] + c == (a + b + c)[k := v]
    ensures a + b + c[k := v] == (a + b + c)[k := v]
  {
    SumGrows(a, b, k, v);
    SumGrows(a + b, c, k, v);
  }

  lemma {:induction false} CleanedByPlace(entries: seq<Entry>)
    requires DistinctKeys(entries)
    ensures Cleaned(entries, false) == At(entries, Direct) + At(entries, AsTable) + At(entries, AsTableArray)
  {
    if entries != [] {
      var e, rest := Last(entries), Front(entries);
      FrontEntries(entries);
      CleanedByPlace(rest);
      FreshKey(rest, e, Direct);
      FreshKey(rest, e, AsTable);
      FreshKey(rest, e, AsTableArray);
      var kept := Kept(e.value, false);
      if kept.Some? {
        UnionGrows(At(rest, Direct), At(rest, AsTable), At(rest, AsTableArray), e.key, kept.value);
      }
      assert PlaceOf(e.value).Nowhere? ==> kept.None?;
    }
  }

  // ----- the first loop ---------------------------------------------------------------------

  /** A line of its own adds exactly its key. */
  lemma KeyLineEval(t: Root, k: string, v: Config)
    requires k !in t && Inline(v).Some?
    ensures var r := Eval(Document(t, []), [KeyValue([k], v)]);
            r.Some? && r.value.current == [] && RootMeaning(r.value.root) == RootMeaning(t)[k := Inline(v).value]
  {
    EvalOne(Document(t, []), KeyValue([k], v));
    MeaningUpdate(t, k, Leaf(Inline(v).value));
  }

  lemma {:induction false} DirectEval(entries: seq<Entry>)
    requires DistinctKeys(entries) && AllSpellable(entries)
    ensures var r := Eval(EMPTY, DirectLines(entries));
            r.Some? && r.value.current == [] && RootMeaning(r.value.root) == At(entries, Direct)
  {
    if entries != [] {
      var e, rest := Last(entries), Front(entries);
      FrontEntries(entries);
      DirectEval(rest);
      EvalConcat(EMPTY, DirectLines(rest), DirectLine(e));
      if PlaceOf(e.value).Direct? {
        var t := Eval(EMPTY, DirectLines(rest)).value.root;
        FreshKey(rest, e, Direct);
        assert e.key !in RootMeaning(t);
        InlineDefined(e.value);
        DirectIsInline(e.value);
        KeyLineEval(t, e.key, e.value);
      }
    }
  }

  lemma DirectIsInline(v: Config)
    requires PlaceOf(v).Direct?
    ensures Kept(v, false) == Inline(v)
  {
  }

  lemma EvalOne(d: Document, line: Line)
    ensures Eval(d, [line]) == Read(d, line)
  {
    assert Front([line]) == [];
  }

  lemma MeaningUpdate(t: Root, k: string, n: Node)
    ensures RootMeaning(t[k := n]) == RootMeaning(t)[k := Meaning(n)]
  {
  }

  // ----- the loop over tables ------------------------------------------------------------------

  lemma FrontDirect(entries: seq<Entry>)
    requires entries != []
    ensures HasDirect(entries) <==> HasDirect(Front(entries)) || NeedsHeader(Last(entries).value)
  {
    if HasDirect(Front(entries)) {
      var i :| 0 <= i < |Front(entries)| && NeedsHeader(Front(entries)[i].value);
      assert entries[i] == Front(entries)[i];
    }
  }

  lemma {:induction false} NoHeaderNoKeys(entries: seq<Entry>, prefix: seq<string>)
    requires !HasDirect(entries)
    ensures DirectLines(entries) == [] && TableArrayLines(entries, prefix) == []
  {
    if entries != [] {
      assert !NeedsHeader(Last(entries).value);
      FrontDirect(entries);
      NoHeaderNoKeys(Front(entries), prefix);
    }
  }

  lemma {:induction false} HeaderFirstConcat(a: seq<Line>, b: seq<Line>)
    requires HeaderFirst(a) && HeaderFirst(b)
    ensures HeaderFirst(a + b)
  {
    if b == [] {
      assert a + b == a;
    } else {
      HeaderFirstConcat(a, Front(b));
      assert Front(a + b) == a + Front(b);
      if !AllBlank(Front(b)) {
        var i :| 0 <= i < |Front(b)| && !Front(b)[i].Blank?;
        assert !(a + Front(b))[|a| + i].Blank?;
      }
    }
  }

  lemma {:induction false} HeaderThenAnything(path: seq<string>, lines: seq<Line>)
    ensures HeaderFirst([Blank, Header(path)] + lines)
  {
    var head := [Blank, Header(path)];
    if lines == [] {
      assert head + lines == head && Front(head) == [Blank] && Front([Blank]) == [];
      assert HeaderFirst([Blank]);
    } else {
      HeaderThenAnything(path, Front(lines));
      assert Front(head + lines) == head + Front(lines);
      assert !(head + Front(lines))[1].Blank?;
    }
  }

  /** Where the header is omitted, a header comes before any key. */
  lemma {:induction false} OmittedHeader(entries: seq<Entry>, prefix: seq<string>)
    requires !HasDirect(entries)
    ensures HeaderFirst(Written(entries, prefix))
    decreases entries, 1
  {
    NoHeaderNoKeys(entries, prefix);
    TablesHeaderFirst(entries, prefix);
    assert Written(entries, prefix) == TableLines(entries, prefix);
  }

  lemma {:induction false} TablesHeaderFirst(entries: seq<Entry>, prefix: seq<string>)
    ensures HeaderFirst(TableLines(entries, prefix))
    decreases entries, 0
  {
    if entries != [] {
      var e := Last(entries);
      TablesHeaderFirst(Front(entries), prefix);
      if PlaceOf(e.value).AsTable? {
        var path := prefix + [e.key];
        var content := Written(e.value.entries, path);
        if HasDirect(e.value.entries) {
          HeaderThenAnything(path, Pushed(content));
        } else {
          OmittedHeader(e.value.entries, path);
          assert Front([Blank]) == [] && HeaderFirst([Blank]);
          assert OneTable(e, prefix) == Pushed(content);
        }
      }
      HeaderFirstConcat(TableLines(Front(entries), prefix), OneTable(e, prefix));
    }
  }

  /** The lines of a table that has entries other than sub-tables are not all blank. */
  lemma JoinNotBlank(a: seq<Line>, b: seq<Line>)
    requires !AllBlank(a) || !AllBlank(b)
    ensures !AllBlank(a + b)
  {
    if !AllBlank(a) {
      var i :| 0 <= i < |a| && !a[i].Blank?;
      assert (a + b)[i] == a[i];
    } else {
      var i :| 0 <= i < |b| && !b[i].Blank?;
      assert (a + b)[|a| + i] == b[i];
    }
  }

  lemma DirectOrItems(entries: seq<Entry>, prefix: seq<string>)
    requires entries != [] && NeedsHeader(Last(entries).value)
    ensures !AllBlank(DirectLines(entries) + TableArrayLines(entries, prefix))
  {
    var e := Last(entries);
    if PlaceOf(e.value).Direct? {
      assert !DirectLine(e)[0].Blank?;
      JoinNotBlank(DirectLines(Front(entries)), DirectLine(e));
    } else {
      ItemsNotBlank(prefix + [e.key], e.value.items);
      JoinNotBlank(TableArrayLines(Front(entries), prefix), OneTableArray(e, prefix));
    }
    JoinNotBlank(DirectLines(entries), TableArrayLines(entries, prefix));
  }

  lemma {:induction false} DirectIsNotBlank(entries: seq<Entry>, prefix: seq<string>)
    requires HasDirect(entries)
    ensures !AllBlank(DirectLines(entries) + TableArrayLines(entries, prefix))
  {
    var e := Last(entries);
    FrontDirect(entries);
    if NeedsHeader(e.value) {
      DirectOrItems(entries, prefix);
    } else {
      DirectIsNotBlank(Front(entries), prefix);
      assert DirectLines(entries) == DirectLines(Front(entries));
      assert TableArrayLines(entries, prefix) == TableArrayLines(Front(entries), prefix);
    }
  }

  lemma ItemsNotBlank(path: seq<string>, items: seq<Config>)
    requires AllRecords(items) && items != []
    ensures !AllBlank(ItemLines(path, items))
  {
    var lines := ItemLines(path, items);
    assert lines[|ItemLines(path, Front(items))| + 1] == ItemHeader(path);
  }

  lemma ContentUnder(e: Entry)
    requires PlaceOf(e.value).AsTable?
    ensures OneTable(e, []) == HeaderLines(e, []) + Pushed(Under(e.key, Written(e.value.entries, [])))
  {
    WrittenUnder(e.key, e.value.entries, []);
    assert [] + [e.key] == [e.key] == [e.key] + [];
  }

  lemma HeadedUnder(t: Root, k: string, content: seq<Line>, d: Document)
    requires Eval(EMPTY, content) == Some(d)
    ensures Eval(Document(t[k := Sub(map[], Headed)], [k]), Under(k, content)) ==
            Some(Document(t[k := Sub(d.root, Headed)], [k] + d.current))
  {
    var t1 := t[k := Sub(map[], Headed)];
    EvalUnder(t1, k, Headed, EMPTY, content);
    assert [k] + EMPTY.current == [k];
    assert t1[k := Sub(d.root, Headed)] == t[k := Sub(d.root, Headed)];
  }

  /** With its own header. */
  lemma HeadedTableEval(t: Root, current: seq<string>, e: Entry, d: Document)
    requires PlaceOf(e.value).AsTable? && HasDirect(e.value.entries) && e.key !in t
    requires Eval(EMPTY, Written(e.value.entries, [])) == Some(d)
    ensures var r := Eval(Document(t, current), OneTable(e, []));
            r.Some? && r.value.root == t[e.key := Sub(d.root, Headed)]
  {
    var k, content := e.key, Written(e.value.entries, []);
    var t1 := t[k := Sub(map[], Headed)];
    ContentUnder(e);
    assert HeaderLines(e, []) == [Blank, Header([k])] by { assert [] + [k] == [k]; }
    EvalHeader(Document(t, current), k);
    EvalConcat(Document(t, current), HeaderLines(e, []), Pushed(Under(k, content)));
    PushedEval(Document(t1, [k]), Under(k, content));
    HeadedUnder(t, k, content, d);
  }

  /** With the header omitted. */
  lemma HeadlessTableEval(t: Root, current: seq<string>, e: Entry, d: Document)
    requires PlaceOf(e.value).AsTable? && !HasDirect(e.value.entries) && e.key !in t
    requires Eval(EMPTY, Written(e.value.entries, [])) == Some(d)
    ensures var r := Eval(Document(t, current), OneTable(e, []));
            r.Some? && r.value.root == if d.root == map[] then t else t[e.key := Sub(d.root, Implicit)]
  {
    var k, content := e.key, Written(e.value.entries, []);
    ContentUnder(e);
    assert OneTable(e, []) == Pushed(Under(k, content));
    OmittedHeader(e.value.entries, []);
    EvalUnderFresh(t, current, k, content);
    PushedEval(Document(t, current), Under(k, content));
    RootGrows(EMPTY, content);
    BlankIsEmpty(content, d);
  }

  lemma MeaningEmpty(t: Root)
    ensures t == map[] <==> RootMeaning(t) == map[]
  {
    if t != map[] {
      var k :| k in t;
      assert k in RootMeaning(t);
    }
  }

  /** One turn of the loop over tables adds exactly the table's own meaning. */
  lemma {:induction false} OneTableEval(t: Root, current: seq<string>, e: Entry)
    requires PlaceOf(e.value).AsTable? && Proper(e.value) && Spellable(e.value) && e.key !in t
    ensures var r := Eval(Document(t, current), OneTable(e, []));
            r.Some? && RootMeaning(r.value.root) == With(RootMeaning(t), e.key, Kept(e.value, false))
    decreases e, 0
  {
    var sub := e.value.entries;
    WrittenMeans(sub);
    var d := Eval(EMPTY, Written(sub, [])).value;
    MeaningEmpty(d.root);
    if HasDirect(sub) {
      HeadedTableEval(t, current, e, d);
      WrittenNotBlank(sub);
      RootGrows(EMPTY, Written(sub, []));
      MeaningUpdate(t, e.key, Sub(d.root, Headed));
    } else {
      HeadlessTableEval(t, current, e, d);
      MeaningUpdate(t, e.key, Sub(d.root, Implicit));
    }
  }

  lemma BlankIsEmpty(lines: seq<Line>, d: Document)
    requires Eval(EMPTY, lines) == Some(d)
    ensures AllBlank(lines) ==> d == EMPTY
  {
    if AllBlank(lines) {
      BlankDoesNothing(EMPTY, lines);
    }
  }

  lemma EvalHeader(d: Document, k: string)
    requires k !in d.root
    ensures Eval(d, [Blank, Header([k])]) == Some(Document(d.root[k := Sub(map[], Headed)], [k]))
  {
    assert [Blank, Header([k])] == [Blank] + [Header([k])];
    EvalConcat(d, [Blank], [Header([k])]);
    EvalOne(d, Blank);
    EvalOne(d, Header([k]));
  }

  lemma PushedEval(d: Document, lines: seq<Line>)
    ensures Eval(d, Pushed(lines)) == Eval(d, lines)
  {
    EvalOne(d, Blank);
  }

  lemma WrittenNotBlank(entries: seq<Entry>)
    requires HasDirect(entries)
    ensures !AllBlank(Written(entries, []))
  {
    DirectIsNotBlank(entries, []);
    var a, b, c := DirectLines(entries), TableLines(entries, []), TableArrayLines(entries, []);
    if AllBlank(a + b + c) {
      forall i | 0 <= i < |a + c| ensures (a + c)[i].Blank? {
        assert (a + c)[i] == (a + b + c)[if i < |a| then i else i + |b|];
      }
    }
  }

  /** m with the entry e added, if e belongs to the given place and is kept. */
  function Joined(m: map<string, Toml>, e: Entry, place: Place): map<string, Toml>
  {
    if PlaceOf(e.value) == place then With(m, e.key, Kept(e.value, false)) else m
  }

  lemma JoinedPlus(m: map<string, Toml>, entries: seq<Entry>, place: Place)
    requires entries != []
    ensures m + At(entries, place) == Joined(m + At(Front(entries), place), Last(entries), place)
  {
  }

  lemma {:induction false} TableStep(d: Document, e: Entry)
    requires Proper(e.value) && Spellable(e.value) && (PlaceOf(e.value).AsTable? ==> e.key !in d.root)
    ensures var r := Eval(d, OneTable(e, []));
            r.Some? && RootMeaning(r.value.root) == Joined(RootMeaning(d.root), e, AsTable)
    decreases e, 1
  {
    if PlaceOf(e.value).AsTable? {
      OneTableEval(d.root, d.current, e);
    }
  }

  ghost predicate KeysFree(m: map<string, Toml>, entries: seq<Entry>, place: Place)
  {
    forall e :: e in entries && PlaceOf(e.value) == place ==> e.key !in m
  }

  lemma {:induction false} TablesEval(d: Document, entries: seq<Entry>)
    requires DistinctKeys(entries) && AllSpellable(entries) && KeysFree(RootMeaning(d.root), entries, AsTable)
    ensures var r := Eval(d, TableLines(entries, []));
            r.Some? && RootMeaning(r.value.root) == RootMeaning(d.root) + At(entries, AsTable)
    decreases entries, 0
  {
    if entries != [] {
      var e, rest := Last(entries), Front(entries);
      FrontEntries(entries);
      TablesEval(d, rest);
      var d' := Eval(d, TableLines(rest, [])).value;
      FreshKey(rest, e, AsTable);
      assert e in entries;
      TableStep(d', e);
      EvalConcat(d, TableLines(rest, []), OneTable(e, []));
      JoinedPlus(RootMeaning(d.root), entries, AsTable);
    }
  }

  // ----- entries of an array of tables -----------------------------------------------------

  function DottedLine(k: string, line: Line): Line
  {
    if line.KeyValue? then line.(key := [k] + line.key) else line
  }

  function DottedUnder(k: string, lines: seq<Line>): seq<Line>
  {
    if lines == [] then [] else DottedUnder(k, Front(lines)) + [DottedLine(k, Last(lines))]
  }

  lemma {:induction false} DottedConcat(k: string, a: seq<Line>, b: seq<Line>)
    ensures DottedUnder(k, a + b) == DottedUnder(k, a) + DottedUnder(k, b)
  {
    if b == [] {
      assert a + b == a;
    } else {
      DottedConcat(k, a, Front(b));
      assert Front(a + b) == a + Front(b);
    }
  }

  lemma {:induction false} FieldsDotted(k: string, key: seq<string>, entries: seq<Entry>)
    ensures FieldsLines([k] + key, entries) == DottedUnder(k, FieldsLines(key, entries))
    decreases entries
  {
    if entries != [] {
      var e := Last(entries);
      FieldsDotted(k, key, Front(entries));
      assert [k] + key + [e.key] == [k] + (key + [e.key]);
      FieldDotted(k, key + [e.key], e.value);
      DottedConcat(k, FieldsLines(key, Front(entries)), FieldLines(key + [e.key], e.value));
    }
  }

  lemma {:induction false} FieldDotted(k: string, key: seq<string>, v: Config)
    ensures FieldLines([k] + key, v) == DottedUnder(k, FieldLines(key, v))
    decreases v
  {
    var one := [KeyValue(key, v)];
    assert Front(one) == [] && DottedUnder(k, one) == [DottedLine(k, KeyValue(key, v))];
    if v.Record? {
      FieldsDotted(k, key, v.entries);
    }
  }

  lemma {:induction false} KeysStay(d: Document, lines: seq<Line>)
    requires OnlyKeys(lines) && Eval(d, lines).Some?
    ensures Eval(d, lines).value.current == d.current
  {
    if lines != [] {
      KeysStay(d, Front(lines));
    }
  }

  /** Dotted keys build the sub-table k the way plain keys build a document. */
  lemma {:induction false} EvalDotted(t: Root, k: string, lines: seq<Line>)
    requires k !in t && OnlyKeys(lines) && Eval(EMPTY, lines).Some?
    ensures Eval(Document(t, []), DottedUnder(k, lines)) ==
            Some(Document(if lines == [] then t else t[k := Sub(Eval(EMPTY, lines).value.root, Dotted)], []))
  {
    if lines != [] {
      var rest, line := Front(lines), Last(lines);
      EvalDotted(t, k, rest);
      KeysStay(EMPTY, rest);
      var s := Eval(EMPTY, rest).value.root;
      assert Eval(EMPTY, rest) == Some(Document(s, []));
      ReadDotted(t, k, s, line, rest == []);
      EvalSnoc(Document(t, []), DottedUnder(k, rest), DottedLine(k, line));
    }
  }

  lemma EvalSnoc(d: Document, lines: seq<Line>, line: Line)
    ensures Eval(d, lines + [line]) == match Eval(d, lines) { case None => None case Some(d') => Read(d', line) }
  {
    assert Front(lines + [line]) == lines;
  }

  lemma ReadDotted(t: Root, k: string, s: Root, line: Line, first: bool)
    requires k !in t && line.KeyValue? && Read(Document(s, []), line).Some? && (first ==> s == map[])
    ensures var before := if first then t else t[k := Sub(s, Dotted)];
            Read(Document(before, []), DottedLine(k, line)) ==
            Some(Document(t[k := Sub(Read(Document(s, []), line).value.root, Dotted)], []))
  {
    var s' := Read(Document(s, []), line).value.root;
    assert ([k] + line.key)[1..] == line.key;
    assert t[k := Sub(s, Dotted)][k := Sub(s', Dotted)] == t[k := Sub(s', Dotted)];
  }

  lemma {:induction false} FieldsEval(entries: seq<Entry>)
    requires DistinctKeys(entries) && AllSpellable(entries)
    ensures var r := Eval(EMPTY, FieldsLines([], entries));
            r.Some? && r.value.current == [] && RootMeaning(r.value.root) == Cleaned(entries, true)
    decreases entries
  {
    if entries != [] {
      var e, rest := Last(entries), Front(entries);
      FrontEntries(entries);
      FieldsEval(rest);
      var t := Eval(EMPTY, FieldsLines([], rest)).value.root;
      EvalConcat(EMPTY, FieldsLines([], rest), FieldLines([e.key], e.value));
      CleanedKeys(rest, true);
      assert [] + [e.key] == [e.key] && e.key !in RootMeaning(t);
      FieldEval(t, e);
    }
  }

  lemma {:induction false} CleanedKeys(entries: seq<Entry>, inItem: bool)
    ensures forall k :: k in Cleaned(entries, inItem) ==> exists e :: e in entries && e.key == k
  {
    if entries != [] {
      CleanedKeys(Front(entries), inItem);
      assert Last(entries) in entries;
    }
  }

  /** Dotted keys build the table they spell. */
  lemma DottedEval(t: Root, k: string, entries: seq<Entry>, s: Root)
    requires k !in t && Eval(EMPTY, FieldsLines([], entries)) == Some(Document(s, []))
    ensures var r := Eval(Document(t, []), FieldsLines([k], entries));
            && r.Some? && r.value.current == []
            && RootMeaning(r.value.root) ==
               if s == map[] then RootMeaning(t) else RootMeaning(t)[k := Table(RootMeaning(s))]
  {
    var lines := FieldsLines([], entries);
    FieldsAreKeys([], entries);
    assert [k] + [] == [k];
    FieldsDotted(k, [], entries);
    EvalDotted(t, k, lines);
    RootGrows(EMPTY, lines);
    assert lines != [] ==> !lines[0].Blank?;
    MeaningUpdate(t, k, Sub(s, Dotted));
  }

  lemma {:induction false} FieldEval(t: Root, e: Entry)
    requires Proper(e.value) && Spellable(e.value) && e.key !in t
    ensures var r := Eval(Document(t, []), FieldLines([e.key], e.value));
            && r.Some? && r.value.current == []
            && RootMeaning(r.value.root) == With(RootMeaning(t), e.key, Kept(e.value, true))
    decreases e
  {
    var k, v := e.key, e.value;
    if v.Record? && HasOnlyConfigKeys(v.entries) {
      FieldsEval(v.entries);
      DottedEval(t, k, v.entries, Eval(EMPTY, FieldsLines([], v.entries)).value.root);
    } else if !v.Null? {
      InlineDefined(v);
      KeyLineEval(t, k, v);
    }
  }

  /** Keys written after [[k]] go into the last table of the array. */
  lemma {:induction false} FieldsInside(t: Root, k: string, s: Root, lines: seq<Line>)
    requires k in t && Inside(t[k]) == Some(s) && OnlyKeys(lines) && Eval(Document(s, []), lines).Some?
    ensures Eval(Document(t, [k]), lines) ==
            Some(Document(t[k := Rebuilt(t[k], Eval(Document(s, []), lines).value.root)], [k]))
  {
    if lines == [] {
      assert Rebuilt(t[k], s) == t[k];
      assert t[k := t[k]] == t;
    } else {
      var rest, line := Front(lines), Last(lines);
      FieldsInside(t, k, s, rest);
      KeysStay(Document(s, []), rest);
      var s1 := Eval(Document(s, []), rest).value.root;
      var t1 := t[k := Rebuilt(t[k], s1)];
      var s2 := PutDotted(s1, line.key, Inline(line.value).value).value;
      assert Inside(t1[k]) == Some(s1) && [k][1..] == [];
      assert Rebuilt(t1[k], s2) == Rebuilt(t[k], s2);
      assert t1[k := Rebuilt(t1[k], s2)] == t[k := Rebuilt(t[k], s2)];
    }
  }

  ghost predicate ItemsMean(nodes: seq<Node>, items: seq<Config>)
    requires AllRecords(items)
  {
    |nodes| == |items| && forall i :: 0 <= i < |items| ==>
      nodes[i].Sub? && nodes[i].origin.Headed? && Meaning(nodes[i]) == Table(Cleaned(items[i].entries, true))
  }

  lemma ItemHeaderEval(d: Document, k: string, nodes: seq<Node>)
    requires if nodes == [] then k !in d.root else k in d.root && d.root[k] == Items(nodes)
    ensures Eval(d, [Blank, ItemHeader([k])]) ==
            Some(Document(d.root[k := Items(nodes + [Sub(map[], Headed)])], [k]))
  {
    assert [Blank, ItemHeader([k])] == [Blank] + [ItemHeader([k])];
    EvalConcat(d, [Blank], [ItemHeader([k])]);
    EvalOne(d, Blank);
    EvalOne(d, ItemHeader([k]));
    assert [] + [Sub(map[], Headed)] == [Sub(map[], Headed)];
  }

  /** The document after these items of the array. */
  function WithItems(t: Root, current: seq<string>, k: string, nodes: seq<Node>): Document
  {
    if nodes == [] then Document(t, current) else Document(t[k := Items(nodes)], [k])
  }

  lemma {:induction false} ItemsEval(t: Root, current: seq<string>, k: string, items: seq<Config>)
    returns (nodes: seq<Node>)
    requires AllRecords(items) && k !in t
    requires forall i | 0 <= i < |items| :: Proper(items[i]) && Spellable(items[i])
    ensures ItemsMean(nodes, items)
    ensures Eval(Document(t, current), ItemLines([k], items)) == Some(WithItems(t, current, k, nodes))
    decreases |items|
  {
    nodes := [];
    if items != [] {
      var rest := Front(items);
      nodes := ItemsEval(t, current, k, rest);
      var s := OneItemEval(t, current, k, nodes, Last(items).entries);
      EvalConcat(Document(t, current), ItemLines([k], rest),
                 [Blank, ItemHeader([k])] + FieldsLines([], Last(items).entries));
      ItemMeans(nodes, items, s);
      nodes := nodes + [Sub(s, Headed)];
    }
  }

  lemma ItemMeans(nodes: seq<Node>, items: seq<Config>, s: Root)
    requires items != [] && AllRecords(items) && ItemsMean(nodes, Front(items))
    requires RootMeaning(s) == Cleaned(Last(items).entries, true)
    ensures ItemsMean(nodes + [Sub(s, Headed)], items)
  {
    assert Meaning(Sub(s, Headed)) == Table(RootMeaning(s));
  }

  lemma RebuiltItem(t: Root, k: string, nodes: seq<Node>, s: Root)
    ensures var node := Items(nodes + [Sub(map[], Headed)]);
            && Inside(node) == Some(map[])
            && t[k := node][k := Rebuilt(node, s)] == t[k := Items(nodes + [Sub(s, Headed)])]
  {
    assert Front(nodes + [Sub(map[], Headed)]) == nodes;
  }

  lemma ItemFieldsEval(t: Root, k: string, nodes: seq<Node>, fields: seq<Entry>) returns (s: Root)
    requires DistinctKeys(fields) && AllSpellable(fields)
    ensures RootMeaning(s) == Cleaned(fields, true)
    ensures Eval(Document(t[k := Items(nodes + [Sub(map[], Headed)])], [k]), FieldsLines([], fields)) ==
            Some(Document(t[k := Items(nodes + [Sub(s, Headed)])], [k]))
  {
    var lines := FieldsLines([], fields);
    FieldsEval(fields);
    FieldsAreKeys([], fields);
    s := Eval(EMPTY, lines).value.root;
    RebuiltItem(t, k, nodes, s);
    FieldsInside(t[k := Items(nodes + [Sub(map[], Headed)])], k, map[], lines);
  }

  /** One more entry of the array. */
  lemma OneItemEval(t: Root, current: seq<string>, k: string, nodes: seq<Node>, fields: seq<Entry>) returns (s: Root)
    requires k !in t && DistinctKeys(fields) && AllSpellable(fields)
    ensures RootMeaning(s) == Cleaned(fields, true)
    ensures Eval(WithItems(t, current, k, nodes), [Blank, ItemHeader([k])] + FieldsLines([], fields)) ==
            Some(WithItems(t, current, k, nodes + [Sub(s, Headed)]))
  {
    var d := WithItems(t, current, k, nodes);
    ItemHeaderEval(d, k, nodes);
    s := ItemFieldsEval(t, k, nodes, fields);
    EvalConcat(d, [Blank, ItemHeader([k])], FieldsLines([], fields));
    assert d.root[k := Items(nodes + [Sub(map[], Headed)])] == t[k := Items(nodes + [Sub(map[], Headed)])];
  }

  lemma OneTableArrayEval(t: Root, current: seq<string>, e: Entry)
    requires PlaceOf(e.value).AsTableArray? && Proper(e.value) && Spellable(e.value) && e.key !in t
    ensures var r := Eval(Document(t, current), OneTableArray(e, []));
            r.Some? && RootMeaning(r.value.root) == With(RootMeaning(t), e.key, Kept(e.value, false))
  {
    var items := e.value.items;
    var nodes := ItemsEval(t, current, e.key, items);
    assert [] + [e.key] == [e.key];
    MeaningUpdate(t, e.key, Items(nodes));
    var want := Kept(e.value, false).value.items;
    assert Meaning(Items(nodes)).items == want by {
      assert forall i :: 0 <= i < |items| ==> Meaning(nodes[i]) == want[i];
    }
  }

  lemma TableArrayStep(d: Document, e: Entry)
    requires Proper(e.value) && Spellable(e.value) && (PlaceOf(e.value).AsTableArray? ==> e.key !in d.root)
    ensures var r := Eval(d, OneTableArray(e, []));
            r.Some? && RootMeaning(r.value.root) == Joined(RootMeaning(d.root), e, AsTableArray)
  {
    if PlaceOf(e.value).AsTableArray? {
      OneTableArrayEval(d.root, d.current, e);
    }
  }

  lemma {:induction false} TableArraysEval(d: Document, entries: seq<Entry>)
    requires DistinctKeys(entries) && AllSpellable(entries) && KeysFree(RootMeaning(d.root), entries, AsTableArray)
    ensures var r := Eval(d, TableArrayLines(entries, []));
            r.Some? && RootMeaning(r.value.root) == RootMeaning(d.root) + At(entries, AsTableArray)
  {
    if entries != [] {
      var e, rest := Last(entries), Front(entries);
      FrontEntries(entries);
      TableArraysEval(d, rest);
      var d' := Eval(d, TableArrayLines(rest, [])).value;
      FreshKey(rest, e, AsTableArray);
      assert e in entries;
      TableArrayStep(d', e);
      EvalConcat(d, TableArrayLines(rest, []), OneTableArray(e, []));
      JoinedPlus(RootMeaning(d.root), entries, AsTableArray);
    }
  }

  // ----- the law ---------------------------------------------------------------------------

  lemma PlacesApart(entries: seq<Entry>, a: Place, b: Place)
    requires DistinctKeys(entries) && a != b
    ensures KeysFree(At(entries, a), entries, b)
  {
    AtKeys(entries, a);
  }

  /** Read from the top, the lines of a configuration without nulls in its arrays make
      a document, and its meaning is the configuration with the nulls and the empty
      config tables left out: no key is misplaced, no header defined twice. */
  lemma {:induction false} WrittenMeans(entries: seq<Entry>)
    requires DistinctKeys(entries) && AllSpellable(entries)
    ensures var r := Eval(EMPTY, Written(entries, []));
            r.Some? && RootMeaning(r.value.root) == Cleaned(entries, false)
    decreases entries, 1
  {
    var a, b, c := DirectLines(entries), TableLines(entries, []), TableArrayLines(entries, []);
    DirectEval(entries);
    var d := Eval(EMPTY, a).value;
    PlacesApart(entries, Direct, AsTable);
    TablesEval(d, entries);
    var d1 := Eval(d, b).value;
    PlacesApart(entries, Direct, AsTableArray);
    PlacesApart(entries, AsTable, AsTableArray);
    TableArraysEval(d1, entries);
    EvalConcat(EMPTY, a, b);
    EvalConcat(EMPTY, a + b, c);
    CleanedByPlace(entries);
  }

  // ----- a null in an array is the only obstacle ---------------------------------------------

  ghost predicate HasUnspellable(lines: seq<Line>)
  {
    exists i :: 0 <= i < |lines| && lines[i].KeyValue? && Inline(lines[i].value).None?
  }

  lemma {:induction false} UnspellableFails(d: Document, lines: seq<Line>)
    requires HasUnspellable(lines)
    ensures Eval(d, lines).None?
  {
    var i :| 0 <= i < |lines| && lines[i].KeyValue? && Inline(lines[i].value).None?;
    if i < |lines| - 1 {
      assert Front(lines)[i] == lines[i];
      UnspellableFails(d, Front(lines));
    }
  }

  lemma UnspellablePart(a: seq<Line>, b: seq<Line>, c: seq<Line>)
    requires HasUnspellable(b)
    ensures HasUnspellable(a + b + c)
  {
    var i :| 0 <= i < |b| && b[i].KeyValue? && Inline(b[i].value).None?;
    assert (a + b + c)[|a| + i] == b[i];
  }

  lemma {:induction false} UnspellableField(key: seq<string>, v: Config)
    requires !Spellable(v)
    ensures HasUnspellable(FieldLines(key, v))
    decreases v
  {
    if v.Record? && HasOnlyConfigKeys(v.entries) {
      UnspellableFields(key, v.entries);
    } else {
      InlineDefined(v);
      assert FieldLines(key, v)[0] == KeyValue(key, v);
    }
  }

  lemma {:induction false} UnspellableFields(key: seq<string>, entries: seq<Entry>)
    requires !AllSpellable(entries)
    ensures HasUnspellable(FieldsLines(key, entries))
    decreases entries
  {
    var e, rest := Last(entries), Front(entries);
    var a, b := FieldsLines(key, rest), FieldLines(key + [e.key], e.value);
    if !Spellable(e.value) {
      UnspellableField(key + [e.key], e.value);
      UnspellablePart(a, b, []);
      assert a + b + [] == a + b;
    } else {
      UnspellableFields(key, rest);
      UnspellablePart([], a, b);
      assert [] + a + b == a + b;
    }
  }

  lemma {:induction false} UnspellableItems(path: seq<string>, items: seq<Config>, i: nat)
    requires AllRecords(items) && i < |items| && !Spellable(items[i])
    ensures HasUnspellable(ItemLines(path, items))
    decreases |items|
  {
    var a, head := ItemLines(path, Front(items)), [Blank, ItemHeader(path)];
    var fields := FieldsLines([], Last(items).entries);
    if i == |items| - 1 {
      UnspellableFields([], Last(items).entries);
      UnspellablePart(a + head, fields, []);
      assert a + head + fields + [] == a + (head + fields);
    } else {
      UnspellableItems(path, Front(items), i);
      UnspellablePart([], a, head + fields);
      assert [] + a + (head + fields) == a + (head + fields);
    }
  }

  lemma UnspellableJoin(a: seq<Line>, b: seq<Line>, c: seq<Line>)
    requires HasUnspellable(a) || HasUnspellable(b) || HasUnspellable(c)
    ensures HasUnspellable(a + b + c)
  {
    if HasUnspellable(a) {
      UnspellablePart([], a, b + c);
      assert [] + a + (b + c) == a + b + c;
    } else if HasUnspellable(b) {
      UnspellablePart(a, b, c);
    } else {
      UnspellablePart(a + b, c, []);
      assert a + b + c + [] == a + b + c;
    }
  }

  lemma {:induction false} UnspellableWritten(entries: seq<Entry>, prefix: seq<string>)
    requires !AllSpellable(entries)
    ensures HasUnspellable(Written(entries, prefix))
    decreases entries, 1
  {
    var i :| 0 <= i < |entries| && !Spellable(entries[i].value);
    UnspellableAt(entries, prefix, i);
    UnspellableJoin(DirectLines(entries), TableLines(entries, prefix), TableArrayLines(entries, prefix));
  }

  lemma {:induction false} UnspellableAt(entries: seq<Entry>, prefix: seq<string>, i: nat)
    requires i < |entries| && !Spellable(entries[i].value)
    ensures HasUnspellable(DirectLines(entries)) || HasUnspellable(TableLines(entries, prefix))
            || HasUnspellable(TableArrayLines(entries, prefix))
    decreases entries, 0
  {
    var e, rest := Last(entries), Front(entries);
    var a, b, c := DirectLines(rest), TableLines(rest, prefix), TableArrayLines(rest, prefix);
    var a1, b1, c1 := DirectLine(e), OneTable(e, prefix), OneTableArray(e, prefix);
    if i < |entries| - 1 {
      UnspellableAt(rest, prefix, i);
      assert [] + a + a1 == a + a1 && [] + b + b1 == b + b1 && [] + c + c1 == c + c1;
      if HasUnspellable(a) { UnspellablePart([], a, a1); }
      if HasUnspellable(b) { UnspellablePart([], b, b1); }
      if HasUnspellable(c) { UnspellablePart([], c, c1); }
    } else {
      assert a + a1 + [] == a + a1 && b + b1 + [] == b + b1 && c + c1 + [] == c + c1;
      match PlaceOf(e.value)
      case Direct =>
        InlineDefined(e.value);
        assert a1[0] == KeyValue([e.key], e.value);
        UnspellablePart(a, a1, []);
      case AsTable =>
        var content := Written(e.value.entries, prefix + [e.key]);
        UnspellableWritten(e.value.entries, prefix + [e.key]);
        UnspellablePart(HeaderLines(e, prefix), content, []);
        assert HeaderLines(e, prefix) + content + [] == b1;
        UnspellablePart(b, b1, []);
      case AsTableArray =>
        var j :| 0 <= j < |e.value.items| && !Spellable(e.value.items[j]);
        UnspellableItems(prefix + [e.key], e.value.items, j);
        UnspellablePart(c, c1, []);
      case Nowhere =>
    }
  }

  /** The lines can be read back exactly when no array holds a null. */
  lemma ReadableIff(entries: seq<Entry>)
    requires DistinctKeys(entries)
    ensures Eval(EMPTY, Written(entries, [])).Some? <==> AllSpellable(entries)
  {
    if AllSpellable(entries) {
      WrittenMeans(entries);
    } else {
      UnspellableWritten(entries, []);
      UnspellableFails(EMPTY, Written(entries, []));
    }
  }

  /** One that cannot. */
  lemma NullInArrayIsUnreadable()
    ensures var entries := [Entry("channels", List([Null]))];
            DistinctKeys(entries) && Eval(EMPTY, Written(entries, [])).None?
  {
    var entries := [Entry("channels", List([Null]))];
    assert entries[0].value.items[0] == Null;
    assert !Spellable(entries[0].value);
    ReadableIff(entries);
  }
}
