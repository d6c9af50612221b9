/**
 The text a save writes, processor/internal/config/toml_encode.go, and what the next start
 reads from it.  Each section is written on its own, the ones in SectionOrder first.  A
 value that is no table has no header: it is written as a key, and a key belongs to the
 table whose header came last (TOML v1.0.0, section "Table").
 */
module ConfigText {
  import opened Wrappers
  import opened ConfigSave
  import opened ConfigForm

  // ----- the order of the sections ------------------------------------------------------------

  const SECTION_ORDER: seq<string> :=
    ["processor", "database", "geofence", "discord", "telegram", "general", "locale", "logging", "webhookLogging"]

  function RankIn(order: seq<string>, name: string): nat
  {
    if order == [] || order[0] == name then 0 else 1 + RankIn(order[1..], name)
  }

  function Rank(name: string): nat
  {
    RankIn(SECTION_ORDER, name)
  }

  /** The order of sort.Strings. */
  predicate Less(a: string, b: string)
  {
    b != "" && (a == "" || a[0] < b[0] || (a[0] == b[0] && Less(a[1..], b[1..])))
  }

  predicate Before(a: string, b: string)
  {
    Rank(a) < Rank(b) || (Rank(a) == Rank(b) && Less(a, b))
  }

  /** The names of the sections as they are written. */
  ghost predicate IsOrder(order: seq<string>, raw: Fields)
  {
    && (forall k :: k in order <==> k in raw)
    && forall i, j :: 0 <= i < j < |order| ==> Before(order[i], order[j])
  }

  predicate Sorted(names: seq<string>)
  {
    forall i, j :: 0 <= i < j < |names| ==> Less(names[i], names[j])
  }

  lemma {:induction false} LessAfter(a: string, b: string, c: string)
    requires Less(a, b) && Less(b, c)
    ensures Less(a, c)
  {
    if a != "" && a[0] == b[0] == c[0] {
      LessAfter(a[1..], b[1..], c[1..]);
    }
  }

  lemma {:induction false} OneIsLess(a: string, b: string)
    requires a != b
    ensures Less(a, b) || Less(b, a)
  {
    if a != "" && b != "" && a[0] == b[0] {
      assert a == [a[0]] + a[1..] && b == [b[0]] + b[1..];
      OneIsLess(a[1..], b[1..]);
    }
  }

  method Insert(names: seq<string>, name: string) returns (more: seq<string>)
    requires Sorted(names) && name !in names
    ensures Sorted(more) && forall k :: k in more <==> k in names || k == name
  {
    var i := 0;
    while i < |names| && Less(names[i], name)
      invariant i <= |names| && forall j :: 0 <= j < i ==> Less(names[j], name)
    {
      i := i + 1;
    }
    more := names[..i] + [name] + names[i..];
    forall j | i <= j < |names| ensures Less(name, names[j]) {
      OneIsLess(name, names[i]);
      if i < j {
        LessAfter(name, names[i], names[j]);
      }
    }
    assert names == names[..i] + names[i..];
  }

  /** sort.Strings of what is not in SectionOrder. */
  method SortedTail(names: set<string>) returns (tail: seq<string>)
    ensures Sorted(tail) && forall k :: k in tail <==> k in names
  {
    tail := [];
    var todo := names;
    while todo != {}
      invariant todo <= names && Sorted(tail) && forall k :: k in tail <==> k in names - todo
    {
      var k :| k in todo;
      tail := Insert(tail, k);
      todo := todo - {k};
    }
  }

  lemma {:induction false} RankFinds(order: seq<string>, i: nat)
    requires i < |order| && forall j, k :: 0 <= j < k < |order| ==> order[j] != order[k]
    ensures RankIn(order, order[i]) == i
  {
    if i > 0 {
      RankFinds(order[1..], i - 1);
    }
  }

  lemma {:induction false} RankOfOthers(order: seq<string>, name: string)
    ensures name in order <==> RankIn(order, name) < |order|
    ensures RankIn(order, name) <= |order|
    ensures name in order ==> order[RankIn(order, name)] == name
  {
    if order != [] && order[0] != name {
      RankOfOthers(order[1..], name);
    }
  }

  method PriorityNames(raw: Fields) returns (order: seq<string>)
    ensures forall k :: k in order <==> k in raw && k in SECTION_ORDER
    ensures forall a, b :: 0 <= a < b < |order| ==> Rank(order[a]) < Rank(order[b])
    ensures forall a :: 0 <= a < |order| ==> Rank(order[a]) < |SECTION_ORDER|
  {
    order := [];
    for i := 0 to |SECTION_ORDER|
      invariant forall k :: k in order <==> k in raw && k in SECTION_ORDER[..i]
      invariant forall a, b :: 0 <= a < b < |order| ==> Rank(order[a]) < Rank(order[b])
      invariant forall a :: 0 <= a < |order| ==> Rank(order[a]) < i
    {
      RankFinds(SECTION_ORDER, i);
      if SECTION_ORDER[i] in raw {
        order := order + [SECTION_ORDER[i]];
      }
    }
    assert SECTION_ORDER[..|SECTION_ORDER|] == SECTION_ORDER;
  }

  /** EncodeOrderedTOML: the priority list, and then the rest by name. */
  method WriteOrder(raw: Fields) returns (order: seq<string>)
    ensures IsOrder(order, raw)
  {
    order := PriorityNames(raw);
    var tail := SortedTail(set k | k in raw && k !in SECTION_ORDER);
    forall k | k in tail ensures Rank(k) == |SECTION_ORDER| {
      RankOfOthers(SECTION_ORDER, k);
    }
    order := order + tail;
  }

  // ----- headers and keys ----------------------------------------------------------------------

  /** Written with headers of its own. */
  predicate Opens(v: Value)
  {
    v.Table? || (v.List? && v.items != [] && forall i :: 0 <= i < |v.items| ==> v.items[i].Table?)
  }

  /** Written as a key without a header; a null is not written. */
  predicate Stray(v: Value)
  {
    !v.Null? && !Opens(v)
  }

  /** The table that is open when v has been written: plain keys come first and sub-tables
      after them, sorted by name. */
  ghost predicate LeftOpen(v: Value, path: seq<string>)
    decreases |path|, v
  {
    match v
    case Table(fields) =>
      if path == [] then forall k :: k in fields ==> !Opens(fields[k])
      else
        && path[0] in fields && Opens(fields[path[0]]) && LeftOpen(fields[path[0]], path[1..])
        && forall k :: k in fields && Opens(fields[k]) ==> k == path[0] || Less(k, path[0])
    case List(items) => Opens(v) && LeftOpen(items[|items| - 1], path)
    case _ => false
  }

  ghost function OpenTable(v: Value, path: seq<string>): Fields
    requires LeftOpen(v, path)
    decreases |path|, v
  {
    match v
    case Table(fields) => if path == [] then fields else OpenTable(fields[path[0]], path[1..])
    case List(items) => OpenTable(items[|items| - 1], path)
  }

  /** v with keys added to the table that is open. */
  ghost function WithKeys(v: Value, path: seq<string>, more: Fields): (r: Value)
    requires LeftOpen(v, path)
    ensures r.Table? <==> v.Table?
    decreases |path|, v
  {
    match v
    case Table(fields) =>
      if path == [] then Table(fields + more)
      else Table(fields[path[0] := WithKeys(fields[path[0]], path[1..], more)])
    case List(items) => List(items[..|items| - 1] + [WithKeys(items[|items| - 1], path, more)])
  }

  /** Where each section leaves off. */
  ghost predicate Layout(raw: Fields, at: string -> seq<string>)
  {
    forall s :: s in raw && Opens(raw[s]) ==> LeftOpen(raw[s], at(s))
  }

  /** The last of these sections that has headers. */
  function LastOpen(raw: Fields, names: seq<string>): Option<string>
    requires forall k :: k in names ==> k in raw
  {
    if names == [] then None
    else
      var n := |names| - 1;
      if Opens(raw[names[n]]) then Some(names[n]) else LastOpen(raw, names[..n])
  }

  /** The section whose table is open where a name is written. */
  function HostOf(raw: Fields, order: seq<string>, name: string): Option<string>
    requires forall k :: k in order ==> k in raw
  {
    if order == [] then None
    else
      var n := |order| - 1;
      if order[n] == name then LastOpen(raw, order[..n]) else HostOf(raw, order[..n], name)
  }

  /** The stray keys that the section s takes in. */
  function Guests(raw: Fields, order: seq<string>, s: string): Fields
    requires forall k :: k in order ==> k in raw
  {
    map t | t in raw && Stray(raw[t]) && HostOf(raw, order, t) == Some(s) :: raw[t]
  }

  /** A stray key meets its own name: the text defines it twice. */
  ghost predicate Clash(raw: Fields, order: seq<string>, at: string -> seq<string>)
    requires Layout(raw, at) && forall k :: k in order ==> k in raw
  {
    exists s, t :: s in raw && Opens(raw[s]) && t in Guests(raw, order, s) && Has(OpenTable(raw[s], at(s)), t)
  }

  predicate Has(fields: Fields, k: string)
  {
    k in fields && !fields[k].Null?
  }

  /** The sections that toml.Unmarshal makes of the text. */
  ghost function Reread(raw: Fields, order: seq<string>, at: string -> seq<string>): Fields
    requires Layout(raw, at) && forall k :: k in order ==> k in raw
  {
    map s | s in raw && (Opens(raw[s]) || (Stray(raw[s]) && HostOf(raw, order, s).None?)) ::
      if Opens(raw[s]) then WithKeys(raw[s], at(s), Guests(raw, order, s)) else raw[s]
  }

  /** On the path of a section there is nothing but tables. */
  predicate PathLoads(raw: Fields, path: seq<string>)
    decreases |path|
  {
    path == [] || path[0] !in raw || raw[path[0]].Null?
    || (raw[path[0]].Table? && PathLoads(raw[path[0]].fields, path[1..]))
  }

  predicate Loadable(raw: Fields, c: Schema)
  {
    forall s :: s in c.sections ==> PathLoads(raw, Parts(s))
  }

  ghost predicate Loads(raw: Fields, order: seq<string>, at: string -> seq<string>, c: Schema)
    requires Layout(raw, at) && forall k :: k in order ==> k in raw
  {
    !Clash(raw, order, at) && Loadable(Reread(raw, order, at), c)
  }

  /** What the next start reads for a field, if it reads the file at all. */
  ghost function Loaded(raw: Fields, order: seq<string>, at: string -> seq<string>, c: Schema, section: string,
                        field: string): Option<Value>
    requires Layout(raw, at) && forall k :: k in order ==> k in raw
  {
    if Loads(raw, order, at, c) then Some(Effective(Reread(raw, order, at), c, section, field)) else None
  }

  // ----- files of tables -------------------------------------------------------------------------

  ghost predicate NoStrays(raw: Fields)
  {
    forall s :: s in raw ==> !Stray(raw[s])
  }

  lemma {:induction false} WithoutGuests(v: Value, path: seq<string>)
    requires LeftOpen(v, path)
    ensures WithKeys(v, path, map[]) == v
    decreases |path|, v
  {
    match v
    case Table(fields) =>
      if path == [] {
        assert fields + map[] == fields;
      } else {
        WithoutGuests(fields[path[0]], path[1..]);
        assert fields[path[0] := fields[path[0]]] == fields;
      }
    case List(items) =>
      WithoutGuests(items[|items| - 1], path);
      assert items == items[..|items| - 1] + [items[|items| - 1]];
    case _ =>
  }

  function Written(raw: Fields): Fields
  {
    map s | s in raw && !raw[s].Null? :: raw[s]
  }

  /** A file of nothing but tables is read as it was. */
  lemma TablesComeBack(raw: Fields, order: seq<string>, at: string -> seq<string>)
    requires Layout(raw, at) && IsOrder(order, raw) && NoStrays(raw)
    ensures !Clash(raw, order, at) && Reread(raw, order, at) == Written(raw)
  {
    forall s | s in raw && Opens(raw[s]) ensures WithKeys(raw[s], at(s), Guests(raw, order, s)) == raw[s] {
      assert Guests(raw, order, s) == map[];
      WithoutGuests(raw[s], at(s));
    }
  }

  // ----- stray keys ---------------------------------------------------------------------------------

  /** Keys are added, and none that was there is lost. */
  ghost predicate Free(v: Value, path: seq<string>, more: Fields)
    requires LeftOpen(v, path)
  {
    forall k :: k in more ==> Stray(more[k]) && !Has(OpenTable(v, path), k)
  }

  function Plain(fields: Fields, f: string): bool
  {
    f in fields ==> !Opens(fields[f])
  }

  function FieldsOf(v: Value): Fields
  {
    if v.Table? then v.fields else map[]
  }

  /** A plain field of another name reads the same with the added keys. */
  lemma {:induction false} OthersRead(v: Value, path: seq<string>, more: Fields, q: seq<string>, f: string)
    requires LeftOpen(v, path) && Free(v, path, more) && f !in more && Plain(TableAtPath(FieldsOf(v), q), f)
    ensures Lookup(TableAtPath(FieldsOf(WithKeys(v, path, more)), q), f) == Lookup(TableAtPath(FieldsOf(v), q), f)
    decreases |q|
  {
    if v.Table? && q != [] {
      var before, after := v.fields, WithKeys(v, path, more).fields;
      if path != [] && q[0] == path[0] {
        assert FieldsIn(before, q[0]) == FieldsOf(before[q[0]]);
        assert FieldsIn(after, q[0]) == FieldsOf(WithKeys(before[q[0]], path[1..], more));
        OthersRead(before[q[0]], path[1..], more, q[1..], f);
      } else {
        SameBelow(v, path, more, q[0]);
      }
    }
  }

  lemma SameBelow(v: Value, path: seq<string>, more: Fields, k: string)
    requires v.Table? && LeftOpen(v, path) && Free(v, path, more) && (path == [] || k != path[0])
    ensures FieldsIn(WithKeys(v, path, more).fields, k) == FieldsIn(v.fields, k)
  {
  }

  /** With the added keys the path is as it was, when none of them lies on it. */
  lemma {:induction false} OthersLoad(v: Value, path: seq<string>, more: Fields, q: seq<string>)
    requires LeftOpen(v, path) && Free(v, path, more) && forall k :: k in q ==> k !in more
    ensures PathLoads(FieldsOf(WithKeys(v, path, more)), q) <==> PathLoads(FieldsOf(v), q)
    decreases |q|
  {
    if v.Table? && q != [] {
      var before, after := v.fields, WithKeys(v, path, more).fields;
      assert q[0] in q;
      forall k | k in q[1..] ensures k !in more {
        assert k in q;
      }
      if path != [] && q[0] == path[0] {
        OthersLoad(before[q[0]], path[1..], more, q[1..]);
        assert after[q[0]] == WithKeys(before[q[0]], path[1..], more);
      } else {
        assert q[0] in before <==> q[0] in after;
      }
    }
  }

  lemma GuestsAreFree(raw: Fields, order: seq<string>, at: string -> seq<string>, s: string)
    requires Layout(raw, at) && IsOrder(order, raw) && !Clash(raw, order, at) && s in raw && Opens(raw[s])
    ensures Free(raw[s], at(s), Guests(raw, order, s))
  {
  }

  ghost predicate IsStray(raw: Fields, k: string)
  {
    k in raw && Stray(raw[k])
  }

  lemma TableAtStep(raw: Fields, path: seq<string>)
    requires path != []
    ensures TableAtPath(raw, path) == TableAtPath(FieldsIn(raw, path[0]), path[1..])
  {
  }

  /** A plain field whose name is none of the stray keys reads as it would in a file that
      kept each section apart. */
  lemma StraysTouchNothingElse(
    raw: Fields, order: seq<string>, at: string -> seq<string>, c: Schema, section: string, field: string)
    requires Layout(raw, at) && IsOrder(order, raw) && !Clash(raw, order, at)
    requires !IsStray(raw, field) && Plain(TableAtPath(raw, Parts(section)), field)
    ensures Effective(Reread(raw, order, at), c, section, field) == Effective(raw, c, section, field)
  {
    var path, m := Parts(section), Reread(raw, order, at);
    var s := path[0];
    TableAtStep(raw, path);
    TableAtStep(m, path);
    if s in raw && raw[s].Table? {
      GuestsAreFree(raw, order, at, s);
      OthersRead(raw[s], at(s), Guests(raw, order, s), path[1..], field);
      assert Lookup(TableAtPath(m, path), field) == Lookup(TableAtPath(raw, path), field);
    } else {
      assert FieldsIn(m, s) == map[] == FieldsIn(raw, s);
    }
  }

  lemma SectionLoads(raw: Fields, order: seq<string>, at: string -> seq<string>, path: seq<string>)
    requires Layout(raw, at) && IsOrder(order, raw) && !Clash(raw, order, at)
    requires path != [] && forall k :: k in path[1..] ==> k !in Guests(raw, order, path[0])
    ensures PathLoads(Reread(raw, order, at), path) <==>
            if IsStray(raw, path[0]) then HostOf(raw, order, path[0]).Some? else PathLoads(raw, path)
  {
    var s, m := path[0], Reread(raw, order, at);
    if s in raw && raw[s].Table? {
      GuestsAreFree(raw, order, at, s);
      OthersLoad(raw[s], at(s), Guests(raw, order, s), path[1..]);
      assert m[s] == WithKeys(raw[s], at(s), Guests(raw, order, s));
    }
  }

  /** A stray key with the name of an inner part, such as discord in
      reconciliation.discord, is written in front of the outer one. */
  ghost predicate InnerNamesFree(raw: Fields, c: Schema)
  {
    forall s, k :: s in c.sections && k in Parts(s)[1..] && IsStray(raw, k) ==> Before(k, Parts(s)[0])
  }

  lemma {:induction false} LessIsStrict(a: string)
    ensures !Less(a, a)
  {
    if a != "" {
      LessIsStrict(a[1..]);
    }
  }

  lemma BeforeIsStrict(a: string, b: string)
    requires Before(a, b)
    ensures !Before(b, a) && a != b
  {
    LessIsStrict(a);
    if Less(a, b) && Less(b, a) {
      LessAfter(a, b, a);
    }
  }

  lemma {:induction false} OpenIsAmong(raw: Fields, names: seq<string>)
    requires forall k :: k in names ==> k in raw
    ensures LastOpen(raw, names).Some? ==> LastOpen(raw, names).value in names
  {
    if names != [] {
      OpenIsAmong(raw, names[..|names| - 1]);
    }
  }

  lemma {:induction false} HostComesFirst(raw: Fields, order: seq<string>, t: string)
    requires (forall k :: k in order ==> k in raw) && forall i, j :: 0 <= i < j < |order| ==> Before(order[i], order[j])
    ensures HostOf(raw, order, t).Some? ==> Before(HostOf(raw, order, t).value, t)
  {
    if order != [] {
      var n := |order| - 1;
      OpenIsAmong(raw, order[..n]);
      HostComesFirst(raw, order[..n], t);
    }
  }

  lemma InnerIsNoGuest(raw: Fields, order: seq<string>, c: Schema, section: string)
    requires IsOrder(order, raw) && InnerNamesFree(raw, c) && section in c.sections
    ensures forall k :: k in Parts(section)[1..] ==> k !in Guests(raw, order, Parts(section)[0])
  {
    forall k | k in Parts(section)[1..] && k in Guests(raw, order, Parts(section)[0]) ensures false {
      HostComesFirst(raw, order, k);
      assert IsStray(raw, k);
      BeforeIsStrict(k, Parts(section)[0]);
    }
  }

  /** The loader reads a file exactly when no stray key meets its own name and every
      section has tables on its path, or is a stray key behind some header. */
  lemma LoadsIff(raw: Fields, order: seq<string>, at: string -> seq<string>, c: Schema)
    requires Layout(raw, at) && IsOrder(order, raw) && InnerNamesFree(raw, c)
    ensures Loads(raw, order, at, c) <==>
            && !Clash(raw, order, at)
            && forall s :: s in c.sections ==>
                 if IsStray(raw, Parts(s)[0]) then HostOf(raw, order, Parts(s)[0]).Some? else PathLoads(raw, Parts(s))
  {
    if !Clash(raw, order, at) {
      forall s | s in c.sections
        ensures PathLoads(Reread(raw, order, at), Parts(s)) <==>
                if IsStray(raw, Parts(s)[0]) then HostOf(raw, order, Parts(s)[0]).Some? else PathLoads(raw, Parts(s))
      {
        InnerIsNoGuest(raw, order, c, s);
        SectionLoads(raw, order, at, Parts(s));
      }
    }
  }

  // ----- behind the database -------------------------------------------------------------------

  lemma {:induction false} SomethingOpen(raw: Fields, names: seq<string>, i: nat)
    requires i < |names| && (forall k :: k in names ==> k in raw) && Opens(raw[names[i]])
    ensures LastOpen(raw, names).Some?
  {
    var n := |names| - 1;
    if i < n {
      SomethingOpen(raw, names[..n], i);
    }
  }

  lemma {:induction false} HostBehind(raw: Fields, order: seq<string>, i: nat, j: nat)
    requires (forall k :: k in order ==> k in raw) && forall a, b :: 0 <= a < b < |order| ==> order[a] != order[b]
    requires i < j < |order| && Opens(raw[order[i]])
    ensures HostOf(raw, order, order[j]).Some?
  {
    var n := |order| - 1;
    if j < n {
      HostBehind(raw, order[..n], i, j);
    } else {
      SomethingOpen(raw, order[..n], i);
    }
  }

  lemma OrderIsDistinct(order: seq<string>, raw: Fields)
    requires IsOrder(order, raw)
    ensures forall i, j :: 0 <= i < j < |order| ==> order[i] != order[j]
  {
    forall i, j | 0 <= i < j < |order| ensures order[i] != order[j] {
      BeforeIsStrict(order[i], order[j]);
    }
  }

  lemma RankBehindDatabase(name: string)
    requires name != "processor" && name != "database"
    ensures Rank("database") == 1 < Rank(name)
  {
    assert SECTION_ORDER[1..][0] == "database";
    assert RankIn(SECTION_ORDER, "database") == 1 + RankIn(SECTION_ORDER[1..], "database");
    assert RankIn(SECTION_ORDER, name) == 1 + RankIn(SECTION_ORDER[1..], name);
    assert RankIn(SECTION_ORDER[1..], name) == 1 + RankIn(SECTION_ORDER[1..][1..], name);
  }

  /** Every section of the schema is written behind the database, without which no
      configuration is loaded, so a stray section always lands in some table. */
  lemma BehindDatabase(raw: Fields, order: seq<string>, name: string)
    requires IsOrder(order, raw) && name in raw && name != "processor" && name != "database"
    requires "database" in raw && raw["database"].Table?
    ensures HostOf(raw, order, name).Some?
  {
    var i: nat :| i < |order| && order[i] == "database";
    var j: nat :| j < |order| && order[j] == name;
    RankBehindDatabase(name);
    OrderIsDistinct(order, raw);
    forall a, b | 0 <= a < b < |order| ensures Rank(order[a]) <= Rank(order[b]) {
      assert Before(order[a], order[b]);
    }
    HostBehind(raw, order, i, j);
  }

  // ----- the next start after a save -----------------------------------------------------------

  /** What the loader reads after a save, whatever was submitted: nothing if it refuses
      the file, and otherwise what the save says, for every plain field that does not have
      the name of a stray section. */
  lemma NextStart(raw: Fields, c: Schema, updates: Fields, order: seq<string>, at: string -> seq<string>,
                  section: string, field: string)
    requires var after := Saved(raw, c, updates);
             && Layout(after, at) && IsOrder(order, after)
             && !IsStray(after, field) && Plain(TableAtPath(after, Parts(section)), field)
    requires !NamesInner(updates, section)
    ensures Loaded(Saved(raw, c, updates), order, at, c, section, field) ==
            if !Loads(Saved(raw, c, updates), order, at, c) then None
            else
              Some(if Replaces(updates, section) then c.loaded(section, field)
                   else if !Dotted(section) && Submits(updates, c, section, field) then
                     ReadBack(c, section, field, SavedValue(updates, section, field))
                   else Effective(Migrated(raw), c, section, field))
  {
    if Loads(Saved(raw, c, updates), order, at, c) {
      StraysTouchNothingElse(Saved(raw, c, updates), order, at, c, section, field);
      SaveTakesEffect(raw, c, updates, section, field);
    }
  }

  lemma WrittenReads(raw: Fields, c: Schema, section: string, field: string)
    ensures Effective(Written(raw), c, section, field) == Effective(raw, c, section, field)
  {
    var path := Parts(section);
    TableAtStep(raw, path);
    TableAtStep(Written(raw), path);
    assert FieldsIn(Written(raw), path[0]) == FieldsIn(raw, path[0]);
  }

  lemma WrittenLoads(raw: Fields, path: seq<string>)
    ensures PathLoads(Written(raw), path) <==> PathLoads(raw, path)
  {
    if path != [] {
      assert path[0] in Written(raw) <==> path[0] in raw && !raw[path[0]].Null?;
    }
  }

  /** After a save that leaves nothing but tables, every field of every section is read as
      the save says. */
  lemma NextStartOfTables(raw: Fields, c: Schema, updates: Fields, order: seq<string>, at: string -> seq<string>,
                          section: string, field: string)
    requires var after := Saved(raw, c, updates); Layout(after, at) && IsOrder(order, after) && NoStrays(after)
    requires Loadable(Saved(raw, c, updates), c) && !NamesInner(updates, section)
    ensures Loaded(Saved(raw, c, updates), order, at, c, section, field) ==
            Some(if Replaces(updates, section) then c.loaded(section, field)
                 else if !Dotted(section) && Submits(updates, c, section, field) then
                   ReadBack(c, section, field, SavedValue(updates, section, field))
                 else Effective(Migrated(raw), c, section, field))
  {
    var after := Saved(raw, c, updates);
    TablesComeBack(after, order, at);
    forall s | s in c.sections ensures PathLoads(Written(after), Parts(s)) {
      WrittenLoads(after, Parts(s));
    }
    WrittenReads(after, c, section, field);
    SaveTakesEffect(raw, c, updates, section, field);
  }

  /** The section is a table or nothing after an update, or a stray key. */
  ghost predicate Survives(raw: Fields, updates: Fields, section: string)
  {
    var path := Parts(section);
    var outer := path[0];
    if outer !in updates then IsStray(raw, outer) || PathLoads(raw, path)
    else
      match updates[outer]
      case Null => true
      case Table(_) => PathLoads(FieldsIn(raw, outer), path[1..])
      case v => Stray(v)
  }

  lemma PathLoadsAfter(raw: Fields, c: Schema, updates: Fields, section: string)
    requires !NamesInner(updates, section)
    ensures var after, path := Applied(raw, c, updates), Parts(section);
            IsStray(after, path[0]) || PathLoads(after, path) <==> Survives(raw, updates, section)
  {
    var after, path := Applied(raw, c, updates), Parts(section);
    var outer := path[0];
    AppliedLookup(raw, c, updates, outer);
    if outer in updates && updates[outer].Table? {
      MergedFields(raw, c, updates, outer);
      PartsJoin(section);
      if |path| > 1 {
        assert path[1..][0] == path[1];
        assert Lookup(FieldsIn(after, outer), path[1]) == Lookup(FieldsIn(raw, outer), path[1]);
      }
    }
  }

  /** A file with its database in place can be read after an update exactly when no stray
      key meets its own name, no section is replaced by an array of tables, and the sections
      that are not replaced could be read before. */
  lemma UpdateLoadsIff(raw: Fields, c: Schema, updates: Fields, order: seq<string>, at: string -> seq<string>)
    requires var after := Applied(raw, c, updates);
             && Layout(after, at) && IsOrder(order, after) && InnerNamesFree(after, c)
             && "database" in after && after["database"].Table?
    requires forall s :: s in c.sections ==>
               !NamesInner(updates, s) && Parts(s)[0] != "processor" && Parts(s)[0] != "database"
    ensures Loads(Applied(raw, c, updates), order, at, c) <==>
            !Clash(Applied(raw, c, updates), order, at) && forall s :: s in c.sections ==> Survives(raw, updates, s)
  {
    var after := Applied(raw, c, updates);
    LoadsIff(after, order, at, c);
    forall s | s in c.sections
      ensures Survives(raw, updates, s) <==>
              if IsStray(after, Parts(s)[0]) then HostOf(after, order, Parts(s)[0]).Some?
              else PathLoads(after, Parts(s))
    {
      PathLoadsAfter(raw, c, updates, s);
      if IsStray(after, Parts(s)[0]) {
        BehindDatabase(after, order, Parts(s)[0]);
      }
    }
  }

  // ----- three inputs ----------------------------------------------------------------------------

  lemma AfterOneScalar(raw: Fields, c: Schema, section: string, v: Value)
    requires !v.Table?
    ensures Applied(raw, c, map[section := v]) == raw[section := v]
  {
    forall s ensures Lookup(Applied(raw, c, map[section := v]), s) == Lookup(raw[section := v], s) {
      AppliedLookup(raw, c, map[section := v], s);
    }
    SameLookups(Applied(raw, c, map[section := v]), raw[section := v]);
  }

  const NOWHERE: string -> seq<string> := s => []

  /** No tables below this one. */
  ghost predicate Flat(fields: Fields)
  {
    forall k :: k in fields ==> !Opens(fields[k])
  }

  lemma FlatLayout(raw: Fields)
    requires forall s :: s in raw && Opens(raw[s]) ==> raw[s].Table? && Flat(raw[s].fields)
    ensures Layout(raw, NOWHERE)
  {
  }

  lemma TwoInOrder(raw: Fields, a: string, b: string)
    requires raw.Keys == {a, b} && Rank(a) < Rank(b)
    ensures IsOrder([a, b], raw)
  {
  }

  lemma ThreeInOrder(raw: Fields, a: string, b: string, t: string)
    requires raw.Keys == {a, b, t} && Rank(a) < Rank(b) < Rank(t)
    ensures IsOrder([a, b, t], raw)
  {
  }

  lemma HostIsBefore(raw: Fields, order: seq<string>)
    requires |order| > 1 && (forall k :: k in order ==> k in raw) && Opens(raw[order[|order| - 2]])
    ensures HostOf(raw, order, order[|order| - 1]) == Some(order[|order| - 2])
  {
    var names := order[..|order| - 1];
    assert names[|names| - 1] == order[|order| - 2];
    assert LastOpen(raw, names) == Some(order[|order| - 2]);
  }

  /** The last of the sections is a stray key behind a table. */
  lemma LastIsStray(raw: Fields, order: seq<string>, host: string, t: string)
    requires IsOrder(order, raw) && |order| > 1 && order[|order| - 2] == host && order[|order| - 1] == t
    requires forall s :: s in raw && s != t ==> raw[s].Table? && Flat(raw[s].fields)
    requires Stray(raw[t]) && host != t
    ensures Layout(raw, NOWHERE) && (Clash(raw, order, NOWHERE) <==> Has(raw[host].fields, t))
    ensures Reread(raw, order, NOWHERE) == (raw - {t})[host := Table(raw[host].fields[t := raw[t]])]
  {
    FlatLayout(raw);
    OrderIsDistinct(order, raw);
    HostIsBefore(raw, order);
    assert host in order && t in order;
    forall s | s in raw && Opens(raw[s])
      ensures Guests(raw, order, s) == if s == host then map[t := raw[t]] else map[]
      ensures WithKeys(raw[s], [], Guests(raw, order, s)) ==
              if s == host then Table(raw[host].fields[t := raw[t]]) else raw[s]
      ensures OpenTable(raw[s], []) == raw[s].fields
    {
      OneGuest(raw, order, host, t, s);
    }
  }

  lemma OneGuest(raw: Fields, order: seq<string>, host: string, t: string, s: string)
    requires IsOrder(order, raw) && t in raw && Stray(raw[t]) && HostOf(raw, order, t) == Some(host)
    requires forall k :: k in raw && k != t ==> !Stray(raw[k])
    requires s in raw && raw[s].Table? && Flat(raw[s].fields)
    ensures Guests(raw, order, s) == if s == host then map[t := raw[t]] else map[]
    ensures WithKeys(raw[s], [], Guests(raw, order, s)) ==
            if s == host then Table(raw[s].fields[t := raw[t]]) else raw[s]
  {
    var guests := Guests(raw, order, s);
    assert guests == if s == host then map[t := raw[t]] else map[];
    assert raw[s].fields + guests == if s == host then raw[s].fields[t := raw[t]] else raw[s].fields;
  }

  lemma OwnPath(section: string, raw: Fields, c: Schema, field: string)
    requires !Dotted(section)
    ensures Parts(section) == [section]
    ensures Effective(raw, c, section, field) ==
            if field in FieldsIn(raw, section) then FieldsIn(raw, section)[field] else c.loaded(section, field)
    ensures PathLoads(raw, Parts(section)) <==>
            (section in raw ==> raw[section].Null? || raw[section].Table?)
  {
    UndottedPath(raw, section);
    if section in raw && raw[section].Table? {
      assert PathLoads(raw[section].fields, [section][1..]);
    }
  }

  /** What is read with a stray section t at the end, of the section in front of it and of
      t itself. */
  lemma StrayRead(raw: Fields, order: seq<string>, c: Schema, host: string, t: string, field: string)
    requires IsOrder(order, raw) && |order| > 1 && order[|order| - 2] == host && order[|order| - 1] == t
    requires forall s :: s in raw && s != t ==> raw[s].Table? && Flat(raw[s].fields)
    requires Stray(raw[t]) && host != t && forall s :: s in c.sections && Dotted(s) ==> Parts(s)[0] !in raw
    ensures Layout(raw, NOWHERE) && (Loads(raw, order, NOWHERE, c) <==> !Has(raw[host].fields, t))
    ensures !Has(raw[host].fields, t) && !Dotted(t) ==>
              Loaded(raw, order, NOWHERE, c, t, field) == Some(c.loaded(t, field))
    ensures !Has(raw[host].fields, t) && !Dotted(host) ==>
              Loaded(raw, order, NOWHERE, c, host, t) == Some(raw[t])
  {
    LastIsStray(raw, order, host, t);
    var m := Reread(raw, order, NOWHERE);
    forall s | s in c.sections ensures PathLoads(m, Parts(s)) {
      if !Dotted(s) {
        OwnPath(s, m, c, field);
      }
    }
    if !Dotted(t) {
      OwnPath(t, m, c, field);
    }
    if !Dotted(host) {
      OwnPath(host, m, c, t);
    }
  }

  /** A file of the database d and the section g. */
  function SmallFile(d: string, g: string, fields: Fields): Fields
  {
    map[d := Table(map["user" := Str("poracle")]), g := Table(fields)]
  }

  lemma ScalarForIt(c: Schema, d: string, g: string, fields: Fields, v: Value, field: string)
    requires d != g && Rank(d) < Rank(g) && !Dotted(d) && !Dotted(g) && g != "user" && Stray(v)
    requires forall s :: s in c.sections && Dotted(s) ==> Parts(s)[0] !in {d, g}
    ensures var after := Applied(SmallFile(d, g, fields), c, map[g := v]);
            && IsOrder([d, g], after) && Layout(after, NOWHERE)
            && Loaded(after, [d, g], NOWHERE, c, g, field) == Some(c.loaded(g, field))
            && Loaded(after, [d, g], NOWHERE, c, d, g) == Some(v)
  {
    var after := SmallFile(d, g, fields)[g := v];
    AfterOneScalar(SmallFile(d, g, fields), c, g, v);
    TwoInOrder(after, d, g);
    StrayRead(after, [d, g], c, d, g, field);
  }

  lemma ScalarForNext(c: Schema, d: string, g: string, t: string, fields: Fields, v: Value)
    requires Rank(d) < Rank(g) < Rank(t) && !Dotted(g) && Stray(v) && Flat(fields)
    requires forall s :: s in c.sections && Dotted(s) ==> Parts(s)[0] !in {d, g, t}
    ensures var after := Applied(SmallFile(d, g, fields), c, map[t := v]);
            && IsOrder([d, g, t], after) && Layout(after, NOWHERE)
            && Loaded(after, [d, g, t], NOWHERE, c, g, t) == if Has(fields, t) then None else Some(v)
  {
    var after := SmallFile(d, g, fields)[t := v];
    AfterOneScalar(SmallFile(d, g, fields), c, t, v);
    ThreeInOrder(after, d, g, t);
    StrayRead(after, [d, g, t], c, g, t, t);
  }

  lemma RankOfThree()
    ensures Rank("database") < Rank("general") < Rank("locale")
  {
    RankFinds(SECTION_ORDER, 1);
    RankFinds(SECTION_ORDER, 5);
    RankFinds(SECTION_ORDER, 6);
  }

  /** {"general": 5}: the number lands in the table of the database, where nobody looks for
      it; the file is read, and every field of the section has the loader's default. */
  lemma ScalarForSection(c: Schema, fields: Fields, field: string)
    requires forall s :: s in c.sections && Dotted(s) ==> Parts(s)[0] !in {"database", "general"}
    ensures var after := Applied(SmallFile("database", "general", fields), c, map["general" := Num(5)]);
            && IsOrder(["database", "general"], after) && Layout(after, NOWHERE)
            && Loaded(after, ["database", "general"], NOWHERE, c, "general", field) == Some(c.loaded("general", field))
            && Loaded(after, ["database", "general"], NOWHERE, c, "database", "general") == Some(Num(5))
  {
    RankOfThree();
    ScalarForIt(c, "database", "general", fields, Num(5), field);
  }

  /** {"locale": "fr"} in place of a section: it lands in the general section, which has a
      field of that name.  Unless the file sets that field already it is set now; if it
      does, the text defines it twice, and nothing at all is read. */
  lemma ScalarForAnotherField(c: Schema, fields: Fields)
    requires forall s :: s in c.sections && Dotted(s) ==> Parts(s)[0] !in {"database", "general", "locale"}
    requires Flat(fields)
    ensures var after := Applied(SmallFile("database", "general", fields), c, map["locale" := Str("fr")]);
            var order := ["database", "general", "locale"];
            && IsOrder(order, after) && Layout(after, NOWHERE)
            && Loaded(after, order, NOWHERE, c, "general", "locale") ==
              if Has(fields, "locale") then None else Some(Str("fr"))
  {
    RankOfThree();
    ScalarForNext(c, "database", "general", "locale", fields, Str("fr"));
  }
}
