/**
 Saving the configuration from the web editor: default elision
 (processor/internal/api/config_writer.go), masking of secrets and the flattening of
 table rows (processor/internal/api/config_values.go).  The file is the map of its
 sections, as toml.Unmarshal gives it and the encoder takes it.
 */
module ConfigSave {
  import opened Wrappers

  datatype Value =
    | Null
    | Bool(b: bool)
    | Num(n: int)
    | Str(s: string)
    | List(items: seq<Value>)
    | Table(fields: map<string, Value>)

  type Fields = map<string, Value>

  /** What the schema says: the defaults it declares, the fields it masks and the fields of
      each section.  `loaded` is what the loader puts into a field before it reads the file;
      the loader does not look at the schema, so the two defaults may differ. */
  datatype Schema = Schema(
    defaults: map<(string, string), Value>,
    sensitive: set<(string, string)>,
    loaded: (string, string) -> Value,
    sections: map<string, set<string>>)

  // ----- what a file means ---------------------------------------------------------------

  function FieldsIn(raw: Fields, section: string): Fields
  {
    if section in raw && raw[section].Table? then raw[section].fields else map[]
  }

  predicate Dotted(section: string)
  {
    '.' in section
  }

  /** The name of a section split at its dots. */
  function Parts(section: string): (parts: seq<string>)
    ensures parts != []
  {
    if section == "" then [""]
    else
      var rest := Parts(section[1..]);
      if section[0] == '.' then [""] + rest else [[section[0]] + rest[0]] + rest[1..]
  }

  function Joined(parts: seq<string>): string
    requires parts != []
  {
    if |parts| == 1 then parts[0] else parts[0] + "." + Joined(parts[1..])
  }

  /** The parts are the name cut at every dot. */
  lemma {:induction false} PartsJoin(section: string)
    ensures Joined(Parts(section)) == section
    ensures forall i :: 0 <= i < |Parts(section)| ==> !Dotted(Parts(section)[i])
    ensures |Parts(section)| > 1 <==> Dotted(section)
  {
    if section != "" {
      PartsJoin(section[1..]);
      var parts, rest := Parts(section), Parts(section[1..]);
      assert section == [section[0]] + section[1..];
      if section[0] == '.' {
        assert parts[1..] == rest;
      } else {
        assert parts[1..] == rest[1..];
      }
    }
  }

  /** The table at the end of a path of tables. */
  function TableAtPath(raw: Fields, path: seq<string>): Fields
    decreases |path|
  {
    if path == [] then raw else TableAtPath(FieldsIn(raw, path[0]), path[1..])
  }

  /** What the loader reads for a field, when the sections reach it as they are: what the
      table on the path of the section's name says, or what the loader put there before it
      read the file. */
  function Effective(raw: Fields, c: Schema, section: string, field: string): Value
  {
    var fields := TableAtPath(raw, Parts(section));
    if field in fields then fields[field] else c.loaded(section, field)
  }

  // ----- applying updates ------------------------------------------------------------------

  /** isDefaultValue, for the fields that have a default. */
  predicate IsDefault(c: Schema, section: string, field: string, v: Value)
  {
    (section, field) in c.defaults && v == c.defaults[(section, field)]
  }

  function Merged(fields: Fields, c: Schema, section: string, updates: Fields): Fields
  {
    map f | f in fields.Keys + updates.Keys && (f in updates ==> !IsDefault(c, section, f, updates[f])) ::
      if f in updates then updates[f] else fields[f]
  }

  function Lookup(m: Fields, k: string): Option<Value>
  {
    if k in m then Some(m[k]) else None
  }

  /** A section after its update: rewritten field by field, and dropped when nothing is
      left in it; an update that is not a table replaces whatever was there. */
  function SectionAfter(raw: Fields, c: Schema, s: string, update: Option<Value>): Option<Value>
  {
    match update
    case None => Lookup(raw, s)
    case Some(v) =>
      if !v.Table? then Some(v)
      else
        var merged := Merged(FieldsIn(raw, s), c, s, v.fields);
        if merged == map[] then None else Some(Table(merged))
  }

  function Applied(raw: Fields, c: Schema, updates: Fields): Fields
  {
    map s | s in raw.Keys + updates.Keys && SectionAfter(raw, c, s, Lookup(updates, s)).Some? ::
      SectionAfter(raw, c, s, Lookup(updates, s)).value
  }

  function Restricted(m: Fields, keys: set<string>): Fields
  {
    map k | k in m && k in keys :: m[k]
  }

  lemma MergedGrows(fields: Fields, c: Schema, section: string, updates: Fields, done: set<string>, f: string)
    requires f in updates && f !in done
    ensures var before := Merged(fields, c, section, Restricted(updates, done));
            Merged(fields, c, section, Restricted(updates, done + {f})) ==
            if IsDefault(c, section, f, updates[f]) then before - {f} else before[f := updates[f]]
  {
  }

  function Put(m: Fields, k: string, v: Option<Value>): Fields
  {
    if v.None? then m - {k} else m[k := v.value]
  }

  lemma AppliedLookup(raw: Fields, c: Schema, updates: Fields, s: string)
    ensures Lookup(Applied(raw, c, updates), s) == SectionAfter(raw, c, s, Lookup(updates, s))
  {
  }

  lemma SameLookups(a: Fields, b: Fields)
    requires forall k :: Lookup(a, k) == Lookup(b, k)
    ensures a == b
  {
    forall k ensures k in a <==> k in b {
      assert Lookup(a, k) == Lookup(b, k);
    }
    forall k | k in a ensures a[k] == b[k] {
      assert Lookup(a, k) == Lookup(b, k);
    }
  }

  lemma AppliedGrows(raw: Fields, c: Schema, updates: Fields, done: set<string>, s: string)
    requires s in updates && s !in done
    ensures var before := Applied(raw, c, Restricted(updates, done));
            && Lookup(before, s) == Lookup(raw, s)
            && Applied(raw, c, Restricted(updates, done + {s})) ==
              Put(before, s, SectionAfter(raw, c, s, Some(updates[s])))
  {
    var before := Applied(raw, c, Restricted(updates, done));
    var after := Applied(raw, c, Restricted(updates, done + {s}));
    AppliedLookup(raw, c, Restricted(updates, done), s);
    forall t ensures Lookup(after, t) == Lookup(Put(before, s, SectionAfter(raw, c, s, Some(updates[s]))), t) {
      AppliedLookup(raw, c, Restricted(updates, done), t);
      AppliedLookup(raw, c, Restricted(updates, done + {s}), t);
    }
    SameLookups(after, Put(before, s, SectionAfter(raw, c, s, Some(updates[s]))));
  }

  class ConfigFile {
    var sections: Fields

    constructor (sections: Fields)
      ensures this.sections == sections
    {
      this.sections := sections;
    }

    method ApplySectionUpdates(c: Schema, name: string, updates: Fields)
      modifies this
      ensures sections == Put(old(sections), name, SectionAfter(old(sections), c, name, Some(Table(updates))))
    {
      ghost var fields := FieldsIn(sections, name);
      var section: Fields := if name in sections && sections[name].Table? then sections[name].fields else map[];
      var todo := updates.Keys;
      assert Merged(fields, c, name, Restricted(updates, {})) == fields;
      while todo != {}
        invariant todo <= updates.Keys && sections == old(sections)
        invariant section == Merged(fields, c, name, Restricted(updates, updates.Keys - todo))
      {
        var field :| field in todo;
        MergedGrows(fields, c, name, updates, updates.Keys - todo, field);
        assert updates.Keys - todo + {field} == updates.Keys - (todo - {field});
        todo := todo - {field};
        if (name, field) !in c.defaults {
          section := section[field := updates[field]];
        } else if updates[field] == c.defaults[(name, field)] {
          section := section - {field};
        } else {
          section := section[field := updates[field]];
        }
      }
      assert updates.Keys - todo == updates.Keys && Restricted(updates, updates.Keys) == updates;
      sections := sections[name := Table(section)];
      if section == map[] {
        sections := sections - {name};
        assert sections == old(sections) - {name};
      }
    }

    method ApplySchemaUpdates(c: Schema, updates: Fields)
      modifies this
      ensures sections == Applied(old(sections), c, updates)
    {
      var todo := updates.Keys;
      ghost var raw := sections;
      assert Applied(raw, c, Restricted(updates, {})) == raw;
      while todo != {}
        invariant todo <= updates.Keys
        invariant sections == Applied(raw, c, Restricted(updates, updates.Keys - todo))
      {
        var name :| name in todo;
        AppliedGrows(raw, c, updates, updates.Keys - todo, name);
        assert updates.Keys - todo + {name} == updates.Keys - (todo - {name});
        todo := todo - {name};
        if !updates[name].Table? {
          sections := sections[name := updates[name]];
        } else {
          ApplySectionUpdates(c, name, updates[name].fields);
        }
      }
      assert updates.Keys - todo == updates.Keys && Restricted(updates, updates.Keys) == updates;
    }
  }

  // ----- what applying does ------------------------------------------------------------------

  predicate Names(updates: Fields, section: string, field: string)
  {
    field in FieldsIn(updates, section)
  }

  /** The update replaces the outermost table on the section's path by something that is
      no table. */
  predicate Replaces(updates: Fields, section: string)
  {
    var outer := Parts(section)[0];
    outer in updates && !updates[outer].Table?
  }

  /** The update of an outer section names the next part of a dotted name as if that were
      one of its fields; no section of the schema has such a field. */
  predicate NamesInner(updates: Fields, section: string)
  {
    var path := Parts(section);
    |path| > 1 && Names(updates, path[0], path[1])
  }

  /** What the loader makes of a value saved for a field of an undotted section. */
  function ReadBack(c: Schema, section: string, field: string, v: Value): Value
  {
    if IsDefault(c, section, field, v) then c.loaded(section, field) else v
  }

  lemma MergedFields(raw: Fields, c: Schema, updates: Fields, section: string)
    requires section in updates && updates[section].Table?
    ensures FieldsIn(Applied(raw, c, updates), section) ==
            Merged(FieldsIn(raw, section), c, section, updates[section].fields)
  {
  }

  lemma OtherFields(raw: Fields, c: Schema, updates: Fields, section: string)
    requires section !in updates || !updates[section].Table?
    ensures FieldsIn(Applied(raw, c, updates), section) == if section in updates then map[] else FieldsIn(raw, section)
  {
    AppliedLookup(raw, c, updates, section);
  }

  /** A name without dots is its own path. */
  lemma UndottedPath(raw: Fields, section: string)
    requires !Dotted(section)
    ensures Parts(section) == [section] && TableAtPath(raw, Parts(section)) == FieldsIn(raw, section)
  {
    PartsJoin(section);
    assert Parts(section) == [section];
  }

  lemma DottedPath(raw: Fields, section: string)
    requires Dotted(section)
    ensures var path := Parts(section);
            |path| > 1 && TableAtPath(raw, path) == TableAtPath(FieldsIn(FieldsIn(raw, path[0]), path[1]), path[2..])
  {
    PartsJoin(section);
    var path := Parts(section);
    assert path[1..][1..] == path[2..] && path[1..][0] == path[1];
  }

  lemma {:induction false} EmptyPath(path: seq<string>)
    ensures TableAtPath(map[], path) == map[]
    decreases |path|
  {
    if path != [] {
      assert FieldsIn(map[], path[0]) == map[];
      EmptyPath(path[1..]);
    }
  }

  /** What a form does not reach under a dotted name stays. */
  lemma DottedStays(raw: Fields, c: Schema, updates: Fields, section: string)
    requires Dotted(section) && !NamesInner(updates, section)
    ensures TableAtPath(Applied(raw, c, updates), Parts(section)) ==
            if Replaces(updates, section) then map[] else TableAtPath(raw, Parts(section))
  {
    var after, path := Applied(raw, c, updates), Parts(section);
    DottedPath(raw, section);
    DottedPath(after, section);
    if path[0] in updates && updates[path[0]].Table? {
      MergedFields(raw, c, updates, path[0]);
    } else {
      OtherFields(raw, c, updates, path[0]);
      EmptyPath(path[2..]);
    }
  }

  /** What the sections say after an update, for every section and field.  In an undotted
      section a named field reads as the new value, unless that was elided; every other
      field keeps what it had.  An update of a dotted section goes under the dotted name
      itself and is not read.  A section replaced by something that is no table says
      nothing; where its value lands in the text is for ConfigText. */
  lemma UpdatesTakeEffect(raw: Fields, c: Schema, updates: Fields, section: string, field: string)
    requires !NamesInner(updates, section)
    ensures Effective(Applied(raw, c, updates), c, section, field) ==
            if Replaces(updates, section) then c.loaded(section, field)
            else if !Dotted(section) && Names(updates, section, field) then
              ReadBack(c, section, field, FieldsIn(updates, section)[field])
            else Effective(raw, c, section, field)
  {
    if Dotted(section) {
      DottedStays(raw, c, updates, section);
    } else {
      UndottedPath(raw, section);
      UndottedPath(Applied(raw, c, updates), section);
      if section in updates && updates[section].Table? {
        MergedFields(raw, c, updates, section);
      } else {
        OtherFields(raw, c, updates, section);
      }
    }
  }

  /** When the loader reads a value v that is saved for a field: when the field is on the
      path it reads and, if v is the schema's default, v is the loader's default too; or,
      in a dotted section, when v was read before. */
  predicate Arrives(raw: Fields, c: Schema, section: string, field: string, v: Value)
  {
    if Dotted(section) then Effective(raw, c, section, field) == v
    else IsDefault(c, section, field, v) ==> c.loaded(section, field) == v
  }

  /** A named field reads as submitted exactly when it arrives. */
  lemma TakesEffectIff(raw: Fields, c: Schema, updates: Fields, section: string, field: string)
    requires Names(updates, section, field) && !Replaces(updates, section) && !NamesInner(updates, section)
    ensures var v := FieldsIn(updates, section)[field];
            Effective(Applied(raw, c, updates), c, section, field) == v <==> Arrives(raw, c, section, field, v)
  {
    UpdatesTakeEffect(raw, c, updates, section, field);
  }

  /** One that does not: turning the Telegram bot off.  False is the schema's default and
      true the loader's, so the line goes away and the next start reads true, even if the
      file said false before. */
  lemma TelegramComesBackOn(c: Schema)
    requires ("telegram", "enabled") in c.defaults && c.defaults[("telegram", "enabled")] == Bool(false)
    requires c.loaded("telegram", "enabled") == Bool(true)
    ensures var off: Fields := map["telegram" := Table(map["enabled" := Bool(false)])];
            && Effective(off, c, "telegram", "enabled") == Bool(false)
            && Applied(off, c, off) == map[]
            && Effective(Applied(off, c, off), c, "telegram", "enabled") == Bool(true)
  {
    var off: Fields := map["telegram" := Table(map["enabled" := Bool(false)])];
    UndottedPath(off, "telegram");
    UndottedPath(map[], "telegram");
    assert FieldsIn(map[], "telegram") == map[];
    assert Merged(FieldsIn(off, "telegram"), c, "telegram", FieldsIn(off, "telegram")) == map[];
    SameLookups(Applied(off, c, off), map[]);
  }

  /** The same update without elision. */
  function Overwritten(raw: Fields, updates: Fields): Fields
  {
    map s | s in raw.Keys + updates.Keys ::
      if s !in updates then raw[s]
      else if updates[s].Table? then Table(FieldsIn(raw, s) + updates[s].fields)
      else updates[s]
  }

  /** A field of which default elision changes what is read: it is elided, and the loader
      has another default than the schema. */
  predicate ElisionShows(c: Schema, updates: Fields, section: string, field: string)
  {
    && !Dotted(section) && Names(updates, section, field)
    && IsDefault(c, section, field, FieldsIn(updates, section)[field])
    && c.loaded(section, field) != c.defaults[(section, field)]
  }

  lemma DottedElisionStays(raw: Fields, c: Schema, updates: Fields, section: string)
    requires Dotted(section) && !NamesInner(updates, section)
    ensures TableAtPath(Applied(raw, c, updates), Parts(section)) ==
            TableAtPath(Overwritten(raw, updates), Parts(section))
  {
    DottedPath(Applied(raw, c, updates), section);
    DottedPath(Overwritten(raw, updates), section);
    var outer := Parts(section)[0];
    if outer in updates && updates[outer].Table? {
      MergedFields(raw, c, updates, outer);
    } else {
      OtherFields(raw, c, updates, outer);
    }
  }

  /** The file means what it would without elision, except where the two defaults differ.
      What elision saves is that no default stays written for a field that was named. */
  lemma ElisionIsInvisibleIff(raw: Fields, c: Schema, updates: Fields, section: string, field: string)
    requires !NamesInner(updates, section)
    ensures Effective(Applied(raw, c, updates), c, section, field) ==
            Effective(Overwritten(raw, updates), c, section, field)
            <==> !ElisionShows(c, updates, section, field)
    ensures Names(updates, section, field) ==>
              (field in FieldsIn(Applied(raw, c, updates), section) <==>
               !IsDefault(c, section, field, FieldsIn(updates, section)[field]))
    ensures section in updates && updates[section].Table? && section in Applied(raw, c, updates) ==>
              FieldsIn(Applied(raw, c, updates), section) != map[]
  {
    if section in updates && updates[section].Table? {
      MergedFields(raw, c, updates, section);
    }
    if Dotted(section) {
      DottedElisionStays(raw, c, updates, section);
    } else {
      UpdatesTakeEffect(raw, c, updates, section, field);
      UndottedPath(raw, section);
      UndottedPath(Overwritten(raw, updates), section);
    }
  }

  /** An update of a dotted section goes under the dotted name itself, which is no path
      the loader follows: whatever is saved for it, with the outer section or without, the
      table read for it stays what it was. */
  lemma DottedSectionIsNotRead(raw: Fields, c: Schema, updates: Fields, outer: string, inner: string, field: string)
    requires !Dotted(outer) && !Dotted(inner) && Names(updates, outer + "." + inner, field)
    requires outer in updates ==> updates[outer].Table? && inner !in updates[outer].fields
    ensures var after := Applied(raw, c, updates);
            && FieldsIn(FieldsIn(after, outer), inner) == FieldsIn(FieldsIn(raw, outer), inner)
            && Effective(after, c, outer + "." + inner, field) == Effective(raw, c, outer + "." + inner, field)
            && Lookup(FieldsIn(after, outer + "." + inner), field) ==
              var v := FieldsIn(updates, outer + "." + inner)[field];
              if IsDefault(c, outer + "." + inner, field, v) then None else Some(v)
  {
    PartsOfTwo(outer, inner);
    UpdatesTakeEffect(raw, c, updates, outer + "." + inner, field);
    MergedFields(raw, c, updates, outer + "." + inner);
    if outer in updates {
      MergedFields(raw, c, updates, outer);
    } else {
      OtherFields(raw, c, updates, outer);
    }
  }

  lemma {:induction false} PartsOfTwo(outer: string, inner: string)
    requires !Dotted(outer) && !Dotted(inner)
    ensures Parts(outer + "." + inner) == [outer, inner] && Dotted(outer + "." + inner)
  {
    var whole := outer + "." + inner;
    if outer == "" {
      assert whole[1..] == inner;
      UndottedPath(map[], inner);
    } else {
      assert whole[1..] == outer[1..] + "." + inner;
      PartsOfTwo(outer[1..], inner);
      assert [whole[0]] + outer[1..] == outer;
    }
  }

  // ----- the legacy logging keys ----------------------------------------------------------------

  function StrAt(fields: Fields, k: string): string
  {
    if k in fields && fields[k].Str? then fields[k].s else ""
  }

  /** The fallback chain of the loader: level, log_level, console_log_level. */
  function Level(raw: Fields): string
  {
    var logging := FieldsIn(raw, "logging");
    if StrAt(logging, "level") != "" then StrAt(logging, "level")
    else if StrAt(logging, "log_level") != "" then StrAt(logging, "log_level")
    else StrAt(logging, "console_log_level")
  }

  const LEGACY_KEYS := {"log_level", "console_log_level"}

  predicate HasLegacyKeys(raw: Fields)
  {
    FieldsIn(raw, "logging").Keys * LEGACY_KEYS != {}
  }

  /** The legacy keys collapsed into `level`; it is also what the loader reads. */
  function Migrated(raw: Fields): Fields
  {
    if !HasLegacyKeys(raw) then raw
    else
      var rest := FieldsIn(raw, "logging") - LEGACY_KEYS;
      raw["logging" := Table(if Level(raw) == "" then rest else rest["level" := Str(Level(raw))])]
  }

  method MigrateLegacyLoggingKeys(file: ConfigFile)
    modifies file
    ensures file.sections == Migrated(old(file.sections))
  {
    if "logging" !in file.sections || !file.sections["logging"].Table? {
      return;
    }
    var logging := file.sections["logging"].fields;
    if "log_level" !in logging && "console_log_level" !in logging {
      return;
    }
    var level := StrAt(logging, "level");
    if level == "" {
      if StrAt(logging, "log_level") != "" {
        level := StrAt(logging, "log_level");
      } else if StrAt(logging, "console_log_level") != "" {
        level := StrAt(logging, "console_log_level");
      }
    }
    assert HasLegacyKeys(file.sections) by {
      assert "log_level" in logging.Keys * LEGACY_KEYS || "console_log_level" in logging.Keys * LEGACY_KEYS;
    }
    logging := logging - {"log_level", "console_log_level"};
    if level != "" {
      logging := logging["level" := Str(level)];
    }
    file.sections := file.sections["logging" := Table(logging)];
  }

  /** The migration drops the legacy keys, keeps the level the loader would have read,
      and touches nothing else. */
  lemma MigrationKeepsTheLevel(raw: Fields)
    ensures !HasLegacyKeys(Migrated(raw)) && Level(Migrated(raw)) == Level(raw)
    ensures forall s :: s != "logging" ==> Lookup(Migrated(raw), s) == Lookup(raw, s)
    ensures forall k :: k !in LEGACY_KEYS + {"level"} ==>
              Lookup(FieldsIn(Migrated(raw), "logging"), k) == Lookup(FieldsIn(raw, "logging"), k)
  {
    if !HasLegacyKeys(raw) {
      assert Migrated(raw) == raw;
    } else {
      var m := FieldsIn(Migrated(raw), "logging");
      assert m.Keys * LEGACY_KEYS == {};
    }
  }

  /** Why the legacy keys go first: without them in the way a saved level is the level
      that is read back, with no level written meaning the default. */
  lemma SavedLevelIsRead(raw: Fields, c: Schema, updates: Fields, level: string)
    requires Names(updates, "logging", "level") && FieldsIn(updates, "logging")["level"] == Str(level) && level != ""
    requires !HasLegacyKeys(raw) && !HasLegacyKeys(updates)
    ensures Level(Applied(raw, c, updates)) == level
            || (Level(Applied(raw, c, updates)) == "" && IsDefault(c, "logging", "level", Str(level)))
  {
    MergedFields(raw, c, updates, "logging");
    assert forall k :: k in LEGACY_KEYS ==>
      && k !in FieldsIn(raw, "logging").Keys * LEGACY_KEYS
      && k !in FieldsIn(updates, "logging").Keys * LEGACY_KEYS;
  }

  /** With a legacy key left in the file, eliding the default would bring the old level
      back. */
  lemma LegacyKeyWouldShadow(c: Schema)
    requires ("logging", "level") in c.defaults && c.defaults[("logging", "level")] == Str("info")
    ensures var raw: Fields := map["logging" := Table(map["log_level" := Str("debug")])];
            var updates: Fields := map["logging" := Table(map["level" := Str("info")])];
            Level(Applied(raw, c, updates)) == "debug"
  {
    var raw: Fields := map["logging" := Table(map["log_level" := Str("debug")])];
    var updates: Fields := map["logging" := Table(map["level" := Str("info")])];
    MergedFields(raw, c, updates, "logging");
    assert Merged(FieldsIn(raw, "logging"), c, "logging", FieldsIn(updates, "logging")) ==
           map["log_level" := Str("debug")];
  }
}
