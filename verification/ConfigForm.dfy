/**
 The form of the configuration editor, processor/internal/api/config_values.go: what is
 extracted for it, with secrets masked and nested tables flattened into rows, and how a
 submitted form is stripped and nested again before it is saved.
 */
module ConfigForm {
  import opened Wrappers
  import opened ConfigSave

  const MASK := Str("****")

  // ----- communities -----------------------------------------------------------------------

  datatype Community = Community(
    name: string, allowedAreas: seq<string>, locationFence: seq<string>,
    discordChannels: seq<string>, discordUserRole: seq<string>,
    telegramChannels: seq<string>, telegramAdmins: seq<string>)

  function StrList(texts: seq<string>): Value
  {
    List(seq(|texts|, i requires 0 <= i < |texts| => Str(texts[i])))
  }

  function TextsAt(fields: Fields, k: string): seq<string>
  {
    if k in fields && fields[k].List? then
      var items := fields[k].items;
      seq(|items|, i requires 0 <= i < |items| => if items[i].Str? then items[i].s else "")
    else []
  }

  function TableAt(fields: Fields, k: string): Fields
  {
    if k in fields && fields[k].Table? then fields[k].fields else map[]
  }

  function DecodeCommunity(v: Value): Community
  {
    var m := if v.Table? then v.fields else map[];
    var discord, telegram := TableAt(m, "discord"), TableAt(m, "telegram");
    Community(StrAt(m, "name"), TextsAt(m, "allowed_areas"), TextsAt(m, "location_fence"),
              TextsAt(discord, "channels"), TextsAt(discord, "user_role"),
              TextsAt(telegram, "channels"), TextsAt(telegram, "admins"))
  }

  function DecodeCommunities(v: Value): seq<Community>
  {
    if v.List? then seq(|v.items|, i requires 0 <= i < |v.items| => DecodeCommunity(v.items[i])) else []
  }

  function FlatCommunity(c: Community): Value
  {
    Table(map[
      "name" := Str(c.name),
      "allowed_areas" := StrList(c.allowedAreas),
      "location_fence" := StrList(c.locationFence),
      "discord_channels" := StrList(c.discordChannels),
      "discord_user_role" := StrList(c.discordUserRole),
      "telegram_channels" := StrList(c.telegramChannels),
      "telegram_admins" := StrList(c.telegramAdmins)])
  }

  function FlattenCommunities(cs: seq<Community>): Value
  {
    List(seq(|cs|, i requires 0 <= i < |cs| => FlatCommunity(cs[i])))
  }

  const DISCORD_KEYS := {"discord_channels", "discord_user_role"}
  const TELEGRAM_KEYS := {"telegram_channels", "telegram_admins"}

  /** One entry of a sub-table, if the row has it. */
  function Entry(m: Fields, k: string, name: string): Fields
  {
    if k in m then map[name := m[k]] else map[]
  }

  function Pair(m: Fields, a: string, nameA: string, b: string, nameB: string): Fields
  {
    Entry(m, a, nameA) + Entry(m, b, nameB)
  }

  lemma PairGrows(m: Fields, done: set<string>, k: string, a: string, nameA: string, b: string, nameB: string)
    requires k in m && k !in done && a != b && nameA != nameB
    ensures var before := Pair(Restricted(m, done), a, nameA, b, nameB);
            Pair(Restricted(m, done + {k}), a, nameA, b, nameB) ==
            if k == a then before[nameA := m[k]] else if k == b then before[nameB := m[k]] else before
  {
  }

  function Discord(m: Fields): Fields
  {
    Pair(m, "discord_channels", "channels", "discord_user_role", "user_role")
  }

  function Telegram(m: Fields): Fields
  {
    Pair(m, "telegram_channels", "channels", "telegram_admins", "admins")
  }

  function WithTable(m: Fields, name: string, sub: Fields): Fields
  {
    if sub == map[] then m else m[name := Table(sub)]
  }

  function NestedCommunity(m: Fields): Fields
  {
    WithTable(WithTable(m - (DISCORD_KEYS + TELEGRAM_KEYS), "discord", Discord(m)), "telegram", Telegram(m))
  }

  lemma RestGrows(m: Fields, done: set<string>, k: string, without: set<string>)
    requires k in m && k !in done
    ensures var before := Restricted(m, done) - without;
            Restricted(m, done + {k}) - without == if k in without then before else before[k := m[k]]
  {
  }

  method NestCommunityRow(m: Fields) returns (nested: Fields)
    ensures nested == NestedCommunity(m)
  {
    nested := map[];
    var discord: Fields, telegram: Fields := map[], map[];
    var todo := m.Keys;
    ghost var done: set<string> := {};
    while todo != {}
      invariant todo <= m.Keys && done == m.Keys - todo
      invariant nested == Restricted(m, done) - (DISCORD_KEYS + TELEGRAM_KEYS)
      invariant discord == Discord(Restricted(m, done))
      invariant telegram == Telegram(Restricted(m, done))
    {
      var k :| k in todo;
      RestGrows(m, done, k, DISCORD_KEYS + TELEGRAM_KEYS);
      PairGrows(m, done, k, "discord_channels", "channels", "discord_user_role", "user_role");
      PairGrows(m, done, k, "telegram_channels", "channels", "telegram_admins", "admins");
      todo, done := todo - {k}, done + {k};
      if k == "discord_channels" {
        discord := discord["channels" := m[k]];
      } else if k == "discord_user_role" {
        discord := discord["user_role" := m[k]];
      } else if k == "telegram_channels" {
        telegram := telegram["channels" := m[k]];
      } else if k == "telegram_admins" {
        telegram := telegram["admins" := m[k]];
      } else {
        nested := nested[k := m[k]];
      }
    }
    assert Restricted(m, done) == m;
    if discord != map[] {
      nested := nested["discord" := Table(discord)];
    }
    if telegram != map[] {
      nested := nested["telegram" := Table(telegram)];
    }
  }

  /** A row that is no table is passed on as it is. */
  function NestedCommunities(rows: seq<Value>): seq<Value>
  {
    seq(|rows|, i requires 0 <= i < |rows| =>
      if rows[i].Table? then Table(NestedCommunity(rows[i].fields)) else rows[i])
  }

  method NestCommunityRows(rows: seq<Value>) returns (out: seq<Value>)
    ensures out == NestedCommunities(rows)
  {
    out := [];
    for i := 0 to |rows|
      invariant out == NestedCommunities(rows)[..i]
    {
      if !rows[i].Table? {
        out := out + [rows[i]];
      } else {
        var nested := NestCommunityRow(rows[i].fields);
        out := out + [Table(nested)];
      }
    }
  }

  lemma TextsOfList(fields: Fields, k: string, texts: seq<string>)
    requires k in fields && fields[k] == StrList(texts)
    ensures TextsAt(fields, k) == texts
  {
  }

  lemma NestedLookups(m: Fields)
    requires "discord" !in m && "telegram" !in m
    ensures TableAt(NestedCommunity(m), "discord") == Discord(m)
    ensures TableAt(NestedCommunity(m), "telegram") == Telegram(m)
    ensures forall k :: k in m && k !in DISCORD_KEYS + TELEGRAM_KEYS ==> Lookup(NestedCommunity(m), k) == Lookup(m, k)
  {
  }

  lemma PairLookups(m: Fields, a: string, nameA: string, b: string, nameB: string)
    requires nameA != nameB && a in m && b in m
    ensures Lookup(Pair(m, a, nameA, b, nameB), nameA) == Some(m[a])
    ensures Lookup(Pair(m, a, nameA, b, nameB), nameB) == Some(m[b])
  {
  }

  lemma TextsFrom(fields: Fields, k: string, texts: seq<string>)
    requires Lookup(fields, k) == Some(StrList(texts))
    ensures TextsAt(fields, k) == texts
  {
    TextsOfList(fields, k, texts);
  }

  /** What a row of a community says, key by key. */
  predicate Says(row: Fields, c: Community)
  {
    && Lookup(row, "name") == Some(Str(c.name))
    && Lookup(row, "allowed_areas") == Some(StrList(c.allowedAreas))
    && Lookup(row, "location_fence") == Some(StrList(c.locationFence))
    && Lookup(row, "discord_channels") == Some(StrList(c.discordChannels))
    && Lookup(row, "discord_user_role") == Some(StrList(c.discordUserRole))
    && Lookup(row, "telegram_channels") == Some(StrList(c.telegramChannels))
    && Lookup(row, "telegram_admins") == Some(StrList(c.telegramAdmins))
    && "discord" !in row && "telegram" !in row
  }

  lemma FlatSays(c: Community)
    ensures Says(FlatCommunity(c).fields, c)
  {
  }

  lemma SaysComesBack(row: Fields, c: Community)
    requires Says(row, c)
    ensures DecodeCommunity(Table(NestedCommunity(row))) == c
  {
    var m := NestedCommunity(row);
    NestedLookups(row);
    PairLookups(row, "discord_channels", "channels", "discord_user_role", "user_role");
    PairLookups(row, "telegram_channels", "channels", "telegram_admins", "admins");
    assert Lookup(m, "name") == Some(Str(c.name));
    TextsFrom(m, "allowed_areas", c.allowedAreas);
    TextsFrom(m, "location_fence", c.locationFence);
    TextsFrom(Discord(row), "channels", c.discordChannels);
    TextsFrom(Discord(row), "user_role", c.discordUserRole);
    TextsFrom(Telegram(row), "channels", c.telegramChannels);
    TextsFrom(Telegram(row), "admins", c.telegramAdmins);
  }

  lemma CommunityComesBack(c: Community)
    ensures DecodeCommunity(Table(NestedCommunity(FlatCommunity(c).fields))) == c
  {
    FlatSays(c);
    SaysComesBack(FlatCommunity(c).fields, c);
  }

  /** Flattening communities and nesting the rows again gives the communities back. */
  lemma CommunitiesComeBack(cs: seq<Community>)
    ensures DecodeCommunities(List(NestedCommunities(FlattenCommunities(cs).items))) == cs
  {
    forall i | 0 <= i < |cs|
      ensures DecodeCommunity(Table(NestedCommunity(FlatCommunity(cs[i]).fields))) == cs[i]
    {
      CommunityComesBack(cs[i]);
    }
  }

  /** Keys that no flattening knows of survive the nesting. */
  lemma UnrelatedKeysSurvive(m: Fields, k: string)
    requires k !in DISCORD_KEYS + TELEGRAM_KEYS + {"discord", "telegram"}
    ensures Lookup(NestedCommunity(m), k) == Lookup(m, k)
  {
  }

  // ----- tileserver settings ----------------------------------------------------------------

  datatype Tileserver = Tileserver(
    kind: string, width: int, height: int, zoom: int, ttl: int,
    includeStops: Option<bool>, pregenerate: Option<bool>)

  /** An unset flag is null in the row, so that it stays unset. */
  function BoolOrNull(b: Option<bool>): Value
  {
    if b.None? then Null else Bool(b.value)
  }

  function NumAt(fields: Fields, k: string): int
  {
    if k in fields && fields[k].Num? then fields[k].n else 0
  }

  /** A flag that is null or missing is unset. */
  function BoolAt(fields: Fields, k: string): Option<bool>
  {
    if k in fields && fields[k].Bool? then Some(fields[k].b) else None
  }

  function DecodeTileserver(m: Fields): Tileserver
  {
    Tileserver(StrAt(m, "type"), NumAt(m, "width"), NumAt(m, "height"), NumAt(m, "zoom"), NumAt(m, "ttl"),
               BoolAt(m, "include_stops"), BoolAt(m, "pregenerate"))
  }

  type Settings = map<string, Tileserver>

  function DecodeSettings(v: Value): Settings
  {
    if v.Table? then map k | k in v.fields && v.fields[k].Table? :: DecodeTileserver(v.fields[k].fields) else map[]
  }

  function FlatTileserver(key: string, t: Tileserver): Fields
  {
    map[
      "maptype" := Str(key),
      "type" := Str(t.kind),
      "width" := Num(t.width),
      "height" := Num(t.height),
      "zoom" := Num(t.zoom),
      "ttl" := Num(t.ttl),
      "include_stops" := BoolOrNull(t.includeStops),
      "pregenerate" := BoolOrNull(t.pregenerate)]
  }

  /** The rows of these settings, for the keys in some order. */
  function Rows(settings: Settings, order: seq<string>): seq<Value>
    requires forall k :: k in order ==> k in settings
  {
    seq(|order|, i requires 0 <= i < |order| => Table(FlatTileserver(order[i], settings[order[i]])))
  }

  ghost predicate Lists(order: seq<string>, settings: Settings)
  {
    && (forall i, j :: 0 <= i < j < |order| ==> order[i] != order[j])
    && (forall k :: k in order <==> k in settings)
  }

  /** White space in the sense of unicode.IsSpace. */
  predicate IsSpace(c: char)
  {
    || '\t' <= c <= '\r' || c == ' ' || c == '\U{85}' || c == '\U{A0}' || c == '\U{1680}'
    || '\U{2000}' <= c <= '\U{200A}' || c == '\U{2028}' || c == '\U{2029}' || c == '\U{202F}'
    || c == '\U{205F}' || c == '\U{3000}'
  }

  function TrimLeft(s: string): string
  {
    if s != "" && IsSpace(s[0]) then TrimLeft(s[1..]) else s
  }

  function TrimRight(s: string): string
  {
    if s != "" && IsSpace(s[|s| - 1]) then TrimRight(s[..|s| - 1]) else s
  }

  function TrimSpace(s: string): string
  {
    TrimRight(TrimLeft(s))
  }

  lemma {:induction false} TrimRightKeepsStart(s: string)
    ensures TrimRight(s) != "" ==> s != "" && TrimRight(s)[0] == s[0]
    ensures TrimRight(TrimRight(s)) == TrimRight(s)
  {
    if s != "" && IsSpace(s[|s| - 1]) {
      TrimRightKeepsStart(s[..|s| - 1]);
    }
  }

  lemma {:induction false} TrimLeftStops(s: string)
    ensures TrimLeft(s) != "" ==> !IsSpace(TrimLeft(s)[0])
  {
    if s != "" && IsSpace(s[0]) {
      TrimLeftStops(s[1..]);
    }
  }

  lemma TrimTwice(s: string)
    ensures TrimSpace(TrimSpace(s)) == TrimSpace(s)
  {
    TrimLeftStops(s);
    TrimRightKeepsStart(TrimLeft(s));
  }

  function NestedTiles(rows: seq<Value>): Fields
  {
    if rows == [] then map[]
    else
      var before, row := NestedTiles(rows[..|rows| - 1]), rows[|rows| - 1];
      if !row.Table? || TrimSpace(StrAt(row.fields, "maptype")) == "" then before
      else before[TrimSpace(StrAt(row.fields, "maptype")) := Table(row.fields - {"maptype"})]
  }

  method NestTileserverRows(rows: seq<Value>) returns (out: Fields)
    ensures out == NestedTiles(rows)
  {
    out := map[];
    for i := 0 to |rows|
      invariant out == NestedTiles(rows[..i])
    {
      assert rows[..i + 1][..i] == rows[..i];
      if !rows[i].Table? {
        continue;
      }
      var m := rows[i].fields;
      var key := TrimSpace(StrAt(m, "maptype"));
      if key == "" {
        continue;
      }
      var entry: Fields := map[];
      var todo := m.Keys;
      while todo != {}
        invariant todo <= m.Keys
        invariant entry == Restricted(m, m.Keys - todo) - {"maptype"}
      {
        var k :| k in todo;
        assert m.Keys - (todo - {k}) == m.Keys - todo + {k};
        todo := todo - {k};
        if k == "maptype" {
          continue;
        }
        entry := entry[k := m[k]];
      }
      assert m.Keys - todo == m.Keys && Restricted(m, m.Keys) == m;
      out := out[key := Table(entry)];
    }
    assert rows[..|rows|] == rows;
  }

  predicate Clean(k: string)
  {
    k != "" && TrimSpace(k) == k
  }

  lemma {:induction false} NestedKeysAreClean(rows: seq<Value>)
    ensures forall k :: k in NestedTiles(rows) ==> Clean(k)
  {
    if rows != [] {
      NestedKeysAreClean(rows[..|rows| - 1]);
      var row := rows[|rows| - 1];
      if row.Table? {
        TrimTwice(StrAt(row.fields, "maptype"));
      }
    }
  }

  lemma TileserverComesBack(k: string, t: Tileserver)
    ensures DecodeTileserver(FlatTileserver(k, t) - {"maptype"}) == t
  {
  }

  function RowsOf(settings: Settings, order: seq<string>): Settings
    requires forall k :: k in order ==> k in settings
  {
    map k | k in order :: settings[k]
  }

  lemma DecodeGrows(before: Fields, k: string, entry: Fields)
    ensures DecodeSettings(Table(before[k := Table(entry)])) ==
            DecodeSettings(Table(before))[k := DecodeTileserver(entry)]
  {
  }

  lemma TilesGrow(rows: seq<Value>, k: string, t: Tileserver)
    requires Clean(k)
    ensures NestedTiles(rows + [Table(FlatTileserver(k, t))]) ==
            NestedTiles(rows)[k := Table(FlatTileserver(k, t) - {"maptype"})]
  {
    var all := rows + [Table(FlatTileserver(k, t))];
    assert all[..|all| - 1] == rows;
    assert StrAt(FlatTileserver(k, t), "maptype") == k;
  }

  lemma RowsGrow(settings: Settings, order: seq<string>)
    requires order != [] && forall k :: k in order ==> k in settings
    ensures var n := |order| - 1;
            && Rows(settings, order) ==
              Rows(settings, order[..n]) + [Table(FlatTileserver(order[n], settings[order[n]]))]
            && RowsOf(settings, order) == RowsOf(settings, order[..n])[order[n] := settings[order[n]]]
  {
    assert order == order[..|order| - 1] + [order[|order| - 1]];
  }

  lemma {:induction false} RowsComeBack(settings: Settings, order: seq<string>)
    requires forall k :: k in order ==> k in settings && Clean(k)
    ensures DecodeSettings(Table(NestedTiles(Rows(settings, order)))) == RowsOf(settings, order)
  {
    if order == [] {
      assert Rows(settings, order) == [];
    } else {
      var n := |order| - 1;
      var last := order[n];
      RowsGrow(settings, order);
      RowsComeBack(settings, order[..n]);
      TilesGrow(Rows(settings, order[..n]), last, settings[last]);
      DecodeGrows(NestedTiles(Rows(settings, order[..n])), last, FlatTileserver(last, settings[last]) - {"maptype"});
      TileserverComesBack(last, settings[last]);
    }
  }

  /** Flattening the tileserver settings and nesting the rows again gives them back, unset
      flags included, exactly when every key is non-empty and has no white space around
      it: the nesting trims keys and skips empty ones. */
  lemma SettingsComeBackIff(settings: Settings, order: seq<string>)
    requires Lists(order, settings)
    ensures DecodeSettings(Table(NestedTiles(Rows(settings, order)))) == settings <==>
            forall k :: k in settings ==> Clean(k)
  {
    NestedKeysAreClean(Rows(settings, order));
    if forall k :: k in settings ==> Clean(k) {
      RowsComeBack(settings, order);
      assert settings == RowsOf(settings, order);
    } else {
      var k :| k in settings && !Clean(k);
      assert k !in DecodeSettings(Table(NestedTiles(Rows(settings, order))));
    }
  }

  /** One that does not come back. */
  lemma PaddedKeyIsRenamed(t: Tileserver)
    ensures var settings: Settings := map[" raid" := t];
            DecodeSettings(Table(NestedTiles(Rows(settings, [" raid"])))) == map["raid" := t]
  {
    var row := FlatTileserver(" raid", t);
    var rows := Rows(map[" raid" := t], [" raid"]);
    assert rows == [Table(row)];
    assert TrimLeft(" raid") == "raid" by {
      assert " raid"[1..] == "raid";
    }
    assert NestedTiles(rows[..0]) == map[];
    TileserverComesBack(" raid", t);
  }

  // ----- the form ------------------------------------------------------------------------------

  const COMMUNITIES := ("area_security", "communities")
  const TILES := ("geocoding", "tileserver_settings")

  method FlattenTileserverSettings(settings: Settings) returns (rows: seq<Value>, order: seq<string>)
    ensures Lists(order, settings) && rows == Rows(settings, order)
  {
    rows, order := [], [];
    var todo := settings.Keys;
    while todo != {}
      invariant todo <= settings.Keys
      invariant forall k :: k in order <==> k in settings && k !in todo
      invariant forall i, j :: 0 <= i < j < |order| ==> order[i] != order[j]
      invariant rows == Rows(settings, order)
    {
      var k :| k in todo;
      todo := todo - {k};
      order := order + [k];
      RowsGrow(settings, order);
      assert order[..|order| - 1] + [k] == order;
      rows := rows + [Table(FlatTileserver(k, settings[k]))];
    }
  }

  /** What the form shows for a field: secrets masked, tables as rows, the rest as the
      loader reads it. */
  ghost predicate Shows(v: Value, raw: Fields, c: Schema, section: string, field: string)
  {
    var now := Effective(raw, c, section, field);
    if (section, field) in c.sensitive then v == MASK
    else if (section, field) == COMMUNITIES then v == FlattenCommunities(DecodeCommunities(now))
    else if (section, field) == TILES then
      exists order :: Lists(order, DecodeSettings(now)) && v == List(Rows(DecodeSettings(now), order))
    else v == now
  }

  ghost predicate ShowsSection(fields: Fields, raw: Fields, c: Schema, section: string)
  {
    forall f :: f in fields ==> Shows(fields[f], raw, c, section, f)
  }

  ghost predicate IsForm(form: Fields, raw: Fields, c: Schema)
  {
    forall s :: s in form ==> s in c.sections && form[s].Table? && ShowsSection(form[s].fields, raw, c, s)
  }

  method ExtractField(raw: Fields, c: Schema, section: string, field: string) returns (v: Value)
    ensures Shows(v, raw, c, section, field)
  {
    if (section, field) in c.sensitive {
      return MASK;
    }
    v := Effective(raw, c, section, field);
    if (section, field) == COMMUNITIES {
      v := FlattenCommunities(DecodeCommunities(v));
    } else if (section, field) == TILES {
      var rows, order := FlattenTileserverSettings(DecodeSettings(v));
      v := List(rows);
    }
  }

  method ExtractSection(raw: Fields, c: Schema, section: string) returns (fields: Fields)
    requires section in c.sections
    ensures fields.Keys == c.sections[section] && ShowsSection(fields, raw, c, section)
  {
    fields := map[];
    var todo := c.sections[section];
    while todo != {}
      invariant todo <= c.sections[section] && fields.Keys == c.sections[section] - todo
      invariant ShowsSection(fields, raw, c, section)
    {
      var f :| f in todo;
      var v := ExtractField(raw, c, section, f);
      todo, fields := todo - {f}, fields[f := v];
    }
  }

  method ExtractValues(raw: Fields, c: Schema, filterSection: string) returns (form: Fields)
    ensures IsForm(form, raw, c)
    ensures form.Keys == set s | s in c.sections && (filterSection == "" || s == filterSection)
    ensures forall s :: s in form ==> form[s].Table? && form[s].fields.Keys == c.sections[s]
  {
    form := map[];
    var todo := set s | s in c.sections && (filterSection == "" || s == filterSection);
    ghost var all := todo;
    while todo != {}
      invariant todo <= all && form.Keys == all - todo
      invariant IsForm(form, raw, c)
      invariant forall s :: s in form ==> form[s].Table? && form[s].fields.Keys == c.sections[s]
    {
      var s :| s in todo;
      var fields := ExtractSection(raw, c, s);
      todo, form := todo - {s}, form[s := Table(fields)];
    }
  }

  // ----- submitting it --------------------------------------------------------------------------

  predicate IsMasked(c: Schema, section: string, field: string, v: Value)
  {
    (section, field) in c.sensitive && v == MASK
  }

  function StrippedFields(fields: Fields, c: Schema, section: string): Fields
  {
    map f | f in fields && !IsMasked(c, section, f, fields[f]) :: fields[f]
  }

  function Stripped(updates: Fields, c: Schema): Fields
  {
    map s | s in updates :: if updates[s].Table? then Table(StrippedFields(updates[s].fields, c, s)) else updates[s]
  }

  function NestedField(section: string, field: string, v: Value): Value
  {
    if (section, field) == COMMUNITIES && v.List? then List(NestedCommunities(v.items))
    else if (section, field) == TILES && v.List? then Table(NestedTiles(v.items))
    else v
  }

  function NestedFields(fields: Fields, section: string): Fields
  {
    map f | f in fields :: NestedField(section, f, fields[f])
  }

  function Nested(updates: Fields): Fields
  {
    map s | s in updates :: if updates[s].Table? then Table(NestedFields(updates[s].fields, s)) else updates[s]
  }

  /** The submitted updates, changed in place before they are saved. */
  class Submission {
    var updates: Fields

    constructor (updates: Fields)
      ensures this.updates == updates
    {
      this.updates := updates;
    }

    method StripSection(c: Schema, section: string)
      requires section in updates
      modifies this
      ensures updates == old(updates)[section := Stripped(old(updates), c)[section]]
    {
      if !updates[section].Table? {
        return;
      }
      ghost var fields := updates[section].fields;
      var kept := updates[section].fields;
      var all := set p | p in c.sensitive && p.0 == section :: p.1;
      var todo := all;
      while todo != {}
        invariant todo <= all
        invariant kept == map f | f in fields && !(f in all - todo && fields[f] == MASK) :: fields[f]
      {
        var f :| f in todo;
        todo := todo - {f};
        if f in kept && kept[f] == MASK {
          kept := kept - {f};
        }
      }
      assert forall f :: f in all <==> (section, f) in c.sensitive;
      assert kept == StrippedFields(fields, c, section);
      updates := updates[section := Table(kept)];
    }

    method StripMaskedSensitiveValues(c: Schema)
      modifies this
      ensures updates == Stripped(old(updates), c)
    {
      ghost var was := updates;
      var todo := updates.Keys;
      while todo != {}
        invariant todo <= was.Keys
        invariant updates == map s | s in was :: if s in todo then was[s] else Stripped(was, c)[s]
      {
        var s :| s in todo;
        todo := todo - {s};
        StripSection(c, s);
      }
    }

    method NestArea()
      modifies this
      ensures updates == NestedIn(old(updates), "area_security")
    {
      if "area_security" in updates && updates["area_security"].Table? {
        var area := updates["area_security"].fields;
        if "communities" in area && area["communities"].List? {
          var nested := NestCommunityRows(area["communities"].items);
          area := area["communities" := List(nested)];
        }
        assert area == NestedFields(old(updates)["area_security"].fields, "area_security");
        updates := updates["area_security" := Table(area)];
      }
    }

    method NestGeocoding()
      modifies this
      ensures updates == NestedIn(old(updates), "geocoding")
    {
      if "geocoding" in updates && updates["geocoding"].Table? {
        var geo := updates["geocoding"].fields;
        if "tileserver_settings" in geo && geo["tileserver_settings"].List? {
          var nested := NestTileserverRows(geo["tileserver_settings"].items);
          geo := geo["tileserver_settings" := Table(nested)];
        }
        assert geo == NestedFields(old(updates)["geocoding"].fields, "geocoding");
        updates := updates["geocoding" := Table(geo)];
      }
    }

    method NestTableUpdates()
      modifies this
      ensures updates == Nested(old(updates))
    {
      NestArea();
      NestGeocoding();
      OnlyTheseAreNested(old(updates));
    }

    /** The handler, from the parsed body to the file. */
    method Save(c: Schema, file: ConfigFile)
      modifies this, file
      ensures file.sections == Saved(old(file.sections), c, old(updates))
    {
      StripMaskedSensitiveValues(c);
      NestTableUpdates();
      MigrateLegacyLoggingKeys(file);
      file.ApplySchemaUpdates(c, updates);
    }
  }

  /** The file after a form is submitted. */
  function Saved(raw: Fields, c: Schema, updates: Fields): Fields
  {
    Applied(Migrated(raw), c, Nested(Stripped(updates, c)))
  }

  /** One section nested. */
  function NestedIn(updates: Fields, section: string): Fields
  {
    if section in updates && updates[section].Table? then
      updates[section := Table(NestedFields(updates[section].fields, section))]
    else updates
  }

  lemma OnlyTheseAreNested(updates: Fields)
    ensures NestedIn(NestedIn(updates, "area_security"), "geocoding") == Nested(updates)
  {
    forall s | s in updates && updates[s].Table? && s != "area_security" && s != "geocoding"
      ensures NestedFields(updates[s].fields, s) == updates[s].fields
    {
    }
  }

  // ----- what a submission changes ------------------------------------------------------------

  /** Equal as the configuration reads them: the two flattened tables by what they
      decode to. */
  predicate SameMeaning(section: string, field: string, a: Value, b: Value)
  {
    if (section, field) == COMMUNITIES then DecodeCommunities(a) == DecodeCommunities(b)
    else if (section, field) == TILES then DecodeSettings(a) == DecodeSettings(b)
    else a == b
  }

  lemma NestedLookup(updates: Fields, c: Schema, section: string, field: string)
    requires section in updates && updates[section].Table?
    ensures Names(Nested(Stripped(updates, c)), section, field) <==>
            Names(updates, section, field) && !IsMasked(c, section, field, updates[section].fields[field])
    ensures Names(Nested(Stripped(updates, c)), section, field) ==>
              FieldsIn(Nested(Stripped(updates, c)), section)[field] ==
              NestedField(section, field, updates[section].fields[field])
  {
  }

  lemma SameReach(updates: Fields, c: Schema, section: string)
    ensures Replaces(Nested(Stripped(updates, c)), section) <==> Replaces(updates, section)
    ensures NamesInner(Nested(Stripped(updates, c)), section) ==> NamesInner(updates, section)
  {
    var path := Parts(section);
    if path[0] in updates && updates[path[0]].Table? && |path| > 1 {
      NestedLookup(updates, c, path[0], path[1]);
    }
  }

  /** A field is submitted when it is named and not a secret still shown as its mask. */
  predicate Submits(updates: Fields, c: Schema, section: string, field: string)
  {
    Names(updates, section, field) && !IsMasked(c, section, field, FieldsIn(updates, section)[field])
  }

  /** The value saved for it. */
  function SavedValue(updates: Fields, section: string, field: string): Value
    requires Names(updates, section, field)
  {
    NestedField(section, field, FieldsIn(updates, section)[field])
  }

  /** What the loader reads after a save: in an undotted section each submitted field has
      its value, nested, unless that was elided; every other field and every secret still
      shown as its mask is as it was.  A submitted value is read exactly when it arrives. */
  lemma SaveTakesEffect(raw: Fields, c: Schema, updates: Fields, section: string, field: string)
    requires !NamesInner(updates, section)
    ensures Effective(Saved(raw, c, updates), c, section, field) ==
            if Replaces(updates, section) then c.loaded(section, field)
            else if !Dotted(section) && Submits(updates, c, section, field) then
              ReadBack(c, section, field, SavedValue(updates, section, field))
            else Effective(Migrated(raw), c, section, field)
    ensures Submits(updates, c, section, field) && !Replaces(updates, section) ==>
              var v := SavedValue(updates, section, field);
              (Effective(Saved(raw, c, updates), c, section, field) == v
               <==> Arrives(Migrated(raw), c, section, field, v))
  {
    SameReach(updates, c, section);
    UpdatesTakeEffect(Migrated(raw), c, Nested(Stripped(updates, c)), section, field);
    if section in updates && updates[section].Table? {
      NestedLookup(updates, c, section, field);
    }
  }

  /** The keys a resubmission would rename or lose. */
  predicate TilesClean(raw: Fields, c: Schema)
  {
    forall k :: k in DecodeSettings(Effective(raw, c, TILES.0, TILES.1)) ==> Clean(k)
  }

  lemma FieldComesBack(raw: Fields, c: Schema, v: Value, section: string, field: string)
    requires Shows(v, raw, c, section, field) && (section, field) !in c.sensitive
    ensures SameMeaning(section, field, NestedField(section, field, v), Effective(raw, c, section, field)) <==>
            ((section, field) == TILES ==> TilesClean(raw, c))
  {
    var now := Effective(raw, c, section, field);
    if (section, field) == COMMUNITIES {
      CommunitiesComeBack(DecodeCommunities(now));
    } else if (section, field) == TILES {
      var order :| Lists(order, DecodeSettings(now)) && v == List(Rows(DecodeSettings(now), order));
      SettingsComeBackIff(DecodeSettings(now), order);
    }
  }

  /** The schema declares no defaults for tables. */
  predicate TablesHaveNoDefaults(c: Schema)
  {
    COMMUNITIES !in c.defaults && TILES !in c.defaults
  }

  /** Submitting the form as it was extracted leaves a field as it was, secrets included,
      with two exceptions: a plain field whose value is the schema's default and not the
      loader's, and tileserver settings with a key that is not clean. */
  lemma ResubmittingIff(raw: Fields, c: Schema, form: Fields, section: string, field: string)
    requires IsForm(form, Migrated(raw), c) && TablesHaveNoDefaults(c) && !NamesInner(form, section)
    ensures var now := Effective(Migrated(raw), c, section, field);
            SameMeaning(section, field, Effective(Saved(raw, c, form), c, section, field), now)
            <==> (!Dotted(section) && Names(form, section, field) && (section, field) !in c.sensitive ==>
                    && (IsDefault(c, section, field, now) ==> c.loaded(section, field) == now)
                    && ((section, field) == TILES ==> TilesClean(Migrated(raw), c)))
  {
    SaveTakesEffect(raw, c, form, section, field);
    FormReplacesNothing(form, Migrated(raw), c, section);
    if Names(form, section, field) {
      assert Shows(form[section].fields[field], Migrated(raw), c, section, field);
      if (section, field) !in c.sensitive {
        FieldComesBack(Migrated(raw), c, form[section].fields[field], section, field);
      }
    }
  }

  lemma FormReplacesNothing(form: Fields, raw: Fields, c: Schema, section: string)
    requires IsForm(form, raw, c)
    ensures !Replaces(form, section)
  {
  }

  /** The saved file has no legacy keys, so it reads as it stands. */
  lemma SavedReadsAsItStands(raw: Fields, c: Schema, updates: Fields)
    requires !HasLegacyKeys(updates)
    ensures Migrated(Saved(raw, c, updates)) == Saved(raw, c, updates)
  {
    MigrationKeepsTheLevel(raw);
    var nested := Nested(Stripped(updates, c));
    var saved := FieldsIn(Saved(raw, c, updates), "logging");
    AppliedLookup(Migrated(raw), c, nested, "logging");
    forall k | k in LEGACY_KEYS ensures k !in saved {
      assert k !in FieldsIn(updates, "logging").Keys * LEGACY_KEYS;
      assert k !in FieldsIn(Migrated(raw), "logging").Keys * LEGACY_KEYS;
      if "logging" in nested && nested["logging"].Table? {
        MergedFields(Migrated(raw), c, nested, "logging");
      }
    }
  }

  // ----- one save after another -------------------------------------------------------------

  /** The file after these submissions, the first one first. */
  function AfterSaves(raw: Fields, c: Schema, submissions: seq<Fields>): Fields
  {
    if submissions == [] then raw
    else Saved(AfterSaves(raw, c, submissions[..|submissions| - 1]), c, submissions[|submissions| - 1])
  }

  /** The last value submitted for a field, leaving out secrets shown as their mask. */
  function LastSubmitted(submissions: seq<Fields>, c: Schema, section: string, field: string): Option<Value>
  {
    if submissions == [] then None
    else
      var last := submissions[|submissions| - 1];
      if Submits(last, c, section, field) then Some(SavedValue(last, section, field))
      else LastSubmitted(submissions[..|submissions| - 1], c, section, field)
  }

  predicate Wellformed(updates: Fields, section: string)
  {
    !HasLegacyKeys(updates) && !Replaces(updates, section) && !NamesInner(updates, section)
  }

  /** After any number of saves, in which defaults were elided, written again and elided
      again, the last value submitted for a field is all that counts, and what the loader
      read at first if none was.  That value is read exactly when it arrives. */
  lemma {:induction false} LastSaveCounts(
    raw: Fields, c: Schema, submissions: seq<Fields>, section: string, field: string)
    requires forall i :: 0 <= i < |submissions| ==> Wellformed(submissions[i], section)
    ensures var last := LastSubmitted(submissions, c, section, field);
            var now := Effective(Migrated(AfterSaves(raw, c, submissions)), c, section, field);
            && now == (if last.Some? && !Dotted(section) then ReadBack(c, section, field, last.value)
                       else Effective(Migrated(raw), c, section, field))
            && (last.Some? ==> (now == last.value <==> Arrives(Migrated(raw), c, section, field, last.value)))
  {
    if submissions != [] {
      var n := |submissions| - 1;
      var before, updates := AfterSaves(raw, c, submissions[..n]), submissions[n];
      LastSaveCounts(raw, c, submissions[..n], section, field);
      SaveTakesEffect(before, c, updates, section, field);
      SavedReadsAsItStands(before, c, updates);
    }
  }
}
