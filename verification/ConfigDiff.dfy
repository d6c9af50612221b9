/**
 deepDiff of scripts/migrate-from-poracle.js: what of a configuration must be kept
 so that laying it over the defaults gives the same configuration.
 */
module ConfigDiff {
  import opened Sequences
  import opened Wrappers
  import opened TomlWriter

  /** obj[key] */
  function Find(entries: seq<Entry>, key: string): (r: Option<Config>)
    ensures r.Some? <==> exists i :: 0 <= i < |entries| && entries[i].key == key
    ensures r.Some? ==> exists i :: 0 <= i < |entries| && entries[i] == Entry(key, r.value)
  {
    if entries == [] then None
    else if Last(entries).key == key then (assert entries[|entries| - 1] == Last(entries); Some(Last(entries).value))
    else
      var r := Find(Front(entries), key);
      assert forall i :: 0 <= i < |entries| - 1 ==> entries[i] == Front(entries)[i];
      r
  }

  ghost predicate Distinct(entries: seq<Entry>)
  {
    forall i, j :: 0 <= i < j < |entries| ==> entries[i].key != entries[j].key
  }

  ghost predicate DistinctWithin(v: Config)
    decreases v
  {
    v.Record? ==> Distinct(v.entries) && forall i | 0 <= i < |v.entries| :: DistinctWithin(v.entries[i].value)
  }

  // ----- the function -----------------------------------------------------------------

  /** What the diff keeps of one entry.  Two values are the same when JSON.stringify
      writes them the same, that is, when they are the same tree. */
  function Residue(def: Option<Config>, value: Config): Option<Config>
    decreases value
  {
    if value.Record? && def.Some? && def.value.Record? then
      var sub := DeepDiff(def.value.entries, value.entries);
      if sub == [] then None else Some(Record(sub))
    else if def == Some(value) then None
    else Some(value)
  }

  function DeepDiff(defaults: seq<Entry>, overrides: seq<Entry>): seq<Entry>
    decreases overrides
  {
    if overrides == [] then []
    else
      var rest, e := DeepDiff(defaults, Front(overrides)), Last(overrides);
      match Residue(Find(defaults, e.key), e.value)
      case None => rest
      case Some(v) => rest + [Entry(e.key, v)]
  }

  /** The loop of the source. */
  method DeepDiffLoop(defaults: seq<Entry>, overrides: seq<Entry>) returns (diff: seq<Entry>)
    ensures diff == DeepDiff(defaults, overrides)
    decreases overrides
  {
    diff := [];
    var i := 0;
    while i < |overrides|
      invariant i <= |overrides| && diff == DeepDiff(defaults, overrides[..i])
    {
      var e := overrides[i];
      var def := Find(defaults, e.key);
      assert Front(overrides[..i + 1]) == overrides[..i] && Last(overrides[..i + 1]) == e;
      if e.value.Record? && def.Some? && def.value.Record? {
        assert e in overrides;
        var sub := DeepDiffLoop(def.value.entries, e.value.entries);
        if |sub| > 0 {
          diff := diff + [Entry(e.key, Record(sub))];
        }
      } else if def != Some(e.value) {
        diff := diff + [e];
      }
      i := i + 1;
    }
    assert overrides[..i] == overrides;
  }

  // ----- laying one configuration over another ---------------------------------------------

  /** The configuration in force: objects as maps, anything else as it is. */
  datatype Effective = Value(v: Config) | Object(fields: map<string, Effective>)

  function Keys(entries: seq<Entry>): set<string>
  {
    set i | 0 <= i < |entries| :: entries[i].key
  }

  lemma KeysFound(entries: seq<Entry>, key: string)
    ensures key in Keys(entries) <==> Find(entries, key).Some?
  {
  }

  function Whole(v: Config): Effective
    decreases v
  {
    if !v.Record? then Value(v)
    else
      Object(map k | k in Keys(v.entries) ::
               (KeysFound(v.entries, k);
                Whole(Find(v.entries, k).value)))
  }

  /** over laid on base: objects are merged key by key, anything else is replaced. */
  function Overlay(base: Config, over: Config): Effective
    decreases over
  {
    if !base.Record? || !over.Record? then Whole(over)
    else
      Object(map k | k in Keys(base.entries) + Keys(over.entries) ::
               (KeysFound(base.entries, k);
                KeysFound(over.entries, k);
                var b, o := Find(base.entries, k), Find(over.entries, k);
                if o.None? then Whole(b.value) else if b.None? then Whole(o.value) else Overlay(b.value, o.value)))
  }

  /** The field k of an overlay, from what base and over have there. */
  function Field(b: Option<Config>, o: Option<Config>): Option<Effective>
  {
    if o.None? then (if b.None? then None else Some(Whole(b.value)))
    else Some(if b.None? then Whole(o.value) else Overlay(b.value, o.value))
  }

  lemma OverlayFields(base: seq<Entry>, over: seq<Entry>, k: string)
    ensures var m := Overlay(Record(base), Record(over)).fields;
            Field(Find(base, k), Find(over, k)) == if k in m then Some(m[k]) else None
  {
    KeysFound(base, k);
    KeysFound(over, k);
  }

  lemma SameFields(m1: map<string, Effective>, m2: map<string, Effective>)
    requires forall k :: (if k in m1 then Some(m1[k]) else None) == (if k in m2 then Some(m2[k]) else None)
    ensures m1 == m2
  {
  }

  /** Two overlays of one base agree when they agree on every key. */
  lemma OverlayEqual(base: seq<Entry>, o1: seq<Entry>, o2: seq<Entry>)
    requires forall k :: Field(Find(base, k), Find(o1, k)) == Field(Find(base, k), Find(o2, k))
    ensures Overlay(Record(base), Record(o1)) == Overlay(Record(base), Record(o2))
  {
    var m1, m2 := Overlay(Record(base), Record(o1)).fields, Overlay(Record(base), Record(o2)).fields;
    forall k ensures (if k in m1 then Some(m1[k]) else None) == (if k in m2 then Some(m2[k]) else None) {
      OverlayFields(base, o1, k);
      OverlayFields(base, o2, k);
    }
    SameFields(m1, m2);
  }

  lemma OverlayNothing(base: Config)
    requires base.Record?
    ensures Overlay(base, Record([])) == Whole(base)
  {
    var m1, m2 := Overlay(base, Record([])).fields, Whole(base).fields;
    assert Keys([]) == {};
    forall k | k in m1 ensures m1[k] == m2[k] {
      KeysFound(base.entries, k);
      OverlayFields(base.entries, [], k);
    }
    assert m1 == m2;
  }

  /** What the diff has under a key is what Residue keeps of the override there. */
  lemma {:induction false} DiffFind(defaults: seq<Entry>, overrides: seq<Entry>, k: string)
    requires Distinct(overrides)
    ensures var o := Find(overrides, k);
            Find(DeepDiff(defaults, overrides), k) == if o.None? then None else Residue(Find(defaults, k), o.value)
  {
    if overrides != [] {
      var front, e := Front(overrides), Last(overrides);
      DiffFind(defaults, front, k);
      if e.key == k {
        assert Find(front, k).None?;
      }
      var r := Residue(Find(defaults, e.key), e.value);
      if r.Some? {
        var rest := DeepDiff(defaults, front);
        assert Front(rest + [Entry(e.key, r.value)]) == rest;
      }
    }
  }

  /** The law: laying the diff over the defaults gives what laying the overrides
      themselves over the defaults gives. */
  lemma {:induction false} DiffKeepsOverlay(defaults: seq<Entry>, overrides: seq<Entry>)
    requires DistinctWithin(Record(overrides))
    ensures Overlay(Record(defaults), Record(DeepDiff(defaults, overrides))) ==
            Overlay(Record(defaults), Record(overrides))
    decreases overrides
  {
    var diff := DeepDiff(defaults, overrides);
    forall k ensures Field(Find(defaults, k), Find(diff, k)) == Field(Find(defaults, k), Find(overrides, k)) {
      DiffFind(defaults, overrides, k);
      var d, o := Find(defaults, k), Find(overrides, k);
      if o.Some? {
        assert exists i :: 0 <= i < |overrides| && overrides[i] == Entry(k, o.value);
        ResidueKeepsOverlay(d, o.value);
      }
    }
    OverlayEqual(defaults, diff, overrides);
  }

  lemma {:induction false} ResidueKeepsOverlay(def: Option<Config>, value: Config)
    requires DistinctWithin(value)
    ensures Field(def, Residue(def, value)) == Field(def, Some(value))
    decreases value
  {
    if value.Record? && def.Some? && def.value.Record? {
      DiffKeepsOverlay(def.value.entries, value.entries);
      if DeepDiff(def.value.entries, value.entries) == [] {
        OverlayNothing(def.value);
      }
    }
  }

  // ----- and nothing more than needed -------------------------------------------------------

  /** The value at a path. */
  function At(v: Config, path: seq<string>): Option<Config>
  {
    if path == [] then Some(v)
    else if !v.Record? then None
    else
      var sub := Find(v.entries, path[0]);
      if sub.None? then None else At(sub.value, path[1..])
  }

  predicate IsLeaf(v: Config)
  {
    v.Record? ==> v.entries == []
  }

  /** Every leaf that the diff keeps differs from what the defaults have at its path. */
  lemma {:induction false} KeptLeavesDiffer(
    defaults: seq<Entry>, overrides: seq<Entry>, path: seq<string>, leaf: Config)
    requires DistinctWithin(Record(overrides))
    requires At(Record(DeepDiff(defaults, overrides)), path) == Some(leaf) && IsLeaf(leaf) && path != []
    ensures At(Record(defaults), path) != Some(leaf)
    decreases |path|
  {
    var k, tail := path[0], path[1..];
    DiffFind(defaults, overrides, k);
    var d, value := Find(defaults, k), Find(overrides, k).value;
    assert exists i :: 0 <= i < |overrides| && overrides[i] == Entry(k, value);
    if value.Record? && d.Some? && d.value.Record? {
      if tail != [] {
        KeptLeavesDiffer(d.value.entries, value.entries, tail, leaf);
      }
    } else if d.Some? && tail == [] {
      assert leaf == value;
    }
  }
}
