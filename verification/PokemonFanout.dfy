/**
 The fan-out of pokemon alerts, processor/cmd/processor/pokemon.go: matched users get a
 `monster` job for each language, users who were told before but no longer match get a
 `monsterChanged` one.  The per-language maps are heap objects that jobs share, so what
 must not leak from one job into another can be said.
 */
module PokemonFanout {
  import opened Wrappers
  import opened Recipients

  type View = map<string, string>

  /** The enrichment of one language; a Go map, so a reference. */
  class Fields {
    var values: View

    constructor (values: View)
      ensures this.values == values
    {
      this.values := values;
    }
  }

  /** The per-language map, whose entries other maps may share. */
  class LangMap {
    var entries: map<string, Fields>

    constructor (entries: map<string, Fields>)
      ensures this.entries == entries
    {
      this.entries := entries;
    }
  }

  datatype ChangeType = Species | Form | Gender | Encountered | WeatherBoost | Stats

  datatype Change = Change(kind: ChangeType, hasOldWebhook: bool, fallback: View)

  function Bucketing(c: ChangeType): string
  {
    if c.WeatherBoost? || c.Stats? then "stats" else "species"
  }

  datatype Job = Job(users: seq<User>, isChange: bool, perLang: LangMap?,
                     original: Option<View>, change: Option<ChangeType>)

  // ----- who was told before --------------------------------------------------------------

  datatype Prior = Prior(clean: nat, template: string)

  datatype Human = Human(kind: string, language: string, enabled: bool, adminDisable: bool)

  /** What the tracker and the human store know: the targets of the reply index, in
      whatever order it lists them, their messages that have not been evicted, and the
      humans by id. */
  datatype Told = Told(targets: seq<string>, prior: string -> Option<Prior>, human: string -> Option<Human>)

  function Rebuild(id: string, prior: Prior, told: Told, locale: string): Option<User>
  {
    match told.human(id)
    case None => None
    case Some(h) =>
      if !h.enabled || h.adminDisable then None
      else Some(User(id, h.kind, EffectiveLanguage(User(id, h.kind, h.language, "", 0, 0, 0), locale),
                     prior.template, prior.clean, 0, 0))
  }

  /** The user an id stands for, if the change still has to be told to them. */
  function ToldAgain(id: string, matched: seq<User>, told: Told, locale: string): Option<User>
  {
    if (exists u :: u in matched && u.id == id) || told.prior(id).None? then None
    else Rebuild(id, told.prior(id).value, told, locale)
  }

  /** Each target of the reply index that no longer matches and can still be told, once,
      with the clean bits and template of the message being replied to. */
  method PriorOnly(matched: seq<User>, told: Told, locale: string) returns (users: seq<User>)
    requires Distinct(told.targets)
    ensures forall u :: u in users ==> u.id in told.targets && ToldAgain(u.id, matched, told, locale) == Some(u)
    ensures forall id :: id in told.targets && ToldAgain(id, matched, told, locale).Some? ==>
              ToldAgain(id, matched, told, locale).value in users
    ensures forall i, j :: 0 <= i < j < |users| ==> users[i].id != users[j].id
    ensures forall u, m :: u in users && m in matched ==> u.id != m.id
    ensures forall u :: u in users ==> u.language != "" && told.prior(u.id) == Some(Prior(u.clean, u.template))
  {
    users := [];
    var matchedIds := set u | u in matched :: u.id;
    for i := 0 to |told.targets|
      invariant forall u :: u in users ==>
                  u.id in told.targets[..i] && ToldAgain(u.id, matched, told, locale) == Some(u)
      invariant forall k :: 0 <= k < i && ToldAgain(told.targets[k], matched, told, locale).Some? ==>
                  ToldAgain(told.targets[k], matched, told, locale).value in users
      invariant forall k, j :: 0 <= k < j < |users| ==> users[k].id != users[j].id
    {
      var id := told.targets[i];
      if id in matchedIds {
        continue;
      }
      var prior := told.prior(id);
      if prior.None? {
        continue;
      }
      var u := Rebuild(id, prior.value, told, locale);
      if u.Some? {
        users := users + [u.value];
      }
    }
  }

  // ----- the per-language maps ------------------------------------------------------------

  /** perLang, when the enricher can translate: an entry for every language spoken. */
  method Translate(users: seq<User>, locale: string, translate: string -> View) returns (perLang: LangMap)
    ensures fresh(perLang) && perLang.entries.Keys == Languages(users, locale)
    ensures forall l :: l in perLang.entries ==> fresh(perLang.entries[l]) && perLang.entries[l].values == translate(l)
  {
    var langs := DistinctLanguages(users, locale);
    perLang := new LangMap(map[]);
    for i := 0 to |langs|
      invariant fresh(perLang)
      invariant forall l :: l in perLang.entries <==> l in langs[..i]
      invariant forall l :: l in perLang.entries ==>
                  fresh(perLang.entries[l]) && perLang.entries[l].values == translate(l)
    {
      var fields := new Fields(translate(langs[i]));
      perLang.entries := perLang.entries[langs[i] := fields];
    }
    assert langs[..|langs|] == langs;
  }

  method BuildPerLanguageOriginal(users: seq<User>, locale: string, view: Option<string -> View>)
    returns (out: Option<map<string, View>>)
    ensures out.Some? <==> view.Some?
    ensures out.Some? ==>
              && out.value.Keys == Languages(users, locale)
              && forall l :: l in out.value ==> out.value[l] == view.value(l)
  {
    if view.None? {
      return None;
    }
    var langs := DistinctLanguages(users, locale);
    var built: map<string, View> := map[];
    for i := 0 to |langs|
      invariant forall l :: l in built <==> l in langs[..i]
      invariant forall l :: l in built ==> built[l] == view.value(l)
    {
      built := built[langs[i] := view.value(langs[i])];
    }
    assert langs[..|langs|] == langs;
    out := Some(built);
  }

  /** What a per-language map says, references followed. */
  ghost function Contents(perLang: LangMap?): map<string, View>
    reads perLang, if perLang == null then {} else perLang.entries.Values
  {
    if perLang == null then map[] else map l | l in perLang.entries :: perLang.entries[l].values
  }

  /** One language given the two change fields. */
  function WithChange(contents: map<string, View>, lang: string, bucket: string, text: string): map<string, View>
  {
    var values := if lang in contents then contents[lang] else map[];
    contents[lang := values["changeType" := bucket]["changeTypeText" := text]]
  }

  /** A new map that shares every entry but its own; nothing that was there before is
      written. */
  method PerLangWithChangeFields(perLang: LangMap?, lang: string, bucket: string, text: string) returns (out: LangMap)
    ensures fresh(out) && Contents(out) == WithChange(Contents(perLang), lang, bucket, text)
    ensures lang in out.entries && fresh(out.entries[lang])
    ensures perLang != null ==> forall l :: l in perLang.entries && l != lang ==>
              l in out.entries && out.entries[l] == perLang.entries[l]
  {
    if perLang == null {
      var only := new Fields(map["changeType" := bucket, "changeTypeText" := text]);
      out := new LangMap(map[lang := only]);
      return;
    }
    var clone := new Fields(if lang in perLang.entries then perLang.entries[lang].values else map[]);
    clone.values := clone.values["changeType" := bucket];
    clone.values := clone.values["changeTypeText" := text];
    out := new LangMap(perLang.entries);
    out.entries := out.entries[lang := clone];
  }

  // ----- the jobs ---------------------------------------------------------------------------

  function UsersOf(jobs: seq<Job>): seq<seq<User>>
  {
    seq(|jobs|, i requires 0 <= i < |jobs| => jobs[i].users)
  }

  /** The languages of these users, each once. */
  ghost predicate Covers(langs: seq<string>, users: seq<User>, locale: string)
  {
    Distinct(langs) && forall l :: l in langs <==> l in Languages(users, locale)
  }

  /** A job for each language of these users, to exactly its speakers. */
  ghost predicate Reaches(jobs: seq<Job>, users: seq<User>, langs: seq<string>, locale: string)
  {
    Covers(langs, users, locale) && UsersOf(jobs) == Buckets(users, locale, langs)
  }

  lemma ReachingConserves(jobs: seq<Job>, users: seq<User>, langs: seq<string>, locale: string)
    requires Reaches(jobs, users, langs, locale)
    ensures multiset(Joined(UsersOf(jobs))) == multiset(users)
    ensures |jobs| == |langs|
    ensures forall i :: 0 <= i < |jobs| ==> jobs[i].users == Speaking(users, locale, langs[i]) != []
  {
    BucketsConserve(users, locale, langs);
    assert |UsersOf(jobs)| == |Buckets(users, locale, langs)|;
    forall i | 0 <= i < |jobs| ensures jobs[i].users == Speaking(users, locale, langs[i]) != [] {
      assert UsersOf(jobs)[i] == Buckets(users, locale, langs)[i];
      SpeakersOf(users, locale, langs[i]);
    }
  }

  lemma OneMoreJob(jobs: seq<Job>, langs: seq<string>, users: seq<User>, locale: string, job: Job, l: string)
    requires UsersOf(jobs) == Buckets(users, locale, langs) && job.users == Speaking(users, locale, l)
    ensures UsersOf(jobs + [job]) == Buckets(users, locale, langs + [l])
  {
    assert |UsersOf(jobs)| == |Buckets(users, locale, langs)|;
    assert UsersOf(jobs + [job]) == UsersOf(jobs) + [job.users];
    assert Buckets(users, locale, langs + [l]) == Buckets(users, locale, langs) + [Speaking(users, locale, l)];
  }

  /** The keys of a map in the order a range loop happens to meet them: any order. */
  method Listing(keys: set<string>) returns (order: seq<string>)
    ensures Distinct(order) && forall l :: l in order <==> l in keys
  {
    order := [];
    var rest := keys;
    while rest != {}
      invariant Distinct(order) && rest <= keys
      invariant forall l :: l in order <==> l in keys && l !in rest
    {
      var l :| l in rest;
      rest := rest - {l};
      order := order + [l];
    }
  }

  predicate PlainJob(job: Job, perLang: LangMap?)
  {
    !job.isChange && job.perLang == perLang && job.original.None? && job.change.None?
  }

  /** One `monster` job for each language, all on the shared map. */
  method MatchedJobs(matched: seq<User>, perLang: LangMap?, locale: string) returns (jobs: seq<Job>, langs: seq<string>)
    ensures Reaches(jobs, matched, langs, locale)
    ensures forall i :: 0 <= i < |jobs| ==> PlainJob(jobs[i], perLang)
  {
    jobs := [];
    var groups := GroupByLanguage(matched, locale);
    langs := Listing(groups.Keys);
    for i := 0 to |langs|
      invariant UsersOf(jobs) == Buckets(matched, locale, langs[..i])
      invariant forall j :: 0 <= j < |jobs| ==> PlainJob(jobs[j], perLang)
    {
      var job := Job(groups[langs[i]], false, perLang, None, None);
      OneMoreJob(jobs, langs[..i], matched, locale, job, langs[i]);
      assert langs[..i + 1] == langs[..i] + [langs[i]];
      jobs := jobs + [job];
    }
    assert langs[..|langs|] == langs;
  }

  /** What a change is compared with: the earlier sighting as the speakers of a language
      would have seen it, when that can be built, and the bare one otherwise. */
  function OriginalFor(lang: string, change: Change, view: Option<string -> View>): View
  {
    if change.hasOldWebhook && view.Some? then view.value(lang) else change.fallback
  }

  /** A `monsterChanged` job carries the change and the original to compare with. */
  predicate ChangeJob(job: Job, change: Change, original: View)
  {
    job.isChange && job.change == Some(change.kind) && job.original == Some(original) && job.perLang != null
  }

  /** What its map says: the shared contents with the change fields added for its own
      language. */
  function WithChangeFor(contents: map<string, View>, lang: string, change: Change,
                         text: (string, string) -> string): map<string, View>
  {
    WithChange(contents, lang, Bucketing(change.kind), text(lang, Bucketing(change.kind)))
  }

  /** The original taken from those that were built. */
  function Chosen(originals: Option<map<string, View>>, change: Change, l: string): View
    requires originals.Some? ==> l in originals.value
  {
    if originals.Some? then originals.value[l] else change.fallback
  }

  method NewChangeJob(users: seq<User>, l: string, perLang: LangMap?, change: Change,
                      originals: Option<map<string, View>>, text: (string, string) -> string)
    returns (job: Job)
    requires originals.Some? ==> l in originals.value
    ensures job.users == users && fresh(job.perLang) && ChangeJob(job, change, Chosen(originals, change, l))
    ensures Contents(job.perLang) == WithChangeFor(Contents(perLang), l, change, text)
  {
    var bucket := Bucketing(change.kind);
    var own := PerLangWithChangeFields(perLang, l, bucket, text(l, bucket));
    var original := change.fallback;
    if originals.Some? {
      original := originals.value[l];
    }
    job := Job(users, true, own, Some(original), Some(change.kind));
  }

  /** One `monsterChanged` job for each language of those who were told before. */
  method ChangedJobs(prior: seq<User>, perLang: LangMap?, locale: string, change: Change,
                     view: Option<string -> View>, text: (string, string) -> string)
    returns (jobs: seq<Job>, langs: seq<string>)
    ensures Reaches(jobs, prior, langs, locale) && |jobs| == |langs|
    ensures forall i :: 0 <= i < |jobs| ==>
              ChangeJob(jobs[i], change, OriginalFor(langs[i], change, view)) && fresh(jobs[i].perLang)
    ensures forall i :: 0 <= i < |jobs| ==>
              Contents(jobs[i].perLang) == WithChangeFor(Contents(perLang), langs[i], change, text)
  {
    var originals := None;
    if change.hasOldWebhook {
      originals := BuildPerLanguageOriginal(prior, locale, view);
    }
    var groups := GroupByLanguage(prior, locale);
    langs := Listing(groups.Keys);
    jobs := NewChangeJobs(groups, langs, perLang, change, originals, text);
    assert UsersOf(jobs) == Buckets(prior, locale, langs);
  }

  method NewChangeJobs(groups: map<string, seq<User>>, langs: seq<string>, perLang: LangMap?, change: Change,
                       originals: Option<map<string, View>>, text: (string, string) -> string)
    returns (jobs: seq<Job>)
    requires forall l :: l in langs ==> l in groups && (originals.Some? ==> l in originals.value)
    ensures |jobs| == |langs| && forall i :: 0 <= i < |jobs| ==> jobs[i].users == groups[langs[i]]
    ensures forall i :: 0 <= i < |jobs| ==>
              ChangeJob(jobs[i], change, Chosen(originals, change, langs[i])) && fresh(jobs[i].perLang)
    ensures forall i :: 0 <= i < |jobs| ==>
              Contents(jobs[i].perLang) == WithChangeFor(Contents(perLang), langs[i], change, text)
  {
    jobs := [];
    ghost var contents := Contents(perLang);
    for i := 0 to |langs|
      invariant |jobs| == i
      invariant forall j :: 0 <= j < i ==>
                  jobs[j].users == groups[langs[j]]
                  && ChangeJob(jobs[j], change, Chosen(originals, change, langs[j])) && fresh(jobs[j].perLang)
      invariant forall j :: 0 <= j < i ==>
                  Contents(jobs[j].perLang) == WithChangeFor(contents, langs[j], change, text)
    {
      var job := NewChangeJob(groups[langs[i]], langs[i], perLang, change, originals, text);
      jobs := jobs + [job];
    }
  }

  // ----- the fan-out --------------------------------------------------------------------------

  /** What one webhook brings to the dispatch. */
  datatype Alert = Alert(
    locale: string,
    tracking: bool,
    dispatcher: bool,
    change: Option<Change>,
    told: Told,
    translate: Option<string -> View>,       // None while the enricher cannot translate
    oldView: Option<string -> View>,         // None when no original can be built
    text: (string, string) -> string)

  /** Is this a change worth telling those who no longer match? */
  predicate WorthTelling(a: Alert)
  {
    a.tracking && a.dispatcher && a.change.Some? && !a.change.value.kind.Encountered?
  }

  /** The jobs, first the `monster` and then the `monsterChanged` ones, with the language
      of each.  Without a dispatcher one job takes all the matched users. */
  method DispatchPokemonAlert(a: Alert, matched: seq<User>, prior: seq<User>, perLang: LangMap?)
    returns (monster: seq<Job>, spoken: seq<string>, changed: seq<Job>, langs: seq<string>)
    requires a.tracking
    ensures if a.dispatcher then Reaches(monster, matched, spoken, a.locale)
            else UsersOf(monster) == if matched == [] then [] else [matched]
    ensures forall i :: 0 <= i < |monster| ==> PlainJob(monster[i], perLang)
    ensures if WorthTelling(a) then Reaches(changed, prior, langs, a.locale) else changed == []
    ensures |changed| == |langs|
    ensures forall i :: 0 <= i < |changed| ==>
              && ChangeJob(changed[i], a.change.value, OriginalFor(langs[i], a.change.value, a.oldView))
              && fresh(changed[i].perLang)
    ensures forall i :: 0 <= i < |changed| ==>
              Contents(changed[i].perLang) == WithChangeFor(Contents(perLang), langs[i], a.change.value, a.text)
  {
    monster, spoken, changed, langs := [], [], [], [];
    if !a.dispatcher {
      if |matched| > 0 {
        monster := [Job(matched, false, perLang, None, None)];
      }
      return;
    }
    if |matched| > 0 {
      monster, spoken := MatchedJobs(matched, perLang, a.locale);
    }
    if |prior| > 0 && a.change.Some? && !a.change.value.kind.Encountered? {
      changed, langs := ChangedJobs(prior, perLang, a.locale, a.change.value, a.oldView, a.text);
    }
  }

  lemma {:induction false} JoinedHolds(buckets: seq<seq<User>>, i: nat, u: User)
    requires i < |buckets| && u in buckets[i]
    ensures u in Joined(buckets)
  {
    if i < |buckets| - 1 {
      JoinedHolds(buckets[..|buckets| - 1], i, u);
    }
  }

  lemma JoinedOne(users: seq<User>)
    ensures Joined([users]) == users && Joined([]) == []
  {
    assert [users][..0] == [];
  }

  /** The two kinds of job, with everything they share. */
  datatype Fanout = Fanout(monster: seq<Job>, changed: seq<Job>, langs: seq<string>,
                           prior: seq<User>, perLang: LangMap?)

  /** The matched users get `monster` jobs, each exactly once; the users who were told
      before get `monsterChanged` jobs, each exactly once, unless the change is an
      encounter only; nobody gets both. */
  ghost predicate Partitions(f: Fanout, a: Alert, matched: seq<User>)
  {
    && multiset(Joined(UsersOf(f.monster))) == multiset(matched)
    && multiset(Joined(UsersOf(f.changed))) == (if WorthTelling(a) then multiset(f.prior) else multiset{})
    && (forall u, v :: u in matched && v in f.prior ==> u.id != v.id)
    && (forall i, j :: 0 <= i < j < |f.prior| ==> f.prior[i].id != f.prior[j].id)
  }

  /** Who is told again, and the shared map with an entry for every language spoken by
      anybody who is told at all. */
  method Prepare(a: Alert, matched: seq<User>) returns (prior: seq<User>, perLang: LangMap?)
    requires Distinct(a.told.targets)
    ensures forall u, v :: u in matched && v in prior ==> u.id != v.id
    ensures forall i, j :: 0 <= i < j < |prior| ==> prior[i].id != prior[j].id
    ensures forall u :: u in prior ==> u.id in a.told.targets && ToldAgain(u.id, matched, a.told, a.locale) == Some(u)
    ensures WorthTelling(a) ==> forall id :: id in a.told.targets && ToldAgain(id, matched, a.told, a.locale).Some? ==>
              ToldAgain(id, matched, a.told, a.locale).value in prior
    ensures perLang != null <==> a.translate.Some?
    ensures perLang != null ==>
              fresh(perLang) && Contents(perLang) == Translations(matched + prior, a.locale, a.translate.value)
  {
    prior := [];
    if a.change.Some? && a.tracking && a.dispatcher {
      prior := PriorOnly(matched, a.told, a.locale);
    }
    perLang := null;
    if a.translate.Some? {
      perLang := Translate(matched + prior, a.locale, a.translate.value);
    }
  }

  function Translations(users: seq<User>, locale: string, translate: string -> View): map<string, View>
  {
    map l | l in Languages(users, locale) :: translate(l)
  }

  /** The shared map still says the bare translations when all the jobs are made; the
      map of a `monsterChanged` job says the same and, for the job's own language, the
      two change fields. */
  method ProcessPokemon(a: Alert, matched: seq<User>) returns (f: Fanout)
    requires Distinct(a.told.targets)
    requires !a.tracking ==> a.change.None?
    ensures Partitions(f, a, matched)
    ensures matched != [] || a.change.Some? ==> (f.perLang != null <==> a.translate.Some?)
    ensures f.perLang != null ==>
              a.translate.Some? && Contents(f.perLang) == Translations(matched + f.prior, a.locale, a.translate.value)
    ensures forall i :: 0 <= i < |f.monster| ==> PlainJob(f.monster[i], f.perLang)
    ensures |f.changed| == |f.langs| && (f.changed != [] ==> WorthTelling(a))
    ensures forall i :: 0 <= i < |f.changed| ==>
              && ChangeJob(f.changed[i], a.change.value, OriginalFor(f.langs[i], a.change.value, a.oldView))
              && f.changed[i].users == Speaking(f.prior, a.locale, f.langs[i])
              && Contents(f.changed[i].perLang) ==
                WithChangeFor(Contents(f.perLang), f.langs[i], a.change.value, a.text)
  {
    JoinedOne(matched);
    if |matched| == 0 && a.change.None? {
      return Fanout([], [], [], [], null);
    }
    var prior, perLang := Prepare(a, matched);
    if !a.tracking {
      return Fanout([Job(matched, false, perLang, None, None)], [], [], prior, perLang);
    }
    var monster, spoken, changed, langs := DispatchPokemonAlert(a, matched, prior, perLang);
    f := Fanout(monster, changed, langs, prior, perLang);
    if a.dispatcher {
      ReachingConserves(monster, matched, spoken, a.locale);
    }
    if WorthTelling(a) {
      ReachingConserves(changed, prior, langs, a.locale);
    }
  }

  /** Whoever is in a job speaks a language that the shared map has an entry for. */
  lemma EverybodyIsTranslated(f: Fanout, a: Alert, matched: seq<User>, job: Job, u: User)
    requires Partitions(f, a, matched) && (job in f.monster || job in f.changed) && u in job.users
    ensures EffectiveLanguage(u, a.locale) in Languages(matched + f.prior, a.locale)
  {
    if job in f.monster {
      var i :| 0 <= i < |f.monster| && f.monster[i] == job;
      JoinedHolds(UsersOf(f.monster), i, u);
      assert u in multiset(Joined(UsersOf(f.monster)));
      assert u in matched;
    } else {
      var i :| 0 <= i < |f.changed| && f.changed[i] == job;
      JoinedHolds(UsersOf(f.changed), i, u);
      assert u in multiset(Joined(UsersOf(f.changed)));
      assert u in f.prior;
    }
    assert u in matched + f.prior;
  }
}
