/**
 The recipients of an alert, processor/cmd/processor/helpers.go: the filters that
 compact the matched users in place, and the split by language.
 */
module Recipients {
  import opened Wrappers

  datatype User = User(id: string, kind: string, language: string, template: string,
                       clean: nat, rsvpChanges: int, ruleUid: int)

  // ----- filters ----------------------------------------------------------------------

  function Kept(users: seq<User>, keep: User -> bool): seq<User>
  {
    if users == [] then []
    else
      var last := users[|users| - 1];
      Kept(users[..|users| - 1], keep) + if keep(last) then [last] else []
  }

  /** The shape all the filters share: allowed := matched[:0], appended to while the
      loop still reads the same slice. */
  method Compact(matched: array<User>, n: nat, keep: User -> bool) returns (kept: nat)
    requires n <= matched.Length
    modifies matched
    ensures kept <= n && matched[..kept] == Kept(old(matched[..n]), keep)
  {
    kept := 0;
    ghost var was := matched[..n];
    for i := 0 to n
      invariant kept <= i
      invariant matched[..kept] == Kept(was[..i], keep)
      invariant forall j :: i <= j < n ==> matched[j] == was[j]
    {
      assert was[..i + 1][..i] == was[..i];
      if keep(matched[i]) {
        matched[kept] := matched[i];
        kept := kept + 1;
      }
    }
    assert was[..n] == was;
  }

  function NotBlocked(limiter: Option<(string, string) -> bool>): User -> bool
  {
    (u: User) => limiter.None? || !limiter.value(u.id, u.kind)
  }

  method FilterBlocked(matched: array<User>, n: nat, limiter: Option<(string, string) -> bool>) returns (kept: nat)
    requires n <= matched.Length
    modifies matched
    ensures kept <= n && matched[..kept] == Kept(old(matched[..n]), NotBlocked(limiter))
  {
    if limiter.None? {
      KeepingAll(matched[..n], NotBlocked(limiter));
      return n;
    }
    kept := Compact(matched, n, NotBlocked(limiter));
  }

  function NotMuted(mutes: Option<(string, int) -> bool>): User -> bool
  {
    (u: User) => mutes.None? || !mutes.value(u.id, u.ruleUid)
  }

  method FilterMuted(matched: array<User>, n: nat, mutes: Option<(string, int) -> bool>) returns (kept: nat)
    requires n <= matched.Length
    modifies matched
    ensures kept <= n && matched[..kept] == Kept(old(matched[..n]), NotMuted(mutes))
  {
    if mutes.None? || n == 0 {
      KeepingAll(matched[..n], NotMuted(mutes));
      return n;
    }
    kept := Compact(matched, n, NotMuted(mutes));
  }

  datatype Decision = Decision(allow: bool, failureMessage: string)

  datatype Notice = Notice(target: string, message: string)

  function Permitted(validator: Option<User -> Decision>): User -> bool
  {
    (u: User) => validator.None? || validator.value(u).allow
  }

  /** A message for each user who is denied with one. */
  function Notices(users: seq<User>, validator: Option<User -> Decision>): seq<Notice>
  {
    if users == [] || validator.None? then []
    else
      var last := users[|users| - 1];
      var d := validator.value(last);
      Notices(users[..|users| - 1], validator) +
      if !d.allow && d.failureMessage != "" then [Notice(last.id, d.failureMessage)] else []
  }

  function Decisions(users: seq<User>, validator: User -> Decision): (r: seq<Decision>)
    ensures |r| == |users| && forall i :: 0 <= i < |r| ==> r[i] == validator(users[i])
  {
    seq(|users|, i requires 0 <= i < |users| => validator(users[i]))
  }

  /** What one more user adds. */
  lemma OneMoreDecided(users: seq<User>, i: nat, validator: User -> Decision)
    requires i < |users|
    ensures var d, keep := validator(users[i]), Permitted(Some(validator));
            && Kept(users[..i + 1], keep) == Kept(users[..i], keep) + (if d.allow then [users[i]] else [])
            && Notices(users[..i + 1], Some(validator)) ==
              Notices(users[..i], Some(validator)) +
              if !d.allow && d.failureMessage != "" then [Notice(users[i].id, d.failureMessage)] else []
  {
    assert users[..i + 1][..i] == users[..i];
  }

  /** All decisions are made before the compaction overwrites anything, and the loop
      still finds each denied user where it stood. */
  method DropDenied(matched: array<User>, n: nat, validator: User -> Decision)
    returns (kept: nat, notices: seq<Notice>)
    requires n <= matched.Length
    modifies matched
    ensures kept <= n && matched[..kept] == Kept(old(matched[..n]), Permitted(Some(validator)))
    ensures notices == Notices(old(matched[..n]), Some(validator))
  {
    var decisions := Decisions(matched[..n], validator);
    kept, notices := 0, [];
    ghost var was, keep := matched[..n], Permitted(Some(validator));
    for i := 0 to n
      invariant kept <= i
      invariant matched[..kept] == Kept(was[..i], keep)
      invariant notices == Notices(was[..i], Some(validator))
      invariant forall j :: i <= j < n ==> matched[j] == was[j]
    {
      OneMoreDecided(was, i, validator);
      if decisions[i].allow {
        matched[kept] := matched[i];
        kept := kept + 1;
      } else if decisions[i].failureMessage != "" {
        notices := notices + [Notice(matched[i].id, decisions[i].failureMessage)];
      }
    }
    assert was[..n] == was;
  }

  method FilterValidation(matched: array<User>, n: nat, validator: Option<User -> Decision>)
    returns (kept: nat, notices: seq<Notice>)
    requires n <= matched.Length
    modifies matched
    ensures kept <= n && matched[..kept] == Kept(old(matched[..n]), Permitted(validator))
    ensures notices == Notices(old(matched[..n]), validator)
  {
    if validator.None? || n == 0 {
      KeepingAll(matched[..n], Permitted(validator));
      return n, [];
    }
    kept, notices := DropDenied(matched, n, validator.value);
  }

  lemma {:induction false} KeepingAll(users: seq<User>, keep: User -> bool)
    requires forall i :: 0 <= i < |users| ==> keep(users[i])
    ensures Kept(users, keep) == users
  {
    if users != [] {
      KeepingAll(users[..|users| - 1], keep);
    }
  }

  /** Two filters in a row keep exactly who passes both, in the order they came. */
  lemma {:induction false} FiltersCompose(users: seq<User>, p: User -> bool, q: User -> bool)
    ensures Kept(Kept(users, p), q) == Kept(users, u => p(u) && q(u))
  {
    if users != [] {
      var n := |users| - 1;
      FiltersCompose(users[..n], p, q);
      if p(users[n]) {
        assert Kept(users, p)[..|Kept(users[..n], p)|] == Kept(users[..n], p);
      } else {
        assert Kept(users, p) == Kept(users[..n], p);
      }
    }
  }

  lemma KeptGrows(users: seq<User>, last: User, keep: User -> bool)
    ensures Kept(users + [last], keep) == if keep(last) then Kept(users, keep) + [last] else Kept(users, keep)
  {
    assert (users + [last])[..|users|] == users;
  }

  /** Splitting on a condition loses nobody and invents nobody. */
  lemma {:induction false} SplitConserves(users: seq<User>, p: User -> bool, q: User -> bool)
    requires forall u :: q(u) <==> !p(u)
    ensures multiset(Kept(users, p)) + multiset(Kept(users, q)) == multiset(users)
  {
    if users != [] {
      var n := |users| - 1;
      assert users == users[..n] + [users[n]];
      SplitConserves(users[..n], p, q);
      KeptGrows(users[..n], users[n], p);
      KeptGrows(users[..n], users[n], q);
    }
  }

  // ----- languages ----------------------------------------------------------------------

  function EffectiveLanguage(u: User, locale: string): (r: string)
    ensures r != ""
    ensures u.language != "" ==> r == u.language
  {
    if u.language != "" then u.language else if locale != "" then locale else "en"
  }

  /** It is the first that is set of the user's own, the locale and English. */
  lemma LanguageIsFirstSet(u: User, locale: string)
    ensures var options := [u.language, locale, "en"];
            exists i :: 0 <= i < 3 && options[i] != "" && EffectiveLanguage(u, locale) == options[i]
                        && forall j :: 0 <= j < i ==> options[j] == ""
  {
    var options := [u.language, locale, "en"];
    var i := if u.language != "" then 0 else if locale != "" then 1 else 2;
    assert options[i] != "" && EffectiveLanguage(u, locale) == options[i];
  }

  function Speaking(users: seq<User>, locale: string, lang: string): seq<User>
  {
    Kept(users, u => EffectiveLanguage(u, locale) == lang)
  }

  function Languages(users: seq<User>, locale: string): set<string>
  {
    set u | u in users :: EffectiveLanguage(u, locale)
  }

  predicate Distinct<T(==)>(s: seq<T>)
  {
    forall i, j :: 0 <= i < j < |s| ==> s[i] != s[j]
  }

  method DistinctLanguages(users: seq<User>, locale: string) returns (langs: seq<string>)
    ensures Distinct(langs)
    ensures forall l :: l in langs <==> l in Languages(users, locale)
  {
    langs := [];
    var seen: set<string> := {};
    for i := 0 to |users|
      invariant Distinct(langs)
      invariant forall l :: l in langs <==> l in seen
      invariant forall l :: l in seen <==> exists j :: 0 <= j < i && EffectiveLanguage(users[j], locale) == l
    {
      var lang := EffectiveLanguage(users[i], locale);
      if lang !in seen {
        seen := seen + {lang};
        langs := langs + [lang];
      }
    }
  }

  predicate Bucketed(out: map<string, seq<User>>, users: seq<User>, locale: string, l: string)
  {
    var bucket := Speaking(users, locale, l);
    if bucket == [] then l !in out else l in out && out[l] == bucket
  }

  function Bucket(out: map<string, seq<User>>, l: string): seq<User>
  {
    if l in out then out[l] else []
  }

  lemma BucketedAfter(out: map<string, seq<User>>, users: seq<User>, u: User, locale: string, l: string)
    requires Bucketed(out, users, locale, l)
    ensures var lang := EffectiveLanguage(u, locale);
            Bucketed(out[lang := Bucket(out, lang) + [u]], users + [u], locale, l)
  {
    assert (users + [u])[..|users|] == users;
    if EffectiveLanguage(u, locale) != l {
      assert Speaking(users + [u], locale, l) == Speaking(users, locale, l);
    }
  }

  lemma {:induction false} SpeakersOf(users: seq<User>, locale: string, l: string)
    ensures l in Languages(users, locale) <==> Speaking(users, locale, l) != []
    ensures forall u :: u in Speaking(users, locale, l) ==> u in users && EffectiveLanguage(u, locale) == l
  {
    if users != [] {
      var n := |users| - 1;
      SpeakersOf(users[..n], locale, l);
      assert Languages(users, locale) == Languages(users[..n], locale) + {EffectiveLanguage(users[n], locale)};
    }
  }

  ghost predicate AllBucketed(out: map<string, seq<User>>, users: seq<User>, locale: string)
  {
    forall l :: Bucketed(out, users, locale, l)
  }

  lemma AllBucketedAfter(out: map<string, seq<User>>, users: seq<User>, u: User, locale: string)
    requires AllBucketed(out, users, locale)
    ensures var lang := EffectiveLanguage(u, locale);
            AllBucketed(out[lang := Bucket(out, lang) + [u]], users + [u], locale)
  {
    var lang := EffectiveLanguage(u, locale);
    var out', users' := out[lang := Bucket(out, lang) + [u]], users + [u];
    forall l ensures Bucketed(out', users', locale, l) {
      assert Bucketed(out, users, locale, l);
      BucketedAfter(out, users, u, locale, l);
    }
  }

  lemma AllBucketedMeans(out: map<string, seq<User>>, users: seq<User>, locale: string)
    requires AllBucketed(out, users, locale)
    ensures out.Keys == Languages(users, locale)
    ensures forall l :: l in out ==> out[l] == Speaking(users, locale, l) && out[l] != []
  {
    forall l ensures l in out <==> l in Languages(users, locale) {
      assert Bucketed(out, users, locale, l);
      SpeakersOf(users, locale, l);
    }
    forall l | l in out ensures out[l] == Speaking(users, locale, l) && out[l] != [] {
      assert Bucketed(out, users, locale, l);
    }
  }

  /** One bucket for each language, holding its speakers in the order they came. */
  method GroupByLanguage(users: seq<User>, locale: string) returns (out: map<string, seq<User>>)
    ensures out.Keys == Languages(users, locale)
    ensures forall l :: l in out ==> out[l] == Speaking(users, locale, l) && out[l] != []
  {
    out := map[];
    for i := 0 to |users|
      invariant AllBucketed(out, users[..i], locale)
    {
      assert users[..i + 1] == users[..i] + [users[i]];
      AllBucketedAfter(out, users[..i], users[i], locale);
      var lang := EffectiveLanguage(users[i], locale);
      out := out[lang := Bucket(out, lang) + [users[i]]];
    }
    assert users[..|users|] == users;
    AllBucketedMeans(out, users, locale);
  }

  // ----- spread over languages -------------------------------------------------------------

  function Joined(buckets: seq<seq<User>>): seq<User>
  {
    if buckets == [] then [] else Joined(buckets[..|buckets| - 1]) + buckets[|buckets| - 1]
  }

  function Buckets(users: seq<User>, locale: string, langs: seq<string>): seq<seq<User>>
  {
    seq(|langs|, i requires 0 <= i < |langs| => Speaking(users, locale, langs[i]))
  }

  lemma {:induction false} CountInLanguage(users: seq<User>, locale: string, l: string, u: User)
    ensures multiset(Speaking(users, locale, l))[u] ==
            if EffectiveLanguage(u, locale) == l then multiset(users)[u] else 0
  {
    if users != [] {
      var n := |users| - 1;
      CountInLanguage(users[..n], locale, l, u);
      assert users == users[..n] + [users[n]];
    }
  }

  lemma {:induction false} CountInBuckets(users: seq<User>, locale: string, langs: seq<string>, u: User)
    requires Distinct(langs)
    ensures multiset(Joined(Buckets(users, locale, langs)))[u] ==
            if EffectiveLanguage(u, locale) in langs then multiset(users)[u] else 0
  {
    if langs != [] {
      var n := |langs| - 1;
      assert langs == langs[..n] + [langs[n]];
      CountInBuckets(users, locale, langs[..n], u);
      CountInLanguage(users, locale, langs[n], u);
      assert Buckets(users, locale, langs)[..n] == Buckets(users, locale, langs[..n]);
    }
  }

  /** Going through the buckets language by language, in whatever order, meets every
      user exactly as often as they were matched. */
  lemma BucketsConserve(users: seq<User>, locale: string, langs: seq<string>)
    requires Distinct(langs) && forall l :: l in langs <==> l in Languages(users, locale)
    ensures multiset(Joined(Buckets(users, locale, langs))) == multiset(users)
  {
    forall u ensures multiset(Joined(Buckets(users, locale, langs)))[u] == multiset(users)[u] {
      CountInBuckets(users, locale, langs, u);
      if u in users {
        assert EffectiveLanguage(u, locale) in Languages(users, locale);
      }
    }
  }
}
