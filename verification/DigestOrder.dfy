/**
 What a digest owes to the order in which the summary buffer lists its rows.  The range of
 processor/internal/tracker/summary_buffer.go:166-180 may meet them in any order, so a
 listing is any permutation of the rows in order of arrival.
 */
module DigestOrder {
  import opened Wrappers
  import opened QuestBuffer
  import opened QuestDigest

  ghost predicate Permutes(listed: seq<Row>, arrived: seq<Row>)
  {
    multiset(listed) == multiset(arrived)
  }

  // ----- what no listing changes ------------------------------------------------------------

  /** A function that goes through a sequence element by element. */
  ghost predicate Splits<A(!new), B>(f: seq<A> -> seq<B>)
  {
    f([]) == [] && forall a, b :: f(a + b) == f(a) + f(b)
  }

  /** The first element of a taken out of its permutation b. */
  lemma TakeOut<A>(a: seq<A>, b: seq<A>) returns (i: nat)
    requires a != [] && multiset(a) == multiset(b)
    ensures a == [a[0]] + a[1..] && i < |b| && b == b[..i] + ([a[0]] + b[i + 1..])
    ensures multiset(a[1..]) == multiset(b[..i] + b[i + 1..])
  {
    assert a[0] in multiset(b);
    i :| 0 <= i < |b| && b[i] == a[0];
    assert a == [a[0]] + a[1..];
    assert b == b[..i] + ([a[0]] + b[i + 1..]);
    var rest, rest' := multiset(a[1..]), multiset(b[..i] + b[i + 1..]);
    assert multiset(a) == multiset{a[0]} + rest && multiset(b) == multiset{a[0]} + rest';
    assert rest == multiset(a) - multiset{a[0]} && rest' == multiset(b) - multiset{a[0]};
  }

  /** Such a function keeps permutations. */
  lemma {:induction false} SplitsKeeps<A(!new), B>(f: seq<A> -> seq<B>, a: seq<A>, b: seq<A>)
    requires Splits(f) && multiset(a) == multiset(b)
    ensures multiset(f(a)) == multiset(f(b))
  {
    if a == [] {
      assert multiset(b) == multiset{};
      assert b == [];
    } else {
      var i := TakeOut(a, b);
      var x := a[0];
      SplitsKeeps(f, a[1..], b[..i] + b[i + 1..]);
      assert f(b) == f(b[..i]) + f([x] + b[i + 1..]);
      assert f([x] + b[i + 1..]) == f([x]) + f(b[i + 1..]);
      assert f(a) == f([x]) + f(a[1..]);
    }
  }

  lemma {:induction false} FreshSplits(a: seq<Row>, b: seq<Row>, now: int)
    ensures Fresh(a + b, now) == Fresh(a, now) + Fresh(b, now)
  {
    if b == [] {
      assert a + b == a;
    } else {
      assert (a + b)[..|a + b| - 1] == a + b[..|b| - 1];
      FreshSplits(a, b[..|b| - 1], now);
    }
  }

  lemma {:induction false} ItemsSplit(a: seq<Row>, b: seq<Row>, enrich: Payload -> Option<View>)
    ensures Items(a + b, enrich) == Items(a, enrich) + Items(b, enrich)
  {
    if b == [] {
      assert a + b == a;
    } else {
      assert (a + b)[..|a + b| - 1] == a + b[..|b| - 1];
      ItemsSplit(a, b[..|b| - 1], enrich);
    }
  }

  lemma {:induction false} GroupSplits(a: seq<Item>, b: seq<Item>, k: Key)
    ensures Group(a + b, k) == Group(a, k) + Group(b, k)
  {
    if b == [] {
      assert a + b == a;
    } else {
      assert (a + b)[..|a + b| - 1] == a + b[..|b| - 1];
      GroupSplits(a, b[..|b| - 1], k);
    }
  }

  lemma EnrichedSplits(env: Env, a: seq<Row>, b: seq<Row>)
    ensures Enriched(env, a + b) == Enriched(env, a) + Enriched(env, b)
  {
    FreshSplits(a, b, env.now);
    ItemsSplit(Fresh(a, env.now), Fresh(b, env.now), Enricher(env));
  }

  /** Every listing gives the same items, in some order. */
  lemma SameItems(env: Env, listed: seq<Row>, arrived: seq<Row>)
    requires Permutes(listed, arrived)
    ensures multiset(Enriched(env, listed)) == multiset(Enriched(env, arrived))
  {
    var f := (rows: seq<Row>) => Enriched(env, rows);
    forall a, b ensures f(a + b) == f(a) + f(b) {
      EnrichedSplits(env, a, b);
    }
    SplitsKeeps(f, listed, arrived);
  }

  lemma SameFresh(env: Env, listed: seq<Row>, arrived: seq<Row>)
    requires Permutes(listed, arrived)
    ensures multiset(Fresh(listed, env.now)) == multiset(Fresh(arrived, env.now))
  {
    var f := (rows: seq<Row>) => Fresh(rows, env.now);
    forall a, b ensures f(a + b) == f(a) + f(b) {
      FreshSplits(a, b, env.now);
    }
    SplitsKeeps(f, listed, arrived);
  }

  lemma SameGroups(items: seq<Item>, items': seq<Item>, k: Key)
    requires multiset(items) == multiset(items')
    ensures multiset(Group(items, k)) == multiset(Group(items', k))
  {
    var f := (xs: seq<Item>) => Group(xs, k);
    forall a, b ensures f(a + b) == f(a) + f(b) {
      GroupSplits(a, b, k);
    }
    SplitsKeeps(f, items, items');
  }

  lemma SameViews(group: seq<Item>, group': seq<Item>)
    requires multiset(group) == multiset(group')
    ensures multiset(Views(group)) == multiset(Views(group'))
  {
    var f := (xs: seq<Item>) => Views(xs);
    forall a, b ensures f(a + b) == f(a) + f(b) {
      assert Views(a + b) == Views(a) + Views(b);
    }
    SplitsKeeps(f, group, group');
  }

  /** In whatever order the rows are listed, a digest that is sent delivers to each key
      the rows that the bucket owes it, each exactly once. */
  lemma AnyListingPays(env: Env, arrived: seq<Row>, listed: seq<Row>, out: Outcome, k: Key)
    requires Permutes(listed, arrived) && Dispatched(env, listed, out)
    ensures multiset(Delivered(out.messages, k)) ==
            if Ready(env, listed) && Allowed(env) then multiset(Owed(arrived, env.now, Enricher(env), k))
            else multiset{}
  {
    DigestPaysWhatIsOwed(env, listed, out, k);
    SameItems(env, listed, arrived);
    SameGroups(Enriched(env, listed), Enriched(env, arrived), k);
    SameViews(Group(Enriched(env, listed), k), Group(Enriched(env, arrived), k));
    OwedIsGrouped(listed, env.now, Enricher(env), k);
    OwedIsGrouped(arrived, env.now, Enricher(env), k);
  }

  lemma SameFold(group: seq<Item>, group': seq<Item>)
    requires multiset(group) == multiset(group')
    ensures Folded(group) == Folded(group')
  {
    SameClean(group, group');
    SameClean(group', group);
    LatestExpiry(group);
    LatestExpiry(group');
    LatestIsNotNegative(group);
    LatestIsNotNegative(group');
    AtMostLatest(group, group');
    AtMostLatest(group', group);
  }

  lemma SameClean(group: seq<Item>, group': seq<Item>)
    requires multiset(group) == multiset(group')
    ensures Folded(group).clean <= Folded(group').clean
  {
    forall bit | bit in Folded(group).clean ensures bit in Folded(group').clean {
      CleanBits(group, bit);
      CleanBits(group', bit);
      var i :| 0 <= i < |group| && bit in group[i].clean;
      assert group[i] in multiset(group');
    }
  }

  lemma {:induction false} LatestIsNotNegative(group: seq<Item>)
    ensures Folded(group).latestExpiresAt >= 0
  {
    if group != [] {
      LatestIsNotNegative(group[..|group| - 1]);
    }
  }

  lemma AtMostLatest(group: seq<Item>, group': seq<Item>)
    requires multiset(group) == multiset(group')
    ensures Folded(group).latestExpiresAt <= Folded(group').latestExpiresAt
  {
    LatestExpiry(group);
    LatestExpiry(group');
    LatestIsNotNegative(group');
    if Folded(group).latestExpiresAt != 0 {
      var i :| 0 <= i < |group| && group[i].expiresAt == Folded(group).latestExpiresAt;
      assert group[i] in multiset(group');
    }
  }

  // ----- what is met first -------------------------------------------------------------------

  /** The row is in time and can be enriched. */
  predicate Pays(env: Env, r: Row)
  {
    r.expiresAt > env.now && Enricher(env)(r.payload).Some?
  }

  function ItemOf(env: Env, r: Row): Item
    requires Pays(env, r)
  {
    Item(KeyOf(r), Enricher(env)(r.payload).value, r.clean, r.expiresAt)
  }

  /** The listing that meets row i first. */
  function FirstIs(rows: seq<Row>, i: nat): seq<Row>
    requires i < |rows|
  {
    [rows[i]] + (rows[..i] + rows[i + 1..])
  }

  lemma FirstIsPermutes(rows: seq<Row>, i: nat)
    requires i < |rows|
    ensures Permutes(FirstIs(rows, i), rows)
  {
    assert rows == rows[..i] + ([rows[i]] + rows[i + 1..]);
  }

  lemma FreshOfOne(r: Row, now: int)
    ensures Fresh([r], now) == if r.expiresAt > now then [r] else []
  {
    assert [r][..0] == [];
  }

  lemma ItemsOfOne(r: Row, enrich: Payload -> Option<View>)
    ensures Items([r], enrich) ==
            if enrich(r.payload).None? then [] else [Item(KeyOf(r), enrich(r.payload).value, r.clean, r.expiresAt)]
  {
    ItemsGrow([], r, enrich);
    assert [] + [r] == [r];
  }

  lemma EnrichedOne(env: Env, r: Row)
    ensures Enriched(env, [r]) == if Pays(env, r) then [ItemOf(env, r)] else []
  {
    FreshOfOne(r, env.now);
    ItemsOfOne(r, Enricher(env));
  }

  lemma FirstItem(env: Env, rows: seq<Row>, i: nat)
    requires i < |rows| && Pays(env, rows[i])
    ensures var items := Enriched(env, FirstIs(rows, i));
            && items != [] && items[0] == ItemOf(env, rows[i])
            && Order(items) != [] && Order(items)[0] == KeyOf(rows[i])
            && Group(items, KeyOf(rows[i])) != []
            && Views(Group(items, KeyOf(rows[i])))[0] == ItemOf(env, rows[i]).view
  {
    var rest := rows[..i] + rows[i + 1..];
    EnrichedSplits(env, [rows[i]], rest);
    EnrichedOne(env, rows[i]);
    OrderStarts(ItemOf(env, rows[i]), Enriched(env, rest));
    GroupSplits([ItemOf(env, rows[i])], Enriched(env, rest), KeyOf(rows[i]));
    GroupOfOne(ItemOf(env, rows[i]), KeyOf(rows[i]));
  }

  lemma GroupOfOne(item: Item, k: Key)
    ensures Group([item], k) == if item.key == k then [item] else []
  {
    assert [item][..0] == [];
  }

  lemma {:induction false} OrderStarts(item: Item, items: seq<Item>)
    ensures Order([item] + items) != [] && Order([item] + items)[0] == item.key
  {
    var all := [item] + items;
    if items == [] {
      assert all == [item] && all[..0] == [];
    } else {
      assert all[..|all| - 1] == [item] + items[..|items| - 1];
      OrderStarts(item, items[..|items| - 1]);
    }
  }

  lemma {:induction false} ComesFrom(env: Env, rows: seq<Row>, item: Item) returns (r: Row)
    requires item in Enriched(env, rows)
    ensures r in rows && Pays(env, r) && item == ItemOf(env, r)
  {
    var n := |rows| - 1;
    assert rows == rows[..n] + [rows[n]];
    EnrichedSplits(env, rows[..n], [rows[n]]);
    EnrichedOne(env, rows[n]);
    if item in Enriched(env, rows[..n]) {
      r := ComesFrom(env, rows[..n], item);
    } else {
      r := rows[n];
    }
  }

  // ----- the order of arrival ----------------------------------------------------------------

  /** The rows that pay have one key. */
  ghost predicate OneKey(env: Env, rows: seq<Row>)
  {
    forall r, s :: r in rows && s in rows && Pays(env, r) && Pays(env, s) ==> KeyOf(r) == KeyOf(s)
  }

  /** Those of one key look the same. */
  ghost predicate OneView(env: Env, rows: seq<Row>)
  {
    forall r, s :: r in rows && s in rows && Pays(env, r) && Pays(env, s) && KeyOf(r) == KeyOf(s) ==>
      ItemOf(env, r).view == ItemOf(env, s).view
  }

  ghost predicate OrderKept(env: Env, arrived: seq<Row>)
  {
    forall l :: Permutes(l, arrived) ==> Order(Enriched(env, l)) == Order(Enriched(env, arrived))
  }

  ghost predicate ViewsKept(env: Env, arrived: seq<Row>)
  {
    forall l, k :: Permutes(l, arrived) ==>
      Views(Group(Enriched(env, l), k)) == Views(Group(Enriched(env, arrived), k))
  }

  function DigestOf(env: Env, rows: seq<Row>): seq<Message>
  {
    var items := Enriched(env, rows);
    Digest(items, Order(items), env.maxPerMessage, env.clock)
  }

  ghost predicate DigestKept(env: Env, arrived: seq<Row>)
  {
    forall l :: Permutes(l, arrived) ==> DigestOf(env, l) == DigestOf(env, arrived)
  }

  /** Two quests of different rewards: the second to arrive may be listed, and sent,
      first. */
  lemma ListedInReverse(env: Env, a: Row, b: Row)
    requires Pays(env, a) && Pays(env, b) && KeyOf(a) != KeyOf(b)
    ensures Arrived([a, b]) == [a, b] && Lists([b, a], After([a, b]))
    ensures Order(Enriched(env, [a, b])) == [KeyOf(a), KeyOf(b)]
    ensures Order(Enriched(env, [b, a])) == [KeyOf(b), KeyOf(a)]
  {
    TwoArrive(a, b);
    ListingsArePermutations([a, b], [b, a]);
    assert multiset([b, a]) == multiset([a, b]);
    OrderOfTwo(env, a, b);
    OrderOfTwo(env, b, a);
  }

  lemma TwoArrive(a: Row, b: Row)
    requires BufferKeyOf(a) != BufferKeyOf(b)
    ensures Arrived([a, b]) == [a, b]
  {
    assert [a, b][..1] == [a] && [a][..0] == [];
    assert After([a]) == map[BufferKeyOf(a) := a];
    assert Arrivals([a]) == [BufferKeyOf(a)];
    assert Arrivals([a, b]) == [BufferKeyOf(a), BufferKeyOf(b)];
  }

  lemma OrderOfTwo(env: Env, a: Row, b: Row)
    requires Pays(env, a) && Pays(env, b) && KeyOf(a) != KeyOf(b)
    ensures Order(Enriched(env, [a, b])) == [KeyOf(a), KeyOf(b)]
  {
    var x, y := ItemOf(env, a), ItemOf(env, b);
    assert [a, b] == [a] + [b];
    EnrichedSplits(env, [a], [b]);
    EnrichedOne(env, a);
    EnrichedOne(env, b);
    assert Enriched(env, [a, b]) == [x] + [y];
    OrderAfter([x], y);
    GroupOfOne(x, KeyOf(b));
    OrderOfOneKey([x], KeyOf(a));
  }

  /** Two paying rows of different keys: no order is kept. */
  lemma TwoKeys(env: Env, rows: seq<Row>, i: nat, j: nat)
    requires i < |rows| && j < |rows| && Pays(env, rows[i]) && Pays(env, rows[j]) && KeyOf(rows[i]) != KeyOf(rows[j])
    ensures !OrderKept(env, rows) && !DigestKept(env, rows)
  {
    FirstIsPermutes(rows, i);
    FirstIsPermutes(rows, j);
    FirstItem(env, rows, i);
    FirstItem(env, rows, j);
    DigestStarts(env, FirstIs(rows, i));
    DigestStarts(env, FirstIs(rows, j));
  }

  /** Two paying rows of one key with different views: their order is not kept. */
  lemma TwoViews(env: Env, rows: seq<Row>, i: nat, j: nat)
    requires i < |rows| && j < |rows| && Pays(env, rows[i]) && Pays(env, rows[j]) && KeyOf(rows[i]) == KeyOf(rows[j])
    requires ItemOf(env, rows[i]).view != ItemOf(env, rows[j]).view
    ensures !ViewsKept(env, rows)
    ensures !DigestKept(env, rows)
  {
    FirstIsPermutes(rows, i);
    FirstIsPermutes(rows, j);
    ViewsOfTwo(env, rows, i, j);
    NotKept(env, rows, FirstIs(rows, i), FirstIs(rows, j), KeyOf(rows[i]));
  }

  lemma NotKept(env: Env, arrived: seq<Row>, l: seq<Row>, l': seq<Row>, k: Key)
    requires Permutes(l, arrived) && Permutes(l', arrived)
    requires Views(Group(Enriched(env, l), k)) != Views(Group(Enriched(env, l'), k))
    ensures !ViewsKept(env, arrived)
  {
    var other := if Views(Group(Enriched(env, l), k)) != Views(Group(Enriched(env, arrived), k)) then l else l';
    assert Permutes(other, arrived) && Views(Group(Enriched(env, other), k)) != Views(Group(Enriched(env, arrived), k));
  }

  lemma ViewsOfTwo(env: Env, rows: seq<Row>, i: nat, j: nat)
    requires i < |rows| && j < |rows| && Pays(env, rows[i]) && Pays(env, rows[j]) && KeyOf(rows[i]) == KeyOf(rows[j])
    requires ItemOf(env, rows[i]).view != ItemOf(env, rows[j]).view
    ensures Views(Group(Enriched(env, FirstIs(rows, i)), KeyOf(rows[i]))) !=
            Views(Group(Enriched(env, FirstIs(rows, j)), KeyOf(rows[i])))
    ensures DigestOf(env, FirstIs(rows, i)) != DigestOf(env, FirstIs(rows, j))
  {
    var k := KeyOf(rows[i]);
    FirstItem(env, rows, i);
    FirstItem(env, rows, j);
    DigestConserves(Enriched(env, FirstIs(rows, i)), env.maxPerMessage, env.clock, k);
    DigestConserves(Enriched(env, FirstIs(rows, j)), env.maxPerMessage, env.clock, k);
  }

  /** A digest starts with the first group. */
  lemma DigestStarts(env: Env, rows: seq<Row>)
    requires Order(Enriched(env, rows)) != []
    ensures DigestOf(env, rows) != [] && DigestOf(env, rows)[0].key == Order(Enriched(env, rows))[0]
  {
    var items := Enriched(env, rows);
    forall k | k in Order(items) ensures Group(items, k) != [] {
      KeysSeen(items, k);
    }
    DigestStartsWith(items, Order(items), env.maxPerMessage, env.clock);
  }

  lemma {:induction false} DigestStartsWith(items: seq<Item>, order: seq<Key>, size: int, clock: nat -> int)
    requires order != [] && forall k :: k in order ==> Group(items, k) != []
    ensures var ms := Digest(items, order, size, clock); ms != [] && ms[0].key == order[0]
  {
    var n := |order| - 1;
    if n == 0 {
      assert Digest(items, order[..0], size, clock) == [];
      OneGroupIsComplete(items, order[0], size, clock(0));
    } else {
      DigestStartsWith(items, order[..n], size, clock);
    }
  }

  lemma {:induction false} OrderOfOneKey(items: seq<Item>, k: Key)
    requires forall item :: item in items ==> item.key == k
    ensures Order(items) == if items == [] then [] else [k]
  {
    if items != [] {
      OrderOfOneKey(items[..|items| - 1], k);
    }
  }

  /** The groups come in order of arrival from every listing exactly when there is no more
      than one. */
  lemma OrderKeptIff(env: Env, arrived: seq<Row>)
    ensures OrderKept(env, arrived) <==> OneKey(env, arrived)
  {
    if OneKey(env, arrived) {
      forall l | Permutes(l, arrived) ensures Order(Enriched(env, l)) == Order(Enriched(env, arrived)) {
        OneOrder(env, l, arrived);
      }
    } else {
      var r, s :| r in arrived && s in arrived && Pays(env, r) && Pays(env, s) && KeyOf(r) != KeyOf(s);
      var i: nat :| i < |arrived| && arrived[i] == r;
      var j: nat :| j < |arrived| && arrived[j] == s;
      TwoKeys(env, arrived, i, j);
    }
  }

  lemma OneOrder(env: Env, listed: seq<Row>, arrived: seq<Row>)
    requires Permutes(listed, arrived) && OneKey(env, arrived)
    ensures Order(Enriched(env, listed)) == Order(Enriched(env, arrived))
  {
    SameItems(env, listed, arrived);
    var items, items' := Enriched(env, listed), Enriched(env, arrived);
    if items' == [] {
      assert items == [];
    } else {
      var r := ComesFrom(env, arrived, items'[0]);
      forall item | item in items' ensures item.key == KeyOf(r) {
        var s := ComesFrom(env, arrived, item);
      }
      assert forall item :: item in items ==> item in multiset(items');
      assert items'[0] in multiset(items);
      OrderOfOneKey(items, KeyOf(r));
      OrderOfOneKey(items', KeyOf(r));
    }
  }

  lemma {:induction false} GroupHas(items: seq<Item>, k: Key, item: Item)
    ensures item in Group(items, k) <==> item in items && item.key == k
  {
    if items != [] {
      GroupHas(items[..|items| - 1], k, item);
      assert items == items[..|items| - 1] + [items[|items| - 1]];
    }
  }

  lemma SameWhenConstant(a: seq<View>, b: seq<View>, v: View)
    requires multiset(a) == multiset(b) && forall x :: x in a ==> x == v
    ensures a == b
  {
    assert |multiset(a)| == |a| && |multiset(b)| == |b|;
    forall i | 0 <= i < |b| ensures b[i] == a[i] {
      assert a[i] in a;
      assert b[i] in multiset(b);
      assert b[i] in a;
    }
  }

  lemma OneLook(env: Env, listed: seq<Row>, arrived: seq<Row>, k: Key)
    requires Permutes(listed, arrived) && OneView(env, arrived)
    ensures Views(Group(Enriched(env, listed), k)) == Views(Group(Enriched(env, arrived), k))
  {
    SameItems(env, listed, arrived);
    var group, group' := Group(Enriched(env, arrived), k), Group(Enriched(env, listed), k);
    SameGroups(Enriched(env, listed), Enriched(env, arrived), k);
    SameViews(group, group');
    if group == [] {
      assert group' == [];
    } else {
      GroupHas(Enriched(env, arrived), k, group[0]);
      var r := ComesFrom(env, arrived, group[0]);
      forall i | 0 <= i < |group| ensures group[i].view == group[0].view {
        GroupHas(Enriched(env, arrived), k, group[i]);
        var s := ComesFrom(env, arrived, group[i]);
      }
      SameWhenConstant(Views(group), Views(group'), group[0].view);
    }
  }

  /** The rows of each group come in order of arrival from every listing exactly when
      nobody could tell, all of them looking the same. */
  lemma ViewsKeptIff(env: Env, arrived: seq<Row>)
    ensures ViewsKept(env, arrived) <==> OneView(env, arrived)
  {
    if OneView(env, arrived) {
      forall l, k | Permutes(l, arrived)
        ensures Views(Group(Enriched(env, l), k)) == Views(Group(Enriched(env, arrived), k))
      {
        OneLook(env, l, arrived, k);
      }
    } else {
      var r, s :| r in arrived && s in arrived && Pays(env, r) && Pays(env, s) && KeyOf(r) == KeyOf(s)
                  && ItemOf(env, r).view != ItemOf(env, s).view;
      var i: nat :| i < |arrived| && arrived[i] == r;
      var j: nat :| j < |arrived| && arrived[j] == s;
      TwoViews(env, arrived, i, j);
    }
  }

  lemma {:induction false} DigestSame(
    items: seq<Item>, items': seq<Item>, order: seq<Key>, size: int, clock: nat -> int)
    requires forall k :: k in order ==>
               Views(Group(items, k)) == Views(Group(items', k)) && Folded(Group(items, k)) == Folded(Group(items', k))
    ensures Digest(items, order, size, clock) == Digest(items', order, size, clock)
  {
    if order != [] {
      var n := |order| - 1;
      DigestSame(items, items', order[..n], size, clock);
      MessagesSame(items, items', order[n], size, clock(n));
    }
  }

  lemma MessagesSame(items: seq<Item>, items': seq<Item>, k: Key, size: int, now: int)
    requires Views(Group(items, k)) == Views(Group(items', k)) && Folded(Group(items, k)) == Folded(Group(items', k))
    ensures Messages(items, k, size, now) == Messages(items', k, size, now)
  {
    assert |Group(items, k)| == |Views(Group(items, k))|;
    assert |Group(items', k)| == |Views(Group(items', k))|;
  }

  /** The digest is the one of the order of arrival, whatever the listing, exactly when
      the rows that pay share one key and one view. */
  lemma DigestKeptIff(env: Env, arrived: seq<Row>)
    ensures DigestKept(env, arrived) <==> OneKey(env, arrived) && OneView(env, arrived)
  {
    if !OneKey(env, arrived) {
      var r, s :| r in arrived && s in arrived && Pays(env, r) && Pays(env, s) && KeyOf(r) != KeyOf(s);
      var i: nat :| i < |arrived| && arrived[i] == r;
      var j: nat :| j < |arrived| && arrived[j] == s;
      TwoKeys(env, arrived, i, j);
    } else if !OneView(env, arrived) {
      var r, s :| r in arrived && s in arrived && Pays(env, r) && Pays(env, s) && KeyOf(r) == KeyOf(s)
                  && ItemOf(env, r).view != ItemOf(env, s).view;
      var i: nat :| i < |arrived| && arrived[i] == r;
      var j: nat :| j < |arrived| && arrived[j] == s;
      TwoViews(env, arrived, i, j);
    } else {
      forall l | Permutes(l, arrived) ensures DigestOf(env, l) == DigestOf(env, arrived) {
        OneDigest(env, l, arrived);
      }
    }
  }

  lemma OneDigest(env: Env, listed: seq<Row>, arrived: seq<Row>)
    requires Permutes(listed, arrived) && OneKey(env, arrived) && OneView(env, arrived)
    ensures DigestOf(env, listed) == DigestOf(env, arrived)
  {
    var items, items' := Enriched(env, listed), Enriched(env, arrived);
    OneOrder(env, listed, arrived);
    SameItems(env, listed, arrived);
    forall k ensures Views(Group(items, k)) == Views(Group(items', k))
      ensures Folded(Group(items, k)) == Folded(Group(items', k))
    {
      OneLook(env, listed, arrived, k);
      SameGroups(items, items', k);
      SameFold(Group(items, k), Group(items', k));
    }
    DigestSame(items, items', Order(items), env.maxPerMessage, env.clock);
  }

  // ----- the representative row ----------------------------------------------------------------

  /** Everything that is asked before the validator, which is asked about the row that is
      listed first, and the renderer. */
  predicate OtherwiseReady(env: Env, rows: seq<Row>)
  {
    env.human.Some? && Enriched(env, rows) != [] && env.hasRenderer
  }

  ghost predicate ReadyKept(env: Env, arrived: seq<Row>)
  {
    forall l :: Permutes(l, arrived) ==> (Ready(env, l) <==> Ready(env, arrived))
  }

  /** The validator allows all the rows that are in time, or none. */
  ghost predicate ValidAgrees(env: Env, rows: seq<Row>)
  {
    forall r, s :: r in rows && s in rows && r.expiresAt > env.now && s.expiresAt > env.now ==>
      env.valid(r.payload) == env.valid(s.payload)
  }

  lemma FirstFresh(env: Env, rows: seq<Row>, i: nat)
    requires i < |rows| && rows[i].expiresAt > env.now
    ensures Fresh(FirstIs(rows, i), env.now) != [] && Fresh(FirstIs(rows, i), env.now)[0] == rows[i]
  {
    FreshSplits([rows[i]], rows[..i] + rows[i + 1..], env.now);
    FreshOfOne(rows[i], env.now);
  }

  lemma {:induction false} FreshHas(rows: seq<Row>, now: int, r: Row)
    ensures r in Fresh(rows, now) <==> r in rows && r.expiresAt > now
  {
    if rows != [] {
      FreshHas(rows[..|rows| - 1], now, r);
      assert rows == rows[..|rows| - 1] + [rows[|rows| - 1]];
    }
  }

  lemma ReadyFirst(env: Env, rows: seq<Row>, i: nat)
    requires i < |rows| && rows[i].expiresAt > env.now && OtherwiseReady(env, rows)
    ensures Ready(env, FirstIs(rows, i)) <==> env.valid(rows[i].payload)
  {
    FirstIsPermutes(rows, i);
    FirstFresh(env, rows, i);
    SameItems(env, FirstIs(rows, i), rows);
    assert Enriched(env, rows)[0] in multiset(Enriched(env, FirstIs(rows, i)));
  }

  lemma ReadyAgain(env: Env, listed: seq<Row>, arrived: seq<Row>)
    requires Permutes(listed, arrived) && (OtherwiseReady(env, arrived) ==> ValidAgrees(env, arrived))
    ensures Ready(env, listed) <==> Ready(env, arrived)
  {
    SameItems(env, listed, arrived);
    SameFresh(env, listed, arrived);
    assert Enriched(env, listed) == [] <==> Enriched(env, arrived) == [];
    var rows, rows' := Fresh(listed, env.now), Fresh(arrived, env.now);
    if rows != [] {
      assert rows[0] in multiset(rows') && rows'[0] in multiset(rows);
      FreshHas(arrived, env.now, rows[0]);
      FreshHas(arrived, env.now, rows'[0]);
    }
  }

  /** Whether anything is sent does not depend on the listing exactly when the validator
      agrees about all the rows that are in time, or is not what decides. */
  lemma ReadyKeptIff(env: Env, arrived: seq<Row>)
    ensures ReadyKept(env, arrived) <==> (OtherwiseReady(env, arrived) ==> ValidAgrees(env, arrived))
  {
    if OtherwiseReady(env, arrived) && !ValidAgrees(env, arrived) {
      var r, s :| r in arrived && s in arrived && r.expiresAt > env.now && s.expiresAt > env.now
                  && env.valid(r.payload) != env.valid(s.payload);
      var i: nat :| i < |arrived| && arrived[i] == r;
      var j: nat :| j < |arrived| && arrived[j] == s;
      FirstIsPermutes(arrived, i);
      FirstIsPermutes(arrived, j);
      ReadyFirst(env, arrived, i);
      ReadyFirst(env, arrived, j);
    } else {
      forall l | Permutes(l, arrived) ensures Ready(env, l) <==> Ready(env, arrived) {
        ReadyAgain(env, l, arrived);
      }
    }
  }

  // ----- from append to message ---------------------------------------------------------------

  /** A bit that some appended row of the group brought, whose place in the bucket pays. */
  ghost predicate Brought(env: Env, history: seq<Row>, key: Key, bit: nat)
  {
    exists i :: 0 <= i < |history| && BringsBit(env, history, key, bit, history[i])
  }

  predicate BringsBit(env: Env, history: seq<Row>, key: Key, bit: nat, r: Row)
  {
    && KeyOf(r) == key && bit in r.clean
    && BufferKeyOf(r) in After(history) && Pays(env, After(history)[BufferKeyOf(r)])
  }

  lemma {:induction false} PaysIsItem(env: Env, rows: seq<Row>, r: Row)
    requires r in rows && Pays(env, r)
    ensures ItemOf(env, r) in Enriched(env, rows)
  {
    var n := |rows| - 1;
    assert rows == rows[..n] + [rows[n]];
    EnrichedSplits(env, rows[..n], [rows[n]]);
    EnrichedOne(env, rows[n]);
    if rows[n] != r {
      PaysIsItem(env, rows[..n], r);
    }
  }

  lemma ListedIsThere(history: seq<Row>, listed: seq<Row>, r: Row)
    requires Lists(listed, After(history))
    ensures r in listed <==> BufferKeyOf(r) in After(history) && After(history)[BufferKeyOf(r)] == r
  {
    AfterFits(history);
    assert r in listed <==> r in multiset(After(history).Values);
    if r in After(history).Values {
      var k :| k in After(history) && After(history)[k] == r;
      assert BufferKeyOf(r) == k;
    }
  }

  lemma BitFromAppend(env: Env, history: seq<Row>, listed: seq<Row>, item: Item, bit: nat)
    requires Lists(listed, After(history)) && item in Enriched(env, listed) && bit in item.clean
    ensures Brought(env, history, item.key, bit)
  {
    var r := ComesFrom(env, listed, item);
    ListedIsThere(history, listed, r);
    BitsAddUp(history, BufferKeyOf(r), bit);
    var i :| 0 <= i < |history| && BufferKeyOf(history[i]) == BufferKeyOf(r) && bit in history[i].clean;
    assert BringsBit(env, history, item.key, bit, history[i]);
  }

  lemma BitToMessage(env: Env, history: seq<Row>, listed: seq<Row>, key: Key, bit: nat) returns (item: Item)
    requires Lists(listed, After(history)) && Brought(env, history, key, bit)
    ensures item in Enriched(env, listed) && item.key == key && bit in item.clean
  {
    var i :| 0 <= i < |history| && BringsBit(env, history, key, bit, history[i]);
    var r := After(history)[BufferKeyOf(history[i])];
    AfterFits(history);
    BitsAddUp(history, BufferKeyOf(history[i]), bit);
    ListedIsThere(history, listed, r);
    PaysIsItem(env, listed, r);
    item := ItemOf(env, r);
  }

  /** No clean bit of any rule is lost on the way, and none is made up: a message has a
      bit exactly when some row appended for its group had it, replaced since or not, and
      the row that is under the same key in the end is in time and can be enriched. */
  lemma NoBitIsLost(env: Env, history: seq<Row>, listed: seq<Row>, out: Outcome, m: Message, bit: nat)
    requires Lists(listed, After(history)) && Dispatched(env, listed, out) && m in out.messages
    ensures bit in m.clean <==> Brought(env, history, m.key, bit)
  {
    var items := Enriched(env, listed);
    var group := Group(items, m.key);
    DigestHasItsFields(items, Order(items), env.maxPerMessage, env.clock, m);
    if bit in m.clean {
      var i :| 0 <= i < |group| && bit in group[i].clean;
      GroupHas(items, m.key, group[i]);
      BitFromAppend(env, history, listed, group[i], bit);
    }
    if Brought(env, history, m.key, bit) {
      var item := BitToMessage(env, history, listed, m.key, bit);
      GroupHas(items, m.key, item);
      var i :| 0 <= i < |group| && group[i] == item;
      assert bit in group[i].clean;
    }
  }
}
