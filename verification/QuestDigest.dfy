/**
 The summary digest of processor/cmd/processor/quest_summary_dispatch.go: the rows
 buffered for one user are filtered, enriched, grouped by reward, folded, split into
 messages and handed on; the bucket is cleared whatever happens.
 */
module QuestDigest {
  import opened Wrappers
  import opened QuestBuffer

  type View = map<string, string>

  datatype Key = Key(rewardType: int, reward: int, form: int)

  function KeyOf(r: Row): Key
  {
    Key(r.rewardType, r.reward, r.form)
  }

  /** A fresh row that could be enriched, with the view it gave. */
  datatype Item = Item(key: Key, view: View, clean: Bits, expiresAt: int)

  datatype Meta = Meta(clean: Bits, latestExpiresAt: int)

  datatype Chunk = Chunk(entries: seq<View>, index: nat, total: nat)

  datatype Message = Message(key: Key, chunk: Chunk, totalCount: nat, clean: Bits, ttl: nat)

  datatype Verdict = Verdict(allowed: bool, justBreached: bool)

  /** What dispatching asks of the rest of the processor.  The clock is read once more
      for each group. */
  datatype Env = Env(
    now: int,
    clock: nat -> int,
    human: Option<string>,                     // the user's language, if the user exists
    locale: string,
    enrich: (Payload, string) -> Option<View>,
    valid: Payload -> bool,
    hasRenderer: bool,
    verdict: Option<Verdict>,
    maxPerMessage: int)

  datatype Outcome = Outcome(messages: seq<Message>, charged: bool, breachNotice: bool)

  const ALERT_TYPE_QUEST := "quest"

  // ----- chunkPerMessage --------------------------------------------------------------

  /** The entries in pieces of `per`; only the last may be shorter. */
  function Cut(entries: seq<View>, per: nat): seq<seq<View>>
    requires per > 0
    decreases |entries|
  {
    if entries == [] then []
    else if |entries| <= per then [entries]
    else [entries[..per]] + Cut(entries[per..], per)
  }

  lemma Steeper(a: int, b: int, d: nat)
    requires a < b
    ensures a * d + d <= b * d
  {
    assert (a + 1) * d <= b * d;
  }

  lemma Quotient(x: int, d: nat, q: int)
    requires d > 0 && q * d <= x < q * d + d
    ensures x / d == q
  {
    if x / d < q {
      Steeper(x / d, q, d);
    } else if q < x / d {
      Steeper(q, x / d, d);
    }
  }

  lemma CeilStep(n: nat, per: nat)
    requires 0 < per < n
    ensures (n + per - 1) / per == 1 + (n - per + per - 1) / per
  {
    var q := (n - 1) / per;
    assert (q + 1) * per == q * per + per;
    Quotient(n - 1 + per, per, q + 1);
  }

  lemma CeilOne(n: nat, per: nat)
    requires 0 < n <= per
    ensures (n + per - 1) / per == 1
  {
  }

  /** There are ceil(n / per) pieces. */
  lemma {:induction false} CutCounts(entries: seq<View>, per: nat)
    requires per > 0 && entries != []
    ensures |Cut(entries, per)| == (|entries| + per - 1) / per
    decreases |entries|
  {
    if |entries| <= per {
      CeilOne(|entries|, per);
    } else {
      CutCounts(entries[per..], per);
      CeilStep(|entries|, per);
    }
  }

  /** A size that is not positive means one message for everything. */
  function PerMessage(entries: seq<View>, size: int): (per: nat)
    requires entries != []
    ensures per > 0
  {
    if size <= 0 then |entries| else size
  }

  function Chunks(entries: seq<View>, size: int): seq<Chunk>
  {
    if entries == [] then [] else Numbered(Cut(entries, PerMessage(entries, size)))
  }

  function Numbered(pieces: seq<seq<View>>): seq<Chunk>
  {
    seq(|pieces|, i requires 0 <= i < |pieces| => Chunk(pieces[i], i + 1, |pieces|))
  }

  /** The next piece is cut off at i. */
  lemma CutStep(entries: seq<View>, i: nat, size: nat)
    requires size > 0 && i < |entries|
    ensures var end := if i + size < |entries| then i + size else |entries|;
            Cut(entries[i..], size) == [entries[i..end]] + if end < |entries| then Cut(entries[end..], size) else []
  {
    if i + size < |entries| {
      assert entries[i..][..size] == entries[i..i + size] && entries[i..][size..] == entries[i + size..];
    } else {
      assert entries[i..|entries|] == entries[i..];
    }
  }

  lemma NumberedStep(pieces: seq<seq<View>>, k: nat, piece: seq<View>)
    requires k < |pieces| && pieces[k..] == [piece] + pieces[k..][1..]
    ensures Numbered(pieces)[..k + 1] == Numbered(pieces)[..k] + [Chunk(piece, k + 1, |pieces|)]
    ensures pieces[k + 1..] == pieces[k..][1..]
  {
    assert pieces[k..][0] == piece;
  }

  method ChunkPerMessage(entries: seq<View>, size: int) returns (out: seq<Chunk>)
    ensures out == Chunks(entries, size)
  {
    if |entries| == 0 {
      return [];
    }
    if size <= 0 || |entries| <= size {
      return [Chunk(entries, 1, 1)];
    }
    var total := (|entries| + size - 1) / size;
    CutCounts(entries, size);
    ghost var pieces := Cut(entries, size);
    out := [];
    var i := 0;
    while i < |entries|
      invariant 0 <= i && |out| <= |pieces|
      invariant pieces[|out|..] == if i < |entries| then Cut(entries[i..], size) else []
      invariant out == Numbered(pieces)[..|out|]
      decreases |entries| - i
    {
      var end := if i + size < |entries| then i + size else |entries|;
      CutStep(entries, i, size);
      NumberedStep(pieces, |out|, entries[i..end]);
      out := out + [Chunk(entries[i..end], |out| + 1, total)];
      i := i + size;
    }
  }

  function Joined(pieces: seq<seq<View>>): seq<View>
  {
    if pieces == [] then [] else pieces[0] + Joined(pieces[1..])
  }

  function Entries(chunks: seq<Chunk>): seq<seq<View>>
  {
    seq(|chunks|, i requires 0 <= i < |chunks| => chunks[i].entries)
  }

  lemma {:induction false} CutConserves(entries: seq<View>, per: nat)
    requires per > 0
    ensures var pieces := Cut(entries, per);
            && Joined(pieces) == entries
            && (forall i :: 0 <= i < |pieces| ==>
                  0 < |pieces[i]| <= per && (i < |pieces| - 1 ==> |pieces[i]| == per))
    decreases |entries|
  {
    if |entries| > per {
      CutConserves(entries[per..], per);
      assert Cut(entries, per)[1..] == Cut(entries[per..], per);
    } else if entries != [] {
      assert Joined([entries]) == entries + Joined([entries][1..]);
    }
  }

  /** The chunks are the entries again, none empty, none too large, all full but the
      last, and numbered 1 to ceil(n / size). */
  lemma ChunksConserve(entries: seq<View>, size: int)
    ensures var chunks := Chunks(entries, size);
            && Joined(Entries(chunks)) == entries
            && |chunks| == (if entries == [] then 0
                            else if size <= 0 then 1 else (|entries| + size - 1) / size)
            && (forall i :: 0 <= i < |chunks| ==>
                  && chunks[i].index == i + 1 && chunks[i].total == |chunks|
                  && chunks[i].entries != []
                  && (size > 0 ==> |chunks[i].entries| <= size)
                  && (i < |chunks| - 1 ==> |chunks[i].entries| == size))
  {
    if entries != [] {
      var per := PerMessage(entries, size);
      CutCounts(entries, per);
      CutConserves(entries, per);
      assert Entries(Chunks(entries, size)) == Cut(entries, per);
      if size <= 0 {
        CeilOne(|entries|, per);
      }
    }
  }

  // ----- the rows that count ------------------------------------------------------------

  /** The rows that have not expired. */
  function Fresh(rows: seq<Row>, now: int): seq<Row>
  {
    if rows == [] then []
    else
      var last := rows[|rows| - 1];
      Fresh(rows[..|rows| - 1], now) + if last.expiresAt > now then [last] else []
  }

  /** fresh := rows[:0], appended to in place. */
  method DropExpired(rows: array<Row>, now: int) returns (kept: nat)
    modifies rows
    ensures kept <= rows.Length && rows[..kept] == Fresh(old(rows[..]), now)
  {
    kept := 0;
    ghost var was := rows[..];
    var i := 0;
    while i < rows.Length
      invariant 0 <= kept <= i <= rows.Length
      invariant rows[..kept] == Fresh(was[..i], now)
      invariant rows[i..] == was[i..]
    {
      assert was[..i + 1][..i] == was[..i];
      assert rows[i] == rows[i..][0] == was[i];
      assert rows[i + 1..] == rows[i..][1..] && was[i + 1..] == was[i..][1..];
      if rows[i].expiresAt > now {
        rows[kept] := rows[i];
        kept := kept + 1;
      }
      i := i + 1;
    }
    assert was[..rows.Length] == was;
  }

  function Items(rows: seq<Row>, enrich: Payload -> Option<View>): seq<Item>
  {
    if rows == [] then []
    else
      var last := rows[|rows| - 1];
      Items(rows[..|rows| - 1], enrich) +
      match enrich(last.payload)
      case None => []
      case Some(view) => [Item(KeyOf(last), view, last.clean, last.expiresAt)]
  }

  /** The keys, each where it is first seen. */
  function Order(items: seq<Item>): seq<Key>
  {
    if items == [] then []
    else
      var before, last := Order(items[..|items| - 1]), items[|items| - 1];
      if last.key in before then before else before + [last.key]
  }

  function Group(items: seq<Item>, k: Key): seq<Item>
  {
    if items == [] then []
    else
      var last := items[|items| - 1];
      Group(items[..|items| - 1], k) + if last.key == k then [last] else []
  }

  function Views(items: seq<Item>): seq<View>
  {
    seq(|items|, i requires 0 <= i < |items| => items[i].view)
  }

  function Folded(items: seq<Item>): Meta
  {
    if items == [] then Meta({}, 0)
    else
      var m, last := Folded(items[..|items| - 1]), items[|items| - 1];
      Joining(m, last.clean, last.expiresAt)
  }

  /** The running summary of a group takes in one more row. */
  function Joining(m: Meta, clean: Bits, expiresAt: int): Meta
  {
    Meta(m.clean + clean, if expiresAt > m.latestExpiresAt then expiresAt else m.latestExpiresAt)
  }

  // ----- the digest -----------------------------------------------------------------------

  function Messages(items: seq<Item>, k: Key, size: int, now: int): seq<Message>
  {
    var group := Group(items, k);
    var chunks, meta := Chunks(Views(group), size), Folded(group);
    seq(|chunks|, i requires 0 <= i < |chunks| =>
      Message(k, chunks[i], |group|, meta.clean, TTL(meta, now)))
  }

  function TTL(meta: Meta, now: int): nat
  {
    if meta.latestExpiresAt - now > 0 then meta.latestExpiresAt - now else 0
  }

  /** The messages of these groups, one group after the other. */
  function Digest(items: seq<Item>, order: seq<Key>, size: int, clock: nat -> int): seq<Message>
  {
    if order == [] then []
    else
      var n := |order| - 1;
      Digest(items, order[..n], size, clock) + Messages(items, order[n], size, clock(n))
  }

  /** What groups and groupMeta hold for a key once these items have been seen. */
  predicate Recorded(groups: map<Key, seq<View>>, meta: map<Key, Meta>, items: seq<Item>, k: Key)
  {
    var group := Group(items, k);
    if group == [] then k !in groups && k !in meta
    else k in groups && k in meta && groups[k] == Views(group) && meta[k] == Folded(group)
  }

  ghost predicate Grouped(groups: map<Key, seq<View>>, meta: map<Key, Meta>, order: seq<Key>, items: seq<Item>)
  {
    order == Order(items) && forall k :: Recorded(groups, meta, items, k)
  }

  lemma {:induction false} KeysSeen(items: seq<Item>, k: Key)
    ensures k in Order(items) <==> Group(items, k) != []
    ensures k in Order(items) <==> exists p :: 0 <= p < |items| && items[p].key == k
  {
    KeyIsGrouped(items, k);
    if k in Order(items) {
      var p := KeySeenAt(items, k);
    }
    forall p | 0 <= p < |items| && items[p].key == k ensures k in Order(items) {
      SeenIsKept(items, p);
    }
  }

  lemma {:induction false} KeyIsGrouped(items: seq<Item>, k: Key)
    ensures k in Order(items) <==> Group(items, k) != []
  {
    if items != [] {
      KeyIsGrouped(items[..|items| - 1], k);
    }
  }

  lemma {:induction false} KeySeenAt(items: seq<Item>, k: Key) returns (p: nat)
    requires k in Order(items)
    ensures p < |items| && items[p].key == k
  {
    var n := |items| - 1;
    if items[n].key == k {
      p := n;
    } else {
      p := KeySeenAt(items[..n], k);
    }
  }

  lemma {:induction false} SeenIsKept(items: seq<Item>, p: nat)
    requires p < |items|
    ensures items[p].key in Order(items)
  {
    if p < |items| - 1 {
      SeenIsKept(items[..|items| - 1], p);
    }
  }

  lemma GroupGrows(items: seq<Item>, item: Item, k: Key)
    ensures Group(items + [item], k) == if item.key == k then Group(items, k) + [item] else Group(items, k)
    ensures item.key == k ==>
      && Views(Group(items + [item], k)) == Views(Group(items, k)) + [item.view]
      && Folded(Group(items + [item], k)) == Joining(Folded(Group(items, k)), item.clean, item.expiresAt)
  {
    assert (items + [item])[..|items|] == items;
    var group := Group(items, k);
    assert (group + [item])[..|group|] == group;
  }

  function ViewsFor(groups: map<Key, seq<View>>, k: Key): seq<View>
  {
    if k in groups then groups[k] else []
  }

  function MetaFor(meta: map<Key, Meta>, k: Key): Meta
  {
    if k in meta then meta[k] else Meta({}, 0)
  }

  lemma RecordedAfter(groups: map<Key, seq<View>>, meta: map<Key, Meta>, items: seq<Item>, item: Item, k: Key)
    requires Recorded(groups, meta, items, item.key) && Recorded(groups, meta, items, k)
    ensures Recorded(groups[item.key := ViewsFor(groups, item.key) + [item.view]],
                     meta[item.key := Joining(MetaFor(meta, item.key), item.clean, item.expiresAt)],
                     items + [item], k)
  {
    GroupGrows(items, item, k);
    if item.key == k && Group(items, k) == [] {
      assert ViewsFor(groups, k) == Views([]) && MetaFor(meta, k) == Folded([]);
    }
  }

  lemma OrderAfter(items: seq<Item>, item: Item)
    ensures Order(items + [item]) == Order(items) + if Group(items, item.key) == [] then [item.key] else []
  {
    assert (items + [item])[..|items|] == items;
    KeysSeen(items, item.key);
  }

  lemma OneMore(groups: map<Key, seq<View>>, meta: map<Key, Meta>, order: seq<Key>, items: seq<Item>, item: Item)
    requires Grouped(groups, meta, order, items)
    ensures Grouped(groups[item.key := ViewsFor(groups, item.key) + [item.view]],
                    meta[item.key := Joining(MetaFor(meta, item.key), item.clean, item.expiresAt)],
                    if item.key in groups then order else order + [item.key],
                    items + [item])
  {
    assert Recorded(groups, meta, items, item.key);
    OrderAfter(items, item);
    var groups' := groups[item.key := ViewsFor(groups, item.key) + [item.view]];
    var meta' := meta[item.key := Joining(MetaFor(meta, item.key), item.clean, item.expiresAt)];
    var items' := items + [item];
    forall k ensures Recorded(groups', meta', items', k) {
      assert Recorded(groups, meta, items, k);
      RecordedAfter(groups, meta, items, item, k);
    }
  }

  /** The loop that fills groups, groupMeta and order. */
  method GroupRows(rows: array<Row>, kept: nat, enrich: Payload -> Option<View>)
    returns (groups: map<Key, seq<View>>, meta: map<Key, Meta>, order: seq<Key>)
    requires kept <= rows.Length
    ensures Grouped(groups, meta, order, Items(rows[..kept], enrich))
  {
    groups, meta, order := map[], map[], [];
    var i := 0;
    ghost var items: seq<Item> := [];
    while i < kept
      invariant i <= kept && items == Items(rows[..i], enrich)
      invariant Grouped(groups, meta, order, items)
    {
      assert rows[..i + 1][..i] == rows[..i];
      var r := rows[i];
      var view := enrich(r.payload);
      if view.Some? {
        var k := KeyOf(r);
        ghost var item := Item(k, view.value, r.clean, r.expiresAt);
        OneMore(groups, meta, order, items, item);
        if k !in groups {
          order := order + [k];
        }
        groups := groups[k := ViewsFor(groups, k) + [view.value]];
        meta := meta[k := Joining(MetaFor(meta, k), r.clean, r.expiresAt)];
        items := items + [item];
      }
      i := i + 1;
    }
  }

  // ----- the dispatch ---------------------------------------------------------------------

  function Language(env: Env): string
  {
    if env.human.Some? && env.human.value != "" then env.human.value else env.locale
  }

  function Enricher(env: Env): Payload -> Option<View>
  {
    p => env.enrich(p, Language(env))
  }

  function Enriched(env: Env, rows: seq<Row>): seq<Item>
  {
    Items(Fresh(rows, env.now), Enricher(env))
  }

  /** There is something to send, to a user who may have it, and something to render it. */
  predicate Ready(env: Env, rows: seq<Row>)
  {
    && env.human.Some?
    && Enriched(env, rows) != []
    && Fresh(rows, env.now) != []
    && env.valid(Fresh(rows, env.now)[0].payload)
    && env.hasRenderer
  }

  predicate Allowed(env: Env)
  {
    env.verdict.Some? ==> env.verdict.value.allowed
  }

  /** What one dispatch does: the limiter is asked only about a digest that is ready. */
  predicate Dispatched(env: Env, rows: seq<Row>, out: Outcome)
  {
    var items := Enriched(env, rows);
    && out.messages == (if Ready(env, rows) && Allowed(env)
                        then Digest(items, Order(items), env.maxPerMessage, env.clock) else [])
    && (out.charged <==> Ready(env, rows) && env.verdict.Some?)
    && (out.breachNotice <==> Ready(env, rows) && !Allowed(env) && env.verdict.value.justBreached)
  }

  method SendGroup(k: Key, all: seq<View>, meta: Meta, ghost items: seq<Item>, size: int, now: int)
    returns (messages: seq<Message>)
    requires all == Views(Group(items, k)) && meta == Folded(Group(items, k))
    ensures messages == Messages(items, k, size, now)
  {
    var chunks := ChunkPerMessage(all, size);
    messages := [];
    for i := 0 to |chunks|
      invariant messages == Messages(items, k, size, now)[..i]
    {
      messages := messages + [Message(k, chunks[i], |all|, meta.clean, TTL(meta, now))];
    }
  }

  method SendGroups(groups: map<Key, seq<View>>, meta: map<Key, Meta>, order: seq<Key>,
                    ghost items: seq<Item>, size: int, clock: nat -> int)
    returns (messages: seq<Message>)
    requires Grouped(groups, meta, order, items)
    ensures messages == Digest(items, order, size, clock)
  {
    messages := [];
    for g := 0 to |order|
      invariant messages == Digest(items, order[..g], size, clock)
    {
      assert order[..g + 1][..g] == order[..g];
      var k := order[g];
      KeysSeen(items, k);
      assert Recorded(groups, meta, items, k);
      var more := SendGroup(k, groups[k], meta[k], items, size, clock(g));
      messages := messages + more;
    }
    assert order[..|order|] == order;
  }

  method Summarise(rows: array<Row>, env: Env) returns (out: Outcome)
    modifies rows
    ensures Dispatched(env, old(rows[..]), out)
  {
    out := Outcome([], false, false);
    var kept := DropExpired(rows, env.now);
    if kept == 0 || env.human.None? {
      return;
    }
    var groups, meta, order := GroupRows(rows, kept, Enricher(env));
    ghost var items := Items(rows[..kept], Enricher(env));
    if |order| == 0 {
      if items != [] {
        KeysSeen(items, items[0].key);
      }
      return;
    }
    if !env.valid(rows[0].payload) || !env.hasRenderer {
      return;
    }
    if env.verdict.Some? && !env.verdict.value.allowed {
      return Outcome([], true, env.verdict.value.justBreached);
    }
    var messages := SendGroups(groups, meta, order, items, env.maxPerMessage, env.clock);
    out := Outcome(messages, env.verdict.Some?, false);
  }

  /** A bucket that holds anything is gone afterwards, whatever became of its rows; no
      other bucket is touched.  `listed` is the order in which the rows were met. */
  method DispatchQuestSummary(buffer: SummaryBuffer?, env: Env, humanId: string, alertType: string)
    returns (out: Outcome, ghost listed: seq<Row>)
    requires buffer != null ==> buffer.Valid()
    modifies buffer
    ensures buffer != null ==> buffer.Valid()
    ensures alertType != ALERT_TYPE_QUEST || buffer == null || old(buffer.At(humanId, alertType)) == map[] ==>
              out == Outcome([], false, false) && (buffer != null ==> buffer.data == old(buffer.data))
    ensures alertType == ALERT_TYPE_QUEST && buffer != null && old(buffer.At(humanId, alertType)) != map[] ==>
              && Lists(listed, old(buffer.At(humanId, alertType)))
              && Dispatched(env, listed, out)
              && forall h, a ::
                   buffer.At(h, a) == if (h, a) == (humanId, alertType) then map[] else old(buffer.At(h, a))
  {
    out, listed := Outcome([], false, false), [];
    if alertType != ALERT_TYPE_QUEST || buffer == null {
      return;
    }
    var rows := buffer.List(humanId, alertType);
    listed := rows[..];
    NothingListed(listed, buffer.At(humanId, alertType));
    if rows.Length == 0 {
      return;
    }
    out := Summarise(rows, env);
    buffer.Clear(humanId, alertType);
  }

  lemma NothingListed(rows: seq<Row>, bucket: Bucket)
    requires Lists(rows, bucket)
    ensures rows == [] <==> bucket == map[]
  {
    if bucket != map[] {
      var k :| k in bucket;
      assert bucket[k] in multiset(rows);
    }
  }

  // ----- what the digest is for ------------------------------------------------------------

  /** The views that the messages of one group carry, message after message. */
  function Delivered(messages: seq<Message>, k: Key): seq<View>
  {
    if messages == [] then []
    else (if messages[0].key == k then messages[0].chunk.entries else []) + Delivered(messages[1..], k)
  }

  lemma {:induction false} DeliveredAppend(a: seq<Message>, b: seq<Message>, k: Key)
    ensures Delivered(a + b, k) == Delivered(a, k) + Delivered(b, k)
  {
    if a == [] {
      assert a + b == b;
    } else {
      assert (a + b)[1..] == a[1..] + b;
      DeliveredAppend(a[1..], b, k);
    }
  }

  lemma {:induction false} DeliveredByOneGroup(messages: seq<Message>, k: Key, j: Key)
    requires forall i :: 0 <= i < |messages| ==> messages[i].key == k
    ensures Delivered(messages, j) ==
            if j == k then Joined(seq(|messages|, i requires 0 <= i < |messages| => messages[i].chunk.entries)) else []
  {
    if messages != [] {
      DeliveredByOneGroup(messages[1..], k, j);
      var pieces := seq(|messages|, i requires 0 <= i < |messages| => messages[i].chunk.entries);
      var rest := seq(|messages[1..]|, i requires 0 <= i < |messages[1..]| => messages[1..][i].chunk.entries);
      assert pieces[1..] == rest;
    }
  }

  lemma GroupDelivered(items: seq<Item>, k: Key, size: int, now: int, j: Key)
    ensures Delivered(Messages(items, k, size, now), j) == if j == k then Views(Group(items, k)) else []
  {
    var messages, chunks := Messages(items, k, size, now), Chunks(Views(Group(items, k)), size);
    ChunksConserve(Views(Group(items, k)), size);
    DeliveredByOneGroup(messages, k, j);
    assert seq(|messages|, i requires 0 <= i < |messages| => messages[i].chunk.entries) == Entries(chunks);
  }

  lemma {:induction false} OrderDistinct(items: seq<Item>)
    ensures forall i, j :: 0 <= i < j < |Order(items)| ==> Order(items)[i] != Order(items)[j]
  {
    if items != [] {
      OrderDistinct(items[..|items| - 1]);
    }
  }

  lemma OneMoreGroupDelivered(
    items: seq<Item>, done: seq<Message>, before: seq<Key>, last: Key, size: int, now: int, k: Key)
    requires Delivered(done, k) == if k in before then Views(Group(items, k)) else []
    requires last !in before
    ensures Delivered(done + Messages(items, last, size, now), k) ==
            if k in before + [last] then Views(Group(items, k)) else []
  {
    var more := Messages(items, last, size, now);
    GroupDelivered(items, last, size, now, k);
    DeliveredAppend(done, more, k);
  }

  lemma {:induction false} GroupsDelivered(items: seq<Item>, order: seq<Key>, size: int, clock: nat -> int, k: Key)
    requires forall i, j :: 0 <= i < j < |order| ==> order[i] != order[j]
    ensures Delivered(Digest(items, order, size, clock), k) == if k in order then Views(Group(items, k)) else []
  {
    if order != [] {
      var n := |order| - 1;
      assert order == order[..n] + [order[n]];
      GroupsDelivered(items, order[..n], size, clock, k);
      OneMoreGroupDelivered(items, Digest(items, order[..n], size, clock), order[..n], order[n], size, clock(n), k);
    }
  }

  /** Every fresh row that could be enriched is delivered under its own key, rows of a
      key in the order they were listed, nothing twice and nothing else. */
  lemma DigestConserves(items: seq<Item>, size: int, clock: nat -> int, k: Key)
    ensures Delivered(Digest(items, Order(items), size, clock), k) == Views(Group(items, k))
  {
    OrderDistinct(items);
    GroupsDelivered(items, Order(items), size, clock, k);
    KeysSeen(items, k);
  }

  /** Some row of a comes before every row of b. */
  ghost predicate SeenBefore(items: seq<Item>, a: Key, b: Key)
  {
    exists p :: 0 <= p < |items| && items[p].key == a && forall q :: 0 <= q <= p ==> items[q].key != b
  }

  lemma {:induction false} OrderIsFirstSeen(items: seq<Item>, i: nat, j: nat)
    requires i < j < |Order(items)|
    ensures SeenBefore(items, Order(items)[i], Order(items)[j])
  {
    var n := |items| - 1;
    var before := Order(items[..n]);
    if j < |before| {
      OrderIsFirstSeen(items[..n], i, j);
      var p :| 0 <= p < n && items[..n][p].key == before[i]
               && forall q :: 0 <= q <= p ==> items[..n][q].key != before[j];
      assert items[p].key == before[i];
      assert forall q :: 0 <= q <= p ==> items[q] == items[..n][q];
    } else {
      KeysSeen(items[..n], before[i]);
      KeysSeen(items[..n], items[n].key);
      var p :| 0 <= p < n && items[..n][p].key == before[i];
      assert items[p].key == before[i];
      assert forall q :: 0 <= q <= p ==> items[q] == items[..n][q];
    }
  }

  /** The next message goes on with its group, or starts one first seen later. */
  ghost predicate GoesOn(items: seq<Item>, a: Message, b: Message)
  {
    if a.chunk.index < a.chunk.total then b.key == a.key && b.chunk.index == a.chunk.index + 1
    else b.key != a.key && b.chunk.index == 1 && SeenBefore(items, a.key, b.key)
  }

  ghost predicate Complete(items: seq<Item>, messages: seq<Message>)
  {
    messages != [] ==>
      && messages[0].chunk.index == 1
      && messages[|messages| - 1].chunk.index == messages[|messages| - 1].chunk.total
      && forall i :: 0 <= i < |messages| - 1 ==> GoesOn(items, messages[i], messages[i + 1])
  }

  lemma OneGroupIsComplete(items: seq<Item>, k: Key, size: int, now: int)
    requires Group(items, k) != []
    ensures var ms := Messages(items, k, size, now);
            && ms != [] && Complete(items, ms)
            && (forall i :: 0 <= i < |ms| ==> ms[i].key == k)
  {
    ChunksConserve(Views(Group(items, k)), size);
  }

  lemma CompleteAppend(items: seq<Item>, a: seq<Message>, b: seq<Message>)
    requires Complete(items, a) && Complete(items, b) && b != []
    requires a != [] ==> a[|a| - 1].key != b[0].key && SeenBefore(items, a[|a| - 1].key, b[0].key)
    ensures Complete(items, a + b)
  {
    forall i | 0 <= i < |a + b| - 1 ensures GoesOn(items, (a + b)[i], (a + b)[i + 1]) {
      if i < |a| - 1 {
        assert GoesOn(items, a[i], a[i + 1]);
      } else if i >= |a| {
        assert GoesOn(items, b[i - |a|], b[i - |a| + 1]);
      }
    }
  }

  lemma {:induction false} GroupsComplete(items: seq<Item>, order: seq<Key>, size: int, clock: nat -> int)
    requires forall i :: 0 <= i < |order| ==> Group(items, order[i]) != []
    requires forall i, j :: 0 <= i < j < |order| ==> order[i] != order[j] && SeenBefore(items, order[i], order[j])
    ensures var ms := Digest(items, order, size, clock);
            Complete(items, ms) && (order != [] ==> ms != [] && ms[|ms| - 1].key == order[|order| - 1])
  {
    if order != [] {
      var n := |order| - 1;
      GroupsComplete(items, order[..n], size, clock);
      OneGroupIsComplete(items, order[n], size, clock(n));
      CompleteAppend(items, Digest(items, order[..n], size, clock), Messages(items, order[n], size, clock(n)));
    }
  }

  /** The messages come group by group in first-seen order, each group numbered from 1
      to its total without a gap. */
  lemma DigestIsComplete(items: seq<Item>, size: int, clock: nat -> int)
    ensures Complete(items, Digest(items, Order(items), size, clock))
  {
    OrderDistinct(items);
    forall i | 0 <= i < |Order(items)| ensures Group(items, Order(items)[i]) != [] {
      KeysSeen(items, Order(items)[i]);
    }
    forall i, j | 0 <= i < j < |Order(items)|
      ensures SeenBefore(items, Order(items)[i], Order(items)[j])
    {
      OrderIsFirstSeen(items, i, j);
    }
    GroupsComplete(items, Order(items), size, clock);
  }

  /** A message has a clean bit exactly when some row of its group does. */
  lemma {:induction false} CleanBits(group: seq<Item>, bit: nat)
    ensures bit in Folded(group).clean <==> exists i :: 0 <= i < |group| && bit in group[i].clean
  {
    if group != [] {
      var n := |group| - 1;
      CleanBits(group[..n], bit);
      assert forall i :: 0 <= i < n ==> group[i] == group[..n][i];
    }
  }

  lemma {:induction false} LatestExpiry(group: seq<Item>)
    ensures forall i :: 0 <= i < |group| ==> group[i].expiresAt <= Folded(group).latestExpiresAt
    ensures Folded(group).latestExpiresAt == 0
            || exists i :: 0 <= i < |group| && group[i].expiresAt == Folded(group).latestExpiresAt
  {
    if group != [] {
      var n := |group| - 1;
      LatestExpiry(group[..n]);
      assert forall i :: 0 <= i < n ==> group[i] == group[..n][i];
    }
  }

  /** What the digest owes a key, read off the bucket in one pass: a view for each row
      of that key which has not expired and can be enriched. */
  function Owed(rows: seq<Row>, now: int, enrich: Payload -> Option<View>, k: Key): seq<View>
  {
    if rows == [] then []
    else
      var last := rows[|rows| - 1];
      Owed(rows[..|rows| - 1], now, enrich, k) +
      if last.expiresAt > now && KeyOf(last) == k && enrich(last.payload).Some? then [enrich(last.payload).value]
      else []
  }

  lemma ItemsGrow(rows: seq<Row>, r: Row, enrich: Payload -> Option<View>)
    ensures Items(rows + [r], enrich) ==
            if enrich(r.payload).None? then Items(rows, enrich)
            else Items(rows, enrich) + [Item(KeyOf(r), enrich(r.payload).value, r.clean, r.expiresAt)]
  {
    assert (rows + [r])[..|rows|] == rows;
  }

  lemma {:induction false} OwedIsGrouped(rows: seq<Row>, now: int, enrich: Payload -> Option<View>, k: Key)
    ensures Views(Group(Items(Fresh(rows, now), enrich), k)) == Owed(rows, now, enrich, k)
  {
    if rows != [] {
      var n := |rows| - 1;
      var last, kept := rows[n], Fresh(rows[..n], now);
      OwedIsGrouped(rows[..n], now, enrich, k);
      assert last.expiresAt <= now ==> Fresh(rows, now) == kept;
      if last.expiresAt > now {
        ItemsGrow(kept, last, enrich);
        var view := enrich(last.payload);
        if view.Some? {
          GroupGrows(Items(kept, enrich), Item(KeyOf(last), view.value, last.clean, last.expiresAt), k);
        }
      }
    }
  }

  /** A digest that is sent pays each key exactly what the bucket owed it. */
  lemma DigestPaysWhatIsOwed(env: Env, rows: seq<Row>, out: Outcome, k: Key)
    requires Dispatched(env, rows, out)
    ensures Delivered(out.messages, k) ==
            if Ready(env, rows) && Allowed(env) then Owed(rows, env.now, Enricher(env), k) else []
  {
    DigestConserves(Enriched(env, rows), env.maxPerMessage, env.clock, k);
    OwedIsGrouped(rows, env.now, Enricher(env), k);
  }

  /** A message has the clean bits of its own group, and lives as long as the last of
      the group's rows. */
  ghost predicate GroupFields(group: seq<Item>, now: int, m: Message)
  {
    && m.totalCount == |group|
    && (forall bit :: bit in m.clean <==> exists i :: 0 <= i < |group| && bit in group[i].clean)
    && (forall i :: 0 <= i < |group| ==> group[i].expiresAt - now <= m.ttl)
    && (m.ttl > 0 && (forall i :: 0 <= i < |group| ==> group[i].expiresAt > 0) ==>
          exists i :: 0 <= i < |group| && group[i].expiresAt - now == m.ttl)
  }

  ghost predicate OwnFields(items: seq<Item>, order: seq<Key>, clock: nat -> int, m: Message)
  {
    exists g: nat :: g < |order| && order[g] == m.key && GroupFields(Group(items, m.key), clock(g), m)
  }

  lemma GroupHasItsFields(group: seq<Item>, now: int, m: Message)
    requires group != [] && m.totalCount == |group|
    requires m.clean == Folded(group).clean && m.ttl == TTL(Folded(group), now)
    ensures GroupFields(group, now, m)
  {
    forall bit ensures bit in m.clean <==> exists i :: 0 <= i < |group| && bit in group[i].clean {
      CleanBits(group, bit);
    }
    LatestExpiry(group);
    if Folded(group).latestExpiresAt == 0 {
      assert group[0].expiresAt <= 0;
    }
  }

  lemma MessagesHaveTheirFields(items: seq<Item>, k: Key, size: int, now: int, m: Message)
    requires m in Messages(items, k, size, now)
    ensures m.key == k && GroupFields(Group(items, k), now, m)
  {
    GroupHasItsFields(Group(items, k), now, m);
  }

  lemma {:induction false} DigestHasItsFields(
    items: seq<Item>, order: seq<Key>, size: int, clock: nat -> int, m: Message)
    requires m in Digest(items, order, size, clock)
    ensures OwnFields(items, order, clock, m)
  {
    var n := |order| - 1;
    if m in Digest(items, order[..n], size, clock) {
      DigestHasItsFields(items, order[..n], size, clock, m);
      var g: nat :| g < n && order[..n][g] == m.key && GroupFields(Group(items, m.key), clock(g), m);
      assert order[g] == m.key;
    } else {
      MessagesHaveTheirFields(items, order[n], size, clock(n), m);
    }
  }
}
