/**
 The summary buffer of processor/internal/tracker/summary_buffer.go: the quests that were
 matched and not delivered yet, for each user and alert type one bucket with a row for
 each reward and stop.  A bucket is a map, so a listing has its rows in any order.
 */
module QuestBuffer {

  type Payload = string
  /** A bitmask, as the set of its bits. */
  type Bits = set<nat>

  datatype Row = Row(payload: Payload, rewardType: int, reward: int, form: int, pokestop: string, withAR: bool,
                     clean: Bits, expiresAt: int)

  /** Rows with the same key replace each other. */
  datatype BufferKey = BufferKey(rewardType: int, reward: int, form: int, pokestop: string, withAR: bool)

  function BufferKeyOf(r: Row): BufferKey
  {
    BufferKey(r.rewardType, r.reward, r.form, r.pokestop, r.withAR)
  }

  type Bucket = map<BufferKey, Row>

  ghost predicate KeysFit(bucket: Bucket)
  {
    forall k :: k in bucket ==> BufferKeyOf(bucket[k]) == k
  }

  /** The new row, with the clean bits of the one it replaces added to its own. */
  function Upserted(bucket: Bucket, q: Row): Bucket
  {
    var k := BufferKeyOf(q);
    bucket[k := if k in bucket then q.(clean := q.clean + bucket[k].clean) else q]
  }

  /** The rows of the bucket, each once, in some order. */
  ghost predicate Lists(rows: seq<Row>, bucket: Bucket)
  {
    multiset(rows) == multiset(bucket.Values)
  }

  function Restricted(bucket: Bucket, keys: set<BufferKey>): Bucket
  {
    map k | k in bucket && k in keys :: bucket[k]
  }

  lemma ListsOneMore(rows: seq<Row>, bucket: Bucket, done: set<BufferKey>, k: BufferKey)
    requires KeysFit(bucket) && k in bucket && k !in done
    requires Lists(rows, Restricted(bucket, done))
    ensures Lists(rows + [bucket[k]], Restricted(bucket, done + {k}))
  {
    RestrictedGrows(bucket, done, k);
    ValuesGrow(Restricted(bucket, done), k, bucket[k]);
  }

  lemma RestrictedGrows(bucket: Bucket, done: set<BufferKey>, k: BufferKey)
    requires k in bucket
    ensures Restricted(bucket, done + {k}) == Restricted(bucket, done)[k := bucket[k]]
  {
  }

  lemma ValuesGrow(bucket: Bucket, k: BufferKey, r: Row)
    requires KeysFit(bucket) && k !in bucket && BufferKeyOf(r) == k
    ensures r !in bucket.Values && bucket[k := r].Values == bucket.Values + {r}
  {
    var after := bucket[k := r];
    forall v | v in bucket.Values ensures v in after.Values {
      var j :| j in bucket && bucket[j] == v;
      assert after[j] == v;
    }
    assert after[k] == r;
  }

  /** The buckets of each user, by alert type. */
  type Buckets = map<string, map<string, Bucket>>

  function BucketIn(data: Buckets, humanId: string, alertType: string): Bucket
  {
    if humanId in data && alertType in data[humanId] then data[humanId][alertType] else map[]
  }

  /** Every row is under its own key. */
  ghost predicate RowsFit(data: Buckets)
  {
    forall h, a :: KeysFit(BucketIn(data, h, a))
  }

  /** No bucket and no user is kept that is empty. */
  predicate NoneEmpty(data: Buckets)
  {
    forall h :: h in data ==> data[h] != map[] && forall a :: a in data[h] ==> data[h][a] != map[]
  }

  /** One bucket replaced. */
  function With(data: Buckets, humanId: string, alertType: string, bucket: Bucket): Buckets
  {
    data[humanId := (if humanId in data then data[humanId] else map[])[alertType := bucket]]
  }

  /** One bucket dropped, and its user when nothing else is left of them. */
  function Without(data: Buckets, humanId: string, alertType: string): Buckets
  {
    if humanId !in data then data
    else
      var rest := data[humanId] - {alertType};
      if rest == map[] then data - {humanId} else data[humanId := rest]
  }

  lemma WithAt(data: Buckets, humanId: string, alertType: string, bucket: Bucket, h: string, a: string)
    ensures BucketIn(With(data, humanId, alertType, bucket), h, a) ==
            if (h, a) == (humanId, alertType) then bucket else BucketIn(data, h, a)
  {
  }

  lemma WithFits(data: Buckets, humanId: string, alertType: string, bucket: Bucket)
    requires RowsFit(data) && NoneEmpty(data) && KeysFit(bucket) && bucket != map[]
    ensures RowsFit(With(data, humanId, alertType, bucket)) && NoneEmpty(With(data, humanId, alertType, bucket))
    ensures forall h, a :: BucketIn(With(data, humanId, alertType, bucket), h, a) ==
              if (h, a) == (humanId, alertType) then bucket else BucketIn(data, h, a)
  {
    var after := With(data, humanId, alertType, bucket);
    assert alertType in after[humanId];
    forall h, a
      ensures BucketIn(after, h, a) == if (h, a) == (humanId, alertType) then bucket else BucketIn(data, h, a)
    {
      WithAt(data, humanId, alertType, bucket, h, a);
    }
  }

  lemma WithoutAt(data: Buckets, humanId: string, alertType: string, h: string, a: string)
    ensures BucketIn(Without(data, humanId, alertType), h, a) ==
            if (h, a) == (humanId, alertType) then map[] else BucketIn(data, h, a)
  {
    if h == humanId && h in data && a in data[h] && a != alertType {
      assert a in data[humanId] - {alertType};
    }
  }

  lemma WithoutFits(data: Buckets, humanId: string, alertType: string)
    requires RowsFit(data) && NoneEmpty(data)
    ensures RowsFit(Without(data, humanId, alertType)) && NoneEmpty(Without(data, humanId, alertType))
    ensures forall h, a :: BucketIn(Without(data, humanId, alertType), h, a) ==
              if (h, a) == (humanId, alertType) then map[] else BucketIn(data, h, a)
  {
    forall h, a
      ensures BucketIn(Without(data, humanId, alertType), h, a) ==
              if (h, a) == (humanId, alertType) then map[] else BucketIn(data, h, a)
    {
      WithoutAt(data, humanId, alertType, h, a);
    }
  }

  lemma PutThenDropped(data: Buckets, humanId: string, byType: map<string, Bucket>)
    ensures data[humanId := byType] - {humanId} == data - {humanId}
  {
  }

  class SummaryBuffer {
    var data: Buckets

    constructor ()
      ensures data == map[] && Valid()
    {
      data := map[];
    }

    function At(humanId: string, alertType: string): Bucket
      reads this
    {
      BucketIn(data, humanId, alertType)
    }

    ghost predicate Valid()
      reads this
    {
      RowsFit(data) && NoneEmpty(data)
    }

    method Append(humanId: string, alertType: string, q: Row)
      requires Valid()
      modifies this
      ensures Valid()
      ensures forall h, a :: At(h, a) ==
                if (h, a) == (humanId, alertType) then Upserted(old(At(h, a)), q) else old(At(h, a))
    {
      ghost var was := data;
      var byType := if humanId in data then data[humanId] else map[];
      var bucket: Bucket := if alertType in byType then byType[alertType] else map[];
      var key := BufferKeyOf(q);
      var row := q;
      if key in bucket {
        row := row.(clean := q.clean + bucket[key].clean);
      }
      bucket := bucket[key := row];
      assert bucket == Upserted(BucketIn(was, humanId, alertType), q);
      assert KeysFit(BucketIn(was, humanId, alertType));
      data := data[humanId := byType[alertType := bucket]];
      assert data == With(was, humanId, alertType, bucket);
      assert key in bucket;
      WithFits(was, humanId, alertType, bucket);
    }

    /** A copy of the bucket, in whatever order the range meets it. */
    method List(humanId: string, alertType: string) returns (rows: array<Row>)
      requires Valid()
      ensures fresh(rows) && Lists(rows[..], At(humanId, alertType))
    {
      var bucket := At(humanId, alertType);
      assert KeysFit(BucketIn(data, humanId, alertType));
      var out := Collect(bucket);
      rows := new Row[|out|](i requires 0 <= i < |out| => out[i]);
      assert rows[..] == out;
    }

    static method Collect(bucket: Bucket) returns (out: seq<Row>)
      requires KeysFit(bucket)
      ensures Lists(out, bucket)
    {
      out := [];
      var todo := bucket.Keys;
      assert Restricted(bucket, bucket.Keys - todo) == map[];
      while todo != {}
        invariant todo <= bucket.Keys
        invariant Lists(out, Restricted(bucket, bucket.Keys - todo))
      {
        var k :| k in todo;
        ListsOneMore(out, bucket, bucket.Keys - todo, k);
        assert bucket.Keys - todo + {k} == bucket.Keys - (todo - {k});
        todo, out := todo - {k}, out + [bucket[k]];
      }
      assert Restricted(bucket, bucket.Keys - todo) == bucket;
    }

    method Clear(humanId: string, alertType: string)
      requires Valid()
      modifies this
      ensures Valid()
      ensures forall h, a :: At(h, a) == if (h, a) == (humanId, alertType) then map[] else old(At(h, a))
    {
      ghost var was := data;
      if humanId in data {
        var byType := data[humanId] - {alertType};
        data := data[humanId := byType];
        if byType == map[] {
          data := data - {humanId};
          PutThenDropped(was, humanId, byType);
        }
      }
      assert data == Without(was, humanId, alertType);
      WithoutFits(was, humanId, alertType);
    }
  }

  // ----- a bucket from its appends ---------------------------------------------------------

  /** The bucket after these rows were appended to an empty one. */
  function After(history: seq<Row>): Bucket
  {
    if history == [] then map[] else Upserted(After(history[..|history| - 1]), history[|history| - 1])
  }

  /** The keys in the order in which their first rows arrived. */
  function Arrivals(history: seq<Row>): (keys: seq<BufferKey>)
    ensures forall k :: k in keys <==> k in After(history)
  {
    if history == [] then []
    else
      var before, k := Arrivals(history[..|history| - 1]), BufferKeyOf(history[|history| - 1]);
      if k in before then before else before + [k]
  }

  /** The rows of the bucket in order of arrival. */
  function Arrived(history: seq<Row>): seq<Row>
  {
    Picked(After(history), Arrivals(history))
  }

  lemma {:induction false} AfterFits(history: seq<Row>)
    ensures KeysFit(After(history))
  {
    if history != [] {
      AfterFits(history[..|history| - 1]);
    }
  }

  lemma {:induction false} ArrivalsDistinct(history: seq<Row>)
    ensures forall i, j :: 0 <= i < j < |Arrivals(history)| ==> Arrivals(history)[i] != Arrivals(history)[j]
  {
    if history != [] {
      ArrivalsDistinct(history[..|history| - 1]);
    }
  }

  /** The rows under these keys. */
  function Picked(bucket: Bucket, keys: seq<BufferKey>): seq<Row>
    requires forall k :: k in keys ==> k in bucket
  {
    seq(|keys|, i requires 0 <= i < |keys| => bucket[keys[i]])
  }

  lemma {:induction false} PickedLists(bucket: Bucket, keys: seq<BufferKey>)
    requires KeysFit(bucket) && forall k :: k in keys ==> k in bucket
    requires forall i, j :: 0 <= i < j < |keys| ==> keys[i] != keys[j]
    ensures Lists(Picked(bucket, keys), Restricted(bucket, SetOf(keys)))
  {
    if keys == [] {
      assert Restricted(bucket, SetOf(keys)) == map[];
    } else {
      var n := |keys| - 1;
      PickedLists(bucket, keys[..n]);
      ListsOneMore(Picked(bucket, keys[..n]), bucket, SetOf(keys[..n]), keys[n]);
      PickedGrows(bucket, keys);
    }
  }

  function SetOf(keys: seq<BufferKey>): set<BufferKey>
  {
    set k | k in keys
  }

  lemma PickedGrows(bucket: Bucket, keys: seq<BufferKey>)
    requires keys != [] && forall k :: k in keys ==> k in bucket
    ensures var n := |keys| - 1;
            && Picked(bucket, keys) == Picked(bucket, keys[..n]) + [bucket[keys[n]]]
            && SetOf(keys) == SetOf(keys[..n]) + {keys[n]}
  {
    assert keys == keys[..|keys| - 1] + [keys[|keys| - 1]];
  }

  /** The listings of a bucket are the permutations of its rows in order of arrival. */
  lemma ListingsArePermutations(history: seq<Row>, rows: seq<Row>)
    ensures Lists(rows, After(history)) <==> multiset(rows) == multiset(Arrived(history))
  {
    AfterFits(history);
    ArrivalsDistinct(history);
    PickedLists(After(history), Arrivals(history));
    assert Restricted(After(history), SetOf(Arrivals(history))) == After(history);
  }

  /** A row in the bucket has a clean bit exactly when some row appended under its key
      had it, and is otherwise the latest of them. */
  lemma {:induction false} BitsAddUp(history: seq<Row>, k: BufferKey, bit: nat)
    ensures k in After(history) ==>
              (bit in After(history)[k].clean <==>
               exists i :: 0 <= i < |history| && BufferKeyOf(history[i]) == k && bit in history[i].clean)
    ensures k !in After(history) ==> forall i :: 0 <= i < |history| ==> BufferKeyOf(history[i]) != k
  {
    if history != [] {
      var n := |history| - 1;
      BitsAddUp(history[..n], k, bit);
      assert forall i :: 0 <= i < n ==> history[i] == history[..n][i];
    }
  }

  lemma {:induction false} LatestWins(history: seq<Row>, k: BufferKey) returns (i: nat)
    requires k in After(history)
    ensures i < |history| && BufferKeyOf(history[i]) == k
    ensures forall j :: i < j < |history| ==> BufferKeyOf(history[j]) != k
    ensures After(history)[k] == history[i].(clean := After(history)[k].clean)
  {
    var n := |history| - 1;
    if BufferKeyOf(history[n]) == k {
      i := n;
    } else {
      i := LatestWins(history[..n], k);
      assert forall j :: 0 <= j < n ==> history[j] == history[..n][j];
    }
  }
}
