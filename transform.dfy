/** Record transformation before load (src/services/dataTransformer.ts): every key that
    starts with a digit is renamed with a `field_` prefix, so that it is a usable column
    identifier, and every record is stamped with `fetched_at`. */
module DataTransformer {
  import opened Wrappers
  import opened Text
  import opened Records

  const FieldPrefix: string := "field_"
  const FetchedAt: string := "fetched_at"

  /** The column name a record key is stored under. */
  function ColumnName(key: string): (name: string)
    ensures !StartsWithDigit(name)
    ensures StartsWithDigit(key) ==> name == FieldPrefix + key
    ensures !StartsWithDigit(key) ==> name == key
  {
    if StartsWithDigit(key) then FieldPrefix + key else key
  }

  /** The object `updatedItem` once the `forEach` over the first `|entries|` entries is done. */
  function Renamed(entries: seq<Field>): Record
    decreases |entries|
  {
    if entries == [] then []
    else
      var last := entries[|entries| - 1];
      Put(Renamed(entries[..|entries| - 1]), ColumnName(last.key), last.value)
  }

  /** Reference definition of what ends up under column `c`: the value of the last entry
      (in enumeration order) whose key maps to `c`, if any. */
  function LastMappedTo(entries: seq<Field>, c: string): Option<Value>
    decreases |entries|
  {
    if entries == [] then None
    else if ColumnName(entries[|entries| - 1].key) == c then Some(entries[|entries| - 1].value)
    else LastMappedTo(entries[..|entries| - 1], c)
  }

  /** One transformed record: the renamed entries followed by `fetched_at`. */
  function TransformRecord(item: Record, stamp: string): Record
  {
    Put(Renamed(item), FetchedAt, Str(stamp))
  }

  /** `transformData(data)`, with the clock reading passed in as `stamp`. */
  function TransformData(data: seq<Record>, stamp: string): (out: seq<Record>)
    ensures |out| == |data|
    ensures forall i :: 0 <= i < |data| ==> out[i] == TransformRecord(data[i], stamp)
  {
    seq(|data|, i requires 0 <= i < |data| => TransformRecord(data[i], stamp))
  }

  /** The `forEach` that fills `updatedItem`, followed by the `fetched_at` assignment. */
  method TransformItem(item: Record, stamp: string) returns (updated: Record)
    ensures updated == TransformRecord(item, stamp)
  {
    updated := [];
    for i := 0 to |item|
      invariant updated == Renamed(item[..i])
    {
      assert item[..i + 1][..i] == item[..i];
      updated := Put(updated, ColumnName(item[i].key), item[i].value);
    }
    assert item[..|item|] == item;
    updated := Put(updated, FetchedAt, Str(stamp));
  }

  /** The value under each output column is that of the last entry renamed to it
      (so of two colliding keys such as `1a` and `field_1a`, the later one wins),
      and a column is present exactly when some entry maps to it. */
  lemma {:induction false} RenamedGet(entries: seq<Field>, c: string)
    ensures Get(Renamed(entries), c) == LastMappedTo(entries, c)
    decreases |entries|
  {
    if entries != [] {
      RenamedGet(entries[..|entries| - 1], c);
    }
  }

  /** No column of a transformed record starts with a digit. */
  lemma {:induction false} RenamedKeys(entries: seq<Field>)
    ensures forall k :: k in Keys(Renamed(entries)) ==> !StartsWithDigit(k)
    decreases |entries|
  {
    if entries != [] {
      RenamedKeys(entries[..|entries| - 1]);
    }
  }

  lemma {:induction false} RenamedWellFormed(entries: seq<Field>)
    ensures WellFormed(Renamed(entries))
    decreases |entries|
  {
    if entries != [] {
      var last := entries[|entries| - 1];
      RenamedWellFormed(entries[..|entries| - 1]);
      PutWellFormed(Renamed(entries[..|entries| - 1]), ColumnName(last.key), last.value);
    }
  }

  /** What `transformData` promises of each record: no key starts with a digit, the keys
      are distinct, `fetched_at` holds the stamp, and every other column holds the value
      of the last input entry renamed to it. */
  lemma TransformRecordSpec(item: Record, stamp: string)
    ensures var out := TransformRecord(item, stamp);
      && WellFormed(out)
      && (forall k :: k in Keys(out) ==> !StartsWithDigit(k))
      && Get(out, FetchedAt) == Some(Str(stamp))
      && (forall c :: c != FetchedAt ==> Get(out, c) == LastMappedTo(item, c))
  {
    var out := TransformRecord(item, stamp);
    RenamedWellFormed(item);
    PutWellFormed(Renamed(item), FetchedAt, Str(stamp));
    RenamedKeys(item);
    forall c | c != FetchedAt ensures Get(out, c) == LastMappedTo(item, c) {
      RenamedGet(item, c);
    }
  }

  /** A key that maps to no other key of the record keeps its value under its column name;
      a key starting with a digit is found under `field_` followed by the key. */
  lemma RenamedValue(item: Record, i: nat)
    requires WellFormed(item) && i < |item|
    requires forall j :: 0 <= j < |item| && j != i ==> ColumnName(item[j].key) != ColumnName(item[i].key)
    ensures Get(Renamed(item), ColumnName(item[i].key)) == Some(item[i].value)
  {
    var c := ColumnName(item[i].key);
    RenamedGet(item, c);
    LastMappedToUnique(item, i);
  }

  lemma {:induction false} LastMappedToUnique(item: seq<Field>, i: nat)
    requires i < |item|
    requires forall j :: 0 <= j < |item| && j != i ==> ColumnName(item[j].key) != ColumnName(item[i].key)
    ensures LastMappedTo(item, ColumnName(item[i].key)) == Some(item[i].value)
    decreases |item|
  {
    if i != |item| - 1 {
      var front := item[..|item| - 1];
      forall j | 0 <= j < |front| && j != i
        ensures ColumnName(front[j].key) != ColumnName(front[i].key)
      {
        assert front[j] == item[j] && front[i] == item[i];
      }
      LastMappedToUnique(front, i);
    }
  }

  /** Assigning a key the record does not hold appends it. */
  lemma {:induction false} PutNew(r: Record, k: string, v: Value)
    requires forall i :: 0 <= i < |r| ==> r[i].key != k
    ensures Put(r, k, v) == r + [Field(k, v)]
    decreases |r|
  {
    if r != [] {
      PutNew(r[1..], k, v);
      PutCons(r, k, v);
      ConsAppend(r, Field(k, v));
    }
  }

  /** Assigning a key other than the first entry's leaves that entry in front. */
  lemma PutCons(r: Record, k: string, v: Value)
    requires r != [] && r[0].key != k
    ensures Put(r, k, v) == [r[0]] + Put(r[1..], k, v)
  {
  }

  lemma ConsAppend(r: Record, f: Field)
    requires r != []
    ensures [r[0]] + (r[1..] + [f]) == r + [f]
  {
    assert [r[0]] + r[1..] == r;
  }

  /** Dropping the last entry keeps a record well formed and free of digit keys, and the
      dropped key does not occur in what remains. */
  lemma DropLast(r: Record)
    requires r != [] && WellFormed(r)
    requires forall k :: k in Keys(r) ==> !StartsWithDigit(k)
    ensures var front := r[..|r| - 1];
      && WellFormed(front)
      && (forall k :: k in Keys(front) ==> !StartsWithDigit(k))
      && r[|r| - 1].key !in Keys(front)
      && !StartsWithDigit(r[|r| - 1].key)
  {
    var n := |r| - 1;
    var front := r[..n];
    assert Keys(front) == Keys(r)[..n];
    assert Keys(r)[n] == r[n].key;
  }

  /** A record whose keys are distinct and never start with a digit passes through the
      renaming unchanged. */
  lemma {:induction false} RenamedIdentity(r: Record)
    requires WellFormed(r)
    requires forall k :: k in Keys(r) ==> !StartsWithDigit(k)
    ensures Renamed(r) == r
    decreases |r|
  {
    if r != [] {
      var n := |r| - 1;
      var front, last := r[..n], r[n];
      assert r == front + [last];
      DropLast(r);
      RenamedIdentity(front);
      IdentityStep(front, last);
    }
  }

  /** Renaming one more entry, with a fresh key that needs no renaming, appends it. */
  lemma IdentityStep(front: Record, last: Field)
    requires Renamed(front) == front
    requires last.key !in Keys(front) && !StartsWithDigit(last.key)
    ensures Renamed(front + [last]) == front + [last]
  {
    assert (front + [last])[..|front|] == front;
    assert (front + [last])[|front|] == last;
    assert forall i :: 0 <= i < |front| ==> front[i].key == Keys(front)[i];
    PutNew(front, last.key, last.value);
  }

  /** Transforming a transformed record again changes nothing but the stamp. */
  lemma TransformIdempotent(item: Record, stamp1: string, stamp2: string)
    ensures TransformRecord(TransformRecord(item, stamp1), stamp2) == TransformRecord(item, stamp2)
  {
    var once := TransformRecord(item, stamp1);
    TransformRecordSpec(item, stamp1);
    RenamedIdentity(once);
    PutPut(Renamed(item), FetchedAt, Str(stamp1), Str(stamp2));
  }
}

/** The older transformer (src/transformData.ts): `{...item, fetched_at: stamp}`. */
module LegacyTransform {
  import opened Wrappers
  import opened Records

  const FetchedAt: string := "fetched_at"

  /** One record spread into a new object with `fetched_at` set last. */
  function SpreadRecord(item: Record, stamp: string): (out: Record)
    ensures Keys(out) == if FetchedAt in Keys(item) then Keys(item) else Keys(item) + [FetchedAt]
    ensures Get(out, FetchedAt) == Some(Str(stamp))
    ensures forall k :: k != FetchedAt ==> Get(out, k) == Get(item, k)
  {
    Put(item, FetchedAt, Str(stamp))
  }

  /** `transformData(data)` of the older revision, with the clock reading passed in. */
  function TransformData(data: seq<Record>, stamp: string): (out: seq<Record>)
    ensures |out| == |data|
    ensures forall i :: 0 <= i < |data| ==> out[i] == SpreadRecord(data[i], stamp)
  {
    seq(|data|, i requires 0 <= i < |data| => SpreadRecord(data[i], stamp))
  }

  /** Applying the older transformer twice is applying it once with the later stamp. */
  lemma TransformTwice(data: seq<Record>, stamp1: string, stamp2: string)
    ensures TransformData(TransformData(data, stamp1), stamp2) == TransformData(data, stamp2)
  {
    forall i | 0 <= i < |data|
      ensures SpreadRecord(SpreadRecord(data[i], stamp1), stamp2) == SpreadRecord(data[i], stamp2)
    {
      PutPut(data[i], FetchedAt, Str(stamp1), Str(stamp2));
    }
  }
}
