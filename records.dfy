/** The JSON records the upstream report API returns, as ordered key/value lists.

    A JavaScript object enumerates its string keys in insertion order, except keys that look
    like array indices ("1", "42"), which come first in numeric order; assigning to a key
    that is already present keeps its position and replaces its value, and assigning to a
    new key appends it. A record here is the insertion-order enumeration, so `Object.keys`,
    `Object.values` and `obj[key] = value` have their JavaScript meaning for every key
    that is not an array index. After the renaming of the transformer no key starts with
    a digit (`field_` is put in front of digit-led keys), so the exception does not touch
    the records that reach a table. */
module Records {
  import opened Wrappers

  /** A JSON scalar as the API delivers it: `string | number | boolean | null`. Numbers are
      integers; see `Num`'s use in the CSV file for the range in which they match the
      source's doubles. */
  datatype Value = Null | Str(s: string) | Num(n: int) | Bool(b: bool)

  datatype Field = Field(key: string, value: Value)

  type Record = seq<Field>

  /** `Object.keys(r)`. */
  function Keys(r: Record): (ks: seq<string>)
    ensures |ks| == |r|
    ensures forall i :: 0 <= i < |r| ==> ks[i] == r[i].key
  {
    seq(|r|, i requires 0 <= i < |r| => r[i].key)
  }

  /** `Object.values(r)`. */
  function Values(r: Record): (vs: seq<Value>)
    ensures |vs| == |r|
    ensures forall i :: 0 <= i < |r| ==> vs[i] == r[i].value
  {
    seq(|r|, i requires 0 <= i < |r| => r[i].value)
  }

  /** A JavaScript object never holds the same key twice. */
  predicate WellFormed(r: Record)
  {
    forall i, j :: 0 <= i < j < |r| ==> r[i].key != r[j].key
  }

  /** No key occurs twice. */
  predicate Distinct(ks: seq<string>)
  {
    forall i, j :: 0 <= i < j < |ks| ==> ks[i] != ks[j]
  }

  /** A record is well formed exactly when its key list has no repeats. */
  lemma WellFormedKeys(r: Record)
    ensures WellFormed(r) <==> Distinct(Keys(r))
  {
    var ks := Keys(r);
    if Distinct(ks) {
      forall i, j | 0 <= i < j < |r| ensures r[i].key != r[j].key {
        assert ks[i] != ks[j];
      }
    }
  }

  /** `r[k]`: `None` stands for `undefined`. */
  function Get(r: Record, k: string): (g: Option<Value>)
    ensures g.Some? <==> k in Keys(r)
    ensures g.Some? ==> Field(k, g.value) in r
    decreases |r|
  {
    if r == [] then None
    else if r[0].key == k then Some(r[0].value)
    else
      assert Keys(r) == [r[0].key] + Keys(r[1..]);
      Get(r[1..], k)
  }

  /** `r[k] = v` on a copy of `r`. */
  function Put(r: Record, k: string, v: Value): (r': Record)
    ensures Keys(r') == if k in Keys(r) then Keys(r) else Keys(r) + [k]
    ensures Get(r', k) == Some(v)
    ensures forall j :: j != k ==> Get(r', j) == Get(r, j)
    decreases |r|
  {
    if r == [] then [Field(k, v)]
    else if r[0].key == k then
      KeysCons(Field(k, v), r[1..]);
      KeysCons(r[0], r[1..]);
      assert [r[0]] + r[1..] == r;
      [Field(k, v)] + r[1..]
    else
      var rest := Put(r[1..], k, v);
      KeysCons(r[0], r[1..]);
      KeysCons(r[0], rest);
      assert [r[0]] + r[1..] == r;
      [r[0]] + rest
  }

  lemma KeysCons(f: Field, r: Record)
    ensures Keys([f] + r) == [f.key] + Keys(r)
  {
  }

  /** Assignment keeps the keys of a record distinct. */
  lemma PutWellFormed(r: Record, k: string, v: Value)
    requires WellFormed(r)
    ensures WellFormed(Put(r, k, v))
  {
    var r' := Put(r, k, v);
    var ks, ks' := Keys(r), Keys(r');
    forall i, j | 0 <= i < j < |r'| ensures r'[i].key != r'[j].key {
      if j < |r| {
        assert ks'[i] == ks[i] && ks'[j] == ks[j];
      } else {
        assert ks'[j] == k && k !in ks && ks'[i] == ks[i];
      }
    }
  }

  /** In a well-formed record the value stored under a key is the one `Get` returns. */
  lemma GetAt(r: Record, i: nat)
    requires WellFormed(r) && i < |r|
    ensures Get(r, r[i].key) == Some(r[i].value)
  {
    var g := Get(r, r[i].key);
    var j :| 0 <= j < |r| && r[j] == Field(r[i].key, g.value);
  }

  /** A second assignment to the same key overrides the first. */
  lemma {:induction false} PutPut(r: Record, k: string, a: Value, b: Value)
    ensures Put(Put(r, k, a), k, b) == Put(r, k, b)
    decreases |r|
  {
    if r != [] && r[0].key != k {
      PutPut(r[1..], k, a, b);
    }
  }
}
