/** JSON documents at the value level. An object keeps its members in document order and
    may repeat a key, because a streaming deserialiser sees every member, duplicates included.
    Numbers are integers; fractional numbers are not modelled. */
module Json {

  datatype Json =
    | JNull
    | JBool(b: bool)
    | JNum(n: int)
    | JStr(s: string)
    | JArr(items: seq<Json>)
    | JObj(members: seq<(string, Json)>)

  /** The values stored under `key`, in document order. */
  function Occurrences(ms: seq<(string, Json)>, key: string): (r: seq<Json>)
    ensures |r| <= |ms|
    ensures forall v :: v in r ==> (key, v) in ms
    ensures |r| == 0 <==> forall i :: 0 <= i < |ms| ==> ms[i].0 != key
  {
    if ms == [] then []
    else if ms[0].0 == key then [ms[0].1] + Occurrences(ms[1..], key)
    else Occurrences(ms[1..], key)
  }

  /** The members whose key is in `keys`, in document order. */
  function Keep(ms: seq<(string, Json)>, keys: set<string>): (r: seq<(string, Json)>)
    ensures |r| <= |ms|
    ensures forall m :: m in r <==> m in ms && m.0 in keys
  {
    if ms == [] then []
    else if ms[0].0 in keys then [ms[0]] + Keep(ms[1..], keys)
    else Keep(ms[1..], keys)
  }

  lemma {:induction false} OccurrencesAppend(a: seq<(string, Json)>, b: seq<(string, Json)>, key: string)
    ensures Occurrences(a + b, key) == Occurrences(a, key) + Occurrences(b, key)
    decreases |a|
  {
    if a == [] {
      assert a + b == b;
    } else {
      assert (a + b)[1..] == a[1..] + b;
      OccurrencesAppend(a[1..], b, key);
    }
  }

  /** Members under other keys do not change what is found under `key`. */
  lemma {:induction false} OccurrencesKeep(ms: seq<(string, Json)>, keys: set<string>, key: string)
    requires key in keys
    ensures Occurrences(Keep(ms, keys), key) == Occurrences(ms, key)
    decreases |ms|
  {
    if ms != [] {
      OccurrencesKeep(ms[1..], keys, key);
      if ms[0].0 in keys {
        assert Keep(ms, keys) == [ms[0]] + Keep(ms[1..], keys);
        assert ([ms[0]] + Keep(ms[1..], keys))[1..] == Keep(ms[1..], keys);
      }
    }
  }

  /** A key that occurs at exactly one position is found exactly there. */
  lemma {:induction false} OccurrencesUnique(ms: seq<(string, Json)>, i: nat)
    requires i < |ms|
    requires forall j :: 0 <= j < |ms| && j != i ==> ms[j].0 != ms[i].0
    ensures Occurrences(ms, ms[i].0) == [ms[i].1]
    decreases i
  {
    var key := ms[i].0;
    var rest := ms[1..];
    if i == 0 {
      forall j | 0 <= j < |rest| ensures rest[j].0 != key {
        assert rest[j] == ms[j + 1];
      }
      assert Occurrences(rest, key) == [];
    } else {
      assert rest[i - 1] == ms[i];
      forall j | 0 <= j < |rest| && j != i - 1 ensures rest[j].0 != rest[i - 1].0 {
        assert rest[j] == ms[j + 1];
      }
      OccurrencesUnique(rest, i - 1);
      assert ms[0].0 != key;
    }
  }
}
