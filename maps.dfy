/** Building a map by inserting entries one after another, with the insert
    semantics of Rust's `HashMap::insert` and `serde_json::Map::insert`: a
    key inserted again keeps its latest value. Both the query-string
    `collect` and the user-agent profile map are built this way. */
module Maps {

  /** The map obtained from `m` by inserting `entries` front to back. */
  function InsertAll<K, V>(m: map<K, V>, entries: seq<(K, V)>): map<K, V>
    decreases |entries|
  {
    if entries == [] then m
    else InsertAll(m[entries[0].0 := entries[0].1], entries[1..])
  }

  /** Inserting `a` and then `b` is inserting `a + b`. */
  lemma {:induction false} InsertAllAppend<K, V>(m: map<K, V>, a: seq<(K, V)>, b: seq<(K, V)>)
    ensures InsertAll(m, a + b) == InsertAll(InsertAll(m, a), b)
    decreases |a|
  {
    if a == [] {
      assert a + b == b;
    } else {
      assert (a + b)[0] == a[0];
      assert (a + b)[1..] == a[1..] + b;
      InsertAllAppend(m[a[0].0 := a[0].1], a[1..], b);
    }
  }

  /** A key is present afterwards exactly when it was present before or some
      entry inserts it. */
  lemma {:induction false} InsertAllHas<K, V>(m: map<K, V>, entries: seq<(K, V)>, k: K)
    ensures k in InsertAll(m, entries) <==>
            k in m || exists i :: 0 <= i < |entries| && entries[i].0 == k
    decreases |entries|
  {
    if entries != [] {
      var rest := entries[1..];
      InsertAllHas(m[entries[0].0 := entries[0].1], rest, k);
      if exists i :: 0 <= i < |rest| && rest[i].0 == k {
        var i :| 0 <= i < |rest| && rest[i].0 == k;
        assert entries[i + 1].0 == k;
      }
      if exists i :: 0 <= i < |entries| && entries[i].0 == k {
        var i :| 0 <= i < |entries| && entries[i].0 == k;
        if i > 0 {
          assert rest[i - 1].0 == k;
        }
      }
    }
  }

  /** A key that no entry inserts keeps whatever it had (or lacked) before. */
  lemma {:induction false} InsertAllUntouched<K, V>(m: map<K, V>, entries: seq<(K, V)>, k: K)
    requires forall i :: 0 <= i < |entries| ==> entries[i].0 != k
    ensures k in InsertAll(m, entries) <==> k in m
    ensures k in m ==> InsertAll(m, entries)[k] == m[k]
    decreases |entries|
  {
    if entries != [] {
      assert entries[0].0 != k;
      var rest := entries[1..];
      assert forall i :: 0 <= i < |rest| ==> rest[i] == entries[i + 1];
      InsertAllUntouched(m[entries[0].0 := entries[0].1], rest, k);
    }
  }

  /** The value of a key is the one of its last insert. */
  lemma {:induction false} InsertAllLastWins<K, V>(m: map<K, V>, entries: seq<(K, V)>, j: nat)
    requires j < |entries|
    requires forall i :: j < i < |entries| ==> entries[i].0 != entries[j].0
    ensures entries[j].0 in InsertAll(m, entries)
    ensures InsertAll(m, entries)[entries[j].0] == entries[j].1
    decreases |entries|
  {
    var rest := entries[1..];
    var m' := m[entries[0].0 := entries[0].1];
    assert forall i :: 0 <= i < |rest| ==> rest[i] == entries[i + 1];
    if j == 0 {
      InsertAllUntouched(m', rest, entries[0].0);
    } else {
      InsertAllLastWins(m', rest, j - 1);
    }
  }

  /** No two entries insert the same key. */
  ghost predicate DistinctKeys<K, V>(entries: seq<(K, V)>) {
    forall i, j :: 0 <= i < j < |entries| ==> entries[i].0 != entries[j].0
  }

  /** Inserting entries with distinct keys that are new to `m` adds one key
      per entry. */
  lemma {:induction false} InsertAllSize<K, V>(m: map<K, V>, entries: seq<(K, V)>)
    requires DistinctKeys(entries)
    requires forall i :: 0 <= i < |entries| ==> entries[i].0 !in m
    ensures |InsertAll(m, entries)| == |m| + |entries|
    decreases |entries|
  {
    if entries != [] {
      var rest := entries[1..];
      var m' := m[entries[0].0 := entries[0].1];
      assert forall i :: 0 <= i < |rest| ==> rest[i] == entries[i + 1];
      forall i | 0 <= i < |rest|
        ensures rest[i].0 !in m'
      {
        assert entries[0].0 != entries[i + 1].0;
      }
      InsertAllSize(m', rest);
    }
  }

  /** With distinct keys new to `m`, no insert meets a key already present,
      so none of them overwrites another. */
  lemma InsertAllNoOverwrite<K, V>(m: map<K, V>, entries: seq<(K, V)>, i: nat)
    requires DistinctKeys(entries)
    requires forall j :: 0 <= j < |entries| ==> entries[j].0 !in m
    requires i < |entries|
    ensures entries[i].0 !in InsertAll(m, entries[..i])
  {
    var done := entries[..i];
    assert forall j :: 0 <= j < |done| ==> done[j] == entries[j];
    InsertAllHas(m, done, entries[i].0);
  }
}
