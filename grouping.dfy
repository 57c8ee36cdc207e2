/**
 * Grouped counts: `groupBy({ by: [key], _count: { _all: true } })` returns
 * one row per key value present with the number of rows holding it, and the
 * services fold such rows into a record that starts with 0 for every value
 * of the enum and is overwritten by each grouped row.
 */
module Grouping {
  import opened Common

  /** How many of the rows hold the key `k`. */
  function Occurrences<K(==)>(keys: seq<K>, k: K): (n: nat)
    ensures n <= |keys|
    decreases |keys|
  {
    if keys == [] then 0
    else Occurrences(keys[..|keys| - 1], k) + (if keys[|keys| - 1] == k then 1 else 0)
  }

  /** A key occurs exactly when it is among the rows' keys. */
  lemma {:induction false} OccurrencesPositive<K>(keys: seq<K>, k: K)
    ensures Occurrences(keys, k) > 0 <==> k in keys
    decreases |keys|
  {
    if keys != [] {
      var init := keys[..|keys| - 1];
      OccurrencesPositive(init, k);
      assert keys == init + [keys[|keys| - 1]];
    }
  }

  /** The distinct keys, in order of first appearance. */
  function Distinct<K(==)>(keys: seq<K>): (d: seq<K>)
    ensures forall i, j :: 0 <= i < j < |d| ==> d[i] != d[j]
    ensures forall i :: 0 <= i < |d| ==> d[i] in keys
    ensures forall i :: 0 <= i < |keys| ==> keys[i] in d
    decreases |keys|
  {
    if keys == [] then []
    else
      var init := keys[..|keys| - 1];
      var last := keys[|keys| - 1];
      assert keys == init + [last];
      var earlier := Distinct(init);
      if last in earlier then earlier else earlier + [last]
  }

  /**
   * The grouped rows: one per distinct key, with its number of occurrences.
   * The database returns the groups in an unspecified order; here they come
   * in order of first appearance.
   */
  function GroupCount<K(==)>(keys: seq<K>): (rows: seq<(K, nat)>)
    ensures |rows| == |Distinct(keys)|
    ensures forall i :: 0 <= i < |rows| ==> rows[i].0 == Distinct(keys)[i] && rows[i].1 == Occurrences(keys, rows[i].0)
  {
    var d := Distinct(keys);
    seq(|d|, i requires 0 <= i < |d| => (d[i], Occurrences(keys, d[i])))
  }

  /** Folding the grouped rows gives every key its number of occurrences, and 0 to a key absent from the rows. */
  lemma GroupCountFolds<K>(keys: seq<K>, k: K)
    ensures LastCount(GroupCount(keys), k) == Occurrences(keys, k)
  {
    var rows := GroupCount(keys);
    OccurrencesPositive(keys, k);
    if k in keys {
      var i :| 0 <= i < |Distinct(keys)| && Distinct(keys)[i] == k;
      LastCountOfUniqueKey(rows, i);
    } else {
      forall i | 0 <= i < |rows|
        ensures rows[i].0 != k
      {
        assert rows[i].0 in Distinct(keys);
      }
    }
  }

  /** The keys the record ends up with: every enum value, and every key of a grouped row. */
  function KeysOf<K>(values: seq<K>, rows: seq<(K, nat)>): set<K>
  {
    (set v | v in values) + (set r | r in rows :: r.0)
  }

  /** The record after the `reduce` that sets every enum value to 0 and the `forEach` over the grouped rows. */
  function Distribution<K(==)>(values: seq<K>, rows: seq<(K, nat)>): map<K, nat>
  {
    map k | k in KeysOf(values, rows) :: LastCount(rows, k)
  }

  /** An enum value without a grouped row keeps its 0. */
  lemma DistributionDefaultsToZero<K>(values: seq<K>, rows: seq<(K, nat)>, k: K)
    requires k in values && forall i :: 0 <= i < |rows| ==> rows[i].0 != k
    ensures k in Distribution(values, rows) && Distribution(values, rows)[k] == 0
  {
  }

  /**
   * With the rows grouped from the data and the data's keys all enum values,
   * the record holds exactly the enum values, each with its number of rows.
   */
  lemma {:induction false} DistributionCountsRows<K>(values: seq<K>, keys: seq<K>)
    requires forall i :: 0 <= i < |keys| ==> keys[i] in values
    ensures Distribution(values, GroupCount(keys)).Keys == set v | v in values
    ensures forall v :: v in values ==> Distribution(values, GroupCount(keys))[v] == Occurrences(keys, v)
  {
    var rows := GroupCount(keys);
    forall r | r in rows
      ensures r.0 in values
    {
      var i :| 0 <= i < |rows| && rows[i] == r;
      assert r.0 in Distinct(keys);
    }
    forall v | v in values
      ensures LastCount(rows, v) == Occurrences(keys, v)
    {
      GroupCountFolds(keys, v);
    }
  }

  /** The `reduce` that starts every enum value at 0, then the `forEach` that copies each grouped row's count. */
  method FillDistribution<K(==)>(values: seq<K>, rows: seq<(K, nat)>) returns (m: map<K, nat>)
    ensures m == Distribution(values, rows)
  {
    m := map[];
    for i := 0 to |values|
      invariant m.Keys == set v | v in values[..i]
      invariant forall k :: k in m ==> m[k] == 0
    {
      assert values[..i + 1] == values[..i] + [values[i]];
      m := m[values[i] := 0];
    }
    assert values[..|values|] == values;
    for j := 0 to |rows|
      invariant m.Keys == KeysOf(values, rows[..j])
      invariant forall k :: k in m ==> m[k] == LastCount(rows[..j], k)
    {
      assert rows[..j + 1][..j] == rows[..j];
      assert rows[..j + 1] == rows[..j] + [rows[j]];
      m := m[rows[j].0 := rows[j].1];
    }
    assert rows[..|rows|] == rows;
  }
}
