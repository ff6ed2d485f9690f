/**
 * Tables as sequences of rows in insertion order, and the primary-key
 * operations the store performs on them: the uniqueness constraint, lookup
 * by key (`session.get`) and deletion by key.
 */
module Keyed {
  import opened Outcomes
  import opened Ids

  /** The primary-key constraint: no two rows share a key. */
  predicate UniqueKeys<T(==,!new)>(rows: seq<T>, key: T -> Id) {
    forall i, j :: 0 <= i < j < |rows| ==> key(rows[i]) != key(rows[j])
  }

  predicate HasKey<T(==,!new)>(rows: seq<T>, key: T -> Id, id: Id) {
    exists x :: x in rows && key(x) == id
  }

  /** `session.get(Table, id)`: the row with that key, if any. */
  function Lookup<T(==,!new)>(rows: seq<T>, key: T -> Id, id: Id): (r: Option<T>)
    ensures r.Some? <==> HasKey(rows, key, id)
    ensures r.Some? ==> r.value in rows && key(r.value) == id
  {
    if rows == [] then None
    else if key(rows[0]) == id then Some(rows[0])
    else
      var r := Lookup(rows[1..], key, id);
      assert forall x :: x in rows ==> x == rows[0] || x in rows[1..];
      r
  }

  /** Every row except those with key `id`, in their old order. */
  function WithoutKey<T(==,!new)>(rows: seq<T>, key: T -> Id, id: Id): (r: seq<T>)
    ensures forall x :: x in r <==> x in rows && key(x) != id
  {
    if rows == [] then []
    else (if key(rows[0]) == id then [] else [rows[0]]) + WithoutKey(rows[1..], key, id)
  }

  lemma HasKeyAfterAppend<T(!new)>(rows: seq<T>, extra: seq<T>, key: T -> Id, id: Id)
    requires HasKey(rows, key, id)
    ensures HasKey(rows + extra, key, id)
  {
    var x :| x in rows && key(x) == id;
    assert x in rows + extra;
  }

  /** Appending a row whose key is not yet taken keeps the keys unique. */
  lemma AppendKeepsUnique<T(!new)>(rows: seq<T>, key: T -> Id, x: T)
    requires UniqueKeys(rows, key) && !HasKey(rows, key, key(x))
    ensures UniqueKeys(rows + [x], key)
  {
    forall i, j | 0 <= i < j < |rows + [x]|
      ensures key((rows + [x])[i]) != key((rows + [x])[j])
    {
      if j == |rows| {
        assert (rows + [x])[i] in rows;
      }
    }
  }

  lemma {:induction false} UniqueTail<T(!new)>(rows: seq<T>, key: T -> Id)
    requires rows != [] && UniqueKeys(rows, key)
    ensures UniqueKeys(rows[1..], key) && !HasKey(rows[1..], key, key(rows[0]))
  {
    forall x | x in rows[1..] ensures key(x) != key(rows[0]) {
      var k :| 0 <= k < |rows[1..]| && rows[1..][k] == x;
      assert x == rows[k + 1];
    }
  }

  /** Deleting by key keeps the remaining keys unique. */
  lemma {:induction false} WithoutKeyKeepsUnique<T(!new)>(rows: seq<T>, key: T -> Id, id: Id)
    requires UniqueKeys(rows, key)
    ensures UniqueKeys(WithoutKey(rows, key, id), key)
  {
    if rows != [] {
      UniqueTail(rows, key);
      WithoutKeyKeepsUnique(rows[1..], key, id);
      var rest := WithoutKey(rows[1..], key, id);
      if key(rows[0]) != id {
        assert WithoutKey(rows, key, id) == [rows[0]] + rest;
        assert !HasKey(rest, key, key(rows[0]));
        forall i, j | 0 <= i < j < |[rows[0]] + rest|
          ensures key(([rows[0]] + rest)[i]) != key(([rows[0]] + rest)[j])
        {
          if i == 0 {
            assert ([rows[0]] + rest)[j] in rest;
          } else {
            assert ([rows[0]] + rest)[i] == rest[i - 1] && ([rows[0]] + rest)[j] == rest[j - 1];
          }
        }
      } else {
        assert WithoutKey(rows, key, id) == rest;
      }
    }
  }

  /** Deleting a key no row has changes nothing. */
  lemma {:induction false} WithoutAbsentKey<T(!new)>(rows: seq<T>, key: T -> Id, id: Id)
    requires !HasKey(rows, key, id)
    ensures WithoutKey(rows, key, id) == rows
  {
    if rows != [] {
      assert !HasKey(rows[1..], key, id) by {
        forall x | x in rows[1..] ensures key(x) != id {
          assert x in rows;
        }
      }
      WithoutAbsentKey(rows[1..], key, id);
      assert rows == [rows[0]] + rows[1..];
    }
  }

  /**
   * With unique keys, deleting a present key removes exactly one row, the one
   * `Lookup` finds, and keeps every other row.
   */
  lemma {:induction false} WithoutKeyRemovesOne<T(!new)>(rows: seq<T>, key: T -> Id, id: Id)
    requires UniqueKeys(rows, key) && HasKey(rows, key, id)
    ensures multiset(rows) == multiset(WithoutKey(rows, key, id)) + multiset{Lookup(rows, key, id).value}
    ensures |WithoutKey(rows, key, id)| == |rows| - 1
  {
    UniqueTail(rows, key);
    assert rows == [rows[0]] + rows[1..];
    if key(rows[0]) == id {
      WithoutAbsentKey(rows[1..], key, id);
    } else {
      assert HasKey(rows[1..], key, id) by {
        var x :| x in rows && key(x) == id;
        assert x in rows[1..];
      }
      WithoutKeyRemovesOne(rows[1..], key, id);
      assert WithoutKey(rows, key, id) == [rows[0]] + WithoutKey(rows[1..], key, id);
    }
  }

  /** With unique keys, `Lookup` finds the one row holding the key. */
  lemma {:induction false} LookupFindsTheRow<T(!new)>(rows: seq<T>, key: T -> Id, x: T)
    requires UniqueKeys(rows, key) && x in rows
    ensures Lookup(rows, key, key(x)) == Some(x)
  {
    if rows[0] != x {
      UniqueTail(rows, key);
      assert x in rows[1..];
      LookupFindsTheRow(rows[1..], key, x);
    }
  }
}
