/**
 * A database table as the repositories see it: the rows in insertion order,
 * each identified by a unique key. `FindBy` is the `findUnique` lookup on a
 * unique column, `Put` writes a changed row back in place.
 */
module Tables {
  import opened Common

  /** No two rows share a key. */
  ghost predicate Unique<R>(rows: seq<R>, key: R -> string) {
    forall i, j :: 0 <= i < j < |rows| ==> key(rows[i]) != key(rows[j])
  }

  /** Some row has key `k`. */
  ghost predicate Has<R>(rows: seq<R>, key: R -> string, k: string) {
    exists i :: 0 <= i < |rows| && key(rows[i]) == k
  }

  /** `findUnique({ where: { <key>: k } })` */
  function FindBy<R>(rows: seq<R>, key: R -> string, k: string): (r: Option<R>)
    ensures r.None? <==> !Has(rows, key, k)
    ensures r.Some? ==> key(r.value) == k && exists i :: 0 <= i < |rows| && rows[i] == r.value
  {
    if rows == [] then None
    else if key(rows[0]) == k then Some(rows[0])
    else
      var r := FindBy(rows[1..], key, k);
      assert r.Some? ==> exists i :: 0 <= i < |rows[1..]| && rows[1..][i] == r.value;
      assert forall i :: 0 <= i < |rows[1..]| ==> rows[1..][i] == rows[i + 1];
      r
  }

  /** In a table with unique keys, the lookup of a row's key finds that row. */
  lemma {:induction false} FindByFindsRow<R>(rows: seq<R>, key: R -> string, i: int)
    requires Unique(rows, key) && 0 <= i < |rows|
    ensures FindBy(rows, key, key(rows[i])) == Some(rows[i])
  {
    if i > 0 {
      assert key(rows[0]) != key(rows[i]);
      assert rows[1..][i - 1] == rows[i];
      FindByFindsRow(rows[1..], key, i - 1);
    }
  }

  /** The table with every row whose key is `key(row)` replaced by `row`. */
  function Put<R>(rows: seq<R>, key: R -> string, row: R): (r: seq<R>)
    ensures |r| == |rows|
    ensures forall i :: 0 <= i < |rows| ==> r[i] == if key(rows[i]) == key(row) then row else rows[i]
  {
    seq(|rows|, i requires 0 <= i < |rows| => if key(rows[i]) == key(row) then row else rows[i])
  }

  /** Replacing a row keeps the keys unique, stores the new row and leaves every other key's row alone. */
  lemma PutFacts<R>(rows: seq<R>, key: R -> string, row: R, k: string)
    requires Unique(rows, key) && Has(rows, key, key(row))
    ensures Unique(Put(rows, key, row), key)
    ensures FindBy(Put(rows, key, row), key, key(row)) == Some(row)
    ensures k != key(row) ==> FindBy(Put(rows, key, row), key, k) == FindBy(rows, key, k)
  {
    var r := Put(rows, key, row);
    assert forall i :: 0 <= i < |rows| ==> key(r[i]) == key(rows[i]);
    var j :| 0 <= j < |rows| && key(rows[j]) == key(row);
    FindByFindsRow(r, key, j);
    if k != key(row) {
      if Has(rows, key, k) {
        var m :| 0 <= m < |rows| && key(rows[m]) == k;
        FindByFindsRow(rows, key, m);
        FindByFindsRow(r, key, m);
      } else {
        assert !Has(r, key, k);
      }
    }
  }

  /** Appending a row with a fresh key keeps the keys unique and makes the row findable. */
  lemma AppendFacts<R>(rows: seq<R>, key: R -> string, row: R, k: string)
    requires Unique(rows, key) && !Has(rows, key, key(row))
    ensures Unique(rows + [row], key)
    ensures FindBy(rows + [row], key, key(row)) == Some(row)
    ensures k != key(row) ==> FindBy(rows + [row], key, k) == FindBy(rows, key, k)
  {
    var r := rows + [row];
    assert forall i :: 0 <= i < |rows| ==> r[i] == rows[i];
    assert Unique(r, key);
    FindByFindsRow(r, key, |rows|);
    if k != key(row) {
      if Has(rows, key, k) {
        var m :| 0 <= m < |rows| && key(rows[m]) == k;
        FindByFindsRow(rows, key, m);
        FindByFindsRow(r, key, m);
      } else {
        assert !Has(r, key, k);
      }
    }
  }
}
