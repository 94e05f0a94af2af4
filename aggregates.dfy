/** The rows of a GROUP BY aggregate query, as the statistics code receives
    them: one identifier (a livestream ID or a user ID) and one value (a tip
    total or a reaction count) per row. */
module Aggregates {
  import opened Sums

  datatype Row = Row(id: int, value: int)

  /** What one row adds to the total of `id`. */
  function Contribution(id: int): Row -> int
  {
    (r: Row) => if r.id == id then r.value else 0
  }

  /** The sum of the values of all rows that carry `id`: what adding every
      row to a score map in turn leaves for `id`. */
  function SumFor(rows: seq<Row>, id: int): int
  {
    Sum(rows, Contribution(id))
  }

  /** The value of the last row that carries `id`, or 0 when no row does: what
      assigning every row into a map in turn leaves for `id`. */
  function ValueFor(rows: seq<Row>, id: int): int
  {
    if rows == [] then 0
    else if rows[|rows| - 1].id == id then rows[|rows| - 1].value
    else ValueFor(rows[..|rows| - 1], id)
  }

  predicate HasId(rows: seq<Row>, id: int)
  {
    exists i :: 0 <= i < |rows| && rows[i].id == id
  }

  /** What GROUP BY guarantees: no identifier occurs in two rows. */
  predicate UniqueIds(rows: seq<Row>)
  {
    forall i, j :: 0 <= i < j < |rows| ==> rows[i].id != rows[j].id
  }

  lemma SumForAbsent(rows: seq<Row>, id: int)
    requires !HasId(rows, id)
    ensures SumFor(rows, id) == 0
  {
    SumZero(rows, Contribution(id));
  }

  /** With unique identifiers, the sum for an identifier is its one row's value. */
  lemma SumForUnique(rows: seq<Row>, i: nat)
    requires UniqueIds(rows) && i < |rows|
    ensures SumFor(rows, rows[i].id) == rows[i].value
  {
    var id := rows[i].id;
    var rest := rows[..i] + rows[i + 1..];
    forall k | 0 <= k < |rest| ensures Contribution(id)(rest[k]) == 0 {
      if k < i { assert rest[k] == rows[k]; } else { assert rest[k] == rows[k + 1]; }
    }
    SumZero(rest, Contribution(id));
    SumRemove(rows, i, Contribution(id));
  }

  /** Adding rows up does not depend on the order in which they arrive. */
  lemma SumForPermutation(rows: seq<Row>, others: seq<Row>, id: int)
    requires multiset(rows) == multiset(others)
    ensures SumFor(rows, id) == SumFor(others, id)
  {
    SumPermutation(rows, others, Contribution(id));
  }

  lemma {:induction false} ValueForAbsent(rows: seq<Row>, id: int)
    requires !HasId(rows, id)
    ensures ValueFor(rows, id) == 0
    decreases |rows|
  {
    if rows != [] {
      var init := rows[..|rows| - 1];
      ValueForAbsent(init, id);
    }
  }

  /** The value of a row that no later row overrides is the one that stays. */
  lemma {:induction false} ValueForLast(rows: seq<Row>, i: nat)
    requires i < |rows|
    requires forall j :: i < j < |rows| ==> rows[j].id != rows[i].id
    ensures ValueFor(rows, rows[i].id) == rows[i].value
    decreases |rows|
  {
    if i < |rows| - 1 {
      var init := rows[..|rows| - 1];
      assert init[i] == rows[i];
      ValueForLast(init, i);
    }
  }

  /** With unique identifiers, assigning rows and adding them up agree. */
  lemma ValueForIsSumFor(rows: seq<Row>, id: int)
    requires UniqueIds(rows)
    ensures ValueFor(rows, id) == SumFor(rows, id)
  {
    if HasId(rows, id) {
      var i :| 0 <= i < |rows| && rows[i].id == id;
      ValueForLast(rows, i);
      SumForUnique(rows, i);
    } else {
      ValueForAbsent(rows, id);
      SumForAbsent(rows, id);
    }
  }
}
