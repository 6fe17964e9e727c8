/** Lists of rows: keeping those that meet a condition, and replacing each by a list. */
module RowLists {
  import opened Expressions

  function Keep(p: Record -> bool, rows: seq<Record>): (kept: seq<Record>) {
    if rows == [] then [] else (if p(rows[0]) then [rows[0]] else []) + Keep(p, rows[1..])
  }

  function FlatMap(f: Record -> seq<Record>, rows: seq<Record>): seq<Record> {
    if rows == [] then [] else f(rows[0]) + FlatMap(f, rows[1..])
  }

  lemma {:induction false} KeepBoth(p: Record -> bool, q: Record -> bool, r: Record -> bool, rows: seq<Record>)
    requires forall row :: r(row) <==> p(row) && q(row)
    ensures Keep(q, Keep(p, rows)) == Keep(r, rows) == Keep(p, Keep(q, rows))
    decreases |rows|
  {
    if rows != [] {
      KeepBoth(p, q, r, rows[1..]);
      KeepFirst(q, rows[0], Keep(p, rows[1..]));
      KeepFirst(p, rows[0], Keep(q, rows[1..]));
      assert [] + Keep(p, rows[1..]) == Keep(p, rows[1..]) && [] + Keep(q, rows[1..]) == Keep(q, rows[1..]);
    }
  }

  lemma KeepFirst(p: Record -> bool, row: Record, rows: seq<Record>)
    ensures Keep(p, [row] + rows) == (if p(row) then [row] else []) + Keep(p, rows)
  {
    assert ([row] + rows)[1..] == rows;
  }

  lemma {:induction false} KeepConcat(p: Record -> bool, rows: seq<Record>, more: seq<Record>)
    ensures Keep(p, rows + more) == Keep(p, rows) + Keep(p, more)
    decreases |rows|
  {
    if rows == [] {
      assert rows + more == more;
    } else {
      assert (rows + more)[1..] == rows[1..] + more;
      KeepConcat(p, rows[1..], more);
    }
  }

  lemma {:induction false} KeepSame(p: Record -> bool, q: Record -> bool, rows: seq<Record>)
    requires forall row :: p(row) <==> q(row)
    ensures Keep(p, rows) == Keep(q, rows)
    decreases |rows|
  {
    if rows != [] { KeepSame(p, q, rows[1..]); }
  }

  lemma {:induction false} KeepEverything(p: Record -> bool, rows: seq<Record>)
    requires forall row :: p(row)
    ensures Keep(p, rows) == rows
    decreases |rows|
  {
    if rows != [] { KeepEverything(p, rows[1..]); }
  }

  lemma {:induction false} KeepMembers(p: Record -> bool, rows: seq<Record>, row: Record)
    ensures row in Keep(p, rows) <==> row in rows && p(row)
    decreases |rows|
  {
    if rows != [] { KeepMembers(p, rows[1..], row); }
  }

  /** Two conditions keep the same rows if and only if they agree on every row. */
  lemma {:induction false} KeepsSameRows(p: Record -> bool, q: Record -> bool, rows: seq<Record>)
    ensures Keep(p, rows) == Keep(q, rows) <==> forall i :: 0 <= i < |rows| ==> (p(rows[i]) <==> q(rows[i]))
    decreases |rows|
  {
    if Keep(p, rows) == Keep(q, rows) {
      forall i | 0 <= i < |rows|
        ensures p(rows[i]) <==> q(rows[i])
      {
        KeepMembers(p, rows, rows[i]);
        KeepMembers(q, rows, rows[i]);
      }
    }
    if rows != [] && forall i :: 0 <= i < |rows| ==> (p(rows[i]) <==> q(rows[i])) {
      assert p(rows[0]) <==> q(rows[0]);
      KeepsSameRows(p, q, rows[1..]);
      assert forall i :: 0 <= i < |rows| - 1 ==> rows[1..][i] == rows[i + 1];
    }
  }
}
