/** Sums over the rows of a table. */
module Totals {
  import opened Common
  import opened Deployments
  import opened Tables

  /** The sum of f over the rows with id below n. */
  ghost function Total(rows: Table, n: nat, f: Row -> nat): nat {
    if n == 0 then 0 else Total(rows, n - 1, f) + Weight(rows, n - 1, f)
  }

  ghost function Weight(rows: Table, id: Id, f: Row -> nat): nat {
    if id in rows then f(rows[id]) else 0
  }

  /** Writing one row changes the sum by that row. */
  lemma {:induction false} TotalWritten(rows: Table, n: nat, f: Row -> nat, id: Id, r: Row)
    ensures Total(rows[id := r], n, f) + (if id < n then Weight(rows, id, f) else 0)
         == Total(rows, n, f) + (if id < n then f(r) else 0)
  {
    if n > 0 {
      TotalWritten(rows, n - 1, f, id, r);
    }
  }

  /** A bound that holds row by row holds for the sums. */
  lemma {:induction false} TotalBounded(rows: Table, rows': Table, n: nat, f: Row -> nat, g: Row -> nat, h: Row -> nat)
    requires rows'.Keys == rows.Keys
    requires forall i :: i in rows ==> f(rows'[i]) + g(rows[i]) <= h(rows[i])
    ensures Total(rows', n, f) + Total(rows, n, g) <= Total(rows, n, h)
  {
    if n > 0 {
      TotalBounded(rows, rows', n - 1, f, g, h);
    }
  }

  /** Row by row equal, equal in total. */
  lemma {:induction false} TotalEqual(rows: Table, rows': Table, n: nat, f: Row -> nat)
    requires rows'.Keys == rows.Keys
    requires forall i :: i in rows ==> f(rows'[i]) == f(rows[i])
    ensures Total(rows', n, f) == Total(rows, n, f)
  {
    if n > 0 {
      TotalEqual(rows, rows', n - 1, f);
    }
  }
}
