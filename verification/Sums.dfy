/** Sums of an integer measure over the rows of a table. */
module Sums {

  function Min(a: int, b: int): int { if a <= b then a else b }

  function Max(a: int, b: int): int { if a >= b then a else b }

  /** The value nearest to `x` that lies between `lo` and `hi`. */
  function Clamp(x: int, lo: int, hi: int): int { Max(lo, Min(x, hi)) }

  function Sum<T>(measure: T -> int, rows: seq<T>): int {
    if rows == [] then 0 else measure(rows[0]) + Sum(measure, rows[1..])
  }

  lemma {:induction false} SumConcat<T>(measure: T -> int, a: seq<T>, b: seq<T>)
    ensures Sum(measure, a + b) == Sum(measure, a) + Sum(measure, b)
  {
    if a == [] {
      assert a + b == b;
    } else {
      assert (a + b)[1..] == a[1..] + b;
      SumConcat(measure, a[1..], b);
    }
  }

  lemma {:induction false} SumAppend<T>(measure: T -> int, rows: seq<T>, row: T)
    ensures Sum(measure, rows + [row]) == Sum(measure, rows) + measure(row)
  {
    SumConcat(measure, rows, [row]);
  }

  lemma {:induction false} SumUpdate<T>(measure: T -> int, rows: seq<T>, k: nat, row: T)
    requires k < |rows|
    ensures Sum(measure, rows[k := row]) == Sum(measure, rows) - measure(rows[k]) + measure(row)
  {
    if k > 0 {
      assert rows[k := row][1..] == rows[1..][k - 1 := row];
      SumUpdate(measure, rows[1..], k - 1, row);
    } else {
      assert rows[k := row][1..] == rows[1..];
    }
  }

  lemma {:induction false} SumWithout<T>(measure: T -> int, rows: seq<T>, k: nat, row: T)
    requires k < |rows| && measure(row) == 0
    ensures Sum(measure, rows[k := row]) == Sum(measure, rows[..k] + rows[k + 1..])
  {
    var before, later := rows[..k], rows[k + 1..];
    assert rows[k := row] == before + ([row] + later);
    SumConcat(measure, before, [row] + later);
    SumConcat(measure, [row], later);
    SumConcat(measure, before, later);
  }

  /** Two tables whose rows measure alike have the same sum. */
  lemma {:induction false} SumAlike<T, U>(f: T -> int, a: seq<T>, g: U -> int, b: seq<U>)
    requires |a| == |b| && forall i :: 0 <= i < |a| ==> f(a[i]) == g(b[i])
    ensures Sum(f, a) == Sum(g, b)
  {
    if a != [] { SumAlike(f, a[1..], g, b[1..]); }
  }

  lemma {:induction false} SumDifference<T, U, V>(f: T -> int, a: seq<T>, g: U -> int, b: seq<U>, h: V -> int, c: seq<V>)
    requires |a| == |b| == |c| && forall i :: 0 <= i < |a| ==> f(a[i]) == g(b[i]) + h(c[i])
    ensures Sum(f, a) == Sum(g, b) + Sum(h, c)
  {
    if a != [] { SumDifference(f, a[1..], g, b[1..], h, c[1..]); }
  }

  lemma {:induction false} SumNonNegative<T>(measure: T -> int, rows: seq<T>)
    requires forall i :: 0 <= i < |rows| ==> measure(rows[i]) >= 0
    ensures Sum(measure, rows) >= 0
    ensures Sum(measure, rows) == 0 <==> forall i :: 0 <= i < |rows| ==> measure(rows[i]) == 0
  {
    if rows != [] {
      SumNonNegative(measure, rows[1..]);
      if Sum(measure, rows) == 0 {
        forall i | 0 <= i < |rows| ensures measure(rows[i]) == 0 {
          if i > 0 { assert rows[i] == rows[1..][i - 1]; }
        }
      } else if forall i :: 0 <= i < |rows| ==> measure(rows[i]) == 0 {
        forall i | 0 <= i < |rows[1..]| ensures measure(rows[1..][i]) == 0 {
          assert rows[1..][i] == rows[i + 1];
        }
      }
    }
  }

  lemma {:induction false} SumZero<T>(measure: T -> int, rows: seq<T>)
    requires forall i :: 0 <= i < |rows| ==> measure(rows[i]) == 0
    ensures Sum(measure, rows) == 0
  {
    SumNonNegative(measure, rows);
  }
}
