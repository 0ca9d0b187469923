/** Sums of a real-valued weight over the rows of a table. */
module Sums {

  function Sum<T>(f: T -> real, rows: seq<T>): real {
    if rows == [] then 0.0 else f(rows[0]) + Sum(f, rows[1..])
  }

  lemma {:induction false} SumConcat<T>(f: T -> real, a: seq<T>, b: seq<T>)
    ensures Sum(f, a + b) == Sum(f, a) + Sum(f, b)
  {
    if a == [] {
      assert a + b == b;
    } else {
      assert (a + b)[1..] == a[1..] + b;
      SumConcat(f, a[1..], b);
    }
  }

  lemma SumAppend<T>(f: T -> real, rows: seq<T>, t: T)
    ensures Sum(f, rows + [t]) == Sum(f, rows) + f(t)
  {
    SumConcat(f, rows, [t]);
    assert [t][1..] == [];
  }

  lemma {:induction false} SumSplit<T>(f: T -> real, rows: seq<T>, j: nat)
    requires j < |rows|
    ensures Sum(f, rows) == Sum(f, rows[..j]) + f(rows[j]) + Sum(f, rows[j + 1..])
  {
    if j == 0 {
    } else {
      SumSplit(f, rows[1..], j - 1);
      assert rows[1..][..j - 1] == rows[..j][1..];
      assert rows[1..][j..] == rows[j + 1..];
    }
  }

  lemma SumUpdate<T>(f: T -> real, rows: seq<T>, i: nat, t: T)
    requires i < |rows|
    ensures Sum(f, rows[i := t]) == Sum(f, rows) - f(rows[i]) + f(t)
  {
    SumSplit(f, rows, i);
    SumSplit(f, rows[i := t], i);
    assert rows[i := t][..i] == rows[..i] && rows[i := t][i + 1..] == rows[i + 1..];
  }

  /** A bulk update that changes no row's weight changes no sum. */
  lemma {:induction false} SumPointwise<T>(f: T -> real, g: T -> real, a: seq<T>, b: seq<T>)
    requires |a| == |b|
    requires forall i :: 0 <= i < |a| ==> f(a[i]) == g(b[i])
    ensures Sum(f, a) == Sum(g, b)
  {
    if a == [] {
    } else {
      forall i | 0 <= i < |a[1..]| ensures f(a[1..][i]) == g(b[1..][i]) {
        assert f(a[i + 1]) == g(b[i + 1]);
      }
      SumPointwise(f, g, a[1..], b[1..]);
    }
  }

  /** A bulk update that takes a second weight off each row takes its sum off. */
  lemma {:induction false} SumDifference<T>(f: T -> real, g: T -> real, h: T -> real, a: seq<T>, b: seq<T>)
    requires |a| == |b|
    requires forall i :: 0 <= i < |a| ==> f(a[i]) == g(b[i]) + h(a[i])
    ensures Sum(f, a) == Sum(g, b) + Sum(h, a)
  {
    if a == [] {
    } else {
      forall i | 0 <= i < |a[1..]| ensures f(a[1..][i]) == g(b[1..][i]) + h(a[1..][i]) {
        assert f(a[i + 1]) == g(b[i + 1]) + h(a[i + 1]);
      }
      SumDifference(f, g, h, a[1..], b[1..]);
    }
  }

  /** Rows that weigh nothing may be added at the end. */
  lemma SumExtend<T>(f: T -> real, a: seq<T>, b: seq<T>)
    requires |a| <= |b|
    requires forall i :: 0 <= i < |a| ==> f(a[i]) == f(b[i])
    requires forall i :: |a| <= i < |b| ==> f(b[i]) == 0.0
    ensures Sum(f, a) == Sum(f, b)
  {
    var rest := b[|a|..];
    assert b == b[..|a|] + rest;
    SumConcat(f, b[..|a|], rest);
    SumPointwise(f, f, a, b[..|a|]);
    SumOfZeros(f, rest);
  }

  lemma {:induction false} SumOfZeros<T>(f: T -> real, rows: seq<T>)
    requires forall i :: 0 <= i < |rows| ==> f(rows[i]) == 0.0
    ensures Sum(f, rows) == 0.0
  {
    if rows == [] {
    } else {
      SumOfZeros(f, rows[1..]);
    }
  }

  /** The sum of rows of which only one weighs something. */
  lemma SumOfOne<T>(f: T -> real, rows: seq<T>, i: nat)
    requires i < |rows| && forall j :: 0 <= j < |rows| && j != i ==> f(rows[j]) == 0.0
    ensures Sum(f, rows) == f(rows[i])
  {
    SumSplit(f, rows, i);
    SumOfZeros(f, rows[..i]);
    SumOfZeros(f, rows[i + 1..]);
  }

  lemma SumWithout<T>(f: T -> real, rows: seq<T>, j: nat)
    requires j < |rows|
    ensures Sum(f, rows) == f(rows[j]) + Sum(f, rows[..j] + rows[j + 1..])
  {
    SumSplit(f, rows, j);
    SumConcat(f, rows[..j], rows[j + 1..]);
  }

  lemma MultisetWithout<T>(rows: seq<T>, j: nat)
    requires j < |rows|
    ensures multiset(rows[..j] + rows[j + 1..]) == multiset(rows) - multiset{rows[j]}
  {
    assert rows == rows[..j] + ([rows[j]] + rows[j + 1..]);
  }

  /** The first row of one of two equal tables stands somewhere in the other. */
  lemma MatchFirst<T>(a: seq<T>, b: seq<T>) returns (j: nat)
    requires multiset(a) == multiset(b) && a != []
    ensures j < |b| && b[j] == a[0]
    ensures multiset(a[1..]) == multiset(b[..j] + b[j + 1..])
  {
    assert a[0] in multiset(b);
    j :| j < |b| && b[j] == a[0];
    MultisetWithout(b, j);
    assert a == [a[0]] + a[1..];
  }

  /** The weight of a table depends only on which rows it holds, not on their order. */
  lemma {:induction false} SumOrderIndependent<T>(f: T -> real, a: seq<T>, b: seq<T>)
    requires multiset(a) == multiset(b)
    ensures Sum(f, a) == Sum(f, b)
    decreases |a|
  {
    if a == [] {
      assert |multiset(b)| == 0;
    } else {
      var j := MatchFirst(a, b);
      SumOrderIndependent(f, a[1..], b[..j] + b[j + 1..]);
      SumWithout(f, b, j);
    }
  }

  /** Rows carrying a given part, in table order. */
  function Select<T>(part: T -> nat, k: nat, rows: seq<T>): seq<T>
  {
    if rows == [] then []
    else if part(rows[0]) == k then [rows[0]] + Select(part, k, rows[1..])
    else Select(part, k, rows[1..])
  }

  /** Sum of the sums of the classes 0..n of a partition. */
  function SumOfParts<T>(f: T -> real, part: T -> nat, n: nat, rows: seq<T>): real {
    if n == 0 then 0.0
    else SumOfParts(f, part, n - 1, rows) + Sum(f, Select(part, n - 1, rows))
  }

  lemma {:induction false} SumOfPartsStep<T>(f: T -> real, part: T -> nat, n: nat, rows: seq<T>)
    requires rows != []
    ensures SumOfParts(f, part, n, rows)
         == SumOfParts(f, part, n, rows[1..]) + if part(rows[0]) < n then f(rows[0]) else 0.0
  {
    if n == 0 {
    } else {
      SumOfPartsStep(f, part, n - 1, rows);
      if part(rows[0]) == n - 1 {
        assert Select(part, n - 1, rows)[1..] == Select(part, n - 1, rows[1..]);
      }
    }
  }

  lemma {:induction false} SumOfNoRows<T>(f: T -> real, part: T -> nat, n: nat)
    ensures SumOfParts(f, part, n, []) == 0.0
  {
    if n == 0 {
    } else {
      SumOfNoRows(f, part, n - 1);
    }
  }

  /** Additivity: folding the classes of any partition and adding up equals folding all rows. */
  lemma {:induction false} SumPartition<T>(f: T -> real, part: T -> nat, n: nat, rows: seq<T>)
    requires forall t :: t in rows ==> part(t) < n
    ensures SumOfParts(f, part, n, rows) == Sum(f, rows)
  {
    if rows == [] {
      SumOfNoRows(f, part, n);
    } else {
      SumPartition(f, part, n, rows[1..]);
      SumOfPartsStep(f, part, n, rows);
    }
  }
}
