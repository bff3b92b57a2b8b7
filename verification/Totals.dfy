/** Totals over rows, and why their order does not matter. */
module Totals {

  function Sum<T>(amount: T -> int, rows: seq<T>): int {
    if rows == [] then 0 else amount(rows[0]) + Sum(amount, rows[1..])
  }

  lemma {:induction false} SumOfParts<T>(amount: T -> int, a: seq<T>, b: seq<T>)
    ensures Sum(amount, a + b) == Sum(amount, a) + Sum(amount, b)
  {
    if a == [] {
      assert a + b == b;
    } else {
      assert (a + b)[1..] == a[1..] + b;
      SumOfParts(amount, a[1..], b);
    }
  }

  lemma {:induction false} SameAmounts<T>(some: T -> int, others: T -> int, rows: seq<T>)
    requires forall x :: x in rows ==> some(x) == others(x)
    ensures Sum(some, rows) == Sum(others, rows)
  {
    if rows != [] { SameAmounts(some, others, rows[1..]); }
  }

  lemma SumAround<T>(amount: T -> int, left: seq<T>, row: T, right: seq<T>)
    ensures Sum(amount, left + [row] + right) == Sum(amount, left + right) + amount(row)
  {
    SumOfParts(amount, left + [row], right);
    SumOfParts(amount, left, [row]);
    SumOfParts(amount, left, right);
    assert [row][1..] == [];
  }

  lemma MultisetAround<T>(left: seq<T>, row: T, right: seq<T>)
    ensures multiset(left + [row] + right) == multiset(left + right) + multiset{row}
  {
  }

  /** Taking out one occurrence takes its amount off the total. */
  lemma WithoutOne<T>(amount: T -> int, rows: seq<T>, i: nat)
    requires i < |rows|
    ensures Sum(amount, rows) == Sum(amount, rows[..i] + rows[i + 1..]) + amount(rows[i])
    ensures multiset(rows) == multiset(rows[..i] + rows[i + 1..]) + multiset{rows[i]}
  {
    SumWithoutOne(amount, rows, i);
    MultisetWithoutOne(rows, i);
  }

  lemma Parted<T>(rows: seq<T>, i: nat)
    requires i < |rows|
    ensures rows == rows[..i] + [rows[i]] + rows[i + 1..]
  {
  }

  lemma SumWithoutOne<T>(amount: T -> int, rows: seq<T>, i: nat)
    requires i < |rows|
    ensures Sum(amount, rows) == Sum(amount, rows[..i] + rows[i + 1..]) + amount(rows[i])
  {
    Parted(rows, i);
    SumAround(amount, rows[..i], rows[i], rows[i + 1..]);
  }

  lemma MultisetWithoutOne<T>(rows: seq<T>, i: nat)
    requires i < |rows|
    ensures multiset(rows) == multiset(rows[..i] + rows[i + 1..]) + multiset{rows[i]}
  {
    Parted(rows, i);
    MultisetAround(rows[..i], rows[i], rows[i + 1..]);
  }

  /** The same rows in another order total the same. */
  lemma {:induction false} SumOfPermutation<T>(amount: T -> int, a: seq<T>, b: seq<T>)
    requires multiset(a) == multiset(b)
    ensures Sum(amount, a) == Sum(amount, b)
    decreases |a|
  {
    if a == [] {
      assert |multiset(b)| == 0;
    } else {
      assert a == [a[0]] + a[1..];
      assert a[0] in multiset(b);
      var i :| 0 <= i < |b| && b[i] == a[0];
      WithoutOne(amount, b, i);
      var rest := b[..i] + b[i + 1..];
      assert multiset(a[1..]) == multiset(a) - multiset{a[0]};
      assert multiset(rest) == multiset(b) - multiset{b[i]};
      SumOfPermutation(amount, a[1..], rest);
    }
  }

  /** One more row, wherever it stands, adds its amount. */
  lemma SumWithOneMore<T>(amount: T -> int, before: seq<T>, after: seq<T>, extra: T)
    requires multiset(after) == multiset(before) + multiset{extra}
    ensures Sum(amount, after) == Sum(amount, before) + amount(extra)
  {
    assert [extra][1..] == [];
    SumOfPermutation(amount, after, before + [extra]);
    SumOfParts(amount, before, [extra]);
  }
}
