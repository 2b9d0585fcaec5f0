/** Sums over rows and over groups of rows, which the analytics folds keep in maps. */
module Grouping {
  import opened Sequences

  function Sum<T>(rows: seq<T>, weight: T -> nat): nat {
    if rows == [] then 0 else Sum(rows[..|rows| - 1], weight) + weight(rows[|rows| - 1])
  }

  /** The sum over the rows of one group. */
  function SumAt<T, K(==)>(rows: seq<T>, key: T -> K, k: K, weight: T -> nat): nat {
    if rows == [] then 0 else
    SumAt(rows[..|rows| - 1], key, k, weight) + if key(rows[|rows| - 1]) == k then weight(rows[|rows| - 1]) else 0
  }

  /** The sum over several groups. */
  function SumOver<T, K(==)>(keys: seq<K>, rows: seq<T>, key: T -> K, weight: T -> nat): nat {
    if keys == [] then 0
      else SumOver(keys[..|keys| - 1], rows, key, weight) + SumAt(rows, key, keys[|keys| - 1], weight)
  }

  lemma {:induction false} SumOverStep<T, K>(keys: seq<K>, rows: seq<T>, key: T -> K, weight: T -> nat)
    requires rows != [] && Distinct(keys)
    ensures var last := rows[|rows| - 1];
            SumOver(keys, rows, key, weight)
            == SumOver(keys, rows[..|rows| - 1], key, weight) + if key(last) in keys then weight(last) else 0
  {
    if keys != [] {
      var front := keys[..|keys| - 1];
      SumOverStep(front, rows, key, weight);
      assert keys == front + [keys[|keys| - 1]];
    }
  }

  /** If every row that weighs anything is in one of the groups, the groups add up to the total. */
  lemma {:induction false} GroupsAddUp<T, K>(keys: seq<K>, rows: seq<T>, key: T -> K, weight: T -> nat)
    requires Distinct(keys) && forall r :: r in rows && weight(r) > 0 ==> key(r) in keys
    ensures SumOver(keys, rows, key, weight) == Sum(rows, weight)
  {
    if rows == [] {
      NothingToSum(keys, key, weight);
    } else {
      var front := rows[..|rows| - 1];
      assert rows == front + [rows[|rows| - 1]];
      GroupsAddUp(keys, front, key, weight);
      SumOverStep(keys, rows, key, weight);
      assert rows[|rows| - 1] in rows;
    }
  }

  lemma {:induction false} NothingToSum<T, K>(keys: seq<K>, key: T -> K, weight: T -> nat)
    ensures SumOver(keys, [], key, weight) == 0
  {
    if keys != [] { NothingToSum(keys[..|keys| - 1], key, weight); }
  }

  lemma {:induction false} SumAtAppend<T, K>(a: seq<T>, b: seq<T>, key: T -> K, k: K, weight: T -> nat)
    ensures SumAt(a + b, key, k, weight) == SumAt(a, key, k, weight) + SumAt(b, key, k, weight)
  {
    if b == [] {
      assert a + b == a;
    } else {
      assert (a + b)[..|a + b| - 1] == a + b[..|b| - 1];
      SumAtAppend(a, b[..|b| - 1], key, k, weight);
    }
  }

  lemma SumAtWithout<T, K>(rows: seq<T>, i: nat, key: T -> K, k: K, weight: T -> nat)
    requires i < |rows|
    ensures SumAt(rows, key, k, weight)
            == SumAt(rows[..i] + rows[i + 1..], key, k, weight) + if key(rows[i]) == k then weight(rows[i]) else 0
  {
    assert rows == rows[..i] + ([rows[i]] + rows[i + 1..]);
    SumAtAppend(rows[..i], [rows[i]] + rows[i + 1..], key, k, weight);
    SumAtAppend([rows[i]], rows[i + 1..], key, k, weight);
    SumAtAppend(rows[..i], rows[i + 1..], key, k, weight);
    assert [rows[i]][..0] == [];
  }

  /** The sum of a group does not depend on the order of the rows. */
  lemma {:induction false} SumAtPermutation<T, K>(a: seq<T>, b: seq<T>, key: T -> K, k: K, weight: T -> nat)
    requires multiset(a) == multiset(b)
    ensures SumAt(a, key, k, weight) == SumAt(b, key, k, weight)
  {
    if a == [] {
      assert |b| == |multiset(b)| == 0;
    } else {
      var i := RemoveLast(a, b);
      SumAtPermutation(a[..|a| - 1], b[..i] + b[i + 1..], key, k, weight);
      SumAtWithout(b, i, key, k, weight);
    }
  }

  function OneKey<T>(row: T): () {
    ()
  }

  lemma {:induction false} SumIsSumAt<T>(rows: seq<T>, weight: T -> nat)
    ensures Sum(rows, weight) == SumAt(rows, OneKey, (), weight)
  {
    if rows != [] { SumIsSumAt(rows[..|rows| - 1], weight); }
  }

  /** Nor does the sum of all rows. */
  lemma SumPermutation<T>(a: seq<T>, b: seq<T>, weight: T -> nat)
    requires multiset(a) == multiset(b)
    ensures Sum(a, weight) == Sum(b, weight)
  {
    SumIsSumAt(a, weight);
    SumIsSumAt(b, weight);
    SumAtPermutation(a, b, OneKey, (), weight);
  }

  // ----- Lists -----

  /** The lists of the rows, one after the other. */
  function Concat<T, V>(rows: seq<T>, list: T -> seq<V>): seq<V> {
    if rows == [] then [] else Concat(rows[..|rows| - 1], list) + list(rows[|rows| - 1])
  }

  /** The lists of the rows of one group. */
  function ConcatAt<T, K(==), V>(rows: seq<T>, key: T -> K, k: K, list: T -> seq<V>): seq<V> {
    if rows == [] then [] else
    ConcatAt(rows[..|rows| - 1], key, k, list) + if key(rows[|rows| - 1]) == k then list(rows[|rows| - 1]) else []
  }

  /** Everything in the lists of several groups. */
  ghost function AllOver<T, K, V>(keys: seq<K>, rows: seq<T>, key: T -> K, list: T -> seq<V>): multiset<V> {
    if keys == [] then multiset{} else
    AllOver(keys[..|keys| - 1], rows, key, list) + multiset(ConcatAt(rows, key, keys[|keys| - 1], list))
  }

  lemma {:induction false} AllOverStep<T, K, V>(keys: seq<K>, rows: seq<T>, key: T -> K, list: T -> seq<V>)
    requires rows != [] && Distinct(keys)
    ensures var last := rows[|rows| - 1];
            AllOver(keys, rows, key, list)
            == AllOver(keys, rows[..|rows| - 1], key, list) + if key(last) in keys then multiset(list(last))
              else multiset{}
  {
    if keys != [] {
      AllOverStep(keys[..|keys| - 1], rows, key, list);
      assert keys == keys[..|keys| - 1] + [keys[|keys| - 1]];
    }
  }

  /** If every row with a list is in one of the groups, the groups hold together what all rows hold. */
  lemma {:induction false} GroupsHoldAll<T, K, V>(keys: seq<K>, rows: seq<T>, key: T -> K, list: T -> seq<V>)
    requires Distinct(keys) && forall r :: r in rows && list(r) != [] ==> key(r) in keys
    ensures AllOver(keys, rows, key, list) == multiset(Concat(rows, list))
  {
    if rows == [] {
      NothingToHold(keys, key, list);
    } else {
      var front := rows[..|rows| - 1];
      assert rows == front + [rows[|rows| - 1]];
      GroupsHoldAll(keys, front, key, list);
      AllOverStep(keys, rows, key, list);
      assert rows[|rows| - 1] in rows;
    }
  }

  lemma {:induction false} NothingToHold<T, K, V>(keys: seq<K>, key: T -> K, list: T -> seq<V>)
    ensures AllOver(keys, [], key, list) == multiset{}
  {
    if keys != [] { NothingToHold(keys[..|keys| - 1], key, list); }
  }

  lemma {:induction false} ConcatAtAppend<T, K, V>(a: seq<T>, b: seq<T>, key: T -> K, k: K, list: T -> seq<V>)
    ensures ConcatAt(a + b, key, k, list) == ConcatAt(a, key, k, list) + ConcatAt(b, key, k, list)
  {
    if b == [] {
      assert a + b == a;
    } else {
      assert (a + b)[..|a + b| - 1] == a + b[..|b| - 1];
      ConcatAtAppend(a, b[..|b| - 1], key, k, list);
    }
  }

  lemma ConcatAtWithout<T, K, V>(rows: seq<T>, i: nat, key: T -> K, k: K, list: T -> seq<V>)
    requires i < |rows|
    ensures multiset(ConcatAt(rows, key, k, list))
            == multiset(ConcatAt(rows[..i] + rows[i + 1..], key, k, list))
               + if key(rows[i]) == k then multiset(list(rows[i])) else multiset{}
  {
    assert rows == rows[..i] + ([rows[i]] + rows[i + 1..]);
    ConcatAtAppend(rows[..i], [rows[i]] + rows[i + 1..], key, k, list);
    ConcatAtAppend([rows[i]], rows[i + 1..], key, k, list);
    ConcatAtAppend(rows[..i], rows[i + 1..], key, k, list);
    assert [rows[i]][..0] == [];
    assert ConcatAt([rows[i]], key, k, list) == if key(rows[i]) == k then list(rows[i]) else [];
  }

  /** What a group holds does not depend on the order of the rows. */
  lemma {:induction false} ConcatAtPermutation<T, K, V>(a: seq<T>, b: seq<T>, key: T -> K, k: K, list: T -> seq<V>)
    requires multiset(a) == multiset(b)
    ensures multiset(ConcatAt(a, key, k, list)) == multiset(ConcatAt(b, key, k, list))
  {
    if a == [] {
      assert |b| == |multiset(b)| == 0;
    } else {
      var i := RemoveLast(a, b);
      ConcatAtPermutation(a[..|a| - 1], b[..i] + b[i + 1..], key, k, list);
      ConcatAtWithout(b, i, key, k, list);
    }
  }

  lemma {:induction false} ConcatIsConcatAt<T, V>(rows: seq<T>, list: T -> seq<V>)
    ensures Concat(rows, list) == ConcatAt(rows, OneKey, (), list)
  {
    if rows != [] { ConcatIsConcatAt(rows[..|rows| - 1], list); }
  }

  lemma ConcatPermutation<T, V>(a: seq<T>, b: seq<T>, list: T -> seq<V>)
    requires multiset(a) == multiset(b)
    ensures multiset(Concat(a, list)) == multiset(Concat(b, list))
  {
    ConcatIsConcatAt(a, list);
    ConcatIsConcatAt(b, list);
    ConcatAtPermutation(a, b, OneKey, (), list);
  }
}
