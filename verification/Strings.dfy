/** The byte-wise order of strings, and sorting by it. */
module Strings {

  /** Byte-wise lexicographic order. */
  predicate LexLe(a: string, b: string) {
    || a == ""
    || (b != "" && (a[0] < b[0] || (a[0] == b[0] && LexLe(a[1..], b[1..]))))
  }

  predicate LexLess(a: string, b: string) {
    LexLe(a, b) && a != b
  }

  lemma {:induction false} LexTotal(a: string, b: string)
    ensures LexLe(a, b) || LexLe(b, a)
    ensures LexLe(a, b) && LexLe(b, a) ==> a == b
  {
    if a != "" && b != "" {
      LexTotal(a[1..], b[1..]);
      if a[0] == b[0] && a[1..] == b[1..] { assert a == [a[0]] + a[1..] == b; }
    }
  }

  lemma {:induction false} LexTransitive(a: string, b: string, c: string)
    requires LexLe(a, b) && LexLe(b, c)
    ensures LexLe(a, c)
  {
    if a != "" && a[0] == b[0] && b[0] == c[0] { LexTransitive(a[1..], b[1..], c[1..]); }
  }

  ghost predicate Sorted(items: seq<string>) {
    forall i, j :: 0 <= i < j < |items| ==> LexLe(items[i], items[j])
  }

  function InsertString(item: string, items: seq<string>): seq<string> {
    if items == [] || LexLe(items[|items| - 1], item) then items + [item]
    else InsertString(item, items[..|items| - 1]) + [items[|items| - 1]]
  }

  function SortStrings(items: seq<string>): seq<string> {
    if items == [] then [] else InsertString(items[|items| - 1], SortStrings(items[..|items| - 1]))
  }

  lemma {:induction false} InsertStringPermutes(item: string, items: seq<string>)
    ensures multiset(InsertString(item, items)) == multiset(items) + multiset{item}
  {
    if items != [] && !LexLe(items[|items| - 1], item) {
      assert items == items[..|items| - 1] + [items[|items| - 1]];
      InsertStringPermutes(item, items[..|items| - 1]);
    }
  }

  lemma {:induction false} InsertStringSorts(item: string, items: seq<string>)
    requires Sorted(items)
    ensures Sorted(InsertString(item, items))
    ensures forall x :: x in InsertString(item, items) ==> x == item || x in items
  {
    if items != [] {
      var last := items[|items| - 1];
      LexTotal(last, item);
      if LexLe(last, item) {
        forall i | 0 <= i < |items| ensures LexLe(items[i], item) {
          if i < |items| - 1 { LexTransitive(items[i], last, item); }
        }
      } else {
        InsertStringSorts(item, items[..|items| - 1]);
        var inserted := InsertString(item, items[..|items| - 1]);
        forall i | 0 <= i < |inserted| ensures LexLe(inserted[i], last) {
          assert inserted[i] in inserted;
        }
      }
    }
  }

  lemma {:induction false} SortStringsSorts(items: seq<string>)
    ensures Sorted(SortStrings(items))
    ensures multiset(SortStrings(items)) == multiset(items)
  {
    if items != [] {
      assert items == items[..|items| - 1] + [items[|items| - 1]];
      SortStringsSorts(items[..|items| - 1]);
      InsertStringSorts(items[|items| - 1], SortStrings(items[..|items| - 1]));
      InsertStringPermutes(items[|items| - 1], SortStrings(items[..|items| - 1]));
    }
  }

  /** Two sorted permutations end in the same string. */
  lemma SortedEndsInLargest(a: seq<string>, b: seq<string>)
    requires multiset(a) == multiset(b) && Sorted(a) && Sorted(b) && a != [] && b != []
    ensures a[|a| - 1] == b[|b| - 1]
  {
    LargestIsLast(a, b[|b| - 1]);
    LargestIsLast(b, a[|a| - 1]);
    LexTotal(a[|a| - 1], b[|b| - 1]);
  }

  lemma LargestIsLast(a: seq<string>, x: string)
    requires Sorted(a) && x in multiset(a)
    ensures a != [] && LexLe(x, a[|a| - 1])
  {
    assert x in a;
    var i :| 0 <= i < |a| && a[i] == x;
    LexTotal(x, x);
  }

  lemma FrontMultiset(a: seq<string>)
    requires a != []
    ensures a == a[..|a| - 1] + [a[|a| - 1]]
    ensures multiset(a[..|a| - 1]) == multiset(a) - multiset{a[|a| - 1]}
  {
    assert a == a[..|a| - 1] + [a[|a| - 1]];
  }

  lemma SortedFronts(a: seq<string>, b: seq<string>)
    requires multiset(a) == multiset(b) && Sorted(a) && Sorted(b) && a != []
    ensures b != [] && a[|a| - 1] == b[|b| - 1]
    ensures multiset(a[..|a| - 1]) == multiset(b[..|b| - 1])
  {
    assert a[0] in multiset(b);
    SortedEndsInLargest(a, b);
    FrontMultiset(a);
    FrontMultiset(b);
  }

  lemma {:induction false} SortedIsCanonical(a: seq<string>, b: seq<string>)
    requires multiset(a) == multiset(b) && Sorted(a) && Sorted(b)
    ensures a == b
  {
    if a == [] {
      assert |b| == |multiset(b)| == 0;
    } else {
      SortedFronts(a, b);
      SortedIsCanonical(a[..|a| - 1], b[..|b| - 1]);
      assert a == a[..|a| - 1] + [a[|a| - 1]] && b == b[..|b| - 1] + [b[|b| - 1]];
    }
  }

  /** Sorting forgets the order of a list and nothing else. */
  lemma SortForgetsOrder(a: seq<string>, b: seq<string>)
    ensures SortStrings(a) == SortStrings(b) <==> multiset(a) == multiset(b)
  {
    SortStringsSorts(a);
    SortStringsSorts(b);
    if multiset(a) == multiset(b) { SortedIsCanonical(SortStrings(a), SortStrings(b)); }
  }
}
