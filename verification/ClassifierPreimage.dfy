/**
 What the classifier hash is taken over: a version line and six tagged lists, each sorted
 and length-prefixed. Strings stand for byte strings, one char per byte.
 */
module ClassifierPreimage {
  import opened Sequences
  import opened Strings

  // ----- Decimal lengths -----

  function Decimal(n: nat): string {
    if n < 10 then ['0' + n as char] else Decimal(n / 10) + ['0' + (n % 10) as char]
  }

  function ValueOf(digits: string): int {
    if digits == "" then 0 else 10 * ValueOf(digits[..|digits| - 1]) + (digits[|digits| - 1] as int - '0' as int)
  }

  /** Decimal numerals are made of digits, and tell numbers apart. */
  lemma {:induction false} DecimalReads(n: nat)
    ensures ValueOf(Decimal(n)) == n
    ensures forall c :: c in Decimal(n) ==> '0' <= c <= '9'
  {
    if n < 10 {
      assert Decimal(n)[..0] == "";
    } else {
      DecimalReads(n / 10);
      assert Decimal(n)[..|Decimal(n)| - 1] == Decimal(n / 10);
    }
  }

  // ----- Entries -----

  datatype Entry = Entry(tag: string, item: string)

  function EntryText(e: Entry): string {
    e.tag + ("\t" + (Decimal(|e.item|) + ("\t" + (e.item + "\n"))))
  }

  function EntriesText(entries: seq<Entry>): string {
    if entries == [] then "" else EntryText(entries[0]) + EntriesText(entries[1..])
  }

  /** Up to the first tab, two equal texts are equal, and so is what follows the tab. */
  lemma {:induction false} SplitAtTab(a: string, r: string, b: string, q: string)
    requires '\t' !in a && '\t' !in b && a + ("\t" + r) == b + ("\t" + q)
    ensures a == b && r == q
  {
    var s := a + ("\t" + r);
    assert s[|a|] == '\t' && s[|b|] == '\t';
    assert forall k :: 0 <= k < |a| ==> s[k] == a[k] != '\t';
    assert forall k :: 0 <= k < |b| ==> s[k] == b[k] != '\t';
    assert s[..|a|] == a && s[..|b|] == b;
    assert s[|a| + 1..] == r && s[|b| + 1..] == q;
  }

  /** An entry can be read off the front of a text in only one way. */
  lemma EntryReadsOnce(e: Entry, r: string, f: Entry, q: string)
    requires '\t' !in e.tag && '\t' !in f.tag && EntryText(e) + r == EntryText(f) + q
    ensures e == f && r == q
  {
    var lenE, lenF := Decimal(|e.item|), Decimal(|f.item|);
    DecimalReads(|e.item|);
    DecimalReads(|f.item|);
    var tailE, tailF := e.item + ("\n" + r), f.item + ("\n" + q);
    EntrySplits(e, r);
    EntrySplits(f, q);
    SplitAtTab(e.tag, lenE + ("\t" + tailE), f.tag, lenF + ("\t" + tailF));
    SplitAtTab(lenE, tailE, lenF, tailF);
    assert |e.item| == |f.item|;
    assert tailE[..|e.item|] == e.item && tailF[..|f.item|] == f.item;
    assert tailE[|e.item| + 1..] == r && tailF[|f.item| + 1..] == q;
  }

  lemma EntrySplits(e: Entry, r: string)
    ensures EntryText(e) + r == e.tag + ("\t" + (Decimal(|e.item|) + ("\t" + (e.item + ("\n" + r)))))
  {
  }

  ghost predicate TagsHaveNoTab(entries: seq<Entry>) {
    forall k :: 0 <= k < |entries| ==> '\t' !in entries[k].tag
  }

  lemma EntriesTextLength(entries: seq<Entry>)
    ensures EntriesText(entries) == "" <==> entries == []
  {
    if entries != [] { assert |EntryText(entries[0])| > 0; }
  }

  lemma {:induction false} EntriesReadOnce(a: seq<Entry>, b: seq<Entry>)
    requires TagsHaveNoTab(a) && TagsHaveNoTab(b) && EntriesText(a) == EntriesText(b)
    ensures a == b
  {
    if a != [] && b != [] {
      EntryReadsOnce(a[0], EntriesText(a[1..]), b[0], EntriesText(b[1..]));
      EntriesReadOnce(a[1..], b[1..]);
      assert a == [a[0]] + a[1..] && b == [b[0]] + b[1..];
    } else {
      EntriesTextLength(a);
      EntriesTextLength(b);
    }
  }

  lemma {:induction false} EntriesTextAppend(a: seq<Entry>, b: seq<Entry>)
    ensures EntriesText(a + b) == EntriesText(a) + EntriesText(b)
  {
    if a == [] {
      assert a + b == b;
    } else {
      assert (a + b)[1..] == a[1..] + b;
      EntriesTextAppend(a[1..], b);
      AppendAssociates(EntryText(a[0]), EntriesText(a[1..]), EntriesText(b));
    }
  }

  function Tagged(tag: string, items: seq<string>): (entries: seq<Entry>)
    ensures |entries| == |items| && forall k :: 0 <= k < |items| ==> entries[k] == Entry(tag, items[k])
  {
    seq(|items|, k requires 0 <= k < |items| => Entry(tag, items[k]))
  }

  ghost predicate WithoutTag(entries: seq<Entry>, tag: string) {
    forall k :: 0 <= k < |entries| ==> entries[k].tag != tag
  }

  /** A tagged list ends where its tag does. */
  lemma {:induction false} TaggedSplits(tag: string, x: seq<string>, r: seq<Entry>, y: seq<string>, q: seq<Entry>)
    requires Tagged(tag, x) + r == Tagged(tag, y) + q && WithoutTag(r, tag) && WithoutTag(q, tag)
    ensures x == y && r == q
  {
    var s := Tagged(tag, x) + r;
    assert forall k :: 0 <= k < |x| ==> s[k] == Entry(tag, x[k]);
    assert forall k :: 0 <= k < |y| ==> s[k] == Entry(tag, y[k]);
    assert |x| == |s| || s[|x|].tag != tag by { if |x| < |s| { assert s[|x|] == r[0]; } }
    assert |y| == |s| || s[|y|].tag != tag by { if |y| < |s| { assert s[|y|] == q[0]; } }
    assert |x| == |y|;
    forall k | 0 <= k < |x| ensures x[k] == y[k] { assert s[k] == Entry(tag, x[k]); }
    assert s[|x|..] == r && s[|y|..] == q;
  }

  // ----- The preimage -----

  /** The built-in and the user's pattern lists. */
  datatype Classifier = Classifier(
    prefixes: seq<string>, substrings: seq<string>, exacts: seq<string>,
    userPrefixes: seq<string>, userSubstrings: seq<string>, userExacts: seq<string>)

  const VERSION := "v2\n"

  datatype TaggedList = TaggedList(tag: string, items: seq<string>)

  function ListsOf(c: Classifier): seq<TaggedList> {
    [TaggedList("P", c.prefixes), TaggedList("S", c.substrings), TaggedList("E", c.exacts),
     TaggedList("U", c.userPrefixes), TaggedList("US", c.userSubstrings), TaggedList("UE", c.userExacts)]
  }

  function SortedEntries(l: TaggedList): seq<Entry> {
    Tagged(l.tag, SortStrings(l.items))
  }

  function EntriesOf(lists: seq<TaggedList>): seq<Entry> {
    if lists == [] then [] else SortedEntries(lists[0]) + EntriesOf(lists[1..])
  }

  function Preimage(c: Classifier): string {
    VERSION + EntriesText(EntriesOf(ListsOf(c)))
  }

  ghost predicate DistinctTags(lists: seq<TaggedList>) {
    && (forall i, j :: 0 <= i < j < |lists| ==> lists[i].tag != lists[j].tag)
    && (forall i :: 0 <= i < |lists| ==> '\t' !in lists[i].tag)
  }

  ghost predicate SameTags(a: seq<TaggedList>, b: seq<TaggedList>) {
    |a| == |b| && forall i :: 0 <= i < |a| ==> a[i].tag == b[i].tag
  }

  ghost predicate HasTag(lists: seq<TaggedList>, tag: string) {
    exists i :: 0 <= i < |lists| && lists[i].tag == tag
  }

  lemma {:induction false} EntriesTags(lists: seq<TaggedList>)
    ensures forall k :: 0 <= k < |EntriesOf(lists)| ==> HasTag(lists, EntriesOf(lists)[k].tag)
  {
    if lists != [] {
      EntriesTags(lists[1..]);
      var head: seq<Entry>, rest: seq<Entry> := SortedEntries(lists[0]), EntriesOf(lists[1..]);
      var all: seq<Entry> := head + rest;
      forall k | 0 <= k < |all| ensures HasTag(lists, all[k].tag) {
        if k < |head| {
          assert lists[0].tag == all[k].tag;
        } else {
          var i :| 0 <= i < |lists[1..]| && lists[1..][i].tag == rest[k - |head|].tag;
          assert lists[i + 1].tag == rest[k - |head|].tag;
        }
      }
    }
  }

  ghost predicate SortAlike(a: TaggedList, b: TaggedList) {
    SortStrings(a.items) == SortStrings(b.items)
  }

  ghost predicate AllSortAlike(a: seq<TaggedList>, b: seq<TaggedList>) {
    |a| == |b| && forall i :: 0 <= i < |a| ==> SortAlike(a[i], b[i])
  }

  /** The entries of lists with distinct tags determine each list up to order. */
  lemma {:induction false} EntriesDetermineLists(a: seq<TaggedList>, b: seq<TaggedList>)
    requires SameTags(a, b) && DistinctTags(a) && EntriesOf(a) == EntriesOf(b)
    ensures AllSortAlike(a, b)
  {
    if a != [] {
      TailsLackHeadTag(a);
      TailsLackHeadTag(b);
      TaggedSplits(a[0].tag, SortStrings(a[0].items), EntriesOf(a[1..]), SortStrings(b[0].items), EntriesOf(b[1..]));
      EntriesDetermineLists(a[1..], b[1..]);
      forall i | 0 <= i < |a| ensures SortAlike(a[i], b[i]) {
        if i > 0 { assert a[1..][i - 1] == a[i] && b[1..][i - 1] == b[i]; }
      }
    }
  }

  lemma TailsLackHeadTag(lists: seq<TaggedList>)
    requires lists != [] && forall i :: 0 < i < |lists| ==> lists[i].tag != lists[0].tag
    ensures WithoutTag(EntriesOf(lists[1..]), lists[0].tag)
  {
    EntriesTags(lists[1..]);
  }

  lemma {:induction false} SameItemsSameEntries(a: seq<TaggedList>, b: seq<TaggedList>)
    requires SameTags(a, b) && AllSortAlike(a, b)
    ensures EntriesOf(a) == EntriesOf(b)
  {
    if a != [] { SameItemsSameEntries(a[1..], b[1..]); }
  }

  /** The two classifiers have the same patterns, with the same multiplicities, in each list. */
  ghost predicate SamePatterns(a: Classifier, b: Classifier) {
    && multiset(a.prefixes) == multiset(b.prefixes)
    && multiset(a.substrings) == multiset(b.substrings)
    && multiset(a.exacts) == multiset(b.exacts)
    && multiset(a.userPrefixes) == multiset(b.userPrefixes)
    && multiset(a.userSubstrings) == multiset(b.userSubstrings)
    && multiset(a.userExacts) == multiset(b.userExacts)
  }

  lemma SortAlikeIffSameItems(a: Classifier, b: Classifier, i: nat)
    requires i < 6
    ensures SortAlike(ListsOf(a)[i], ListsOf(b)[i]) <==> multiset(ListsOf(a)[i].items) == multiset(ListsOf(b)[i].items)
  {
    SortForgetsOrder(ListsOf(a)[i].items, ListsOf(b)[i].items);
  }

  lemma SamePatternsByList(a: Classifier, b: Classifier)
    ensures SamePatterns(a, b) <==> AllSortAlike(ListsOf(a), ListsOf(b))
  {
    SortAlikeIffSameItems(a, b, 0);
    SortAlikeIffSameItems(a, b, 1);
    SortAlikeIffSameItems(a, b, 2);
    SortAlikeIffSameItems(a, b, 3);
    SortAlikeIffSameItems(a, b, 4);
    SortAlikeIffSameItems(a, b, 5);
  }

  lemma TagsAreGood(c: Classifier)
    ensures DistinctTags(ListsOf(c)) && TagsHaveNoTab(EntriesOf(ListsOf(c)))
  {
    var lists := ListsOf(c);
    assert DistinctTags(lists);
    EntriesTags(lists);
  }

  lemma SuffixesAgree(front: string, x: string, y: string)
    requires front + x == front + y
    ensures x == y
  {
    assert (front + x)[|front|..] == x && (front + y)[|front|..] == y;
  }

  lemma PreimageReadsEntries(a: Classifier, b: Classifier)
    requires Preimage(a) == Preimage(b)
    ensures EntriesOf(ListsOf(a)) == EntriesOf(ListsOf(b))
  {
    SuffixesAgree(VERSION, EntriesText(EntriesOf(ListsOf(a))), EntriesText(EntriesOf(ListsOf(b))));
    TagsAreGood(a);
    TagsAreGood(b);
    EntriesReadOnce(EntriesOf(ListsOf(a)), EntriesOf(ListsOf(b)));
  }

  lemma PreimagesAgreeByList(a: Classifier, b: Classifier)
    ensures Preimage(a) == Preimage(b) <==> AllSortAlike(ListsOf(a), ListsOf(b))
  {
    var x, y := ListsOf(a), ListsOf(b);
    assert SameTags(x, y);
    if Preimage(a) == Preimage(b) {
      PreimageReadsEntries(a, b);
      TagsAreGood(a);
      EntriesDetermineLists(x, y);
    }
    if AllSortAlike(x, y) { SameItemsSameEntries(x, y); }
  }

  /** The preimage is uniquely decodable: it tells the six pattern lists apart, up to order. */
  lemma PreimageIsUniquelyDecodable(a: Classifier, b: Classifier)
    ensures Preimage(a) == Preimage(b) <==> SamePatterns(a, b)
  {
    SamePatternsByList(a, b);
    PreimagesAgreeByList(a, b);
  }

  /** The state of a hash: what has been written to it. */
  class HashInput {
    var written: string

    constructor ()
      ensures written == ""
    {
      written := "";
    }

    method Write(text: string)
      modifies this
      ensures written == old(written) + text
    {
      written := written + text;
    }
  }

  /** Writes one list: a sorted copy, an entry a line. */
  method WriteSorted(h: HashInput, tag: string, items: seq<string>)
    modifies h
    ensures h.written == old(h.written) + EntriesText(SortedEntries(TaggedList(tag, items)))
  {
    var sorted := SortStrings(items);
    for k := 0 to |sorted|
      invariant h.written == old(h.written) + EntriesText(Tagged(tag, sorted[..k]))
    {
      var item := sorted[k];
      h.Write(tag + "\t" + Decimal(|item|) + "\t" + item + "\n");
      OneMoreEntry(tag, sorted, k);
      AppendAssociates(old(h.written), EntriesText(Tagged(tag, sorted[..k])), EntryText(Entry(tag, item)));
    }
    assert sorted[..|sorted|] == sorted;
  }

  lemma OneMoreEntry(tag: string, items: seq<string>, k: nat)
    requires k < |items|
    ensures EntriesText(Tagged(tag, items[..k + 1]))
            == EntriesText(Tagged(tag, items[..k])) + EntryText(Entry(tag, items[k]))
    ensures EntryText(Entry(tag, items[k])) == tag + "\t" + Decimal(|items[k]|) + "\t" + items[k] + "\n"
  {
    var e := Entry(tag, items[k]);
    assert Tagged(tag, items[..k + 1]) == Tagged(tag, items[..k]) + [e];
    EntriesTextAppend(Tagged(tag, items[..k]), [e]);
    LastEntry(e);
  }

  lemma LastEntry(e: Entry)
    ensures EntriesText([e]) == EntryText(e)
  {
    assert [e][1..] == [];
  }

  lemma EntriesOfAppend(lists: seq<TaggedList>, l: TaggedList)
    ensures EntriesText(EntriesOf(lists + [l])) == EntriesText(EntriesOf(lists)) + EntriesText(SortedEntries(l))
  {
    EntriesOfConcat(lists, l);
    EntriesTextAppend(EntriesOf(lists), SortedEntries(l));
  }

  lemma {:induction false} EntriesOfConcat(lists: seq<TaggedList>, l: TaggedList)
    ensures EntriesOf(lists + [l]) == EntriesOf(lists) + SortedEntries(l)
  {
    if lists == [] {
      assert [l][1..] == [] && lists + [l] == [l];
    } else {
      assert (lists + [l])[1..] == lists[1..] + [l];
      EntriesOfConcat(lists[1..], l);
      AppendAssociates(SortedEntries(lists[0]), EntriesOf(lists[1..]), SortedEntries(l));
    }
  }

  /** List `k` of the preimage, after those before it. */
  method WriteList(h: HashInput, ghost lists: seq<TaggedList>, ghost k: nat, tag: string, items: seq<string>)
    requires k < |lists| && lists[k] == TaggedList(tag, items)
    requires h.written == VERSION + EntriesText(EntriesOf(lists[..k]))
    modifies h
    ensures h.written == VERSION + EntriesText(EntriesOf(lists[..k + 1]))
  {
    assert lists[..k + 1] == lists[..k] + [lists[k]];
    EntriesOfAppend(lists[..k], lists[k]);
    AppendAssociates(VERSION, EntriesText(EntriesOf(lists[..k])), EntriesText(SortedEntries(lists[k])));
    WriteSorted(h, tag, items);
  }

  method WriteClassifier(c: Classifier) returns (h: HashInput)
    ensures fresh(h) && h.written == Preimage(c)
  {
    h := new HashInput();
    h.Write("v2\n");
    WriteLists(h, c, ListsOf(c));
  }

  method WriteLists(h: HashInput, c: Classifier, ghost lists: seq<TaggedList>)
    requires h.written == "" + VERSION
    requires |lists| == 6
    requires lists[0] == TaggedList("P", c.prefixes) && lists[1] == TaggedList("S", c.substrings)
    requires lists[2] == TaggedList("E", c.exacts) && lists[3] == TaggedList("U", c.userPrefixes)
    requires lists[4] == TaggedList("US", c.userSubstrings) && lists[5] == TaggedList("UE", c.userExacts)
    modifies h
    ensures h.written == VERSION + EntriesText(EntriesOf(lists))
  {
    NoListsYet(lists);
    WriteList(h, lists, 0, "P", c.prefixes);
    WriteList(h, lists, 1, "S", c.substrings);
    WriteList(h, lists, 2, "E", c.exacts);
    WriteList(h, lists, 3, "U", c.userPrefixes);
    WriteList(h, lists, 4, "US", c.userSubstrings);
    WriteList(h, lists, 5, "UE", c.userExacts);
    assert lists[..6] == lists;
  }

  lemma NoListsYet(lists: seq<TaggedList>)
    ensures "" + VERSION == VERSION + EntriesText(EntriesOf(lists[..0]))
  {
  }
}
