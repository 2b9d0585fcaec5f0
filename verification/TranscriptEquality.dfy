/**
 When two transcripts are the same to a reader: the comparison by ordinal, and what it
 amounts to.
 */
module TranscriptEquality {
  import opened Sequences

  // Each `hidden` stands for the stored columns that no reader sees: row ids, lengths, source ids.

  datatype Event = Event(
    toolUseID: string, agentID: string, subagentSessionID: string, source: string,
    status: string, content: string, timestamp: string, eventIndex: int, hidden: string)

  datatype CallFields = CallFields(toolName: string, category: string, inputJSON: string, skillName: string,
    resultContent: string)

  datatype Call = Call(
    fields: CallFields, toolUseID: string, subagentSessionID: string, resultEvents: seq<Event>, hidden: string)

  datatype MessageFields = MessageFields(
    role: string, content: string, thinkingText: string, timestamp: string,
    hasThinking: bool, hasToolUse: bool, isSystem: bool, model: string,
    contextTokens: int, outputTokens: int, hasContextTokens: bool, hasOutputTokens: bool,
    sourceSubtype: string, isCompactBoundary: bool)

  datatype Message = Message(ordinal: int, fields: MessageFields, toolCalls: seq<Call>, hidden: string)

  // ----- What a reader sees -----

  /** An event takes its position as its index, and the ids it lacks from its own call. */
  function Normalized(e: Event, call: Call, index: nat): Event {
    e.(eventIndex := index,
       toolUseID := if e.toolUseID == "" then call.toolUseID else e.toolUseID,
       subagentSessionID := if e.subagentSessionID == "" then call.subagentSessionID else e.subagentSessionID)
  }

  function EventView(call: Call, index: nat): Event
    requires index < |call.resultEvents|
  {
    Normalized(call.resultEvents[index], call, index).(hidden := "")
  }

  function CallView(c: Call): (v: Call)
    ensures |v.resultEvents| == |c.resultEvents|
    ensures forall k :: 0 <= k < |c.resultEvents| ==> v.resultEvents[k] == EventView(c, k)
  {
    c.(hidden := "", resultEvents := seq(|c.resultEvents|, k requires 0 <= k < |c.resultEvents| => EventView(c, k)))
  }

  function View(m: Message): Message {
    m.(hidden := "", toolCalls := Map(m.toolCalls, CallView))
  }

  // ----- Comparing two messages -----

  predicate SameEvent(a: Event, b: Event) {
    && a.toolUseID == b.toolUseID
    && a.agentID == b.agentID
    && a.subagentSessionID == b.subagentSessionID
    && a.source == b.source
    && a.status == b.status
    && a.content == b.content
    && a.timestamp == b.timestamp
    && a.eventIndex == b.eventIndex
  }

  predicate SameCallFields(a: CallFields, b: CallFields) {
    && a.toolName == b.toolName
    && a.category == b.category
    && a.inputJSON == b.inputJSON
    && a.skillName == b.skillName
    && a.resultContent == b.resultContent
  }

  predicate SameMessageFields(a: MessageFields, b: MessageFields) {
    && a.role == b.role
    && a.content == b.content
    && a.thinkingText == b.thinkingText
    && a.timestamp == b.timestamp
    && a.hasThinking == b.hasThinking
    && a.hasToolUse == b.hasToolUse
    && a.isSystem == b.isSystem
    && a.model == b.model
    && a.contextTokens == b.contextTokens
    && a.outputTokens == b.outputTokens
    && a.hasContextTokens == b.hasContextTokens
    && a.hasOutputTokens == b.hasOutputTokens
    && a.sourceSubtype == b.sourceSubtype
    && a.isCompactBoundary == b.isCompactBoundary
  }

  /** Two calls compare equal exactly if a reader sees the same. */
  method ToolCallEqual(a: Call, b: Call) returns (equal: bool)
    ensures equal == (CallView(a) == CallView(b))
  {
    if a.toolUseID != b.toolUseID || a.subagentSessionID != b.subagentSessionID || |a.resultEvents| != |b.resultEvents|
       || !SameCallFields(a.fields, b.fields) {
      return false;
    }
    for k := 0 to |a.resultEvents|
      invariant forall j :: 0 <= j < k ==> CallView(a).resultEvents[j] == CallView(b).resultEvents[j]
    {
      var x := Normalized(a.resultEvents[k], a, k);
      var y := Normalized(b.resultEvents[k], b, k);
      if !SameEvent(x, y) {
        assert CallView(a).resultEvents[k] != CallView(b).resultEvents[k];
        return false;
      }
    }
    assert CallView(a).resultEvents == CallView(b).resultEvents;
    return true;
  }

  method MessageEqual(a: Message, b: Message) returns (equal: bool)
    ensures equal == (View(a) == View(b))
  {
    if a.ordinal != b.ordinal || |a.toolCalls| != |b.toolCalls| || !SameMessageFields(a.fields, b.fields) {
      return false;
    }
    for k := 0 to |a.toolCalls|
      invariant forall j :: 0 <= j < k ==> View(a).toolCalls[j] == View(b).toolCalls[j]
    {
      var same := ToolCallEqual(a.toolCalls[k], b.toolCalls[k]);
      if !same {
        assert View(a).toolCalls[k] != View(b).toolCalls[k];
        return false;
      }
    }
    assert View(a).toolCalls == View(b).toolCalls;
    return true;
  }

  // ----- Transcripts -----

  ghost predicate UniqueOrdinals(s: seq<Message>) {
    forall i, j :: 0 <= i < j < |s| ==> s[i].ordinal != s[j].ordinal
  }

  /** The messages of a transcript as a reader sees them, by ordinal. */
  ghost function Views(s: seq<Message>): map<int, Message> {
    if s == [] then map[] else Views(s[..|s| - 1])[s[|s| - 1].ordinal := View(s[|s| - 1])]
  }

  /** Both sides have unique ordinals, and the same visible message at each. */
  ghost predicate SameTranscript(a: seq<Message>, b: seq<Message>) {
    UniqueOrdinals(a) && UniqueOrdinals(b) && Views(a) == Views(b)
  }

  lemma {:induction false} ViewsAt(s: seq<Message>)
    ensures forall k :: 0 <= k < |s| ==> s[k].ordinal in Views(s)
    ensures forall o :: o in Views(s) ==> exists k :: 0 <= k < |s| && s[k].ordinal == o && Views(s)[o] == View(s[k])
  {
    if s != [] {
      var front, last := s[..|s| - 1], s[|s| - 1];
      ViewsAt(front);
      forall k | 0 <= k < |s| ensures s[k].ordinal in Views(s) {
        if k < |s| - 1 { assert front[k] == s[k]; }
      }
      forall o | o in Views(s) ensures exists k :: 0 <= k < |s| && s[k].ordinal == o && Views(s)[o] == View(s[k]) {
        if o == last.ordinal {
          assert s[|s| - 1].ordinal == o;
        } else {
          var k :| 0 <= k < |front| && front[k].ordinal == o && Views(front)[o] == View(front[k]);
          assert s[k].ordinal == o;
        }
      }
    }
  }

  lemma {:induction false} ViewsSize(s: seq<Message>)
    requires UniqueOrdinals(s)
    ensures |Views(s).Keys| == |s|
  {
    if s != [] {
      var front, last := s[..|s| - 1], s[|s| - 1];
      ViewsSize(front);
      NewOrdinal(s, |s| - 1);
      assert Views(s).Keys == Views(front).Keys + {last.ordinal};
    }
  }

  /** An ordinal that did not occur before position `i` is new, and one that did is a duplicate. */
  lemma NewOrdinal(s: seq<Message>, i: nat)
    requires i < |s|
    ensures s[i].ordinal in Views(s[..i]) ==> !UniqueOrdinals(s)
    ensures s[i].ordinal !in Views(s[..i]) && UniqueOrdinals(s[..i]) ==> UniqueOrdinals(s[..i + 1])
  {
    ViewsAt(s[..i]);
    if s[i].ordinal !in Views(s[..i]) && UniqueOrdinals(s[..i]) {
      forall k | 0 <= k < i ensures s[k].ordinal != s[i].ordinal {
        assert s[..i][k].ordinal in Views(s[..i]);
      }
    }
  }

  lemma ViewOfMember(s: seq<Message>, k: nat)
    requires UniqueOrdinals(s) && k < |s|
    ensures s[k].ordinal in Views(s) && Views(s)[s[k].ordinal] == View(s[k])
  {
    ViewsAt(s);
  }

  lemma ViewsStep(s: seq<Message>, i: nat)
    requires i < |s|
    ensures Views(s[..i + 1]) == Views(s[..i])[s[i].ordinal := View(s[i])]
  {
    assert s[..i + 1][..i] == s[..i];
  }

  /** `index` holds the messages of `s` by ordinal. */
  ghost predicate Indexes(index: map<int, Message>, s: seq<Message>) {
    index.Keys == Views(s).Keys && forall o :: o in index ==> View(index[o]) == Views(s)[o]
  }

  /** Every message of `s` is in the index, with the same view. */
  ghost predicate IndexedBy(s: seq<Message>, index: map<int, Message>) {
    Views(s).Keys <= index.Keys && forall o :: o in Views(s) ==> View(index[o]) == Views(s)[o]
  }

  method TranscriptMessagesEqual(a: seq<Message>, b: seq<Message>) returns (equal: bool)
    ensures equal == SameTranscript(a, b)
  {
    SameTranscriptSameLength(a, b);
    if |a| != |b| { return false; }
    var byOrdinal: map<int, Message> := map[];
    for i := 0 to |a|
      invariant UniqueOrdinals(a[..i]) && Indexes(byOrdinal, a[..i])
    {
      NewOrdinal(a, i);
      ViewsStep(a, i);
      if a[i].ordinal in byOrdinal { return false; }
      byOrdinal := byOrdinal[a[i].ordinal := a[i]];
    }
    assert a[..|a|] == a;
    equal := AllIndexed(b, a, byOrdinal);
    if equal { IndexedBothWays(a, b, byOrdinal); }
  }

  /** The second pass: every message of `b` occurs once, and in `a` with the same view. */
  method AllIndexed(b: seq<Message>, ghost a: seq<Message>, byOrdinal: map<int, Message>) returns (equal: bool)
    requires Indexes(byOrdinal, a)
    ensures equal ==> UniqueOrdinals(b) && IndexedBy(b, byOrdinal)
    ensures !equal ==> !(UniqueOrdinals(b) && Views(a) == Views(b))
  {
    var seen: set<int> := {};
    for i := 0 to |b|
      invariant UniqueOrdinals(b[..i]) && seen == Views(b[..i]).Keys && IndexedBy(b[..i], byOrdinal)
    {
      NewOrdinal(b, i);
      ViewsStep(b, i);
      if b[i].ordinal in seen { return false; }
      if UniqueOrdinals(b) { ViewOfMember(b, i); }
      seen := seen + {b[i].ordinal};
      if b[i].ordinal !in byOrdinal { return false; }
      var same := MessageEqual(byOrdinal[b[i].ordinal], b[i]);
      if !same { return false; }
    }
    assert b[..|b|] == b;
    return true;
  }

  lemma IndexedBothWays(a: seq<Message>, b: seq<Message>, index: map<int, Message>)
    requires |a| == |b| && UniqueOrdinals(a) && UniqueOrdinals(b) && Indexes(index, a) && IndexedBy(b, index)
    ensures Views(a) == Views(b)
  {
    ViewsSize(a);
    ViewsSize(b);
    SubsetOfSameSize(Views(b).Keys, index.Keys);
    SameMap(Views(a), Views(b));
  }

  lemma SameMap(x: map<int, Message>, y: map<int, Message>)
    requires x.Keys == y.Keys && forall o :: o in x ==> x[o] == y[o]
    ensures x == y
  {
    forall o: int ensures (o in x <==> o in y) && (o in x ==> x[o] == y[o]) {
      assert o in x <==> o in x.Keys;
      assert o in y <==> o in y.Keys;
    }
    assert x == y;
  }

  lemma SubsetOfSameSize(x: set<int>, y: set<int>)
    requires x <= y && |x| == |y|
    ensures x == y
  {
    assert |y - x| == |y| - |x|;
  }

  lemma SameTranscriptSameLength(a: seq<Message>, b: seq<Message>)
    ensures SameTranscript(a, b) ==> |a| == |b|
  {
    if SameTranscript(a, b) {
      ViewsSize(a);
      ViewsSize(b);
    }
  }

  // ----- What the comparison amounts to -----

  lemma ViewsAreMembers(s: seq<Message>)
    requires UniqueOrdinals(s)
    ensures forall v :: v in Map(s, View) <==> v.ordinal in Views(s) && Views(s)[v.ordinal] == v
  {
    ViewsAt(s);
    forall v | v in Map(s, View) ensures v.ordinal in Views(s) && Views(s)[v.ordinal] == v {
      var k :| 0 <= k < |s| && Map(s, View)[k] == v;
      ViewOfMember(s, k);
    }
    forall v: Message | v.ordinal in Views(s) && Views(s)[v.ordinal] == v ensures v in Map(s, View) {
      var k :| 0 <= k < |s| && s[k].ordinal == v.ordinal && Views(s)[v.ordinal] == View(s[k]);
      assert Map(s, View)[k] == v;
    }
  }

  lemma UniqueViewsDistinct(s: seq<Message>)
    requires UniqueOrdinals(s)
    ensures Distinct(Map(s, View))
  {
  }

  lemma SameViewMembers(a: seq<Message>, b: seq<Message>)
    requires multiset(Map(a, View)) == multiset(Map(b, View))
    ensures forall v :: v in Map(a, View) <==> v in Map(b, View)
  {
    forall v ensures v in Map(a, View) <==> v in Map(b, View) {
      assert v in Map(a, View) <==> v in multiset(Map(a, View));
      assert v in Map(b, View) <==> v in multiset(Map(b, View));
    }
  }

  lemma PermutedViewsUnique(a: seq<Message>, b: seq<Message>)
    requires UniqueOrdinals(a) && multiset(Map(a, View)) == multiset(Map(b, View))
    ensures UniqueOrdinals(b)
  {
    SameViewMembers(a, b);
    ViewsAreMembers(a);
    UniqueViewsDistinct(a);
    forall i, j | 0 <= i < j < |b| ensures b[i].ordinal != b[j].ordinal {
      var x, y := Map(b, View)[i], Map(b, View)[j];
      assert x in Map(a, View) && y in Map(a, View);
      if x == y {
        OccursTwice(Map(b, View), i, j);
        DistinctOnce(Map(a, View), x);
      }
    }
  }

  lemma ViewsByMembers(a: seq<Message>, b: seq<Message>)
    requires UniqueOrdinals(a) && UniqueOrdinals(b)
    requires forall v :: v in Map(a, View) ==> v in Map(b, View)
    ensures Views(a).Keys <= Views(b).Keys
    ensures forall o :: o in Views(a) ==> Views(b)[o] == Views(a)[o]
  {
    ViewsAt(a);
    ViewsAreMembers(a);
    ViewsAreMembers(b);
    forall o | o in Views(a) ensures o in Views(b) && Views(b)[o] == Views(a)[o] {
      assert Views(a)[o].ordinal == o;
      assert Views(a)[o] in Map(b, View);
    }
  }

  /** Two transcripts are the same exactly if ordinals are unique and the visible messages are a permutation. */
  lemma SameIffPermutationOfViews(a: seq<Message>, b: seq<Message>)
    ensures SameTranscript(a, b) <==> UniqueOrdinals(a) && multiset(Map(a, View)) == multiset(Map(b, View))
  {
    if SameTranscript(a, b) {
      UniqueViewsDistinct(a);
      UniqueViewsDistinct(b);
      ViewsAreMembers(a);
      ViewsAreMembers(b);
      DistinctSameElements(Map(a, View), Map(b, View));
    }
    if UniqueOrdinals(a) && multiset(Map(a, View)) == multiset(Map(b, View)) {
      PermutedViewsUnique(a, b);
      SameViewMembers(a, b);
      ViewsByMembers(a, b);
      ViewsByMembers(b, a);
      SameMap(Views(a), Views(b));
    }
  }

  /** The order of the messages on either side does not matter. */
  lemma OrderDoesNotMatter(a: seq<Message>, b: seq<Message>, a': seq<Message>, b': seq<Message>)
    requires multiset(a) == multiset(a') && multiset(b) == multiset(b')
    ensures SameTranscript(a, b) == SameTranscript(a', b')
  {
    MapPermutation(a, a', View);
    MapPermutation(b, b', View);
    SameIffPermutationOfViews(a, a);
    SameIffPermutationOfViews(a, a');
    SameIffPermutationOfViews(a', a);
    SameIffPermutationOfViews(a, b);
    SameIffPermutationOfViews(a', b');
  }

  /**
   The comparison is symmetric and transitive, and holds of a transcript and itself exactly if its
   ordinals are unique.
   */
  lemma ComparisonLaws(a: seq<Message>, b: seq<Message>, c: seq<Message>)
    ensures SameTranscript(a, a) <==> UniqueOrdinals(a)
    ensures SameTranscript(a, b) <==> SameTranscript(b, a)
    ensures SameTranscript(a, b) && SameTranscript(b, c) ==> SameTranscript(a, c)
  {
  }
}
