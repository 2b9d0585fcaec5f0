/**
 The two ways to summarize sessions, the ranked query and the fold over rows: their
 median, 90th percentile and most active project.
 */
module SummaryAgreement {
  import opened Numbers
  import opened Sequences
  import opened Strings

  datatype Session = Session(project: string, messages: nat)

  // ----- Median and 90th percentile -----

  ghost predicate Ascending(s: seq<int>) {
    forall i, j :: 0 <= i < j < |s| ==> s[i] <= s[j]
  }

  /** A list of counts in ascending order: the ranking of the query, and the sorted slice of the fold. */
  ghost predicate IsRankingOf(ranked: seq<int>, counts: seq<int>) {
    Ascending(ranked) && multiset(ranked) == multiset(counts)
  }

  lemma {:induction false} RankingIsUnique(a: seq<int>, b: seq<int>)
    requires Ascending(a) && Ascending(b) && multiset(a) == multiset(b)
    ensures a == b
  {
    if a == [] {
      assert |b| == |multiset(b)| == 0;
    } else {
      RankingFronts(a, b);
      RankingIsUnique(a[..|a| - 1], b[..|b| - 1]);
      assert a == a[..|a| - 1] + [a[|a| - 1]] && b == b[..|b| - 1] + [b[|b| - 1]];
    }
  }

  lemma RankingFronts(a: seq<int>, b: seq<int>)
    requires Ascending(a) && Ascending(b) && multiset(a) == multiset(b) && a != []
    ensures b != [] && a[|a| - 1] == b[|b| - 1]
    ensures multiset(a[..|a| - 1]) == multiset(b[..|b| - 1])
  {
    assert a[0] in multiset(b);
    LastIsLargest(a, b);
    LastIsLargest(b, a);
    FrontOfRanking(a);
    FrontOfRanking(b);
  }

  lemma LastIsLargest(a: seq<int>, b: seq<int>)
    requires Ascending(b) && multiset(a) == multiset(b) && a != [] && b != []
    ensures a[|a| - 1] <= b[|b| - 1]
  {
    assert a[|a| - 1] in multiset(b);
  }

  lemma FrontOfRanking(a: seq<int>)
    requires a != []
    ensures multiset(a[..|a| - 1]) == multiset(a) - multiset{a[|a| - 1]}
  {
    assert a == a[..|a| - 1] + [a[|a| - 1]];
  }

  /** The ranked rows, numbered from 1, whose number is `lo` or `hi`: how many, and their sum. */
  function CountRanks(ranked: seq<int>, lo: int, hi: int): nat {
    if ranked == [] then 0 else
    CountRanks(ranked[..|ranked| - 1], lo, hi) + if |ranked| == lo || |ranked| == hi then 1 else 0
  }

  function SumRanks(ranked: seq<int>, lo: int, hi: int): int {
    if ranked == [] then 0 else
    SumRanks(ranked[..|ranked| - 1], lo, hi) + if |ranked| == lo || |ranked| == hi then ranked[|ranked| - 1] else 0
  }

  lemma {:induction false} RanksOf(ranked: seq<int>, lo: int, hi: int)
    requires 1 <= lo <= hi
    ensures CountRanks(ranked, lo, hi) == (if lo <= |ranked| then 1 else 0) + (if lo < hi <= |ranked| then 1 else 0)
    ensures SumRanks(ranked, lo, hi)
            == (if lo <= |ranked| then ranked[lo - 1] else 0) + (if lo < hi <= |ranked| then ranked[hi - 1] else 0)
  {
    if ranked != [] { RanksOf(ranked[..|ranked| - 1], lo, hi); }
  }

  /** The median of the query: the truncated average of the ranked rows numbered (n+1)/2 and (n+2)/2. */
  function QueryMedian(ranked: seq<int>): int {
    var n := |ranked|;
    var lo, hi := (n + 1) / 2, (n + 2) / 2;
    if CountRanks(ranked, lo, hi) == 0 then 0 else TruncDiv(SumRanks(ranked, lo, hi), CountRanks(ranked, lo, hi))
  }

  /** The 90th percentile of the query; `ninetieth` is the truncated product of the row count and 0.9. */
  function QueryP90(ranked: seq<int>, ninetieth: nat -> nat): int {
    var n := |ranked|;
    var rank := if ninetieth(n) + 1 < n then ninetieth(n) + 1 else n;
    if n == 0 then 0 else ranked[rank - 1]
  }

  method FoldMedian(sorted: seq<int>) returns (median: int)
    requires sorted != []
    ensures median == QueryMedian(sorted)
  {
    var n := |sorted|;
    RanksOf(sorted, (n + 1) / 2, (n + 2) / 2);
    if n % 2 == 0 {
      median := TruncDiv(sorted[n / 2 - 1] + sorted[n / 2], 2);
    } else {
      median := sorted[n / 2];
    }
  }

  method FoldP90(sorted: seq<int>, ninetieth: nat -> nat) returns (p90: int)
    requires sorted != []
    ensures p90 == QueryP90(sorted, ninetieth)
  {
    var n := |sorted|;
    var index := ninetieth(n);
    if index >= n { index := n - 1; }
    p90 := sorted[index];
  }

  /** However each side breaks ties among equal counts, the two agree on the median and the 90th percentile. */
  lemma RankingsAgree(ranked: seq<int>, sorted: seq<int>, counts: seq<int>, ninetieth: nat -> nat)
    requires IsRankingOf(ranked, counts) && IsRankingOf(sorted, counts)
    ensures QueryMedian(ranked) == QueryMedian(sorted) && QueryP90(ranked, ninetieth) == QueryP90(sorted, ninetieth)
  {
    RankingIsUnique(ranked, sorted);
  }

  // ----- The most active project -----

  function Totals(sessions: seq<Session>): map<string, nat> {
    if sessions == [] then map[] else
    var front, last := Totals(sessions[..|sessions| - 1]), sessions[|sessions| - 1];
    front[last.project := (if last.project in front then front[last.project] else 0) + last.messages]
  }

  /** Before another in the query's order: more messages, or as many and a name no greater. */
  predicate Leads(totals: map<string, nat>, p: string, q: string)
    requires p in totals && q in totals
  {
    totals[p] > totals[q] || (totals[p] == totals[q] && LexLe(p, q))
  }

  /** The query's answer: the first project in its order, or "" without projects. */
  ghost predicate IsQueryAnswer(totals: map<string, nat>, answer: string) {
    if totals.Keys == {} then answer == ""
    else answer in totals && forall q :: q in totals ==> Leads(totals, answer, q)
  }

  /** An order in which the map may be visited: each project once. */
  ghost predicate Visits(order: seq<string>, totals: map<string, nat>) {
    Distinct(order) && forall p :: p in order <==> p in totals
  }

  datatype Leader = Leader(count: nat, name: string)

  function Folded(order: seq<string>, totals: map<string, nat>): Leader
    requires forall p :: p in order ==> p in totals
  {
    if order == [] then Leader(0, "") else
    var leader := Folded(order[..|order| - 1], totals);
    var name := order[|order| - 1];
    if totals[name] > leader.count || (totals[name] == leader.count && LexLess(name, leader.name))
      then Leader(totals[name], name)
    else leader
  }

  method FoldMostActive(order: seq<string>, totals: map<string, nat>) returns (mostActive: string)
    requires forall p :: p in order ==> p in totals
    ensures mostActive == Folded(order, totals).name
  {
    var maxMsgs := 0;
    mostActive := "";
    for k := 0 to |order|
      invariant Folded(order[..k], totals) == Leader(maxMsgs, mostActive)
    {
      assert order[..k + 1][..k] == order[..k];
      var name, count := order[k], totals[order[k]];
      if count > maxMsgs || (count == maxMsgs && LexLess(name, mostActive)) {
        maxMsgs := count;
        mostActive := name;
      }
    }
    assert order[..|order|] == order;
  }

  /** The leader of a fold: the first project in the query's order, once some project has a message. */
  ghost predicate IsLeader(order: seq<string>, totals: map<string, nat>, leader: Leader)
    requires forall p :: p in order ==> p in totals
  {
    && (forall q :: q in order ==> totals[q] <= leader.count)
    && (leader.count == 0 ==> leader.name == "")
    && (leader.count > 0 ==> leader.name in order && totals[leader.name] == leader.count
                             && forall q :: q in order ==> Leads(totals, leader.name, q))
  }

  lemma {:induction false} FoldedLeads(order: seq<string>, totals: map<string, nat>)
    requires forall p :: p in order ==> p in totals
    ensures IsLeader(order, totals, Folded(order, totals))
  {
    if order != [] {
      var front, name := order[..|order| - 1], order[|order| - 1];
      FoldedLeads(front, totals);
      assert order == front + [name];
      var leader := Folded(front, totals);
      LexTotal(name, name);
      LexTotal(name, leader.name);
      forall q | q in front && LexLess(name, leader.name) && LexLe(leader.name, q) ensures LexLe(name, q) {
        LexTransitive(name, leader.name, q);
      }
    }
  }

  /** The fold gives the same answer for every order of the map. */
  lemma OrderDoesNotMatter(order: seq<string>, other: seq<string>, totals: map<string, nat>)
    requires Visits(order, totals) && Visits(other, totals)
    ensures Folded(order, totals).name == Folded(other, totals).name
  {
    FoldedLeads(order, totals);
    FoldedLeads(other, totals);
    LexTotal(Folded(order, totals).name, Folded(other, totals).name);
  }

  /**
   The query and the fold agree on the most active project exactly if some project has a message, or no
   project comes before "".
   */
  lemma MostActiveAgrees(order: seq<string>, totals: map<string, nat>, answer: string)
    requires Visits(order, totals) && IsQueryAnswer(totals, answer)
    ensures answer == Folded(order, totals).name <==>
            (exists p :: p in totals && totals[p] > 0) || totals.Keys == {} || "" in totals
  {
    FoldedLeads(order, totals);
    var leader := Folded(order, totals);
    LexTotal(answer, leader.name);
    if totals.Keys == {} {
      assert leader.count > 0 ==> leader.name in totals.Keys;
    } else if exists p :: p in totals && totals[p] > 0 {
      var p :| p in totals && totals[p] > 0;
      assert p in order;
    } else {
      assert answer in order;
    }
  }

  lemma {:induction false} TotalsOf(sessions: seq<Session>)
    ensures forall p :: p in Totals(sessions) <==> exists s :: s in sessions && s.project == p
    ensures (exists p :: p in Totals(sessions) && Totals(sessions)[p] > 0)
            <==> exists s :: s in sessions && s.messages > 0
  {
    if sessions != [] {
      var front, last := sessions[..|sessions| - 1], sessions[|sessions| - 1];
      TotalsOf(front);
      assert sessions == front + [last];
      assert last in sessions;
      TotalsGrow(sessions);
    }
  }

  lemma TotalsGrow(sessions: seq<Session>)
    requires sessions != []
    ensures var front, last := Totals(sessions[..|sessions| - 1]), sessions[|sessions| - 1];
            && (forall p :: p in front ==> p in Totals(sessions) && Totals(sessions)[p] >= front[p])
            && Totals(sessions)[last.project] >= last.messages
            && (forall p :: p in Totals(sessions) && Totals(sessions)[p] > 0 ==>
               last.messages > 0 || (p in front && front[p] > 0))
  {
  }

  /** On the sessions of a summary, the two agree exactly if some session has a message, or one has no project name. */
  lemma SummariesAgree(sessions: seq<Session>, order: seq<string>, answer: string)
    requires sessions != [] && Visits(order, Totals(sessions)) && IsQueryAnswer(Totals(sessions), answer)
    ensures answer == Folded(order, Totals(sessions)).name <==>
            exists s :: s in sessions && (s.messages > 0 || s.project == "")
  {
    TotalsOf(sessions);
    MostActiveAgrees(order, Totals(sessions), answer);
    assert sessions[0] in sessions;
    assert sessions[0].project in Totals(sessions).Keys;
    assert (exists s :: s in sessions && s.project == "") <==> "" in Totals(sessions);
  }

  /** A session without messages: the query names its project, the fold none. */
  lemma EmptySessionDisagrees(answer: string)
    requires IsQueryAnswer(Totals([Session("a", 0)]), answer)
    ensures answer == "a" && Folded(["a"], Totals([Session("a", 0)])).name == ""
  {
    var sessions := [Session("a", 0)];
    assert sessions[..0] == [] && ["a"][..0] == [];
    assert Totals(sessions) == map["a" := 0];
    assert "a" in Totals(sessions).Keys;
  }
}
