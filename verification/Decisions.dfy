/**
 The decisions of a consolidation cycle: parsed out of a model's reply, normalized,
 restricted to the candidates that were sent, and counted.
 */
module Decisions {
  import opened Sequences
  import opened JsonExtract
  import opened JsonText

  const ACTIONS: set<string> := {"ADD", "UPDATE", "SKIP", "DELETE", "INVALIDATE"}

  datatype Decision = Decision(action: string, noteID: string, reason: string)

  /** Unknown verbs become SKIP; `canon` trims a verb and turns it to upper case. */
  function Normalize(d: Decision, canon: string -> string): (r: Decision)
    ensures r.action in ACTIONS && r.noteID == d.noteID
    ensures canon(d.action) in ACTIONS ==> r.action == canon(d.action) && r.reason == d.reason
    ensures canon(d.action) !in ACTIONS ==>
            r.action == "SKIP" && r.reason != "" && (d.reason != "" ==> r.reason == d.reason)
  {
    var action := canon(d.action);
    if action in ACTIONS then d.(action := action)
    else d.(action := "SKIP", reason := if d.reason == "" then "unrecognized_action" else d.reason)
  }

  datatype Reply = Decided(decisions: map<string, Decision>) | NoObject | Undecodable | EmptyObject | NoneKnown

  /** How a reply is read: `decode` turns an object's text into decisions, if it can. */
  datatype Reader = Reader(decode: string -> Option<map<string, Decision>>, canon: string -> string)

  /** The decoded decisions that answer a candidate that was sent, or all if none was. */
  function Answers(decoded: map<string, Decision>, ids: seq<string>, canon: string -> string): map<string, Decision> {
    map id | id in decoded && (ids == [] || id in ids) :: Normalize(decoded[id], canon)
  }

  function ReplyTo(raw: string, ids: seq<string>, r: Reader): Reply {
    var found := Extracted(raw);
    if found == "" then NoObject else
    match r.decode(found)
    case None => Undecodable
    case Some(decoded) =>
      if decoded.Keys == {} then EmptyObject
      else if Answers(decoded, ids, r.canon).Keys == {} then NoneKnown
      else Decided(Answers(decoded, ids, r.canon))
  }

  method ParseDecisions(raw: string, ids: seq<string>, r: Reader) returns (reply: Reply)
    ensures reply == ReplyTo(raw, ids, r)
  {
    var found := ExtractJSONObject(raw);
    if found == "" { return NoObject; }
    var parsed := r.decode(found);
    if parsed.None? { return Undecodable; }
    if parsed.value.Keys == {} { return EmptyObject; }
    var known: set<string> := {};
    for k := 0 to |ids|
      invariant known == set id | id in ids[..k]
    {
      assert ids[..k + 1] == ids[..k] + [ids[k]];
      known := known + {ids[k]};
    }
    assert ids[..|ids|] == ids;
    assert known == {} <==> ids == [] by { if ids != [] { assert ids[0] in known; } }
    var out := SelectKnown(parsed.value, ids, known, r.canon);
    if out.Keys == {} { return NoneKnown; }
    return Decided(out);
  }

  method SelectKnown(parsed: map<string, Decision>, ghost ids: seq<string>, known: set<string>, canon: string -> string)
    returns (out: map<string, Decision>)
    requires (known == {} <==> ids == []) && forall id :: id in known <==> id in ids
    ensures out == Answers(parsed, ids, canon)
  {
    out := map[];
    var left := parsed.Keys;
    while left != {}
      invariant left <= parsed.Keys
      invariant forall id :: id in out <==> id in parsed && id !in left && (ids == [] || id in ids)
      invariant forall id :: id in out ==> out[id] == Normalize(parsed[id], canon)
      decreases |left|
    {
      var id :| id in left;
      left := left - {id};
      if known != {} && id !in known { continue; }
      out := out[id := Normalize(parsed[id], canon)];
    }
  }

  // ----- What a reply yields -----

  /** Decisions are never empty, answer only candidates that were sent, and name only known verbs. */
  lemma DecidedIsSafe(raw: string, ids: seq<string>, r: Reader)
    requires ReplyTo(raw, ids, r).Decided?
    ensures var decisions := ReplyTo(raw, ids, r).decisions;
            && decisions.Keys != {}
            && (ids != [] ==> forall id :: id in decisions ==> id in ids)
            && (forall id :: id in decisions ==> decisions[id].action in ACTIONS)
  {
  }

  /** A reply yields decisions exactly if its first object decodes and answers some candidate. */
  lemma DecidedIff(raw: string, ids: seq<string>, r: Reader)
    ensures ReplyTo(raw, ids, r).Decided? <==>
            && Extracted(raw) != ""
            && r.decode(Extracted(raw)).Some?
            && exists id :: id in r.decode(Extracted(raw)).value && (ids == [] || id in ids)
  {
    if Extracted(raw) != "" && r.decode(Extracted(raw)).Some? {
      var decoded := r.decode(Extracted(raw)).value;
      var answers := Answers(decoded, ids, r.canon);
      assert forall id :: id in answers.Keys <==> id in decoded && (ids == [] || id in ids);
      assert answers.Keys != {} <==> exists id :: id in answers.Keys;
    }
  }

  lemma ReplyDependsOnExtraction(raw: string, other: string, ids: seq<string>, r: Reader)
    requires Extracted(raw) == Extracted(other)
    ensures ReplyTo(raw, ids, r) == ReplyTo(other, ids, r)
  {
  }

  lemma ExtractsItself(v: Json)
    requires Valid(v) && v.Obj?
    ensures Extracted(Print(v)) == Print(v)
  {
    ExtractsAnyObject("", v, "");
    assert "" + Print(v) + "" == Print(v);
  }

  /** Prose and fences around a printed object change nothing. */
  lemma WrappingDoesNotMatter(prefix: string, v: Json, suffix: string, ids: seq<string>, r: Reader)
    requires '{' !in prefix && Valid(v) && v.Obj?
    ensures ReplyTo(prefix + Print(v) + suffix, ids, r) == ReplyTo(Print(v), ids, r)
  {
    ExtractsAnyObject(prefix, v, suffix);
    ExtractsItself(v);
    ReplyDependsOnExtraction(prefix + Print(v) + suffix, Print(v), ids, r);
  }

  // ----- Counting -----

  datatype Counts = Counts(adds: nat, updates: nat, skips: nat, deletes: nat, invalidates: nat) {
    function Total(): nat {
      adds + updates + skips + deletes + invalidates
    }
  }

  /** The ids whose decision has a given verb. */
  ghost function WithAction(decisions: map<string, Decision>, action: string): set<string> {
    set id | id in decisions && decisions[id].action == action
  }

  ghost predicate Counted(c: Counts, decisions: map<string, Decision>) {
    && c.adds == |WithAction(decisions, "ADD")|
    && c.updates == |WithAction(decisions, "UPDATE")|
    && c.skips == |WithAction(decisions, "SKIP")|
    && c.deletes == |WithAction(decisions, "DELETE")|
    && c.invalidates == |WithAction(decisions, "INVALIDATE")|
  }

  method DecisionCounts(decisions: map<string, Decision>) returns (c: Counts)
    ensures Counted(c, decisions)
  {
    c := Counts(0, 0, 0, 0, 0);
    ghost var done: map<string, Decision> := map[];
    var left := decisions.Keys;
    while left != {}
      invariant left <= decisions.Keys
      invariant done.Keys == decisions.Keys - left && forall id :: id in done ==> done[id] == decisions[id]
      invariant Counted(c, done)
      decreases |left|
    {
      var id :| id in left;
      left := left - {id};
      var action := decisions[id].action;
      CountOneMore(done, id, decisions[id], "ADD");
      CountOneMore(done, id, decisions[id], "UPDATE");
      CountOneMore(done, id, decisions[id], "SKIP");
      CountOneMore(done, id, decisions[id], "DELETE");
      CountOneMore(done, id, decisions[id], "INVALIDATE");
      done := done[id := decisions[id]];
      if action == "ADD" { c := c.(adds := c.adds + 1); }
      else if action == "UPDATE" { c := c.(updates := c.updates + 1); }
      else if action == "SKIP" { c := c.(skips := c.skips + 1); }
      else if action == "DELETE" { c := c.(deletes := c.deletes + 1); }
      else if action == "INVALIDATE" { c := c.(invalidates := c.invalidates + 1); }
    }
    assert done == decisions;
  }

  lemma CountOneMore(done: map<string, Decision>, id: string, d: Decision, action: string)
    requires id !in done
    ensures |WithAction(done[id := d], action)| == |WithAction(done, action)| + if d.action == action then 1 else 0
  {
    assert WithAction(done[id := d], action) == WithAction(done, action) + if d.action == action then {id} else {};
  }

  /** The ids whose decision has one of the given verbs. */
  ghost function WithActionIn(decisions: map<string, Decision>, actions: set<string>): set<string> {
    set id | id in decisions && decisions[id].action in actions
  }

  lemma OneMoreAction(decisions: map<string, Decision>, actions: set<string>, action: string)
    requires action !in actions
    ensures |WithActionIn(decisions, actions + {action})|
            == |WithActionIn(decisions, actions)| + |WithAction(decisions, action)|
  {
    assert WithActionIn(decisions, actions + {action})
      == WithActionIn(decisions, actions) + WithAction(decisions, action);
  }

  lemma CountsOfActions(decisions: map<string, Decision>)
    ensures |WithActionIn(decisions, ACTIONS)|
            == |WithAction(decisions, "ADD")| + |WithAction(decisions, "UPDATE")| + |WithAction(decisions, "SKIP")|
               + |WithAction(decisions, "DELETE")| + |WithAction(decisions, "INVALIDATE")|
  {
    assert WithActionIn(decisions, {}) == {};
    assert ACTIONS == {} + {"ADD"} + {"UPDATE"} + {"SKIP"} + {"DELETE"} + {"INVALIDATE"};
    OneMoreAction(decisions, {}, "ADD");
    OneMoreAction(decisions, {} + {"ADD"}, "UPDATE");
    OneMoreAction(decisions, {} + {"ADD"} + {"UPDATE"}, "SKIP");
    OneMoreAction(decisions, {} + {"ADD"} + {"UPDATE"} + {"SKIP"}, "DELETE");
    OneMoreAction(decisions, {} + {"ADD"} + {"UPDATE"} + {"SKIP"} + {"DELETE"}, "INVALIDATE");
  }

  /** The five counts add up to the number of decisions exactly if every verb is a known one. */
  lemma CountsAddUp(decisions: map<string, Decision>, c: Counts)
    requires Counted(c, decisions)
    ensures c.Total() <= |decisions|
    ensures c.Total() == |decisions| <==> forall id :: id in decisions ==> decisions[id].action in ACTIONS
  {
    CountsOfActions(decisions);
    var known, rest := WithActionIn(decisions, ACTIONS), decisions.Keys - WithActionIn(decisions, ACTIONS);
    assert |rest| == |decisions| - |known|;
    assert rest == {} <==> forall id :: id in decisions ==> decisions[id].action in ACTIONS by {
      assert forall id :: id in rest <==> id in decisions && decisions[id].action !in ACTIONS;
    }
  }
}
