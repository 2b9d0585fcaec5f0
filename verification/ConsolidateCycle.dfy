/**
 The consolidation cycle over its staging directories: the backlog of raw candidates, the
 batch a cycle sends, what it drains, and what runs of cycles keep.
 */
module ConsolidateCycle {
  import opened Sequences
  import opened Strings
  import opened Decisions
  import opened JsonText

  // ----- The staging directories -----

  /** A file of the pool: whether it reads as a candidate, its id field, and its text. */
  datatype StagedFile = StagedFile(parses: bool, id: string, text: string)

  datatype Staging = Staging(raw: map<string, StagedFile>, consumed: map<string, StagedFile>) {
    function Names(): set<string> {
      raw.Keys + consumed.Keys
    }
  }

  /** `reader` reads replies, `trim` trims white space. */
  datatype Config = Config(batchSize: int, reader: Reader, trim: string -> string) {
    function Cap(): nat {
      if batchSize > 0 then batchSize else 20
    }
  }

  datatype Candidate = Candidate(name: string, id: string)

  predicate HasJsonName(name: string) {
    |name| >= 5 && name[|name| - 5..] == ".json"
  }

  predicate IsCandidate(name: string, raw: map<string, StagedFile>) {
    name in raw && HasJsonName(name) && raw[name].parses
  }

  /** The id of a candidate: its own, or the stem of its file name. */
  function EffectiveID(name: string, f: StagedFile, trim: string -> string): string {
    if trim(f.id) != "" then trim(f.id) else if HasJsonName(name) then name[..|name| - 5] else name
  }

  // ----- The backlog -----

  /** The candidates of the pool, by file name. */
  ghost predicate IsBacklog(names: seq<string>, raw: map<string, StagedFile>) {
    Sorted(names) && Distinct(names) && forall n :: n in names <==> IsCandidate(n, raw)
  }

  lemma BacklogIsUnique(a: seq<string>, b: seq<string>, raw: map<string, StagedFile>)
    requires IsBacklog(a, raw) && IsBacklog(b, raw)
    ensures a == b
  {
    DistinctSameElements(a, b);
    SortedIsCanonical(a, b);
  }

  lemma {:induction false} Enumerated(s: set<string>) returns (names: seq<string>)
    ensures Distinct(names) && forall n :: n in names <==> n in s
  {
    if s == {} {
      names := [];
    } else {
      var n :| n in s;
      var rest := Enumerated(s - {n});
      names := rest + [n];
    }
  }

  lemma SortedDistinct(names: seq<string>)
    requires Distinct(names)
    ensures Sorted(SortStrings(names)) && Distinct(SortStrings(names))
    ensures forall n :: n in SortStrings(names) <==> n in names
  {
    SortStringsSorts(names);
    forall n ensures n in SortStrings(names) <==> n in names {
      assert n in names <==> n in multiset(names);
      assert n in SortStrings(names) <==> n in multiset(SortStrings(names));
    }
    PermutationDistinct(SortStrings(names), names);
  }

  lemma BacklogExists(raw: map<string, StagedFile>)
    ensures exists names :: IsBacklog(names, raw)
  {
    var names := Enumerated(set n | n in raw && IsCandidate(n, raw));
    SortedDistinct(names);
    assert IsBacklog(SortStrings(names), raw);
  }

  ghost function Backlog(raw: map<string, StagedFile>): (names: seq<string>)
    ensures IsBacklog(names, raw)
  {
    BacklogExists(raw);
    var names :| IsBacklog(names, raw);
    names
  }

  // ----- One cycle -----

  datatype LockOutcome = Acquired | HeldElsewhere | Broken

  /** What a cycle meets: other writers of the raw directory included. */
  datatype World = World(
    lock: LockOutcome, lists: bool, reply: Option<string>, landed: map<string, StagedFile>,
    savesDecisions: bool, script: Option<map<string, string>>, moves: string -> bool, commits: bool, resyncs: bool)

  datatype Failure = NoFailure | Locked | Locking | Reading | Asking | Parsing | Saving | Running | Committing

  datatype RunRecord = RunRecord(
    skipped: bool, failure: Failure, candidateCount: nat, llmCalls: nat, counts: Counts,
    drained: nat, committed: bool, resynced: bool)

  function CandidateAt(name: string, raw: map<string, StagedFile>, trim: string -> string): Candidate {
    Candidate(name, if name in raw then EffectiveID(name, raw[name], trim) else "")
  }

  function Candidates(names: seq<string>, raw: map<string, StagedFile>, trim: string -> string): (cs: seq<Candidate>)
    ensures |cs| == |names|
    ensures forall k :: 0 <= k < |names| ==> cs[k] == CandidateAt(names[k], raw, trim)
  {
    seq(|names|, k requires 0 <= k < |names| => CandidateAt(names[k], raw, trim))
  }

  function Ids(batch: seq<Candidate>): (ids: seq<string>)
    ensures |ids| == |batch| && forall k :: 0 <= k < |ids| ==> ids[k] == batch[k].id
  {
    seq(|batch|, k requires 0 <= k < |batch| => batch[k].id)
  }

  /** The batch of a cycle: as many of the backlog as the cap allows. */
  ghost function Batch(raw: map<string, StagedFile>, cfg: Config): seq<Candidate> {
    var names := Backlog(raw);
    Candidates(if |names| > cfg.Cap() then names[..cfg.Cap()] else names, raw, cfg.trim)
  }

  predicate Drains(c: Candidate, decisions: map<string, Decision>, moves: string -> bool) {
    c.id in decisions && moves(c.name)
  }

  /** Moves the decided candidates whose move succeeds, one after the other. */
  function Drain(d: Staging, batch: seq<Candidate>, decisions: map<string, Decision>, moves: string -> bool): Staging {
    if batch == [] then d else
    MoveOne(Drain(d, batch[..|batch| - 1], decisions, moves), batch[|batch| - 1], decisions, moves)
  }

  function MoveOne(d: Staging, c: Candidate, decisions: map<string, Decision>, moves: string -> bool): Staging {
    if Drains(c, decisions, moves) && c.name in d.raw
      then Staging(d.raw - {c.name}, d.consumed[c.name := d.raw[c.name]])
    else d
  }

  predicate IsWriteResult(result: string, trim: string -> string) {
    "write " <= trim(result) || "update " <= trim(result) || "soft_invalidate " <= trim(result)
  }

  /** Some decision's result line says that a note changed. */
  ghost predicate Wrote(decisions: map<string, Decision>, results: map<string, string>, trim: string -> string) {
    exists id :: id in decisions && id in results && IsWriteResult(results[id], trim)
  }

  // ----- What a drain does -----

  ghost function DrainedNames(batch: seq<Candidate>, decisions: map<string, Decision>,
          moves: string -> bool): set<string>
  {
    set c | c in batch && Drains(c, decisions, moves) :: c.name
  }

  ghost predicate DistinctNames(batch: seq<Candidate>) {
    forall i, j :: 0 <= i < j < |batch| ==> batch[i].name != batch[j].name
  }

  /** The pool with some files moved from the raw to the consumed directory. */
  ghost function Moved(d: Staging, names: set<string>): Staging
    requires names <= d.raw.Keys
  {
    Staging(d.raw - names, d.consumed + (map n | n in names :: d.raw[n]))
  }

  lemma MovedOneMore(d: Staging, names: set<string>, c: Candidate, decisions: map<string, Decision>,
          moves: string -> bool)
    requires names <= d.raw.Keys && c.name in d.raw && c.name !in names && Drains(c, decisions, moves)
    ensures MoveOne(Moved(d, names), c, decisions, moves) == Moved(d, names + {c.name})
  {
    var n := c.name;
    assert d.raw - (names + {n}) == d.raw - names - {n};
    assert d.consumed + (map m | m in names + {n} :: d.raw[m])
      == (d.consumed + (map m | m in names :: d.raw[m]))[n := d.raw[n]];
  }

  lemma MovedNone(d: Staging)
    ensures Moved(d, {}) == d
  {
    assert d.raw - {} == d.raw;
  }

  /** A drain moves exactly the files of decided candidates whose move succeeds. */
  lemma {:induction false} DrainIsExact(d: Staging, batch: seq<Candidate>, decisions: map<string, Decision>,
          moves: string -> bool)
    requires DistinctNames(batch) && forall c :: c in batch ==> c.name in d.raw
    ensures DrainedNames(batch, decisions, moves) <= d.raw.Keys
    ensures Drain(d, batch, decisions, moves) == Moved(d, DrainedNames(batch, decisions, moves))
  {
    if batch == [] {
      assert DrainedNames(batch, decisions, moves) == {};
      MovedNone(d);
    } else {
      var front, c := batch[..|batch| - 1], batch[|batch| - 1];
      DrainIsExact(d, front, decisions, moves);
      DrainedOneMore(batch, decisions, moves);
      if Drains(c, decisions, moves) { MovedOneMore(d, DrainedNames(front, decisions, moves), c, decisions, moves); }
    }
  }

  lemma DrainNext(d: Staging, batch: seq<Candidate>, k: nat, decisions: map<string, Decision>, moves: string -> bool)
    requires DistinctNames(batch) && k < |batch| && forall c :: c in batch ==> c.name in d.raw
    ensures batch[k].name in Drain(d, batch[..k], decisions, moves).raw
    ensures Drain(d, batch[..k + 1], decisions, moves)
            == MoveOne(Drain(d, batch[..k], decisions, moves), batch[k], decisions, moves)
    ensures |DrainedNames(batch[..k + 1], decisions, moves)|
            == |DrainedNames(batch[..k], decisions, moves)| + if Drains(batch[k], decisions, moves) then 1 else 0
  {
    assert batch[..k + 1][..k] == batch[..k];
    DrainedOneMore(batch[..k + 1], decisions, moves);
    assert batch[k] in batch;
    StillThere(d, batch[..k], batch[k].name, decisions, moves);
  }

  lemma StillThere(d: Staging, batch: seq<Candidate>, name: string, decisions: map<string, Decision>,
          moves: string -> bool)
    requires DistinctNames(batch) && forall c :: c in batch ==> c.name in d.raw
    requires name in d.raw && name !in DrainedNames(batch, decisions, moves)
    ensures name in Drain(d, batch, decisions, moves).raw
  {
    DrainIsExact(d, batch, decisions, moves);
  }

  lemma DrainedOneMore(batch: seq<Candidate>, decisions: map<string, Decision>, moves: string -> bool)
    requires DistinctNames(batch) && batch != []
    ensures var front, c := batch[..|batch| - 1], batch[|batch| - 1];
            && c.name !in DrainedNames(front, decisions, moves)
            && DrainedNames(batch, decisions, moves)
               == if Drains(c, decisions, moves) then DrainedNames(front, decisions, moves) + {c.name}
                 else DrainedNames(front, decisions, moves)
  {
    var front, c := batch[..|batch| - 1], batch[|batch| - 1];
    assert batch == front + [c];
    forall x | x in front ensures x.name != c.name {
      var k :| 0 <= k < |front| && front[k] == x;
      assert batch[k] == x && batch[|batch| - 1] == c;
    }
  }

  // ----- What a cycle does -----

  lemma BatchIsDistinct(raw: map<string, StagedFile>, cfg: Config)
    ensures DistinctNames(Batch(raw, cfg))
    ensures forall c :: c in Batch(raw, cfg) ==> IsCandidate(c.name, raw) && c == CandidateAt(c.name, raw, cfg.trim)
    ensures |Batch(raw, cfg)| == if |Backlog(raw)| > cfg.Cap() then cfg.Cap() else |Backlog(raw)|
  {
    var names := Backlog(raw);
    forall k | 0 <= k < |names| ensures IsCandidate(names[k], raw) { assert names[k] in names; }
  }

  /** The cycle gets to ask its model. */
  ghost predicate Asks(d: Staging, w: World) {
    w.lock.Acquired? && w.lists && Backlog(d.raw) != []
  }

  /** What the model's reply comes to. */
  ghost function ReplyOf(d: Staging, w: World, cfg: Config): Reply
    requires w.reply.Some?
  {
    ReplyTo(w.reply.value, Ids(Batch(d.raw, cfg)), cfg.reader)
  }

  /** The script has run on the decisions of the reply. */
  ghost predicate Runs(d: Staging, w: World, cfg: Config) {
    Asks(d, w) && w.reply.Some? && ReplyOf(d, w, cfg).Decided? && w.savesDecisions && w.script.Some?
  }

  /** The pool once the model has answered: by then other files may have landed. */
  ghost function Before(d: Staging, w: World): Staging {
    if Asks(d, w) then Staging(d.raw + w.landed, d.consumed) else d
  }

  /** The pool after a cycle: drained only if the script ran. */
  ghost function After(d: Staging, w: World, cfg: Config): Staging {
    if Runs(d, w, cfg) then Drain(Before(d, w), Batch(d.raw, cfg), ReplyOf(d, w, cfg).decisions, w.moves)
      else Before(d, w)
  }

  /** The files a cycle drains: those of its batch whose id was decided and whose move succeeds. */
  ghost function CycleMoves(d: Staging, w: World, cfg: Config): set<string> {
    if Runs(d, w, cfg) then DrainedNames(Batch(d.raw, cfg), ReplyOf(d, w, cfg).decisions, w.moves) else {}
  }

  /** A cycle moves exactly the decided part of its batch. */
  lemma CycleMovesDecided(d: Staging, w: World, cfg: Config)
    ensures CycleMoves(d, w, cfg) <= Before(d, w).raw.Keys
    ensures After(d, w, cfg) == Moved(Before(d, w), CycleMoves(d, w, cfg))
  {
    BatchIsDistinct(d.raw, cfg);
    if Runs(d, w, cfg) {
      DrainIsExact(Before(d, w), Batch(d.raw, cfg), ReplyOf(d, w, cfg).decisions, w.moves);
    } else {
      MovedNone(Before(d, w));
    }
  }

  /** Every drained file is in the cycle's batch, its id has a decision in the reply, and the script has run. */
  lemma OnlyDecidedAreDrained(d: Staging, w: World, cfg: Config, name: string)
    requires name in d.raw && name !in After(d, w, cfg).raw
    ensures Runs(d, w, cfg)
    ensures CandidateAt(name, d.raw, cfg.trim) in Batch(d.raw, cfg)
    ensures EffectiveID(name, d.raw[name], cfg.trim) in ReplyOf(d, w, cfg).decisions
  {
    CycleMovesDecided(d, w, cfg);
    BatchIsDistinct(d.raw, cfg);
    var c :| c in Batch(d.raw, cfg) && c.name == name && Drains(c, ReplyOf(d, w, cfg).decisions, w.moves);
  }

  lemma MovingKeeps(d: Staging, names: set<string>)
    requires names <= d.raw.Keys
    ensures Moved(d, names).Names() == d.Names()
    ensures forall n :: n in d.raw ==>
              if n in names then n in Moved(d, names).consumed && Moved(d, names).consumed[n] == d.raw[n]
              else n in Moved(d, names).raw && Moved(d, names).raw[n] == d.raw[n]
    ensures forall n :: n in d.consumed ==>
              && n in Moved(d, names).consumed
              && Moved(d, names).consumed[n] == if n in names then d.raw[n] else d.consumed[n]
  {
  }

  /** No cycle loses a file name, and every raw file keeps its content where it stays or goes. */
  lemma CycleKeepsNames(d: Staging, w: World, cfg: Config)
    ensures After(d, w, cfg).Names() == Before(d, w).Names() >= d.Names()
    ensures forall n :: n in Before(d, w).raw ==>
              var e := After(d, w, cfg);
              if n in CycleMoves(d, w, cfg) then n in e.consumed && e.consumed[n] == Before(d, w).raw[n]
              else n in e.raw && e.raw[n] == Before(d, w).raw[n]
  {
    CycleMovesDecided(d, w, cfg);
    MovingKeeps(Before(d, w), CycleMoves(d, w, cfg));
  }

  /** A drained file replaces a consumed one of the same name; all other consumed files stay as they are. */
  lemma DrainReplacesNamesakes(d: Staging, w: World, cfg: Config)
    ensures CycleMoves(d, w, cfg) <= Before(d, w).raw.Keys
    ensures forall n :: n in d.consumed ==>
              && n in After(d, w, cfg).consumed
              && After(d, w, cfg).consumed[n]
                 == if n in CycleMoves(d, w, cfg) then Before(d, w).raw[n] else d.consumed[n]
  {
    CycleMovesDecided(d, w, cfg);
    MovingKeeps(Before(d, w), CycleMoves(d, w, cfg));
  }

  /** No drained candidate meets a consumed file of its name with another content. */
  ghost predicate NamesakesAgree(d: Staging, w: World, cfg: Config) {
    forall c ::
      c in Batch(d.raw, cfg) && Runs(d, w, cfg) && Drains(c, ReplyOf(d, w, cfg).decisions, w.moves)
      && c.name in d.consumed ==>
      c.name in Before(d, w).raw && Before(d, w).raw[c.name] == d.consumed[c.name]
  }

  /** Every consumed file keeps its content exactly if no drained candidate has a namesake with another content. */
  lemma ConsumedIsKeptIff(d: Staging, w: World, cfg: Config)
    ensures (forall n :: n in d.consumed ==>
            n in After(d, w, cfg).consumed && After(d, w, cfg).consumed[n] == d.consumed[n])
            <==> NamesakesAgree(d, w, cfg)
  {
    DrainReplacesNamesakes(d, w, cfg);
    MovedNames(d, w, cfg);
  }

  /** No file that lands while the model is asked has the name of a candidate that the cycle drains. */
  ghost predicate LandingsAreNew(d: Staging, w: World, cfg: Config) {
    forall c :: c in Batch(d.raw, cfg) && Runs(d, w, cfg) && Drains(c, ReplyOf(d, w, cfg).decisions, w.moves) ==>
      c.name !in w.landed
  }

  /** Every file that lands stays in the raw directory exactly if none has the name of a drained candidate. */
  lemma LandedStaysIff(d: Staging, w: World, cfg: Config)
    requires Asks(d, w)
    ensures (forall n :: n in w.landed ==> n in After(d, w, cfg).raw && After(d, w, cfg).raw[n] == w.landed[n])
            <==> LandingsAreNew(d, w, cfg)
  {
    CycleKeepsNames(d, w, cfg);
    CycleMovesDecided(d, w, cfg);
    assert forall n :: n in w.landed ==> n in Before(d, w).raw && Before(d, w).raw[n] == w.landed[n];
    MovedNames(d, w, cfg);
  }

  lemma MovedNames(d: Staging, w: World, cfg: Config)
    ensures forall n :: n in CycleMoves(d, w, cfg) <==>
              Runs(d, w, cfg) && exists c ::
                c in Batch(d.raw, cfg) && Drains(c, ReplyOf(d, w, cfg).decisions, w.moves) && c.name == n
  {
  }

  lemma OneFileBacklog(raw: map<string, StagedFile>, name: string)
    requires raw.Keys == {name} && IsCandidate(name, raw)
    ensures Backlog(raw) == [name]
  {
    LexTotal(name, name);
    assert forall n :: n in raw <==> n in raw.Keys;
    BacklogIsUnique(Backlog(raw), [name], raw);
  }

  lemma EmptyObjectDecides(r: Reader, id: string, decided: map<string, Decision>)
    requires r.decode("{}") == Some(decided) && id in decided
    ensures ReplyTo("{}", [id], r).Decided? && id in ReplyTo("{}", [id], r).decisions
  {
    ExtractsItself(Obj("", NoMembers));
    assert Print(Obj("", NoMembers)) == "{}";
    assert id in decided.Keys && id in Answers(decided, [id], r.canon).Keys;
  }

  lemma OneFileBatch(raw: map<string, StagedFile>, name: string, cfg: Config)
    requires raw.Keys == {name} && IsCandidate(name, raw) && cfg.Cap() > 0
    ensures Batch(raw, cfg) == [CandidateAt(name, raw, cfg.trim)]
    ensures Ids(Batch(raw, cfg)) == [CandidateAt(name, raw, cfg.trim).id]
  {
    OneFileBacklog(raw, name);
  }

  lemma OneFileMoves(d: Staging, w: World, cfg: Config, c: Candidate)
    requires Batch(d.raw, cfg) == [c] && Runs(d, w, cfg) && Drains(c, ReplyOf(d, w, cfg).decisions, w.moves)
    ensures CycleMoves(d, w, cfg) == {c.name}
  {
    assert c in Batch(d.raw, cfg);
  }

  const SKIP_A := map["a" := Decision("SKIP", "", "")]

  /** The model decides on the one candidate, and everything works. */
  function SkipsA(landed: map<string, StagedFile>): World {
    World(Acquired, true, Some("{}"), landed, true, Some(map[]), (s: string) => true, true, true)
  }

  function ReadsAsSkip(): Config {
    Config(0, Reader((s: string) => Some(SKIP_A), (s: string) => s), (s: string) => s)
  }

  lemma OneFileCycle(d: Staging, landed: map<string, StagedFile>)
    requires d.raw.Keys == {"a.json"} && d.raw["a.json"].parses && d.raw["a.json"].id == "a"
    ensures Asks(d, SkipsA(landed)) && CycleMoves(d, SkipsA(landed), ReadsAsSkip()) == {"a.json"}
    ensures After(d, SkipsA(landed), ReadsAsSkip()) == Moved(Before(d, SkipsA(landed)), {"a.json"})
  {
    var w, cfg := SkipsA(landed), ReadsAsSkip();
    OneFileBatch(d.raw, "a.json", cfg);
    OneFileBacklog(d.raw, "a.json");
    EmptyObjectDecides(cfg.reader, "a", SKIP_A);
    OneFileMoves(d, w, cfg, Candidate("a.json", "a"));
    CycleMovesDecided(d, w, cfg);
  }

  /** A candidate under a used name is drained, and the earlier text is in neither directory any more. */
  lemma ConsumedTextIsLost() returns (d: Staging, w: World, cfg: Config)
    ensures d.consumed == map["a.json" := StagedFile(true, "a", "old")] && w.landed == map[]
    ensures After(d, w, cfg) == Staging(map[], map["a.json" := StagedFile(true, "a", "new")])
  {
    d := Staging(map["a.json" := StagedFile(true, "a", "new")], map["a.json" := StagedFile(true, "a", "old")]);
    w, cfg := SkipsA(map[]), ReadsAsSkip();
    OneFileCycle(d, map[]);
    NothingLands(d);
    OneFileMoved(d, "a.json");
  }

  /** A file that replaces a candidate while the model is asked is drained with the decision on the text it replaced. */
  lemma LandedIsDrainedUnread() returns (d: Staging, w: World, cfg: Config)
    ensures d == Staging(map["a.json" := StagedFile(true, "a", "read")], map[])
    ensures w.landed == map["a.json" := StagedFile(true, "b", "never read")]
    ensures After(d, w, cfg) == Staging(map[], w.landed)
  {
    d := Staging(map["a.json" := StagedFile(true, "a", "read")], map[]);
    w, cfg := SkipsA(map["a.json" := StagedFile(true, "b", "never read")]), ReadsAsSkip();
    OneFileCycle(d, w.landed);
    assert d.raw + w.landed == w.landed;
    OneFileMoved(Before(d, w), "a.json");
  }

  lemma OneFileMoved(d: Staging, name: string)
    requires d.raw.Keys == {name} && d.consumed.Keys <= {name}
    ensures Moved(d, {name}) == Staging(map[], map[name := d.raw[name]])
  {
    assert (d.raw - {name}).Keys == {};
    assert (d.consumed + (map n | n in {name} :: d.raw[n])).Keys == {name};
  }

  ghost function CountsOf(decisions: map<string, Decision>): (c: Counts)
    ensures Counted(c, decisions)
  {
    Counts(|WithAction(decisions, "ADD")|, |WithAction(decisions, "UPDATE")|, |WithAction(decisions, "SKIP")|,
           |WithAction(decisions, "DELETE")|, |WithAction(decisions, "INVALIDATE")|)
  }

  const NO_COUNTS := Counts(0, 0, 0, 0, 0)

  /** The record of a cycle with `decisions` over `backlog` candidates, of which it moves `moved` if its script runs. */
  ghost function ActedRecord(backlog: nat, decisions: map<string, Decision>, moved: nat, w: World,
          cfg: Config): RunRecord
  {
    var counts := CountsOf(decisions);
    if !w.savesDecisions then RunRecord(false, Saving, backlog, 1, counts, 0, false, false)
    else if w.script.None? then RunRecord(false, Running, backlog, 1, counts, 0, false, false)
    else
      var wrote := Wrote(decisions, w.script.value, cfg.trim);
      if wrote && !w.commits then RunRecord(false, Committing, backlog, 1, counts, moved, false, false)
      else RunRecord(false, NoFailure, backlog, 1, counts, moved, wrote, wrote && w.resyncs)
  }

  /** The record of a cycle. */
  ghost function RecordOf(d: Staging, w: World, cfg: Config): RunRecord {
    var backlog := |Backlog(d.raw)|;
    if w.lock.HeldElsewhere? then RunRecord(true, Locked, 0, 0, NO_COUNTS, 0, false, false)
    else if w.lock.Broken? then RunRecord(false, Locking, 0, 0, NO_COUNTS, 0, false, false)
    else if !w.lists then RunRecord(false, Reading, 0, 0, NO_COUNTS, 0, false, false)
    else if backlog == 0 then RunRecord(true, NoFailure, 0, 0, NO_COUNTS, 0, false, false)
    else if w.reply.None? then RunRecord(false, Asking, backlog, 1, NO_COUNTS, 0, false, false)
    else if !ReplyOf(d, w, cfg).Decided? then RunRecord(false, Parsing, backlog, 1, NO_COUNTS, 0, false, false)
    else ActedRecord(backlog, ReplyOf(d, w, cfg).decisions, |CycleMoves(d, w, cfg)|, w, cfg)
  }

  /** A cycle that failed before its script ran drains nothing. */
  lemma FailureBeforeScriptDrainsNothing(d: Staging, w: World, cfg: Config)
    requires var f := RecordOf(d, w, cfg).failure; !f.NoFailure? && !f.Committing?
    ensures After(d, w, cfg) == Before(d, w) && RecordOf(d, w, cfg).drained == 0
  {
  }

  lemma RecordCounts(d: Staging, w: World, cfg: Config)
    ensures RecordOf(d, w, cfg).counts
            == if Asks(d, w) && w.reply.Some? && ReplyOf(d, w, cfg).Decided?
              then CountsOf(ReplyOf(d, w, cfg).decisions) else NO_COUNTS
  {
  }

  /** The counts of a cycle add up to its decisions: none, unless its reply was parsed. */
  lemma CycleCountsAddUp(d: Staging, w: World, cfg: Config)
    ensures RecordOf(d, w, cfg).counts.Total()
            == if Asks(d, w) && w.reply.Some? && ReplyOf(d, w, cfg).Decided? then |ReplyOf(d, w, cfg).decisions| else 0
  {
    RecordCounts(d, w, cfg);
    if Asks(d, w) && w.reply.Some? && ReplyOf(d, w, cfg).Decided? {
      DecidedIsSafe(w.reply.value, Ids(Batch(d.raw, cfg)), cfg.reader);
      CountsAddUp(ReplyOf(d, w, cfg).decisions, CountsOf(ReplyOf(d, w, cfg).decisions));
    }
  }

  // ----- Runs -----

  datatype Event = Run(world: World) | Land(files: map<string, StagedFile>)

  /** Cycles and landings, one after the other. */
  ghost function Pool(d: Staging, events: seq<Event>, cfg: Config): Staging {
    if events == [] then d else
    var before := Pool(d, events[..|events| - 1], cfg);
    match events[|events| - 1]
    case Run(w) => After(before, w, cfg)
    case Land(files) => Staging(before.raw + files, before.consumed)
  }

  /** Over any run, no file name is ever lost. */
  lemma {:induction false} NamesNeverShrink(d: Staging, events: seq<Event>, k: nat, cfg: Config)
    requires k <= |events|
    ensures Pool(d, events[..k], cfg).Names() <= Pool(d, events, cfg).Names()
  {
    if k == |events| {
      assert events[..k] == events;
    } else {
      var front := events[..|events| - 1];
      assert front[..k] == events[..k];
      NamesNeverShrink(d, front, k, cfg);
      match events[|events| - 1]
      case Run(w) => CycleKeepsNames(Pool(d, front, cfg), w, cfg);
      case Land(_) =>
    }
  }

  // ----- Working off a backlog -----

  /** A cycle in which nothing goes wrong, nothing lands, and every candidate of the batch gets a decision. */
  ghost predicate Smooth(d: Staging, w: World, cfg: Config) {
    && w.lock.Acquired? && w.lists && w.landed == map[]
    && (Backlog(d.raw) != [] ==>
          && Runs(d, w, cfg)
          && (forall c :: c in Batch(d.raw, cfg) ==> Drains(c, ReplyOf(d, w, cfg).decisions, w.moves)))
  }

  /** What remains of a list without its first `k` elements. */
  function Drop(s: seq<string>, k: nat): seq<string> {
    if k < |s| then s[k..] else []
  }

  lemma DropTwice(s: seq<string>, a: nat, b: nat)
    ensures Drop(Drop(s, a), b) == Drop(s, a + b)
  {
  }

  lemma DropNone(s: seq<string>)
    ensures Drop(s, 0) == s
  {
  }

  function Take(s: seq<string>, k: nat): seq<string> {
    if k < |s| then s[..k] else s
  }

  lemma TakeAndDrop(s: seq<string>, k: nat)
    ensures s == Take(s, k) + Drop(s, k)
    ensures forall n :: n in s <==> n in Take(s, k) || n in Drop(s, k)
  {
    assert s == Take(s, k) + Drop(s, k);
  }

  /** Removing files from the front of the backlog leaves its rest. */
  lemma BacklogRest(raw: map<string, StagedFile>, k: nat)
    ensures Backlog(raw - (set n | n in Take(Backlog(raw), k))) == Drop(Backlog(raw), k)
  {
    var names, removed := Backlog(raw), set n | n in Take(Backlog(raw), k);
    TakeAndDrop(names, k);
    TakenNotDropped(names, k);
    forall n ensures n in Drop(names, k) <==> IsCandidate(n, raw - removed) {
      assert n in names <==> IsCandidate(n, raw);
    }
    BacklogIsUnique(Backlog(raw - removed), Drop(names, k), raw - removed);
  }

  lemma TakenNotDropped(names: seq<string>, k: nat)
    requires Distinct(names)
    ensures forall n :: n in Drop(names, k) ==> n !in Take(names, k)
  {
    forall n | n in Drop(names, k) ensures n !in Take(names, k) {
      var i :| 0 <= i < |names| - k && Drop(names, k)[i] == n;
      assert names[k + i] == n;
      assert forall j :: 0 <= j < k ==> names[j] != names[k + i];
    }
  }

  /** A smooth cycle drains its batch. */
  lemma SmoothMovesBatch(d: Staging, w: World, cfg: Config)
    requires Smooth(d, w, cfg)
    ensures CycleMoves(d, w, cfg) == set n | n in Take(Backlog(d.raw), cfg.Cap())
  {
    var names, batch := Take(Backlog(d.raw), cfg.Cap()), Batch(d.raw, cfg);
    assert |batch| == |names| && forall i :: 0 <= i < |names| ==> batch[i].name == names[i];
    if Backlog(d.raw) != [] {
      forall n | n in names ensures n in CycleMoves(d, w, cfg) {
        var i :| 0 <= i < |names| && names[i] == n;
        assert batch[i] in batch;
      }
    }
  }

  /** A smooth cycle takes one batch off the front of the backlog. */
  lemma SmoothCycle(d: Staging, w: World, cfg: Config)
    requires Smooth(d, w, cfg)
    ensures Backlog(After(d, w, cfg).raw) == Drop(Backlog(d.raw), cfg.Cap())
  {
    SmoothRemovesBatch(d, w, cfg);
    BacklogRest(d.raw, cfg.Cap());
  }

  lemma SmoothRemovesBatch(d: Staging, w: World, cfg: Config)
    requires Smooth(d, w, cfg)
    ensures After(d, w, cfg).raw == d.raw - (set n | n in Take(Backlog(d.raw), cfg.Cap()))
  {
    CycleMovesDecided(d, w, cfg);
    SmoothMovesBatch(d, w, cfg);
    NothingLands(d);
  }

  lemma NothingLands(d: Staging)
    ensures d.raw + map[] == d.raw
  {
  }

  ghost function AfterAll(d: Staging, worlds: seq<World>, cfg: Config): Staging {
    if worlds == [] then d else After(AfterAll(d, worlds[..|worlds| - 1], cfg), worlds[|worlds| - 1], cfg)
  }

  /** A run of smooth cycles. */
  ghost predicate SmoothRun(d: Staging, worlds: seq<World>, cfg: Config) {
    worlds != [] ==>
      SmoothRun(d, worlds[..|worlds| - 1], cfg)
        && Smooth(AfterAll(d, worlds[..|worlds| - 1], cfg), worlds[|worlds| - 1], cfg)
  }

  lemma SmoothCycleAfter(d: Staging, w: World, cfg: Config, all: seq<string>, k: nat)
    requires Smooth(d, w, cfg) && Backlog(d.raw) == Drop(all, k)
    ensures Backlog(After(d, w, cfg).raw) == Drop(all, k + cfg.Cap())
  {
    SmoothCycle(d, w, cfg);
    DropTwice(all, k, cfg.Cap());
  }

  lemma SmoothRunStep(d: Staging, worlds: seq<World>, cfg: Config)
    requires worlds != [] && SmoothRun(d, worlds, cfg)
    ensures var front, last := worlds[..|worlds| - 1], worlds[|worlds| - 1];
            && SmoothRun(d, front, cfg) && Smooth(AfterAll(d, front, cfg), last, cfg)
            && AfterAll(d, worlds, cfg) == After(AfterAll(d, front, cfg), last, cfg)
  {
  }

  lemma {:induction false} SmoothRunTakesBatches(d: Staging, worlds: seq<World>, cfg: Config)
    requires SmoothRun(d, worlds, cfg)
    ensures Backlog(AfterAll(d, worlds, cfg).raw) == Drop(Backlog(d.raw), Times(|worlds|, cfg.Cap()))
  {
    if worlds == [] {
      DropNone(Backlog(d.raw));
    } else {
      var front, last := worlds[..|worlds| - 1], worlds[|worlds| - 1];
      SmoothRunStep(d, worlds, cfg);
      SmoothRunTakesBatches(d, front, cfg);
      SmoothCycleAfter(AfterAll(d, front, cfg), last, cfg, Backlog(d.raw), Times(|front|, cfg.Cap()));
    }
  }

  function Times(k: nat, n: nat): nat {
    if k == 0 then 0 else Times(k - 1, n) + n
  }

  /** When every batch is decided and drained, the backlog is empty exactly from the cycle numbered ceil(n / cap) on. */
  lemma BacklogEmpties(d: Staging, worlds: seq<World>, cfg: Config)
    requires SmoothRun(d, worlds, cfg)
    ensures Backlog(AfterAll(d, worlds, cfg).raw) == []
            <==> |worlds| >= (|Backlog(d.raw)| + cfg.Cap() - 1) / cfg.Cap()
  {
    SmoothRunTakesBatches(d, worlds, cfg);
    CeilingBound(|Backlog(d.raw)|, cfg.Cap(), |worlds|);
  }

  lemma {:induction false} TimesIsProduct(k: nat, n: nat)
    ensures Times(k, n) == k * n
  {
    if k > 0 { TimesIsProduct(k - 1, n); }
  }

  lemma ProductMonotone(a: nat, b: nat, n: nat)
    requires a <= b
    ensures a * n <= b * n
  {
  }

  lemma CeilingBound(n: nat, cap: nat, k: nat)
    requires cap > 0
    ensures k >= (n + cap - 1) / cap <==> Times(k, cap) >= n
  {
    TimesIsProduct(k, cap);
    var q := (n + cap - 1) / cap;
    assert q * cap + (n + cap - 1) % cap == n + cap - 1;
    if k >= q { ProductMonotone(q, k, cap); } else { ProductMonotone(k + 1, q, cap); }
  }

  // ----- The worker -----

  /** The names a directory lists: each file once, in any order. */
  ghost predicate Lists(listing: seq<string>, raw: map<string, StagedFile>) {
    Distinct(listing) && forall n :: n in listing <==> n in raw
  }

  lemma {:induction false} FilterKeepsOrder(names: seq<string>, p: string -> bool)
    ensures Sorted(names) ==> Sorted(Filter(names, p))
    ensures Distinct(names) ==> Distinct(Filter(names, p))
  {
    if names != [] {
      var front := names[..|names| - 1];
      FilterKeepsOrder(front, p);
      FilterMembers(front, p);
      var kept := Filter(front, p);
      forall i | 0 <= i < |kept|
        ensures Sorted(names) ==> LexLe(kept[i], names[|names| - 1])
        ensures Distinct(names) ==> kept[i] != names[|names| - 1]
      {
        assert kept[i] in front;
        var k :| 0 <= k < |front| && front[k] == kept[i];
        assert names[k] == kept[i];
      }
    }
  }

  lemma ReadingYieldsBacklog(listing: seq<string>, raw: map<string, StagedFile>, parses: string -> bool)
    requires Lists(listing, raw) && forall n :: parses(n) <==> n in raw && raw[n].parses
    ensures Filter(SortStrings(Filter(listing, HasJsonName)), parses) == Backlog(raw)
  {
    var names := Filter(listing, HasJsonName);
    FilterKeepsOrder(listing, HasJsonName);
    FilterMembers(listing, HasJsonName);
    SortedDistinct(names);
    FilterKeepsOrder(SortStrings(names), parses);
    FilterMembers(SortStrings(names), parses);
    BacklogIsUnique(Filter(SortStrings(names), parses), Backlog(raw), raw);
  }

  class Worker {
    const cfg: Config
    var staging: Staging
    var audit: seq<RunRecord>

    constructor (cfg: Config, staging: Staging)
      ensures this.cfg == cfg && this.staging == staging && audit == []
    {
      this.cfg := cfg;
      this.staging := staging;
      audit := [];
    }

    method ReadCandidates(listing: seq<string>) returns (candidates: seq<Candidate>)
      requires Lists(listing, staging.raw)
      ensures candidates == Candidates(Backlog(staging.raw), staging.raw, cfg.trim)
    {
      var raw := staging.raw;
      var names := [];
      for k := 0 to |listing|
        invariant names == Filter(listing[..k], HasJsonName)
      {
        assert listing[..k + 1][..k] == listing[..k];
        if HasJsonName(listing[k]) { names := names + [listing[k]]; }
      }
      assert listing[..|listing|] == listing;
      ghost var parses := (n: string) => n in raw && raw[n].parses;
      ReadingYieldsBacklog(listing, raw, parses);
      candidates := Decode(SortStrings(names), raw, parses);
    }

    /** Files that do not read as candidates are skipped. */
    method Decode(names: seq<string>, raw: map<string, StagedFile>, ghost parses: string -> bool)
      returns (candidates: seq<Candidate>)
      requires forall n :: parses(n) <==> n in raw && raw[n].parses
      ensures candidates == Candidates(Filter(names, parses), raw, cfg.trim)
    {
      candidates := [];
      for k := 0 to |names|
        invariant candidates == Candidates(Filter(names[..k], parses), raw, cfg.trim)
      {
        assert names[..k + 1][..k] == names[..k];
        if names[k] in raw && raw[names[k]].parses {
          candidates := candidates + [CandidateAt(names[k], raw, cfg.trim)];
        }
      }
      assert names[..|names|] == names;
    }

    method DrainConsumed(batch: seq<Candidate>, decisions: map<string, Decision>, moves: string -> bool)
      returns (moved: nat)
      requires DistinctNames(batch) && forall c :: c in batch ==> c.name in staging.raw
      modifies this`staging
      ensures staging == Drain(old(staging), batch, decisions, moves)
      ensures moved == |DrainedNames(batch, decisions, moves)|
    {
      moved := 0;
      for k := 0 to |batch|
        invariant staging == Drain(old(staging), batch[..k], decisions, moves)
        invariant moved == |DrainedNames(batch[..k], decisions, moves)|
      {
        var c := batch[k];
        DrainNext(old(staging), batch, k, decisions, moves);
        if c.id !in decisions { continue; }
        if !moves(c.name) || c.name !in staging.raw { continue; }
        staging := Staging(staging.raw - {c.name}, staging.consumed[c.name := staging.raw[c.name]]);
        moved := moved + 1;
      }
      assert batch[..|batch|] == batch;
    }

    /** Whether some decision's result line says that a note changed. */
    method AnyWrite(decisions: map<string, Decision>, results: map<string, string>) returns (wrote: bool)
      ensures wrote == Wrote(decisions, results, cfg.trim)
    {
      var left := decisions.Keys;
      while left != {}
        invariant left <= decisions.Keys
        invariant forall id :: id in decisions && id !in left && id in results ==> !IsWriteResult(results[id], cfg.trim)
        decreases |left|
      {
        var id :| id in left;
        left := left - {id};
        if id in results && IsWriteResult(results[id], cfg.trim) { return true; }
      }
      return false;
    }

    /** One cycle. Every path appends one record, and moves what the record says. */
    method RunOnce(w: World, listing: seq<string>) returns (rec: RunRecord)
      requires Lists(listing, staging.raw)
      modifies this`staging, this`audit
      ensures staging == After(old(staging), w, cfg)
      ensures rec == RecordOf(old(staging), w, cfg) && audit == old(audit) + [rec]
    {
      rec := RunRecord(false, NoFailure, 0, 0, NO_COUNTS, 0, false, false);
      rec := RunCycle(w, listing, rec);
      audit := audit + [rec];
    }

    method RunCycle(w: World, listing: seq<string>, start: RunRecord) returns (rec: RunRecord)
      requires Lists(listing, staging.raw)
      requires start == RunRecord(false, NoFailure, 0, 0, NO_COUNTS, 0, false, false)
      modifies this`staging
      ensures staging == After(old(staging), w, cfg)
      ensures rec == RecordOf(old(staging), w, cfg)
    {
      rec := start;
      if w.lock.HeldElsewhere? { return rec.(skipped := true, failure := Locked); }
      if w.lock.Broken? { return rec.(failure := Locking); }
      if !w.lists { return rec.(failure := Reading); }
      var candidates := ReadCandidates(listing);
      rec := rec.(candidateCount := |candidates|);
      if |candidates| == 0 { return rec.(skipped := true); }
      if |candidates| > cfg.Cap() { candidates := candidates[..cfg.Cap()]; }
      ReadBatch(staging.raw, candidates);
      staging := Staging(staging.raw + w.landed, staging.consumed);
      rec := rec.(llmCalls := 1);
      if w.reply.None? { return rec.(failure := Asking); }
      var reply := ParseDecisions(w.reply.value, Ids(candidates), cfg.reader);
      if !reply.Decided? { return rec.(failure := Parsing); }
      BatchIsDistinct(old(staging.raw), cfg);
      rec := Act(w, candidates, reply.decisions, rec);
    }

    /** The cycle from its decisions on. */
    method Act(w: World, batch: seq<Candidate>, decisions: map<string, Decision>, start: RunRecord)
      returns (rec: RunRecord)
      requires DistinctNames(batch) && forall c :: c in batch ==> c.name in staging.raw
      requires start == RunRecord(false, NoFailure, start.candidateCount, 1, NO_COUNTS, 0, false, false)
      modifies this`staging
      ensures staging
              == if w.savesDecisions && w.script.Some? then Drain(old(staging), batch, decisions, w.moves)
              else old(staging)
      ensures rec == ActedRecord(start.candidateCount, decisions, |DrainedNames(batch, decisions, w.moves)|, w, cfg)
    {
      var counts := DecisionCounts(decisions);
      rec := start.(counts := counts);
      if !w.savesDecisions { return rec.(failure := Saving); }
      if w.script.None? { return rec.(failure := Running); }
      var drained := DrainConsumed(batch, decisions, w.moves);
      rec := rec.(drained := drained);
      var wrote := AnyWrite(decisions, w.script.value);
      if wrote {
        if !w.commits { return rec.(failure := Committing); }
        rec := rec.(committed := true, resynced := w.resyncs);
      }
    }

    lemma ReadBatch(raw: map<string, StagedFile>, batch: seq<Candidate>)
      requires var all := Candidates(Backlog(raw), raw, cfg.trim);
               batch == if |all| > cfg.Cap() then all[..cfg.Cap()] else all
      ensures batch == Batch(raw, cfg)
    {
    }
  }
}
