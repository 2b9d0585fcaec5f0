/**
 The backup cycle over an abstract git: a workspace that is based on the remote, filled
 with a snapshot of two sources, committed and pushed, with every step able to fail.
 */
module BackupCycle {
  import opened Sequences
  import opened BackupRemote

  // ----- Git -----

  /** A path, by its components. */
  type Path = seq<string>

  type Tree = map<Path, string>

  datatype Commit = Commit(base: Option<Commit>, tree: Tree, message: string)

  /** `c` is `a` or was built on top of it. */
  predicate Descends(c: Commit, a: Commit) {
    c == a || (c.base.Some? && Descends(c.base.value, a))
  }

  lemma {:induction false} DescendsTransitive(c: Commit, b: Commit, a: Commit)
    requires Descends(c, b) && Descends(b, a)
    ensures Descends(c, a)
  {
    if c != b { DescendsTransitive(c.base.value, b, a); }
  }

  /** A remote: the URL that git reads back and fetches from, and the URLs set for pushing, if any are. */
  datatype Remote = Remote(url: string, pushURLs: set<string>) {
    /** Where a push goes. */
    function Targets(): set<string> {
      if pushURLs == {} then {url} else pushURLs
    }
  }

  /** The remote that a backup sets itself. */
  function OwnRemote(repo: string): Remote {
    Remote(RemoteURL(repo), {})
  }

  /** A working copy: its origin, the head of its branch, the index, and the files around them. */
  datatype Workspace = Workspace(origin: Option<Remote>, head: Option<Commit>, index: Tree, files: Tree) {
    function HeadTree(): Tree {
      if head.Some? then head.value.tree else map[]
    }

    /** `git reset --hard`: tracked files become those of the commit, untracked ones stay. */
    function ResetTo(c: Commit): Workspace {
      this.(head := Some(c), index := c.tree, files := (files - index.Keys) + c.tree)
    }

    /** `git add -A`: the index takes every file that is tracked or not ignored. */
    function Staged(ignored: Path -> bool): Workspace {
      this.(index := map p | p in files && (p in index || !ignored(p)) :: files[p])
    }

    predicate HasChanges() {
      index != HeadTree()
    }

    function Committed(message: string): Workspace {
      this.(head := Some(Commit(head, index, message)))
    }
  }

  /** The heads of the default branch, by repository URL; empty repositories have none. */
  type Remotes = map<string, Commit>

  /** A remote takes a push only if it loses nothing. */
  predicate Accepts(remotes: Remotes, url: string, c: Commit) {
    url in remotes ==> Descends(c, remotes[url])
  }

  predicate AllAccept(remotes: Remotes, urls: set<string>, c: Commit) {
    forall url :: url in urls ==> Accepts(remotes, url, c)
  }

  function Pushed(remotes: Remotes, urls: set<string>, c: Commit): Remotes {
    remotes + map url | url in urls :: c
  }

  // ----- The snapshot -----

  datatype SourceFile = SourceFile(regular: bool, content: string)

  type Source = map<Path, SourceFile>

  /** The two sources; a source that is not configured is absent. `lower` turns a name to lower case. */
  datatype Sources = Sources(crossAgent: Option<Source>, ccRoot: Option<Source>, lower: string -> string)

  const CROSS_AGENT := "cross-agent"
  const CC_NATIVE := "cc-native"

  predicate IsAuditJSONL(name: string) {
    "." <= name && HasSuffix(name, "-audit.jsonl")
  }

  predicate IsSQLiteDatabaseFile(name: string, lower: string -> string) {
    HasSuffix(lower(name), ".db") || HasSuffix(lower(name), ".sqlite") || HasSuffix(lower(name), ".sqlite3")
  }

  /** A directory above the file is called .git. */
  predicate UnderGit(p: Path) {
    exists k | 0 <= k < |p| - 1 :: p[k] == ".git"
  }

  /** A regular file of a source tree that is neither an audit file nor a database, nor below a .git that is skipped. */
  predicate PassesFilters(src: Source, p: Path, skipGit: bool, lower: string -> string) {
    && p in src && p != [] && src[p].regular
    && !(skipGit && UnderGit(p))
    && !IsAuditJSONL(p[|p| - 1]) && !IsSQLiteDatabaseFile(p[|p| - 1], lower)
  }

  /** A file below the memory directory of a project. */
  predicate IsProjectMemory(p: Path) {
    |p| >= 3 && p[1] == "memory"
  }

  /** The path of the workspace where a file of a source that passes the filters belongs. */
  predicate IsEligible(s: Sources, q: Path) {
    && |q| >= 2
    && if q[0] == CROSS_AGENT then s.crossAgent.Some? && PassesFilters(s.crossAgent.value, q[1..], true, s.lower)
       else (&& q[0] == CC_NATIVE && s.ccRoot.Some?
             && IsProjectMemory(q[1..]) && PassesFilters(s.ccRoot.value, q[1..], false, s.lower))
  }

  /** The first name of the path below the directory that is walked: memory/user, or the memory of a project. */
  function FirstBelow(q: Path): string
    requires |q| >= 2 && (q[0] != CROSS_AGENT ==> |q| >= 4)
  {
    if q[0] == CROSS_AGENT then q[1] else q[3]
  }

  /** A relative path that begins with two dots is taken to lead outside. */
  predicate SeemsOutside(name: string) {
    ".." <= name
  }

  /** The file of a source that a path of the workspace mirrors. */
  predicate IsMirror(s: Sources, q: Path) {
    IsEligible(s, q) && !SeemsOutside(FirstBelow(q))
  }

  function MirroredContent(s: Sources, q: Path): string
    requires IsMirror(s, q)
  {
    if q[0] == CROSS_AGENT then s.crossAgent.value[q[1..]].content else s.ccRoot.value[q[1..]].content
  }

  /** Paths in the two trees that a sync replaces. */
  predicate IsManaged(p: Path) {
    |p| >= 2 && (p[0] == CROSS_AGENT || p[0] == CC_NATIVE)
  }

  /** The managed part of a tree. */
  ghost function Managed(t: Tree): Tree {
    map p | p in t && IsManaged(p) :: t[p]
  }

  function MirrorPaths(s: Sources): set<Path> {
    (if s.crossAgent.Some?
     then set p | p in s.crossAgent.value && IsMirror(s, [CROSS_AGENT] + p) :: [CROSS_AGENT] + p else {})
    + (if s.ccRoot.Some? then set p | p in s.ccRoot.value && IsMirror(s, [CC_NATIVE] + p) :: [CC_NATIVE] + p else {})
  }

  /** The snapshot of the sources: the copied files, below their fixed directories. */
  ghost function Snapshot(s: Sources): Tree {
    map q | q in MirrorPaths(s) && IsMirror(s, q) :: MirroredContent(s, q)
  }

  lemma SnapshotIsMirror(s: Sources)
    ensures forall q :: q in Snapshot(s) <==> IsMirror(s, q)
    ensures forall q :: q in Snapshot(s) ==> IsManaged(q) && Snapshot(s)[q] == MirroredContent(s, q)
  {
    forall q | IsMirror(s, q) ensures q in MirrorPaths(s) {
      assert q == [q[0]] + q[1..];
    }
  }

  /**
   Of the files that pass the filters, exactly those are backed up whose relative path does not begin
   with two dots.
   */
  lemma BackedUpIff(s: Sources, q: Path)
    requires IsEligible(s, q)
    ensures q in Snapshot(s) <==> !SeemsOutside(FirstBelow(q))
  {
    SnapshotIsMirror(s);
  }

  /** So every file that passes the filters is backed up exactly if no relative path begins with two dots. */
  lemma AllBackedUpIff(s: Sources)
    ensures (forall q :: IsEligible(s, q) ==> q in Snapshot(s))
            <==> forall q :: IsEligible(s, q) ==> !SeemsOutside(FirstBelow(q))
  {
    SnapshotIsMirror(s);
  }

  lemma NotesPass(name: string)
    requires name != "" && name[|name| - 1] == 'd'
    ensures !IsAuditJSONL(name) && !IsSQLiteDatabaseFile(name, Lower)
  {
    OtherEnd(name, "-audit.jsonl");
    OtherEnd(Lower(name), ".db");
    OtherEnd(Lower(name), ".sqlite");
    OtherEnd(Lower(name), ".sqlite3");
  }

  /** The sources with one note, at a path of the memory directory. */
  function OneNote(p: Path, content: string): Sources {
    Sources(Some(map[p := SourceFile(true, content)]), None, Lower)
  }

  lemma OneNoteIsEligible(p: Path, content: string)
    requires p != [] && !UnderGit(p) && p[|p| - 1] != "" && p[|p| - 1][|p[|p| - 1]| - 1] == 'd'
    ensures IsEligible(OneNote(p, content), [CROSS_AGENT] + p)
    ensures SeemsOutside(p[0]) ==> Snapshot(OneNote(p, content)) == map[]
  {
    assert ([CROSS_AGENT] + p)[1..] == p;
    NotesPass(p[|p| - 1]);
    SnapshotIsMirror(OneNote(p, content));
    forall q | IsEligible(OneNote(p, content), q) ensures q == [CROSS_AGENT] + p {
      assert q == [q[0]] + q[1..];
    }
  }

  /** A note whose name begins with two dots is never backed up, nor is a note in such a directory. */
  lemma DottedNotesAreLost(content: string)
    ensures var note := OneNote(["..notes.md"], content);
            IsEligible(note, [CROSS_AGENT, "..notes.md"]) && Snapshot(note) == map[]
    ensures var below := OneNote(["..old", "a.md"], content);
            IsEligible(below, [CROSS_AGENT, "..old", "a.md"]) && Snapshot(below) == map[]
  {
    OneNoteIsEligible(["..notes.md"], content);
    OneNoteIsEligible(["..old", "a.md"], content);
    assert [CROSS_AGENT] + ["..notes.md"] == [CROSS_AGENT, "..notes.md"];
    assert [CROSS_AGENT] + ["..old", "a.md"] == [CROSS_AGENT, "..old", "a.md"];
  }

  /** The workspace after a sync: both managed trees replaced, everything else kept. */
  ghost function Synced(ws: Workspace, s: Sources): Workspace {
    ws.(files := (map p | p in ws.files && !IsInTree(p) :: ws.files[p]) + Snapshot(s))
  }

  /** At or below one of the two directories. */
  predicate IsInTree(p: Path) {
    |p| >= 1 && (p[0] == CROSS_AGENT || p[0] == CC_NATIVE)
  }

  // ----- What can happen -----

  datatype Exit = NotStarted | NonZero | Zero

  datatype LockOutcome = Acquired | HeldElsewhere | Broken

  /** What a cycle meets: how each command ends, and what others do meanwhile. */
  datatype World = World(
    lock: LockOutcome, init: Exit, getURL: Exit, addRemote: Exit, fetch: Exit, reset: Exit, savesIgnore: bool,
    rewritten: Option<Remote>,   // a new origin, set by someone else once the workspace is prepared
    checkURL: Exit, auth: Exit, syncs: bool, stage: Exit, ignored: Path -> bool, commit: Exit, message: string,
    others: Remotes,             // what others push before this cycle does
    push: Exit, pushOutput: string,
    spoiled: Workspace,          // what a step that stops half-way leaves behind
    pid: string, startedAt: string, now: string)

  datatype Status = Status(
    repo: string, lastAttemptAt: string, lastSuccessAt: string, lastError: string, lastErrorAt: string,
    crossAgentFiles: nat, ccNativeFiles: nat)

  datatype State = State(ws: Workspace, remotes: Remotes, status: Status)

  datatype Result = Skipped | Failed(message: string) | Succeeded

  datatype Prepared = Ready(ws: Workspace) | Stopped(ws: Workspace, message: string)

  const LOCK: Path := [".backup.lock"]
  const IGNORE_FILE: Path := [".gitignore"]
  const IGNORE_TEXT := ".backup.lock\n*.lock\n*.tmp\n"

  /** A step that stops half-way leaves head, index and files in any state. */
  function Spoil(ws: Workspace, w: World): Workspace {
    w.spoiled.(origin := ws.origin)
  }

  // ----- A cycle, step by step -----

  function Integrated(ws: Workspace, remotes: Remotes, w: World): Prepared {
    if w.fetch.NotStarted? then Stopped(ws, "git fetch")
    else if w.fetch.NonZero? || ws.origin.None? || ws.origin.value.url !in remotes then Ready(ws)
    else if w.reset.NotStarted? then Stopped(Spoil(ws, w), "git reset")
    else if w.reset.NonZero? then Stopped(Spoil(ws, w), "git reset exited")
    else Ready(ws.ResetTo(remotes[ws.origin.value.url]))
  }

  function WithOrigin(ws: Workspace, w: World, repo: string): Prepared {
    if w.init.NotStarted? then Stopped(ws, "git init")
    else if w.init.NonZero? then Stopped(ws, "git init exited")
    else if w.getURL.NotStarted? then Stopped(ws, "git remote get-url")
    else if w.getURL.Zero? && ws.origin.Some? then
      if RemoteMatchesRepo(ws.origin.value.url, repo) then Ready(ws) else Stopped(ws, "existing origin does not match")
    else if w.addRemote.NotStarted? then Stopped(ws, "git remote add")
    else if w.addRemote.NonZero? || ws.origin.Some? then Stopped(ws, "git remote add exited")
    else Ready(ws.(origin := Some(OwnRemote(repo))))
  }

  function Ensured(ws: Workspace, remotes: Remotes, w: World, repo: string): Prepared {
    var p := WithOrigin(ws, w, repo);
    if p.Stopped? then p else
    var q := Integrated(p.ws, remotes, w);
    if q.Stopped? then q
    else if !w.savesIgnore then Stopped(q.ws, "writing .gitignore")
    else Ready(q.ws.(files := q.ws.files[IGNORE_FILE := IGNORE_TEXT]))
  }

  /** Someone else may rewrite the origin of a prepared workspace. */
  function Rewritten(ws: Workspace, w: World): Workspace {
    if w.rewritten.Some? then ws.(origin := w.rewritten) else ws
  }

  function Verified(ws: Workspace, w: World, repo: string): Prepared {
    if w.checkURL.NotStarted? then Stopped(ws, "git remote get-url")
    else if w.checkURL.NonZero? || ws.origin.None? then Stopped(ws, "no remote configured")
    else if !RemoteMatchesRepo(ws.origin.value.url, repo) then Stopped(ws, "remote does not match")
    else if w.auth.NotStarted? then Stopped(ws, "gh not available")
    else if w.auth.NonZero? then Stopped(ws, "gh not authenticated")
    else Ready(ws)
  }

  ghost function Snapped(ws: Workspace, s: Sources, w: World): Prepared {
    if !w.syncs then Stopped(Spoil(ws, w), "syncing sources")
    else if w.stage.NotStarted? then Stopped(Spoil(Synced(ws, s), w), "git add")
    else if w.stage.NonZero? then Stopped(Spoil(Synced(ws, s), w), "git add exited")
    else
      var staged := Synced(ws, s).Staged(w.ignored);
      if w.commit.NotStarted? then Stopped(staged, "git commit") else Ready(Finished(staged, w))
  }

  /** A commit that exits non-zero is taken to have had nothing to commit. */
  function Finished(staged: Workspace, w: World): Workspace {
    if w.commit.NonZero? || !staged.HasChanges() then staged else staged.Committed(w.message)
  }

  /** The workspace just before the push, or where the cycle stopped. */
  ghost function BeforePush(ws: Workspace, remotes: Remotes, s: Sources, w: World, repo: string): Prepared {
    var e := Ensured(ws, remotes, w, repo);
    if e.Stopped? then e else
    var v := Verified(Rewritten(e.ws, w), w, repo);
    if v.Stopped? then v else Snapped(v.ws, s, w)
  }

  predicate Pushes(ws: Workspace, remotes: Remotes, w: World) {
    w.push.Zero? && ws.origin.Some? && ws.head.Some? && AllAccept(remotes, ws.origin.value.Targets(), ws.head.value)
  }

  /** What a failed push reports: its output, if that says anything. */
  function PushMessage(w: World): (message: string)
    ensures message != ""
  {
    if w.push.NotStarted? then "git push"
    else if Trim(w.pushOutput, IsSpace) == "" then "git push exited"
    else Trim(w.pushOutput, IsSpace)
  }

  function Failing(prev: Status, w: World, repo: string, message: string): Status {
    prev.(repo := repo, lastAttemptAt := w.startedAt, lastError := message, lastErrorAt := w.now)
  }

  ghost function CrossAgentPaths(s: Sources): set<Path> {
    set q | q in MirrorPaths(s) && q[0] == CROSS_AGENT
  }

  ghost function CCNativePaths(s: Sources): set<Path> {
    set q | q in MirrorPaths(s) && q[0] == CC_NATIVE
  }

  ghost function Succeeding(w: World, repo: string, s: Sources): Status {
    Status(repo, w.startedAt, w.now, "", "", |CrossAgentPaths(s)|, |CCNativePaths(s)|)
  }

  function Locked(ws: Workspace, pid: string): Workspace {
    ws.(files := ws.files[LOCK := pid])
  }

  function Unlocked(ws: Workspace): Workspace {
    ws.(files := ws.files - {LOCK})
  }

  datatype Outcome = Outcome(state: State, result: Result)

  /** A cycle that holds the lock. */
  ghost function LockedCycle(st: State, s: Sources, w: World, repo: string): Outcome {
    var remotes := st.remotes + w.others;
    if Trim(repo, IsSpace) == "" then
      Outcome(State(st.ws, remotes, Failing(st.status, w, repo, "no backup repo configured")),
        Failed("no backup repo configured"))
    else
      var p := BeforePush(st.ws, st.remotes, s, w, repo);
      if p.Stopped? then Outcome(State(p.ws, remotes, Failing(st.status, w, repo, p.message)), Failed(p.message))
      else if !Pushes(p.ws, remotes, w) then
        Outcome(State(p.ws, remotes, Failing(st.status, w, repo, PushMessage(w))), Failed(PushMessage(w)))
      else
        Outcome(State(p.ws, Pushed(remotes, p.ws.origin.value.Targets(), p.ws.head.value), Succeeding(w, repo, s)),
          Succeeded)
  }

  /** A cycle; by its end others have pushed what they did. */
  ghost function Cycle(st: State, s: Sources, w: World, repo: string): Outcome {
    var remotes := st.remotes + w.others;
    if w.lock.HeldElsewhere? then Outcome(st.(remotes := remotes), Skipped)
    else if w.lock.Broken?
      then Outcome(State(st.ws, remotes, Failing(st.status, w, repo, "acquiring lock")), Failed("acquiring lock"))
    else
      var c := LockedCycle(st.(ws := Locked(st.ws, w.pid)), s, w, repo);
      c.(state := c.state.(ws := Unlocked(c.state.ws)))
  }

  // ----- What a cycle guarantees -----

  /**
   An existing origin is never changed, a missing one is set to the repository's own URL, and nothing
   else is touched.
   */
  lemma OriginIsNeverOverwritten(ws: Workspace, w: World, repo: string)
    ensures var p := WithOrigin(ws, w, repo);
            && p.ws == ws.(origin := p.ws.origin)
            && (ws.origin.Some? ==> p.ws == ws)
            && (p.Stopped? ==> p.ws == ws)
            && (p.Ready? ==> p.ws.origin.Some?)
            && (p.Ready? && ws.origin.Some? ==> RemoteMatchesRepo(ws.origin.value.url, repo))
            && (p.Ready? && ws.origin.None? ==> p.ws.origin.value == OwnRemote(repo))
  {
  }

  /**
   Basing on the remote keeps the origin and every untracked file outside the fetched tree; it is all or,
   without a fetch, nothing.
   */
  lemma BasingKeepsUntracked(ws: Workspace, remotes: Remotes, w: World, p: Path)
    requires Integrated(ws, remotes, w).Ready?
    ensures var b := Integrated(ws, remotes, w).ws;
            && b.origin == ws.origin
            && (b == ws ||
                (&& ws.origin.Some? && ws.origin.value.url in remotes
                 && b.head == Some(remotes[ws.origin.value.url]) && b.index == b.HeadTree()))
            && (!w.fetch.Zero? ==> b == ws)
            && (p in ws.files && p !in ws.index && p !in b.index ==> p in b.files && b.files[p] == ws.files[p])
            && (b != ws && p in b.index ==> p in b.files && b.files[p] == b.index[p])
            && (b != ws && p in ws.index && p !in b.index ==> p !in b.files)
  {
  }

  lemma SnappedKeepsOrigin(ws: Workspace, s: Sources, w: World)
    ensures Snapped(ws, s, w).ws.origin == ws.origin
  {
  }

  /** The check changes nothing, and passes only on an origin that names the repository. */
  lemma VerifiedMatches(ws: Workspace, w: World, repo: string)
    ensures Verified(ws, w, repo).ws == ws
    ensures Verified(ws, w, repo).Ready? ==> ws.origin.Some? && RemoteMatchesRepo(ws.origin.value.url, repo)
  {
  }

  lemma ReadyMatches(ws: Workspace, remotes: Remotes, s: Sources, w: World, repo: string)
    requires BeforePush(ws, remotes, s, w, repo).Ready?
    ensures var p := BeforePush(ws, remotes, s, w, repo).ws;
            p.origin.Some? && RemoteMatchesRepo(p.origin.value.url, repo)
  {
    var ready := Rewritten(Ensured(ws, remotes, w, repo).ws, w);
    VerifiedMatches(ready, w, repo);
    SnappedKeepsOrigin(ready, s, w);
  }

  lemma LockedPushesOnlyToTheRepo(st: State, s: Sources, w: World, repo: string)
    ensures var c, others := LockedCycle(st, s, w, repo), st.remotes + w.others;
            && (!c.result.Succeeded? ==> c.state.remotes == others)
            && (c.result.Succeeded? ==>
                  && c.state.ws.origin.Some? && c.state.ws.head.Some?
                  && RemoteMatchesRepo(c.state.ws.origin.value.url, repo)
                  && c.state.remotes == Pushed(others, c.state.ws.origin.value.Targets(), c.state.ws.head.value)
                  && AllAccept(others, c.state.ws.origin.value.Targets(), c.state.ws.head.value))
  {
    if BeforePush(st.ws, st.remotes, s, w, repo).Ready? { ReadyMatches(st.ws, st.remotes, s, w, repo); }
  }

  /** Every URL that a push to the origin goes to is one of the repository on GitHub. */
  ghost predicate GoesToGitHub(origin: Remote, repo: string) {
    forall url :: url in origin.Targets() ==> IsGitHubURLOf(url, repo)
  }

  /** Without push URLs the origin names the host properly; with push URLs, each is one of the repository. */
  ghost predicate PushesProperly(origin: Remote, repo: string) {
    if origin.pushURLs == {} then NamesHost(TextOf(origin.url))
    else forall url :: url in origin.pushURLs ==> IsGitHubURLOf(url, repo)
  }

  lemma GoesToGitHubIff(origin: Remote, repo: string)
    requires RemoteMatchesRepo(origin.url, repo)
    ensures GoesToGitHub(origin, repo) <==> PushesProperly(origin, repo)
  {
    AcceptedIsGitHubIff(origin.url, repo);
    if origin.pushURLs == {} { assert origin.url in origin.Targets(); }
  }

  /**
   A cycle that does not succeed leaves every remote as others made it. One that does has pushed its
   head to the targets of an origin whose URL passes the check, loses nothing there, and has pushed
   nowhere but to the repository on GitHub exactly if that URL names the host properly and no push URL
   is set, or every push URL is one of the repository.
   */
  lemma PushesOnlyToTheRepo(st: State, s: Sources, w: World, repo: string)
    ensures var c, others := Cycle(st, s, w, repo), st.remotes + w.others;
            && (!c.result.Succeeded? ==> c.state.remotes == others)
            && (c.result.Succeeded? ==>
                  && c.state.ws.origin.Some? && c.state.ws.head.Some?
                  && RemoteMatchesRepo(c.state.ws.origin.value.url, repo)
                  && (GoesToGitHub(c.state.ws.origin.value, repo) <==> PushesProperly(c.state.ws.origin.value, repo))
                  && c.state.remotes == Pushed(others, c.state.ws.origin.value.Targets(), c.state.ws.head.value)
                  && AllAccept(others, c.state.ws.origin.value.Targets(), c.state.ws.head.value))
  {
    LockedPushesOnlyToTheRepo(st.(ws := Locked(st.ws, w.pid)), s, w, repo);
    var c := Cycle(st, s, w, repo);
    if c.result.Succeeded? { GoesToGitHubIff(c.state.ws.origin.value, repo); }
  }

  lemma EnsuredOrigin(ws: Workspace, remotes: Remotes, w: World, repo: string)
    requires Ensured(ws, remotes, w, repo).Ready?
    ensures Ensured(ws, remotes, w, repo).ws.origin == if ws.origin.Some? then ws.origin else Some(OwnRemote(repo))
  {
  }

  lemma CycleOrigin(st: State, s: Sources, w: World, repo: string)
    requires Cycle(st, s, w, repo).result.Succeeded? && w.rewritten.None?
    ensures Cycle(st, s, w, repo).state.ws.origin == if st.ws.origin.Some? then st.ws.origin else Some(OwnRemote(repo))
  {
    var e := Ensured(Locked(st.ws, w.pid), st.remotes, w, repo);
    EnsuredOrigin(Locked(st.ws, w.pid), st.remotes, w, repo);
    VerifiedMatches(e.ws, w, repo);
    SnappedKeepsOrigin(e.ws, s, w);
  }

  /**
   A workspace that had no remote, and whose remote nobody rewrites, is pushed to the repository on
   GitHub and nowhere else.
   */
  lemma FreshBackupGoesToGitHub(st: State, s: Sources, w: World, repo: string)
    requires Cycle(st, s, w, repo).result.Succeeded? && st.ws.origin.None? && w.rewritten.None?
    ensures var c := Cycle(st, s, w, repo);
            && c.state.ws.origin == Some(OwnRemote(repo)) && GoesToGitHub(OwnRemote(repo), repo)
            && c.state.ws.head.Some?
            && c.state.remotes == (st.remotes + w.others)[RemoteURL(repo) := c.state.ws.head.value]
  {
    CycleOrigin(st, s, w, repo);
    PushesOnlyToTheRepo(st, s, w, repo);
    OwnURLIsGitHub(repo);
    PushedToOne(st.remotes + w.others, RemoteURL(repo), Cycle(st, s, w, repo).state.ws.head.value);
  }

  lemma PushedToOne(remotes: Remotes, url: string, c: Commit)
    ensures Pushed(remotes, {url}, c) == remotes[url := c]
  {
  }

  /** The paths git tracks before a cycle stages: those of the remote it is based on, or of the index it found. */
  ghost function Tracked(st: State, w: World, repo: string): set<Path> {
    Ensured(Locked(st.ws, w.pid), st.remotes, w, repo).ws.index.Keys
  }

  /** The managed files a backup should hold: the snapshot, less what git ignores and does not track. */
  ghost function Expected(s: Sources, ignored: Path -> bool, tracked: set<Path>): Tree {
    map p | p in Snapshot(s) && (p in tracked || !ignored(p)) :: Snapshot(s)[p]
  }

  lemma SyncedManaged(ws: Workspace, s: Sources)
    ensures forall p :: IsManaged(p) ==> (p in Synced(ws, s).files <==> p in Snapshot(s))
    ensures forall p :: p in Snapshot(s) ==>
            IsManaged(p) && p in Synced(ws, s).files && Synced(ws, s).files[p] == Snapshot(s)[p]
  {
    SnapshotIsMirror(s);
  }

  lemma StagedIsExpected(ws: Workspace, s: Sources, w: World)
    ensures Managed(Synced(ws, s).Staged(w.ignored).index) == Expected(s, w.ignored, ws.index.Keys)
  {
    SyncedManaged(ws, s);
    StagedManaged(Synced(ws, s), Snapshot(s), w.ignored);
  }

  lemma StagedManaged(ws: Workspace, snapshot: Tree, ignored: Path -> bool)
    requires forall p :: IsManaged(p) ==> (p in ws.files <==> p in snapshot)
    requires forall p :: p in snapshot ==> IsManaged(p) && p in ws.files && ws.files[p] == snapshot[p]
    ensures Managed(ws.Staged(ignored).index)
            == map p | p in snapshot && (p in ws.index.Keys || !ignored(p)) :: snapshot[p]
  {
  }

  lemma FinishedTree(staged: Workspace, w: World)
    ensures Finished(staged, w).HeadTree() == if w.commit.NonZero? then staged.HeadTree() else staged.index
    ensures !staged.HasChanges() ==> staged.HeadTree() == staged.index
    ensures staged.head.Some? ==>
            Finished(staged, w).head.Some? && Descends(Finished(staged, w).head.value, staged.head.value)
  {
  }

  lemma SnappedTree(ws: Workspace, s: Sources, w: World)
    requires Snapped(ws, s, w).Ready?
    ensures Snapped(ws, s, w).ws.HeadTree()
            == if w.commit.NonZero? then ws.HeadTree() else Synced(ws, s).Staged(w.ignored).index
    ensures ws.head.Some? ==>
            Snapped(ws, s, w).ws.head.Some? && Descends(Snapped(ws, s, w).ws.head.value, ws.head.value)
  {
    FinishedTree(Synced(ws, s).Staged(w.ignored), w);
  }

  /** The workspace a cycle fills with its snapshot. */
  ghost function Base(st: State, w: World, repo: string): Workspace {
    Rewritten(Ensured(Locked(st.ws, w.pid), st.remotes, w, repo).ws, w)
  }

  lemma SucceededSnaps(st: State, s: Sources, w: World, repo: string)
    requires Cycle(st, s, w, repo).result.Succeeded?
    ensures Ensured(Locked(st.ws, w.pid), st.remotes, w, repo).Ready?
    ensures Snapped(Base(st, w, repo), s, w).Ready?
    ensures Cycle(st, s, w, repo).state.ws.head == Snapped(Base(st, w, repo), s, w).ws.head
  {
    VerifiedSaysWhy(Base(st, w, repo), w, repo);
  }

  /** After a success the managed part of what was pushed is the snapshot, whatever earlier cycles left behind,
      exactly if the commit did not fail or the base already held it. */
  lemma PushedTreeIsSnapshot(st: State, s: Sources, w: World, repo: string)
    ensures Cycle(st, s, w, repo).result.Succeeded? ==>
              var pushed, expected := Cycle(st, s, w, repo).state.ws.HeadTree(),
                Expected(s, w.ignored, Tracked(st, w, repo));
              (Managed(pushed) == expected <==> !w.commit.NonZero? || Managed(Base(st, w, repo).HeadTree()) == expected)
  {
    if Cycle(st, s, w, repo).result.Succeeded? {
      SucceededSnaps(st, s, w, repo);
      SnappedTree(Base(st, w, repo), s, w);
      StagedIsExpected(Base(st, w, repo), s, w);
    }
  }

  /** Everything works but the commit. */
  predicate OnlyCommitFails(w: World) {
    && w.lock.Acquired? && w.init.Zero? && w.getURL.Zero? && w.fetch.Zero? && w.reset.Zero? && w.savesIgnore
    && w.rewritten.None? && w.checkURL.Zero? && w.auth.Zero? && w.syncs && w.stage.Zero? && w.commit.NonZero?
    && w.others == map[] && w.push.Zero?
  }

  /**
   A commit that fails goes unnoticed, for whatever reason it fails: the cycle reports success and pushes
   the old head.
   */
  lemma CommitFailureIsSilent(st: State, s: Sources, w: World, repo: string)
    requires OnlyCommitFails(w) && Trim(repo, IsSpace) != ""
    requires st.ws.origin.Some? && st.ws.origin.value.url in st.remotes
    requires RemoteMatchesRepo(st.ws.origin.value.url, repo)
    requires AllAccept(st.remotes, st.ws.origin.value.pushURLs, st.remotes[st.ws.origin.value.url])
    ensures var c, origin := Cycle(st, s, w, repo), st.ws.origin.value;
            && c.result.Succeeded? && c.state.status.lastError == ""
            && c.state.ws.head == Some(st.remotes[origin.url])
            && c.state.remotes == Pushed(st.remotes, origin.pushURLs, st.remotes[origin.url])
  {
    UncommittedBeforePush(Locked(st.ws, w.pid), st.remotes, s, w, repo);
    NothingNew(st.remotes, st.ws.origin.value);
  }

  /** Pushing the head of a remote back to it changes only what its push URLs hold. */
  lemma NothingNew(remotes: Remotes, origin: Remote)
    requires origin.url in remotes
    ensures remotes + map[] == remotes
    ensures Pushed(remotes, origin.Targets(), remotes[origin.url])
            == Pushed(remotes, origin.pushURLs, remotes[origin.url])
    ensures AllAccept(remotes, origin.pushURLs, remotes[origin.url]) ==>
            AllAccept(remotes, origin.Targets(), remotes[origin.url])
  {
  }

  lemma UncommittedBeforePush(ws: Workspace, remotes: Remotes, s: Sources, w: World, repo: string)
    requires OnlyCommitFails(w)
    requires ws.origin.Some? && ws.origin.value.url in remotes && RemoteMatchesRepo(ws.origin.value.url, repo)
    ensures var p := BeforePush(ws, remotes, s, w, repo);
            p.Ready? && p.ws.origin == ws.origin && p.ws.head == Some(remotes[ws.origin.value.url])
  {
    IntegratedOnRemote(ws, remotes, w);
    var e := Ensured(ws, remotes, w, repo).ws;
    UncommittedSnap(e, s, w);
  }

  lemma UncommittedSnap(ws: Workspace, s: Sources, w: World)
    requires w.syncs && w.stage.Zero? && w.commit.NonZero?
    ensures Snapped(ws, s, w).Ready? && Snapped(ws, s, w).ws.head == ws.head && Snapped(ws, s, w).ws.origin == ws.origin
  {
  }

  /** What is staged but ignored was tracked before: the lock file of the running cycle stays out of a fresh backup. */
  lemma IgnoredStaysOut(st: State, s: Sources, w: World, repo: string, p: Path)
    ensures var c := Cycle(st, s, w, repo);
            c.result.Succeeded? && !w.commit.NonZero? && p in c.state.ws.HeadTree() && w.ignored(p) ==>
              p in Tracked(st, w, repo)
  {
    if Cycle(st, s, w, repo).result.Succeeded? {
      SucceededSnaps(st, s, w, repo);
      SnappedTree(Base(st, w, repo), s, w);
    }
  }

  /** What the ignore file names: the lock, and lock and temporary files, at any depth. */
  predicate IsNamedByIgnoreFile(p: Path) {
    exists k | 0 <= k < |p| :: p[k] == ".backup.lock" || HasSuffix(p[k], ".lock") || HasSuffix(p[k], ".tmp")
  }

  /**
   If git ignores what the ignore file names, neither the lock file of the running cycle nor any such
   file of a source enters a fresh backup.
   */
  lemma LockFileStaysOut(st: State, s: Sources, w: World, repo: string, p: Path)
    requires IsNamedByIgnoreFile(p) && forall q :: IsNamedByIgnoreFile(q) ==> w.ignored(q)
    ensures IsNamedByIgnoreFile(LOCK)
    ensures Cycle(st, s, w, repo).result.Succeeded? && !w.commit.NonZero? && p !in Tracked(st, w, repo)
            ==> p !in Cycle(st, s, w, repo).state.ws.HeadTree()
  {
    assert LOCK[0] == ".backup.lock";
    IgnoredStaysOut(st, s, w, repo, p);
  }

  lemma IntegratedOnRemote(ws: Workspace, remotes: Remotes, w: World)
    requires Integrated(ws, remotes, w).Ready? && w.fetch.Zero? && ws.origin.Some? && ws.origin.value.url in remotes
    ensures Integrated(ws, remotes, w).ws.head == Some(remotes[ws.origin.value.url])
    ensures Integrated(ws, remotes, w).ws.origin == ws.origin
  {
  }

  lemma EnsuredOnRemote(ws: Workspace, remotes: Remotes, w: World, repo: string)
    requires Ensured(ws, remotes, w, repo).Ready? && w.fetch.Zero?
    ensures var e := Ensured(ws, remotes, w, repo).ws;
            e.origin.Some? && e.origin.value.url in remotes ==> e.head == Some(remotes[e.origin.value.url])
  {
    var p := WithOrigin(ws, w, repo).ws;
    if p.origin.Some? && p.origin.value.url in remotes { IntegratedOnRemote(p, remotes, w); }
  }

  /**
   A remote that was fetched, and that nobody pushed to or replaced since, accepts the push: no history
   has to be forced.
   */
  lemma FetchedRemoteAccepts(st: State, s: Sources, w: World, repo: string)
    requires w.fetch.Zero? && w.rewritten.None?
    ensures var p, origin := BeforePush(Locked(st.ws, w.pid), st.remotes, s, w, repo), Base(st, w, repo).origin;
            p.Ready? && origin.Some? && origin.value.url in st.remotes && origin.value.url !in w.others ==>
              p.ws.origin == origin && p.ws.head.Some?
                && Accepts(st.remotes + w.others, origin.value.url, p.ws.head.value)
  {
    if BeforePush(Locked(st.ws, w.pid), st.remotes, s, w, repo).Ready? {
      EnsuredOnRemote(Locked(st.ws, w.pid), st.remotes, w, repo);
      VerifiedSaysWhy(Base(st, w, repo), w, repo);
      SnappedKeepsOrigin(Base(st, w, repo), s, w);
      SnappedTree(Base(st, w, repo), s, w);
    }
  }

  /** Every step works, and nobody else does anything. */
  predicate AllWorks(w: World) {
    && w.lock.Acquired? && w.init.Zero? && w.getURL.Zero? && w.fetch.Zero? && w.reset.Zero? && w.savesIgnore
    && w.rewritten.None? && w.checkURL.Zero? && w.auth.Zero? && w.syncs && w.stage.Zero? && w.commit.Zero?
    && w.others == map[] && w.push.Zero?
  }

  /** A remote that passes the check without naming the host properly is pushed to like any other. */
  lemma PushesOffGitHub(st: State, s: Sources, w: World, repo: string, url: string)
    requires AllWorks(w) && Trim(repo, IsSpace) != "" && st.ws.origin == Some(Remote(url, {})) && url in st.remotes
    requires RemoteMatchesRepo(url, repo) && !NamesHost(TextOf(url))
    ensures var c := Cycle(st, s, w, repo);
            && c.result.Succeeded? && c.state.ws.origin == Some(Remote(url, {})) && !IsGitHubURLOf(url, repo)
            && c.state.ws.head.Some? && c.state.remotes == st.remotes[url := c.state.ws.head.value]
  {
    FetchedRemoteAccepts(st, s, w, repo);
    NothingNew(st.remotes, Remote(url, {}));
    CycleOrigin(st, s, w, repo);
    PushesOnlyToTheRepo(st, s, w, repo);
    AcceptedIsGitHubIff(url, repo);
    PushedToOne(st.remotes, url, Cycle(st, s, w, repo).state.ws.head.value);
  }

  /** A push URL is never looked at: the backup goes there, and the repository does not change. */
  lemma PushURLGoesUnchecked(st: State, s: Sources, w: World, repo: string, url: string, other: string)
    requires AllWorks(w) && Trim(repo, IsSpace) != "" && st.ws.origin == Some(Remote(url, {other}))
    requires url in st.remotes && RemoteMatchesRepo(url, repo) && other !in st.remotes
    ensures var c := Cycle(st, s, w, repo);
            && c.result.Succeeded? && c.state.ws.head.Some?
            && c.state.remotes == st.remotes[other := c.state.ws.head.value]
  {
    FetchedRemoteAccepts(st, s, w, repo);
    NothingNew(st.remotes, Remote(url, {other}));
    CycleOrigin(st, s, w, repo);
    PushesOnlyToTheRepo(st, s, w, repo);
    PushedToOne(st.remotes, other, Cycle(st, s, w, repo).state.ws.head.value);
  }

  /** With the repository's own URL as origin, the backup is pushed to another repository by a push URL. */
  lemma PushURLLeaks(st: State, s: Sources, w: World)
    requires AllWorks(w) && RemoteURL(NAME) in st.remotes && RemoteURL(OTHER_NAME) !in st.remotes
    requires st.ws.origin == Some(Remote(RemoteURL(NAME), {RemoteURL(OTHER_NAME)}))
    ensures var c := Cycle(st, s, w, NAME);
            && c.result.Succeeded? && RemoteURL(OTHER_NAME) in c.state.remotes
            && c.state.remotes[RemoteURL(NAME)] == st.remotes[RemoteURL(NAME)]
            && !IsGitHubURLOf(RemoteURL(OTHER_NAME), NAME)
  {
    OtherNameDiffers();
    PushURLGoesUnchecked(st, s, w, NAME, RemoteURL(NAME), RemoteURL(OTHER_NAME));
  }

  // ----- Runs of cycles -----

  datatype Round = Round(sources: Sources, world: World)

  ghost function After(st: State, rounds: seq<Round>, repo: string): State {
    if rounds == [] then st else
    var r := rounds[|rounds| - 1];
    Cycle(After(st, rounds[..|rounds| - 1], repo), r.sources, r.world, repo).state
  }

  /** The result of the last cycle that was not skipped for the lock. */
  ghost function LastResult(st: State, rounds: seq<Round>, repo: string): Option<Result> {
    if rounds == [] then None else
    var front, r := rounds[..|rounds| - 1], rounds[|rounds| - 1];
    var result := Cycle(After(st, front, repo), r.sources, r.world, repo).result;
    if result.Skipped? then LastResult(st, front, repo) else Some(result)
  }

  /** The time of the last success, or what the status said before. */
  ghost function LastSuccess(st: State, rounds: seq<Round>, repo: string): string {
    if rounds == [] then st.status.lastSuccessAt else
    var front, r := rounds[..|rounds| - 1], rounds[|rounds| - 1];
    if Cycle(After(st, front, repo), r.sources, r.world, repo).result.Succeeded? then r.world.now
    else LastSuccess(st, front, repo)
  }

  lemma CycleStatus(st: State, s: Sources, w: World, repo: string)
    ensures var c := Cycle(st, s, w, repo);
            && (c.result.Skipped? ==> c.state.status == st.status)
            && (c.result.Failed? ==> c.result.message != "" && c.state.status.lastError == c.result.message
                                     && c.state.status.lastSuccessAt == st.status.lastSuccessAt)
            && (c.result.Succeeded? ==> c.state.status.lastError == "" && c.state.status.lastSuccessAt == w.now)
  {
    if w.lock.Acquired? && Trim(repo, IsSpace) != "" { StoppedSaysWhy(Locked(st.ws, w.pid), st.remotes, s, w, repo); }
  }

  lemma EnsuredSaysWhy(ws: Workspace, remotes: Remotes, w: World, repo: string)
    ensures Ensured(ws, remotes, w, repo).Stopped? ==> Ensured(ws, remotes, w, repo).message != ""
  {
  }

  lemma VerifiedSaysWhy(ws: Workspace, w: World, repo: string)
    ensures Verified(ws, w, repo).Stopped? ==> Verified(ws, w, repo).message != ""
    ensures Verified(ws, w, repo).ws == ws
  {
  }

  lemma SnappedSaysWhy(ws: Workspace, s: Sources, w: World)
    ensures Snapped(ws, s, w).Stopped? ==> Snapped(ws, s, w).message != ""
  {
  }

  lemma StoppedSaysWhy(ws: Workspace, remotes: Remotes, s: Sources, w: World, repo: string)
    ensures BeforePush(ws, remotes, s, w, repo).Stopped? ==> BeforePush(ws, remotes, s, w, repo).message != ""
  {
    var ready := Rewritten(Ensured(ws, remotes, w, repo).ws, w);
    EnsuredSaysWhy(ws, remotes, w, repo);
    VerifiedSaysWhy(ready, w, repo);
    SnappedSaysWhy(ready, s, w);
  }

  /**
   The status shows an error exactly if the last cycle past the lock failed, and keeps the time of the
   last success through failures.
   */
  lemma {:induction false} StatusTellsTheLastResult(st: State, rounds: seq<Round>, repo: string)
    ensures var status, last := After(st, rounds, repo).status, LastResult(st, rounds, repo);
            && (last.None? ==> status == st.status)
            && (last.Some? ==> (status.lastError != "" <==> last.value.Failed?))
            && status.lastSuccessAt == LastSuccess(st, rounds, repo)
  {
    if rounds != [] {
      var front, r := rounds[..|rounds| - 1], rounds[|rounds| - 1];
      StatusTellsTheLastResult(st, front, repo);
      CycleStatus(After(st, front, repo), r.sources, r.world, repo);
    }
  }

  /** Others never rewrite the history of a remote. */
  ghost predicate OthersBuildOn(remotes: Remotes, others: Remotes) {
    forall url :: url in others ==> Accepts(remotes, url, others[url])
  }

  ghost predicate NobodyForces(st: State, rounds: seq<Round>, repo: string) {
    rounds != [] ==>
      && NobodyForces(st, rounds[..|rounds| - 1], repo)
      && OthersBuildOn(After(st, rounds[..|rounds| - 1], repo).remotes, rounds[|rounds| - 1].world.others)
  }

  /** Over any run, every remote's head descends from what it was. */
  lemma {:induction false} HistoryIsKept(st: State, rounds: seq<Round>, repo: string, url: string)
    requires NobodyForces(st, rounds, repo) && url in st.remotes
    ensures url in After(st, rounds, repo).remotes && Descends(After(st, rounds, repo).remotes[url], st.remotes[url])
  {
    if rounds != [] {
      var front, r := rounds[..|rounds| - 1], rounds[|rounds| - 1];
      HistoryIsKept(st, front, repo, url);
      CycleKeepsHistory(After(st, front, repo), r.sources, r.world, repo, url);
      DescendsTransitive(After(st, rounds, repo).remotes[url], After(st, front, repo).remotes[url], st.remotes[url]);
    }
  }

  lemma CycleKeepsHistory(st: State, s: Sources, w: World, repo: string, url: string)
    requires OthersBuildOn(st.remotes, w.others) && url in st.remotes
    ensures url in Cycle(st, s, w, repo).state.remotes
    ensures Descends(Cycle(st, s, w, repo).state.remotes[url], st.remotes[url])
  {
    PushesOnlyToTheRepo(st, s, w, repo);
    var c, others := Cycle(st, s, w, repo), st.remotes + w.others;
    assert Descends(others[url], st.remotes[url]);
    if c.result.Succeeded? && url in c.state.ws.origin.value.Targets() {
      assert Accepts(others, url, c.state.ws.head.value);
      DescendsTransitive(c.state.ws.head.value, others[url], st.remotes[url]);
    }
  }

  // ----- Copying the sources -----

  predicate Mirrors(s: Sources, dir: string, walk: seq<Path>, q: Path) {
    q != [] && q[0] == dir && q[1..] in walk && IsMirror(s, q)
  }

  /** The files after the walk over a source: each copied file below its directory. */
  function Copied(files: Tree, s: Sources, dir: string, walk: seq<Path>): Tree {
    if walk == [] then files else
    var before, q := Copied(files, s, dir, walk[..|walk| - 1]), [dir] + walk[|walk| - 1];
    if IsMirror(s, q) then before[q := MirroredContent(s, q)] else before
  }

  function CountCopied(s: Sources, dir: string, walk: seq<Path>): nat {
    if walk == [] then 0 else
    CountCopied(s, dir, walk[..|walk| - 1]) + if IsMirror(s, [dir] + walk[|walk| - 1]) then 1 else 0
  }

  lemma {:induction false} CopiedIsExact(files: Tree, s: Sources, dir: string, walk: seq<Path>)
    ensures forall q :: q in Copied(files, s, dir, walk) <==> q in files || Mirrors(s, dir, walk, q)
    ensures forall q :: q in Copied(files, s, dir, walk) ==>
              Copied(files, s, dir, walk)[q] == if Mirrors(s, dir, walk, q) then MirroredContent(s, q) else files[q]
  {
    if walk != [] {
      var front, last := walk[..|walk| - 1], walk[|walk| - 1];
      CopiedIsExact(files, s, dir, front);
      assert walk == front + [last];
      assert ([dir] + last)[1..] == last;
      forall q ensures Mirrors(s, dir, walk, q)
        <==> Mirrors(s, dir, front, q) || (q == [dir] + last && IsMirror(s, q)) {
        if q != [] { assert q == [q[0]] + q[1..]; }
      }
    }
  }

  ghost function MirrorsOf(s: Sources, dir: string, walk: seq<Path>): set<Path> {
    set p | p in walk && IsMirror(s, [dir] + p) :: [dir] + p
  }

  lemma MirrorsOneMore(s: Sources, dir: string, front: seq<Path>, last: Path)
    requires last !in front
    ensures |MirrorsOf(s, dir, front + [last])| == |MirrorsOf(s, dir, front)| + if IsMirror(s, [dir] + last) then 1
            else 0
  {
    var q := [dir] + last;
    assert q !in MirrorsOf(s, dir, front) by {
      forall p | p in front ensures [dir] + p != q { assert ([dir] + p)[1..] == p && q[1..] == last; }
    }
    assert MirrorsOf(s, dir, front + [last]) == MirrorsOf(s, dir, front) + if IsMirror(s, q) then {q} else {};
  }

  lemma {:induction false} CountIsExact(s: Sources, dir: string, walk: seq<Path>)
    requires Distinct(walk)
    ensures CountCopied(s, dir, walk) == |MirrorsOf(s, dir, walk)|
  {
    if walk != [] {
      var front, last := walk[..|walk| - 1], walk[|walk| - 1];
      CountIsExact(s, dir, front);
      assert walk == front + [last];
      MirrorsOneMore(s, dir, front, last);
    }
  }

  /** A walk meets each file of a source once. */
  ghost predicate Walks(walk: seq<Path>, src: Option<Source>) {
    if src.None? then walk == [] else Distinct(walk) && forall p :: p in walk <==> p in src.value
  }

  function WithoutTree(files: Tree, dir: string): Tree {
    map p | p in files && !(p != [] && p[0] == dir) :: files[p]
  }

  ghost predicate BothWalk(s: Sources, crossWalk: seq<Path>, ccWalk: seq<Path>) {
    Walks(crossWalk, s.crossAgent) && Walks(ccWalk, s.ccRoot)
  }

  /** A tree reset and filled again from its source. */
  function Refilled(files: Tree, s: Sources, dir: string, walk: seq<Path>): Tree {
    Copied(WithoutTree(files, dir), s, dir, walk)
  }

  lemma RefilledIsExact(files: Tree, s: Sources, dir: string, walk: seq<Path>)
    ensures forall q :: q in Refilled(files, s, dir, walk) <==>
              Mirrors(s, dir, walk, q) || (q in files && !(q != [] && q[0] == dir))
    ensures forall q :: q in Refilled(files, s, dir, walk) ==>
              Refilled(files, s, dir, walk)[q] == if Mirrors(s, dir, walk, q) then MirroredContent(s, q) else files[q]
  {
    CopiedIsExact(WithoutTree(files, dir), s, dir, walk);
  }

  lemma TreesEqual(a: Tree, b: Tree)
    requires forall q :: (q in a <==> q in b) && (q in a ==> a[q] == b[q])
    ensures a == b
  {
  }

  lemma MirrorsAreTheSnapshot(s: Sources, crossWalk: seq<Path>, ccWalk: seq<Path>, q: Path)
    requires BothWalk(s, crossWalk, ccWalk)
    ensures IsMirror(s, q) <==> Mirrors(s, CROSS_AGENT, crossWalk, q) || Mirrors(s, CC_NATIVE, ccWalk, q)
  {
  }

  /** Resetting and refilling the two trees one after the other is a sync. */
  lemma TwoRefillsSync(ws: Workspace, s: Sources, crossWalk: seq<Path>, ccWalk: seq<Path>)
    requires BothWalk(s, crossWalk, ccWalk)
    ensures Refilled(Refilled(ws.files, s, CROSS_AGENT, crossWalk), s, CC_NATIVE, ccWalk) == Synced(ws, s).files
  {
    var first := Refilled(ws.files, s, CROSS_AGENT, crossWalk);
    var second, synced := Refilled(first, s, CC_NATIVE, ccWalk), Synced(ws, s).files;
    RefilledIsExact(ws.files, s, CROSS_AGENT, crossWalk);
    RefilledIsExact(first, s, CC_NATIVE, ccWalk);
    forall q ensures (q in second <==> q in synced) && (q in second ==> second[q] == synced[q]) {
      SyncedAt(ws, s, q);
      MirrorsAreTheSnapshot(s, crossWalk, ccWalk, q);
    }
    TreesEqual(second, synced);
  }

  lemma SyncedAt(ws: Workspace, s: Sources, q: Path)
    ensures q in Synced(ws, s).files <==> IsMirror(s, q) || (q in ws.files && !IsInTree(q))
    ensures q in Synced(ws, s).files ==>
            Synced(ws, s).files[q] == if IsMirror(s, q) then MirroredContent(s, q) else ws.files[q]
  {
    SnapshotIsMirror(s);
  }

  lemma CrossAgentCount(s: Sources, walk: seq<Path>)
    requires Walks(walk, s.crossAgent)
    ensures CountCopied(s, CROSS_AGENT, walk) == |CrossAgentPaths(s)|
  {
    CountIsExact(s, CROSS_AGENT, walk);
    assert MirrorsOf(s, CROSS_AGENT, walk) == CrossAgentPaths(s);
  }

  lemma CCNativeCount(s: Sources, walk: seq<Path>)
    requires Walks(walk, s.ccRoot)
    ensures CountCopied(s, CC_NATIVE, walk) == |CCNativePaths(s)|
  {
    CountIsExact(s, CC_NATIVE, walk);
    assert MirrorsOf(s, CC_NATIVE, walk) == CCNativePaths(s);
  }

  // ----- The worker -----

  /** `message` reports how a step went: empty if it is done, and the workspace is as the step leaves it. */
  ghost predicate Reports(ws: Workspace, message: string, p: Prepared) {
    ws == p.ws && message == (if p.Stopped? then p.message else "")
  }

  class BackupWorker {
    const repo: string
    var ws: Workspace
    var remotes: Remotes
    var status: Status

    constructor (repo: string, ws: Workspace, remotes: Remotes, status: Status)
      ensures this.repo == repo && Now() == State(ws, remotes, status)
    {
      this.repo, this.ws, this.remotes, this.status := repo, ws, remotes, status;
    }

    ghost function Now(): State
      reads this
    {
      State(ws, remotes, status)
    }

    method EnsureOrigin(w: World) returns (message: string)
      modifies this`ws
      ensures Reports(ws, message, WithOrigin(old(ws), w, repo))
    {
      if w.init.NotStarted? { return "git init"; }
      if w.init.NonZero? { return "git init exited"; }
      if w.getURL.NotStarted? { return "git remote get-url"; }
      if w.getURL.Zero? && ws.origin.Some? {
        return if RemoteMatchesRepo(ws.origin.value.url, repo) then "" else "existing origin does not match";
      }
      if w.addRemote.NotStarted? { return "git remote add"; }
      if w.addRemote.NonZero? || ws.origin.Some? { return "git remote add exited"; }
      ws := ws.(origin := Some(OwnRemote(repo)));
      return "";
    }

    method IntegrateRemoteBase(w: World) returns (message: string)
      modifies this`ws
      ensures Reports(ws, message, Integrated(old(ws), remotes, w))
    {
      if w.fetch.NotStarted? { return "git fetch"; }
      if w.fetch.NonZero? || ws.origin.None? || ws.origin.value.url !in remotes { return ""; }
      if !w.reset.Zero? {
        ws := Spoil(ws, w);
        return if w.reset.NotStarted? then "git reset" else "git reset exited";
      }
      ws := ws.ResetTo(remotes[ws.origin.value.url]);
      return "";
    }

    method EnsureWorkspace(w: World) returns (message: string)
      modifies this`ws
      ensures Reports(ws, message, Ensured(old(ws), remotes, w, repo))
    {
      message := EnsureOrigin(w);
      if message != "" { return; }
      message := IntegrateRemoteBase(w);
      if message != "" { return; }
      if !w.savesIgnore { return "writing .gitignore"; }
      if !(IGNORE_FILE in ws.files && ws.files[IGNORE_FILE] == IGNORE_TEXT) {
        ws := ws.(files := ws.files[IGNORE_FILE := IGNORE_TEXT]);
      }
      assert ws.files == ws.files[IGNORE_FILE := IGNORE_TEXT];
    }

    method VerifyRemote(w: World) returns (message: string)
      ensures Reports(ws, message, Verified(ws, w, repo))
    {
      if w.checkURL.NotStarted? { return "git remote get-url"; }
      if w.checkURL.NonZero? || ws.origin.None? { return "no remote configured"; }
      if !RemoteMatchesRepo(ws.origin.value.url, repo) { return "remote does not match"; }
      if w.auth.NotStarted? { return "gh not available"; }
      if w.auth.NonZero? { return "gh not authenticated"; }
      return "";
    }

    /** Copies the files a walk meets below a directory of the workspace. */
    method CopyTree(s: Sources, src: Source, dir: string, skipGit: bool, walk: seq<Path>) returns (count: nat)
      requires if skipGit then dir == CROSS_AGENT && s.crossAgent == Some(src)
              else dir == CC_NATIVE && s.ccRoot == Some(src)
      requires forall p :: p in walk ==> p in src
      modifies this`ws
      ensures ws == old(ws).(files := Copied(old(ws.files), s, dir, walk))
      ensures count == CountCopied(s, dir, walk)
    {
      count := 0;
      for k := 0 to |walk|
        invariant ws == old(ws).(files := Copied(old(ws.files), s, dir, walk[..k]))
        invariant count == CountCopied(s, dir, walk[..k])
      {
        var p := walk[k];
        assert walk[..k + 1][..k] == walk[..k];
        assert ([dir] + p)[1..] == p;
        if p == [] || (skipGit && UnderGit(p)) || (!skipGit && !IsProjectMemory(p)) { continue; }
        if !src[p].regular { continue; }
        if IsAuditJSONL(p[|p| - 1]) { continue; }
        if IsSQLiteDatabaseFile(p[|p| - 1], s.lower) { continue; }
        if SeemsOutside(if skipGit then p[0] else p[2]) { continue; }
        ws := ws.(files := ws.files[[dir] + p := src[p].content]);
        count := count + 1;
      }
      assert walk[..|walk|] == walk;
    }

    method SyncSources(s: Sources, crossWalk: seq<Path>, ccWalk: seq<Path>) returns (cross: nat, cc: nat)
      requires BothWalk(s, crossWalk, ccWalk)
      modifies this`ws
      ensures ws == Synced(old(ws), s)
      ensures cross == |CrossAgentPaths(s)| && cc == |CCNativePaths(s)|
    {
      cross, cc := 0, 0;
      TwoRefillsSync(ws, s, crossWalk, ccWalk);
      CrossAgentCount(s, crossWalk);
      CCNativeCount(s, ccWalk);
      ws := ws.(files := WithoutTree(ws.files, CROSS_AGENT));
      if s.crossAgent.Some? { cross := CopyTree(s, s.crossAgent.value, CROSS_AGENT, true, crossWalk); }
      ws := ws.(files := WithoutTree(ws.files, CC_NATIVE));
      if s.ccRoot.Some? { cc := CopyTree(s, s.ccRoot.value, CC_NATIVE, false, ccWalk); }
    }

    method CommitBackup(w: World) returns (message: string)
      modifies this`ws
      ensures !w.stage.Zero? ==> message != "" && ws == Spoil(old(ws), w)
      ensures w.stage.Zero? && w.commit.NotStarted? ==> message == "git commit" && ws == old(ws).Staged(w.ignored)
      ensures w.stage.Zero? && !w.commit.NotStarted? ==> message == "" && ws == Finished(old(ws).Staged(w.ignored), w)
      ensures w.stage.NotStarted? ==> message == "git add"
      ensures w.stage.NonZero? ==> message == "git add exited"
    {
      if !w.stage.Zero? {
        ws := Spoil(ws, w);
        return if w.stage.NotStarted? then "git add" else "git add exited";
      }
      ws := ws.Staged(w.ignored);
      if w.commit.NotStarted? { return "git commit"; }
      if w.commit.Zero? && ws.HasChanges() { ws := ws.Committed(w.message); }
      return "";
    }

    /** Snapshot and commit. */
    method Snap(s: Sources, w: World, crossWalk: seq<Path>, ccWalk: seq<Path>)
      returns (message: string, cross: nat, cc: nat)
      requires BothWalk(s, crossWalk, ccWalk)
      modifies this`ws
      ensures Reports(ws, message, Snapped(old(ws), s, w))
      ensures message == "" ==> cross == |CrossAgentPaths(s)| && cc == |CCNativePaths(s)|
    {
      if !w.syncs {
        ws := Spoil(ws, w);
        return "syncing sources", 0, 0;
      }
      cross, cc := SyncSources(s, crossWalk, ccWalk);
      message := CommitBackup(w);
    }

    method Fail(w: World, message: string)
      modifies this`status
      ensures status == Failing(old(status), w, repo, message)
    {
      status := status.(repo := repo, lastAttemptAt := w.startedAt, lastError := message, lastErrorAt := w.now);
    }

    method RunOnce(s: Sources, w: World, crossWalk: seq<Path>, ccWalk: seq<Path>) returns (result: Result)
      requires BothWalk(s, crossWalk, ccWalk)
      modifies this
      ensures Now() == Cycle(old(Now()), s, w, repo).state && result == Cycle(old(Now()), s, w, repo).result
    {
      if w.lock.HeldElsewhere? {
        remotes := remotes + w.others;
        return Skipped;
      }
      if w.lock.Broken? {
        remotes := remotes + w.others;
        Fail(w, "acquiring lock");
        return Failed("acquiring lock");
      }
      ws := Locked(ws, w.pid);
      result := RunLocked(s, w, crossWalk, ccWalk);
      ws := Unlocked(ws);
    }

    /** The cycle between taking the lock and releasing it. */
    method RunLocked(s: Sources, w: World, crossWalk: seq<Path>, ccWalk: seq<Path>) returns (result: Result)
      requires BothWalk(s, crossWalk, ccWalk) && w.lock.Acquired?
      modifies this
      ensures Now() == LockedCycle(old(Now()), s, w, repo).state && result == LockedCycle(old(Now()), s, w, repo).result
    {
      if Trim(repo, IsSpace) == "" {
        remotes := remotes + w.others;
        Fail(w, "no backup repo configured");
        return Failed("no backup repo configured");
      }
      var message, cross, cc := Prepare(s, w, crossWalk, ccWalk);
      remotes := remotes + w.others;
      StoppedSaysWhy(old(ws), old(remotes), s, w, repo);
      if message != "" {
        Fail(w, message);
        return Failed(message);
      }
      result := Push(w, cross, cc);
    }

    /** Everything before the push. */
    method Prepare(s: Sources, w: World, crossWalk: seq<Path>, ccWalk: seq<Path>)
      returns (message: string, cross: nat, cc: nat)
      requires BothWalk(s, crossWalk, ccWalk)
      modifies this`ws
      ensures Reports(ws, message, BeforePush(old(ws), remotes, s, w, repo))
      ensures message == "" ==> cross == |CrossAgentPaths(s)| && cc == |CCNativePaths(s)|
    {
      cross, cc := 0, 0;
      EnsuredSaysWhy(ws, remotes, w, repo);
      message := EnsureWorkspace(w);
      if message != "" { return; }
      ws := Rewritten(ws, w);
      VerifiedSaysWhy(ws, w, repo);
      message := VerifyRemote(w);
      if message != "" { return; }
      message, cross, cc := Snap(s, w, crossWalk, ccWalk);
    }

    method Push(w: World, cross: nat, cc: nat) returns (result: Result)
      modifies this`remotes, this`status
      ensures Pushes(ws, old(remotes), w) ==>
                && result == Succeeded && remotes == Pushed(old(remotes), ws.origin.value.Targets(), ws.head.value)
                && status == Status(repo, w.startedAt, w.now, "", "", cross, cc)
      ensures !Pushes(ws, old(remotes), w) ==>
                && result == Failed(PushMessage(w)) && remotes == old(remotes)
                && status == Failing(old(status), w, repo, PushMessage(w))
    {
      if !Pushes(ws, remotes, w) {
        Fail(w, PushMessage(w));
        return Failed(PushMessage(w));
      }
      remotes := Pushed(remotes, ws.origin.value.Targets(), ws.head.value);
      status := Status(repo, w.startedAt, w.now, "", "", cross, cc);
      return Succeeded;
    }
  }
}
