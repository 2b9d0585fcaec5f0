/** The remote of the backup: its URL, and when a URL names the configured repository. */
module BackupRemote {

  // Repository names and URLs are ASCII here.

  function LowerChar(c: char): char {
    if 'A' <= c <= 'Z' then c - 'A' + 'a' else c
  }

  function Lower(s: string): (r: string)
    ensures |r| == |s| && forall k :: 0 <= k < |s| ==> r[k] == LowerChar(s[k])
  {
    seq(|s|, k requires 0 <= k < |s| => LowerChar(s[k]))
  }

  predicate IsSpace(c: char) {
    c == ' ' || '\t' <= c <= '\r'
  }

  predicate IsSlash(c: char) {
    c == '/'
  }

  predicate IsColonOrSlash(c: char) {
    c == ':' || c == '/'
  }

  function TrimLeft(s: string, p: char -> bool): string {
    if s != "" && p(s[0]) then TrimLeft(s[1..], p) else s
  }

  function TrimRight(s: string, p: char -> bool): string {
    if s != "" && p(s[|s| - 1]) then TrimRight(s[..|s| - 1], p) else s
  }

  function Trim(s: string, p: char -> bool): string {
    TrimRight(TrimLeft(s, p), p)
  }

  predicate HasSuffix(s: string, suffix: string) {
    |s| >= |suffix| && s[|s| - |suffix|..] == suffix
  }

  lemma OtherEnd(s: string, suffix: string)
    requires s != "" && suffix != "" && s[|s| - 1] != suffix[|suffix| - 1]
    ensures !HasSuffix(s, suffix)
  {
    assert |s| >= |suffix| ==> s[|s| - |suffix|..][|suffix| - 1] == s[|s| - 1];
  }

  function TrimSuffix(s: string, suffix: string): string {
    if HasSuffix(s, suffix) then s[..|s| - |suffix|] else s
  }

  /** The first place where `sub` occurs, or the length of the string. */
  function IndexFrom(s: string, sub: string, i: nat): (r: nat)
    requires i <= |s|
    ensures i <= r <= |s|
    decreases |s| - i
  {
    if i == |s| || sub <= s[i..] then i else IndexFrom(s, sub, i + 1)
  }

  const HOST := "github.com"

  function RemoteURL(repo: string): string {
    "git@github.com:" + repo + ".git"
  }

  /** The text that is looked at: the URL without outer white space, in lower case, less one .git suffix. */
  function TextOf(url: string): string {
    TrimSuffix(Lower(Trim(url, IsSpace)), ".git")
  }

  /** Where the first mention of the host starts; the length of the text if there is none. */
  function HostAt(text: string): nat {
    IndexFrom(text, HOST, 0)
  }

  predicate MentionsHost(text: string) {
    HOST <= text[HostAt(text)..]
  }

  /** What a URL names: the part behind the host, without outer slashes. */
  function NameOf(url: string): string {
    var text := TextOf(url);
    Trim(if MentionsHost(text) then TrimLeft(text[HostAt(text) + |HOST|..], IsColonOrSlash) else text, IsSlash)
  }

  function WantedName(repo: string): string {
    Lower(TrimSuffix(Trim(repo, IsSpace), ".git"))
  }

  predicate RemoteMatchesRepo(url: string, repo: string) {
    WantedName(repo) != "" && NameOf(url) == WantedName(repo)
  }

  // ----- A repository and its own URL -----

  lemma TrimKeeps(s: string, p: char -> bool)
    requires s != "" ==> !p(s[0]) && !p(s[|s| - 1])
    ensures Trim(s, p) == s
  {
  }

  lemma {:induction false} TrimLeftShortens(s: string, p: char -> bool)
    ensures |TrimLeft(s, p)| <= |s|
    ensures s != "" && p(s[0]) ==> |TrimLeft(s, p)| < |s|
    ensures TrimLeft(s, p) != "" ==> !p(TrimLeft(s, p)[0])
  {
    if s != "" && p(s[0]) { TrimLeftShortens(s[1..], p); }
  }

  lemma {:induction false} TrimRightShortens(s: string, p: char -> bool)
    ensures |TrimRight(s, p)| <= |s|
    ensures s != "" && p(s[|s| - 1]) ==> |TrimRight(s, p)| < |s|
    ensures TrimRight(s, p) <= s
  {
    if s != "" && p(s[|s| - 1]) { TrimRightShortens(s[..|s| - 1], p); }
  }

  const OWN_PREFIX := "git@github.com:"

  lemma HostIsFound(rest: string)
    ensures IndexFrom(OWN_PREFIX + rest, HOST, 0) == 4
    ensures HOST <= (OWN_PREFIX + rest)[4..] && (OWN_PREFIX + rest)[4 + |HOST|..] == ":" + rest
  {
    var got := OWN_PREFIX + rest;
    assert got[4..] == HOST + (":" + rest);
    assert got[0] == 'g' && got[1] == 'i' && got[2] == 't' && got[3] == '@' && got[4] == 'g';
    assert got[1..][0] == 'i' && got[2..][0] == 't' && got[3..][0] == '@' && got[0..][1] == 'i' && got[0..][3] == '@';
    assert IndexFrom(got, HOST, 4) == 4;
    assert IndexFrom(got, HOST, 3) == 4;
    assert IndexFrom(got, HOST, 2) == 4;
    assert IndexFrom(got, HOST, 1) == 4;
  }

  lemma LowerAppend(a: string, b: string)
    ensures Lower(a + b) == Lower(a) + Lower(b)
  {
  }

  lemma LowerOwnPrefix()
    ensures Lower(OWN_PREFIX) == OWN_PREFIX && Lower(".git") == ".git"
  {
  }

  lemma SuffixRemoved(s: string, suffix: string)
    ensures TrimSuffix(s + suffix, suffix) == s
  {
    assert (s + suffix)[|s|..] == suffix;
  }

  lemma OwnURLWithoutSuffix(repo: string)
    ensures TrimSuffix(Lower(Trim(RemoteURL(repo), IsSpace)), ".git") == OWN_PREFIX + Lower(repo)
  {
    var url := RemoteURL(repo);
    assert url[0] == 'g' && url[|url| - 1] == 't';
    TrimKeeps(url, IsSpace);
    LowerAppend(OWN_PREFIX + repo, ".git");
    LowerAppend(OWN_PREFIX, repo);
    LowerOwnPrefix();
    SuffixRemoved(OWN_PREFIX + Lower(repo), ".git");
  }

  /** The name read out of a repository's own URL. */
  lemma NameOfOwnURL(repo: string)
    ensures NameOf(RemoteURL(repo)) == Trim(TrimLeft(Lower(repo), IsColonOrSlash), IsSlash)
  {
    OwnURLWithoutSuffix(repo);
    HostIsFound(Lower(repo));
    assert (":" + Lower(repo))[1..] == Lower(repo);
  }

  /** A name keeps its length when its outer slashes and colons are trimmed only if it has none. */
  lemma TrimmedName(name: string)
    ensures name != "" && !IsColonOrSlash(name[0]) && !IsSlash(name[|name| - 1]) ==>
            Trim(TrimLeft(name, IsColonOrSlash), IsSlash) == name
    ensures name != "" && (IsColonOrSlash(name[0]) || IsSlash(name[|name| - 1])) ==>
            |Trim(TrimLeft(name, IsColonOrSlash), IsSlash)| < |name|
    ensures var t := Trim(TrimLeft(name, IsColonOrSlash), IsSlash); t != "" ==> !IsColonOrSlash(t[0])
  {
    var left := TrimLeft(name, IsColonOrSlash);
    TrimLeftShortens(name, IsColonOrSlash);
    TrimLeftShortens(left, IsSlash);
    TrimRightShortens(TrimLeft(left, IsSlash), IsSlash);
  }

  lemma OwnURLMatchesTrimmed(repo: string)
    requires Trim(repo, IsSpace) == repo
    ensures RemoteMatchesRepo(RemoteURL(repo), repo) <==>
            && repo != "" && !HasSuffix(repo, ".git")
            && !IsColonOrSlash(repo[0]) && !IsSlash(repo[|repo| - 1])
  {
    NameOfOwnURL(repo);
    TrimmedName(Lower(repo));
    WantedIsFront(repo);
    if repo != "" { assert Lower(repo)[|repo| - 1] == LowerChar(repo[|repo| - 1]); }
  }

  /** What is wanted does not begin with white space, and is no longer than the trimmed name. */
  lemma WantedIsTrimmed(repo: string)
    ensures WantedName(repo) != "" ==> !IsSpace(WantedName(repo)[0])
    ensures |WantedName(repo)| <= |Trim(repo, IsSpace)| <= |repo|
    ensures repo != "" && !IsSpace(repo[0]) && WantedName(repo) != "" ==> WantedName(repo)[0] == LowerChar(repo[0])
  {
    TrimLeftShortens(repo, IsSpace);
    TrimRightShortens(TrimLeft(repo, IsSpace), IsSpace);
  }

  /** Slashes trimmed off a text that begins with white space leave it in front. */
  lemma SpaceStays(name: string)
    requires name != "" && IsSpace(name[0])
    ensures var t := Trim(TrimLeft(name, IsColonOrSlash), IsSlash); t == "" || t[0] == name[0]
  {
    TrimRightShortens(name, IsSlash);
  }

  lemma TrimCuts(repo: string)
    requires repo != "" && !IsSpace(repo[0]) && Trim(repo, IsSpace) != repo
    ensures IsSpace(repo[|repo| - 1]) && |Trim(repo, IsSpace)| < |repo|
  {
    TrimRightShortens(repo, IsSpace);
  }

  lemma SpaceInFrontDiffers(repo: string)
    requires repo != "" && IsSpace(repo[0])
    ensures !RemoteMatchesRepo(RemoteURL(repo), repo)
  {
    NameOfOwnURL(repo);
    WantedIsTrimmed(repo);
    assert Lower(repo)[0] == LowerChar(repo[0]);
    SpaceStays(Lower(repo));
  }

  lemma SpaceBehindDiffers(repo: string)
    requires repo != "" && !IsSpace(repo[0]) && Trim(repo, IsSpace) != repo
    ensures !RemoteMatchesRepo(RemoteURL(repo), repo)
  {
    NameOfOwnURL(repo);
    WantedIsTrimmed(repo);
    TrimmedName(Lower(repo));
    TrimCuts(repo);
    assert Lower(repo)[0] == LowerChar(repo[0]) && Lower(repo)[|repo| - 1] == LowerChar(repo[|repo| - 1]);
  }

  /**
   A repository's own URL names it exactly if its name carries no outer white space, outer slash or
   leading colon and no .git suffix.
   */
  lemma OwnURLMatches(repo: string)
    ensures RemoteMatchesRepo(RemoteURL(repo), repo) <==>
            && Trim(repo, IsSpace) == repo && repo != "" && !HasSuffix(repo, ".git")
            && !IsColonOrSlash(repo[0]) && !IsSlash(repo[|repo| - 1])
  {
    if Trim(repo, IsSpace) == repo {
      OwnURLMatchesTrimmed(repo);
    } else if IsSpace(repo[0]) {
      SpaceInFrontDiffers(repo);
    } else {
      SpaceBehindDiffers(repo);
    }
  }

  lemma WantedIsFront(repo: string)
    requires Trim(repo, IsSpace) == repo
    ensures WantedName(repo) == if HasSuffix(repo, ".git") then Lower(repo)[..|repo| - 4] else Lower(repo)
    ensures HasSuffix(repo, ".git") ==> repo[|repo| - 1] == 't'
  {
    if HasSuffix(repo, ".git") { assert repo[|repo| - 1] == repo[|repo| - 4..][3]; }
  }

  // ----- Which URLs are accepted -----

  predicate All(s: string, p: char -> bool) {
    forall c :: c in s ==> p(c)
  }

  /** `s` is `name` behind characters of `left` and before slashes. */
  ghost predicate Wraps(s: string, left: char -> bool, name: string) {
    exists before, after :: All(before, left) && All(after, IsSlash) && s == before + name + after
  }

  lemma HeadAndTail(s: string)
    requires s != ""
    ensures s == [s[0]] + s[1..] && s == s[..|s| - 1] + [s[|s| - 1]]
  {
  }

  lemma Reassociate(a: string, b: string, c: string)
    ensures a + (b + c) == a + b + c
  {
  }

  lemma {:induction false} TrimLeftStripsAll(s: string, p: char -> bool) returns (run: string)
    ensures All(run, p) && s == run + TrimLeft(s, p)
  {
    if s != "" && p(s[0]) {
      var rest := TrimLeftStripsAll(s[1..], p);
      run := [s[0]] + rest;
      HeadAndTail(s);
      Reassociate([s[0]], rest, TrimLeft(s, p));
    } else {
      run := "";
    }
  }

  lemma {:induction false} TrimRightStripsAll(s: string, p: char -> bool) returns (run: string)
    ensures All(run, p) && s == TrimRight(s, p) + run
  {
    if s != "" && p(s[|s| - 1]) {
      var rest := TrimRightStripsAll(s[..|s| - 1], p);
      run := rest + [s[|s| - 1]];
      HeadAndTail(s);
      Reassociate(TrimRight(s, p), rest, [s[|s| - 1]]);
    } else {
      run := "";
    }
  }

  lemma {:induction false} TrimLeftOf(run: string, rest: string, p: char -> bool)
    requires All(run, p) && (rest != "" ==> !p(rest[0]))
    ensures TrimLeft(run + rest, p) == rest
  {
    if run == "" {
      assert run + rest == rest;
    } else {
      assert run[0] in run;
      assert (run + rest)[1..] == run[1..] + rest;
      assert forall c :: c in run[1..] ==> c in run;
      TrimLeftOf(run[1..], rest, p);
    }
  }

  lemma {:induction false} TrimRightOf(rest: string, run: string, p: char -> bool)
    requires All(run, p) && (rest != "" ==> !p(rest[|rest| - 1]))
    ensures TrimRight(rest + run, p) == rest
  {
    if run == "" {
      assert rest + run == rest;
    } else {
      assert run[|run| - 1] in run;
      assert (rest + run)[..|rest + run| - 1] == rest + run[..|run| - 1];
      assert forall c :: c in run[..|run| - 1] ==> c in run;
      TrimRightOf(rest, run[..|run| - 1], p);
    }
  }

  lemma {:induction false} TrimRightEnds(s: string, p: char -> bool)
    ensures TrimRight(s, p) != "" ==> !p(TrimRight(s, p)[|TrimRight(s, p)| - 1])
  {
    if s != "" && p(s[|s| - 1]) { TrimRightEnds(s[..|s| - 1], p); }
  }

  lemma TrimLeftKeepsSlashless(rest: string, left: char -> bool)
    requires left('/') && (rest != "" ==> !left(rest[0]))
    ensures TrimLeft(rest, IsSlash) == rest
  {
  }

  /** A name with nothing to trim off: no `left` character in front, no slash at either end. */
  predicate IsTrimmed(name: string, left: char -> bool) {
    name != "" && !left(name[0]) && !IsSlash(name[0]) && !IsSlash(name[|name| - 1])
  }

  lemma WrappedBy(s: string, left: char -> bool, before: string, name: string, after: string)
    requires All(before, left) && All(after, IsSlash) && s == before + (name + after)
    ensures Wraps(s, left, name)
  {
    Reassociate(before, name, after);
  }

  lemma TrimmedIsWrapped(s: string, left: char -> bool)
    requires left('/') && Trim(TrimLeft(s, left), IsSlash) != ""
    ensures var name := Trim(TrimLeft(s, left), IsSlash); IsTrimmed(name, left) && Wraps(s, left, name)
  {
    var rest := TrimLeft(s, left);
    var before := TrimLeftStripsAll(s, left);
    TrimLeftShortens(s, left);
    TrimLeftKeepsSlashless(rest, left);
    var after := TrimRightStripsAll(rest, IsSlash);
    TrimRightShortens(rest, IsSlash);
    TrimRightEnds(rest, IsSlash);
    WrappedBy(s, left, before, TrimRight(rest, IsSlash), after);
  }

  lemma WrappedIsTrimmed(s: string, left: char -> bool, name: string)
    requires left('/') && IsTrimmed(name, left) && Wraps(s, left, name)
    ensures Trim(TrimLeft(s, left), IsSlash) == name
  {
    var before, after :| All(before, left) && All(after, IsSlash) && s == before + name + after;
    Reassociate(before, name, after);
    TrimLeftOf(before, name + after, left);
    TrimLeftKeepsSlashless(name + after, left);
    TrimRightOf(name, after, IsSlash);
  }

  lemma AcceptedTail(s: string, left: char -> bool, name: string)
    requires left('/')
    ensures name != "" && Trim(TrimLeft(s, left), IsSlash) == name <==> IsTrimmed(name, left) && Wraps(s, left, name)
  {
    if name != "" && Trim(TrimLeft(s, left), IsSlash) == name { TrimmedIsWrapped(s, left); }
    if IsTrimmed(name, left) && Wraps(s, left, name) { WrappedIsTrimmed(s, left, name); }
  }

  lemma NameIsTrimmed(url: string)
    ensures var text := TextOf(url);
            NameOf(url)
              == if MentionsHost(text) then Trim(TrimLeft(text[HostAt(text) + |HOST|..], IsColonOrSlash), IsSlash)
                           else Trim(TrimLeft(text, IsSlash), IsSlash)
  {
    var left := TrimLeft(TextOf(url), IsSlash);
    TrimLeftShortens(TextOf(url), IsSlash);
    TrimLeftKeepsSlashless(left, IsSlash);
  }

  /** A remote is accepted exactly if its text is the wanted name within slashes, behind the first
      mention of the host and any run of colons and slashes, or with no mention of the host at all. */
  lemma AcceptedIff(url: string, repo: string)
    ensures var text, name := TextOf(url), WantedName(repo);
            RemoteMatchesRepo(url, repo) <==>
            if MentionsHost(text)
            then IsTrimmed(name, IsColonOrSlash) && Wraps(text[HostAt(text) + |HOST|..], IsColonOrSlash, name)
            else IsTrimmed(name, IsSlash) && Wraps(text, IsSlash, name)
  {
    var text, name := TextOf(url), WantedName(repo);
    NameIsTrimmed(url);
    if MentionsHost(text) {
      AcceptedTail(text[HostAt(text) + |HOST|..], IsColonOrSlash, name);
    } else {
      AcceptedTail(text, IsSlash, name);
    }
  }

  // ----- Which accepted URLs are GitHub's -----

  /** Text in front of the host that ends in '@' and has neither '@' nor a character of `stops` before that. */
  predicate IsUser(user: string, stops: string) {
    user != "" && user[|user| - 1] == '@' && forall c :: c in user[..|user| - 1] ==> c != '@' && c !in stops
  }

  /** What may stand before the host and one separator: ssh's `user@` and ':', or a scheme, perhaps a user, and '/'. */
  predicate IsLead(lead: string, separator: char) {
    || (separator == ':' && (lead == "" || IsUser(lead, ":/")))
    || (separator == '/' && "https://" <= lead && (lead == "https://" || IsUser(lead[|"https://"|..], "/?#")))
    || (separator == '/' && "ssh://" <= lead && (lead == "ssh://" || IsUser(lead[|"ssh://"|..], "/?#")))
  }

  /** The parts of a GitHub URL of a name: lead, the host, one separator, the name, slashes. */
  predicate IsGitHubForm(text: string, lead: string, separator: char, name: string, after: string) {
    name != "" && IsLead(lead, separator) && All(after, IsSlash) && text == lead + HOST + [separator] + name + after
  }

  /** An ssh or https URL of the repository on the host github.com itself. */
  ghost predicate IsGitHubURLOf(url: string, repo: string) {
    exists lead, separator, after :: IsGitHubForm(TextOf(url), lead, separator, WantedName(repo), after)
  }

  /** The first mention of the host has a proper lead, and a single separator behind it. */
  predicate NamesHost(text: string) {
    && var h := HostAt(text) + |HOST|;
    && MentionsHost(text) && h < |text| && IsLead(text[..HostAt(text)], text[h])
    && !(h + 1 < |text| && IsColonOrSlash(text[h + 1]))
  }

  lemma {:induction false} FirstMention(text: string, i: nat, k: nat)
    requires i <= k <= |text| && HOST <= text[k..]
    ensures IndexFrom(text, HOST, i) <= k && HOST <= text[IndexFrom(text, HOST, i)..]
    decreases k - i
  {
    if i < k && !(HOST <= text[i..]) { FirstMention(text, i + 1, k); }
  }

  /** A text ends in as many slashes as stand behind the name in it. */
  lemma EndsIn(front: string, name: string, after: string)
    requires name != "" && !IsSlash(name[|name| - 1]) && All(after, IsSlash)
    ensures var text := front + name + after;
            && |after| < |text| && !IsSlash(text[|text| - 1 - |after|])
            && forall k :: |text| - |after| <= k < |text| ==> IsSlash(text[k])
  {
    var text := front + name + after;
    assert text[|text| - 1 - |after|] == name[|name| - 1];
    forall k | |text| - |after| <= k < |text| ensures IsSlash(text[k]) {
      assert text[k] == after[k - (|text| - |after|)] && text[k] in after;
    }
  }

  lemma SlashesAlike(front: string, front': string, name: string, after: string, after': string)
    requires name != "" && !IsSlash(name[|name| - 1]) && All(after, IsSlash) && All(after', IsSlash)
    requires front + name + after == front' + name + after'
    ensures |after| == |after'|
  {
    EndsIn(front, name, after);
    EndsIn(front', name, after');
  }

  lemma PartsAt(a: string, b: string, c: string)
    ensures (a + b + c)[..|a|] == a && (a + b + c)[|a|..] == b + c
    ensures (a + b + c)[|a + b|..] == c
  {
  }

  lemma FormAt(text: string, lead: string, separator: char, name: string, after: string)
    requires IsGitHubForm(text, lead, separator, name, after)
    ensures |lead| + |HOST| < |text| && text[|lead| + |HOST|] == separator && text[|lead| + |HOST| - 1] == 'm'
    ensures text[..|lead|] == lead && text[|lead| + |HOST|..] == [separator] + name + after
    ensures HostAt(text) <= |lead| && MentionsHost(text)
  {
    var tail := [separator] + name + after;
    assert text == lead + HOST + tail;
    PartsAt(lead, HOST, tail);
    assert (HOST + tail)[..|HOST|] == HOST;
    assert text[|lead|..][|HOST| - 1] == 'm' && text[|lead|..][|HOST|] == separator;
    FirstMention(text, 0, |lead|);
  }

  lemma RunAt(text: string, i: nat, run: string, rest: string)
    requires i <= |text| && text[i..] == run + rest && All(run, IsColonOrSlash)
    ensures forall k :: i <= k < i + |run| ==> IsColonOrSlash(text[k])
  {
    forall k | i <= k < i + |run| ensures IsColonOrSlash(text[k]) {
      assert text[k] == text[i..][k - i] == run[k - i] && text[k] in run;
    }
  }

  /**
   Of a text whose run of separators is followed by the name, the host's first mention and one separator
   are the form's.
   */
  lemma OneSeparator(text: string, run: string, tail: string, lead: string, separator: char, name: string,
          after: string)
    requires IsGitHubForm(text, lead, separator, name, after) && IsTrimmed(name, IsColonOrSlash)
    requires All(run, IsColonOrSlash) && All(tail, IsSlash)
    requires MentionsHost(text) && text[HostAt(text) + |HOST|..] == run + name + tail
    ensures HostAt(text) == |lead| && |run| == 1
  {
    var h := HostAt(text) + |HOST|;
    FormAt(text, lead, separator, name, after);
    SplitAt(text, h, run, name, tail);
    SlashesAlike(text[..h] + run, lead + HOST + [separator], name, tail, after);
    Reassociate(run, name, tail);
    RunAt(text, h, run, name + tail);
  }

  lemma SplitAt(text: string, h: nat, run: string, name: string, tail: string)
    requires h <= |text| && text[h..] == run + name + tail
    ensures text == text[..h] + run + name + tail
  {
    assert text == text[..h] + text[h..];
    Reassociate(text[..h], run + name, tail);
    Reassociate(text[..h], run, name);
  }

  lemma TailOf(text: string, lead: string, separator: char, name: string, after: string)
    requires IsGitHubForm(text, lead, separator, name, after) && HostAt(text) == |lead|
    ensures Wraps(text[HostAt(text) + |HOST|..], IsColonOrSlash, name)
  {
    FormAt(text, lead, separator, name, after);
    var run := [separator];
    assert All(run, IsColonOrSlash);
    assert text[HostAt(text) + |HOST|..] == run + name + after;
  }

  /**
   A GitHub URL of the repository is accepted exactly if its host is the first mention of one and the
   name carries no outer slash or leading colon.
   */
  lemma GitHubURLAcceptedIff(url: string, repo: string, lead: string, separator: char, after: string)
    requires IsGitHubForm(TextOf(url), lead, separator, WantedName(repo), after)
    ensures RemoteMatchesRepo(url, repo)
            <==> IsTrimmed(WantedName(repo), IsColonOrSlash) && HostAt(TextOf(url)) == |lead|
  {
    var text, name := TextOf(url), WantedName(repo);
    AcceptedIff(url, repo);
    FormAt(text, lead, separator, name, after);
    if RemoteMatchesRepo(url, repo) {
      var run, tail :|
        All(run, IsColonOrSlash) && All(tail, IsSlash) && text[HostAt(text) + |HOST|..] == run + name + tail;
      OneSeparator(text, run, tail, lead, separator, name, after);
    }
    if HostAt(text) == |lead| { TailOf(text, lead, separator, name, after); }
  }

  lemma GenuineNamesHost(url: string, repo: string)
    requires RemoteMatchesRepo(url, repo) && IsGitHubURLOf(url, repo)
    ensures NamesHost(TextOf(url))
  {
    var text, name := TextOf(url), WantedName(repo);
    var lead, separator, after :| IsGitHubForm(text, lead, separator, name, after);
    AcceptedIff(url, repo);
    GitHubURLAcceptedIff(url, repo, lead, separator, after);
    FormAt(text, lead, separator, name, after);
    assert text[|lead| + |HOST|..][1] == name[0];
  }

  lemma NamedHostIsGenuine(url: string, repo: string)
    requires RemoteMatchesRepo(url, repo) && NamesHost(TextOf(url))
    ensures IsGitHubURLOf(url, repo)
  {
    var text, name := TextOf(url), WantedName(repo);
    AcceptedIff(url, repo);
    var h := HostAt(text) + |HOST|;
    var run, after :| All(run, IsColonOrSlash) && All(after, IsSlash) && text[h..] == run + name + after;
    SingleRun(text, h, run, name, after);
    SplitAt(text, h, run, name, after);
    HostSplits(text, HostAt(text));
    assert IsGitHubForm(text, text[..HostAt(text)], text[h], name, after);
  }

  lemma HostSplits(text: string, i: nat)
    requires i <= |text| && HOST <= text[i..]
    ensures text[..i + |HOST|] == text[..i] + HOST
  {
  }

  lemma SingleRun(text: string, h: nat, run: string, name: string, after: string)
    requires h < |text| && text[h..] == run + name + after && All(run, IsColonOrSlash)
    requires IsTrimmed(name, IsColonOrSlash) && IsColonOrSlash(text[h])
    requires !(h + 1 < |text| && IsColonOrSlash(text[h + 1]))
    ensures run == [text[h]]
  {
    Reassociate(run, name, after);
    RunAt(text, h, run, name + after);
    assert text[h..][0] == text[h];
    assert (run + name + after)[0] == (run + name)[0];
  }

  /** An accepted remote is on GitHub exactly if the text before the first mention of the host is a
      proper lead and a single separator follows the host. */
  lemma AcceptedIsGitHubIff(url: string, repo: string)
    requires RemoteMatchesRepo(url, repo)
    ensures IsGitHubURLOf(url, repo) <==> NamesHost(TextOf(url))
  {
    if IsGitHubURLOf(url, repo) { GenuineNamesHost(url, repo); }
    if NamesHost(TextOf(url)) { NamedHostIsGenuine(url, repo); }
  }

  lemma OwnText(repo: string)
    ensures var text := TextOf(RemoteURL(repo));
            && HostAt(text) == 4 && MentionsHost(text) && IsLead(text[..4], ':')
            && text[4 + |HOST|..] == ":" + Lower(repo)
  {
    OwnURLWithoutSuffix(repo);
    HostIsFound(Lower(repo));
    assert (OWN_PREFIX + Lower(repo))[..4] == "git@";
  }

  lemma AfterColon(text: string, i: nat, name: string)
    requires i <= |text| && text[i..] == ":" + name
    ensures i < |text| && text[i] == ':' && (i + 1 < |text| ==> name != "" && text[i + 1] == name[0])
  {
    assert text[i] == text[i..][0];
    if i + 1 < |text| { assert text[i + 1] == text[i..][1]; }
  }

  lemma OwnURLNamesHost(repo: string)
    requires RemoteMatchesRepo(RemoteURL(repo), repo)
    ensures NamesHost(TextOf(RemoteURL(repo)))
  {
    var text := TextOf(RemoteURL(repo));
    OwnURLMatches(repo);
    OwnText(repo);
    AfterColon(text, 4 + |HOST|, Lower(repo));
    assert !IsColonOrSlash(Lower(repo)[0]);
  }

  /** The URL that a backup sets itself is, if accepted, on GitHub. */
  lemma OwnURLIsGitHub(repo: string)
    requires RemoteMatchesRepo(RemoteURL(repo), repo)
    ensures IsGitHubURLOf(RemoteURL(repo), repo)
  {
    OwnURLNamesHost(repo);
    AcceptedIsGitHubIff(RemoteURL(repo), repo);
  }

  // ----- Accepted remotes that are not GitHub's -----

  const NAME := "o/n"

  /** Plain text of a remote: nothing to trim or to put into lower case. */
  predicate IsPlain(url: string) {
    url != "" && !IsSpace(url[0]) && url[|url| - 1] == 'n' && forall c :: c in url ==> !('A' <= c <= 'Z')
  }

  lemma LowerKeeps(s: string)
    requires forall c :: c in s ==> !('A' <= c <= 'Z')
    ensures Lower(s) == s
  {
    forall k | 0 <= k < |s| ensures Lower(s)[k] == s[k] { assert s[k] in s; }
  }

  lemma PlainText(url: string)
    requires IsPlain(url)
    ensures TextOf(url) == url
  {
    TrimKeeps(url, IsSpace);
    LowerKeeps(url);
    OtherEnd(url, ".git");
  }

  lemma PlainName()
    ensures WantedName(NAME) == NAME && IsTrimmed(NAME, IsColonOrSlash) && IsTrimmed(NAME, IsSlash)
  {
    PlainText(NAME);
    TrimKeeps(NAME, IsSpace);
    LowerKeeps(NAME);
  }

  lemma {:induction false} NoHostBefore(text: string, i: nat, k: nat)
    requires i <= k <= |text| && (k == |text| || HOST <= text[k..])
    requires 'g' !in text[..k]
    ensures IndexFrom(text, HOST, i) == k
    decreases k - i
  {
    if i < k {
      assert text[..k][i] == text[i] && text[i..][0] == text[i];
      NoHostBefore(text, i + 1, k);
    }
  }

  lemma HostBehind(lead: string, run: string)
    requires 'g' !in lead
    ensures var url := lead + HOST + (run + NAME);
            HostAt(url) == |lead| && MentionsHost(url) && url[..|lead|] == lead && url[|lead| + |HOST|..] == run + NAME
  {
    PartsAt(lead, HOST, run + NAME);
    NoHostBefore(lead + HOST + (run + NAME), 0, |lead|);
  }

  lemma NameIsWrapped(run: string, left: char -> bool)
    requires All(run, left)
    ensures Wraps(run + NAME, left, NAME)
  {
    assert NAME + "" == NAME;
    WrappedBy(run + NAME, left, run, NAME, "");
  }

  /**
   Whatever precedes the first mention of the host, and whatever colons and slashes follow it,
   the name behind is enough; on GitHub is only what has a proper lead and one separator.
   */
  lemma AcceptedBehind(lead: string, run: string)
    requires IsPlainLead(lead) && All(run, IsColonOrSlash)
    ensures var url := lead + HOST + (run + NAME);
            RemoteMatchesRepo(url, NAME) && (IsGitHubURLOf(url, NAME) <==> |run| == 1 && IsLead(lead, run[0]))
  {
    var url := lead + HOST + (run + NAME);
    PlainBehind(lead, run);
    PlainText(url);
    HostBehind(lead, run);
    PlainName();
    NameIsWrapped(run, IsColonOrSlash);
    AcceptedIff(url, NAME);
    AcceptedIsGitHubIff(url, NAME);
    NamesHostBehind(lead, run);
  }

  /** Lower-case text without outer white space and without a 'g', so with no mention of the host. */
  predicate IsPlainLead(lead: string) {
    'g' !in lead && (lead != "" ==> !IsSpace(lead[0])) && forall c :: c in lead ==> !('A' <= c <= 'Z')
  }

  lemma PlainBehind(lead: string, run: string)
    requires IsPlainLead(lead) && All(run, IsColonOrSlash)
    ensures IsPlain(lead + HOST + (run + NAME))
  {
    var url := lead + HOST + (run + NAME);
    assert url[0] == if lead == "" then 'g' else lead[0];
    assert forall c :: c in url ==> c in lead || c in HOST || c in run || c in NAME;
    assert All(run, IsColonOrSlash);
  }

  lemma NamesHostBehind(lead: string, run: string)
    requires 'g' !in lead && All(run, IsColonOrSlash)
    ensures NamesHost(lead + HOST + (run + NAME)) <==> |run| == 1 && IsLead(lead, run[0])
  {
    var url := lead + HOST + (run + NAME);
    HostBehind(lead, run);
    var h := |lead| + |HOST|;
    assert url[h] == url[h..][0] && url[h + 1] == url[h..][1];
    assert run != "" ==> (run + NAME)[0] in run;
    assert |run| > 1 ==> (run + NAME)[1] in run;
  }

  /** Another host, `e.x`, with a path that mentions GitHub. */
  lemma HostInPathIsAccepted()
    ensures var url := "https://e.x/" + HOST + ("/" + NAME); RemoteMatchesRepo(url, NAME) && !IsGitHubURLOf(url, NAME)
  {
    AcceptedBehind("https://e.x/", "/");
  }

  /** Another host that ends like GitHub's. */
  lemma LongerHostIsAccepted()
    ensures var url := "evil" + HOST + (":" + NAME); RemoteMatchesRepo(url, NAME) && !IsGitHubURLOf(url, NAME)
  {
    AcceptedBehind("evil", ":");
  }

  /** Another host that begins like GitHub's: here the host is `github.como`. */
  lemma LongerDomainIsAccepted()
    ensures var url := "https://" + HOST + NAME; RemoteMatchesRepo(url, NAME) && !IsGitHubURLOf(url, NAME)
  {
    assert "" + NAME == NAME;
    AcceptedBehind("https://", "");
  }

  /** A path on the same machine. */
  lemma PathIsAccepted()
    ensures RemoteMatchesRepo(NAME, NAME) && !IsGitHubURLOf(NAME, NAME)
  {
    PlainText(NAME);
    PlainName();
    NoHostBefore(NAME, 0, |NAME|);
    NameIsWrapped("", IsSlash);
    assert "" + NAME == NAME;
    AcceptedIff(NAME, NAME);
    AcceptedIsGitHubIff(NAME, NAME);
  }

  // ----- Another repository on GitHub -----

  const OTHER_NAME := "x/public"

  /** A GitHub URL ends in the name or in slashes. */
  lemma FormEnds(text: string, lead: string, separator: char, name: string, after: string)
    requires IsGitHubForm(text, lead, separator, name, after)
    ensures text != "" && (text[|text| - 1] == name[|name| - 1] || IsSlash(text[|text| - 1]))
  {
    if after != "" { assert text[|text| - 1] == after[|after| - 1] && after[|after| - 1] in after; }
  }

  /** The own URL of one repository passes for it, and that of another is none of its URLs. */
  lemma OtherNameDiffers()
    ensures RemoteMatchesRepo(RemoteURL(NAME), NAME) && Trim(NAME, IsSpace) == NAME
    ensures !IsGitHubURLOf(RemoteURL(OTHER_NAME), NAME)
  {
    PlainName();
    TrimKeeps(NAME, IsSpace);
    assert !HasSuffix(NAME, ".git");
    OwnURLMatches(NAME);
    var text := TextOf(RemoteURL(OTHER_NAME));
    OwnURLWithoutSuffix(OTHER_NAME);
    assert text[|text| - 1] == 'c';
    forall lead, separator, after ensures !IsGitHubForm(text, lead, separator, WantedName(NAME), after) {
      if IsGitHubForm(text, lead, separator, WantedName(NAME), after) {
        FormEnds(text, lead, separator, WantedName(NAME), after);
      }
    }
  }
}
