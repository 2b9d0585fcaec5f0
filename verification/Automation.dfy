/**
 Which sessions count as automated: built-in patterns plus the user's, the normalization of
 the user's lists, and what the classifier hash says about the classification.
 */
module Automation {
  import opened Sequences
  import opened ClassifierPreimage

  const USER_PREFIX_MAX_LEN := 1024

  // ----- The classification -----

  predicate OccursAt(message: string, sub: string, i: int) {
    0 <= i <= |message| - |sub| && message[i..i + |sub|] == sub
  }

  predicate Contains(message: string, sub: string) {
    exists i | 0 <= i <= |message| :: OccursAt(message, sub, i)
  }

  predicate StartsWithAny(message: string, prefixes: seq<string>) {
    exists p | p in prefixes :: p <= message
  }

  predicate ContainsAny(message: string, subs: seq<string>) {
    exists sub | sub in subs :: Contains(message, sub)
  }

  /** The first message matches a pattern of some list; exact patterns are compared with the trimmed message. */
  predicate IsAutomated(c: Classifier, message: string, trim: string -> string) {
    || StartsWithAny(message, c.prefixes)
    || StartsWithAny(message, c.userPrefixes)
    || ContainsAny(message, c.substrings)
    || ContainsAny(message, c.userSubstrings)
    || trim(message) in c.exacts
    || trim(message) in c.userExacts
  }

  /** Equal hash preimages mean equal verdicts on every message. */
  lemma EqualPreimagesClassifyAlike(a: Classifier, b: Classifier, message: string, trim: string -> string)
    requires Preimage(a) == Preimage(b)
    ensures IsAutomated(a, message, trim) == IsAutomated(b, message, trim)
  {
    PreimageIsUniquelyDecodable(a, b);
    SameElements(a.prefixes, b.prefixes);
    SameElements(a.substrings, b.substrings);
    SameElements(a.exacts, b.exacts);
    SameElements(a.userPrefixes, b.userPrefixes);
    SameElements(a.userSubstrings, b.userSubstrings);
    SameElements(a.userExacts, b.userExacts);
  }

  lemma SameElements(a: seq<string>, b: seq<string>)
    requires multiset(a) == multiset(b)
    ensures forall x :: x in a <==> x in b
  {
    forall x ensures x in a <==> x in b {
      assert x in a <==> x in multiset(a);
      assert x in b <==> x in multiset(b);
    }
  }

  // ----- Normalization of a user's list -----

  predicate Eligible(s: string) {
    s != "" && |s| <= USER_PREFIX_MAX_LEN
  }

  function Normalized(raw: seq<string>, builtins: seq<string>, trim: string -> string): seq<string> {
    if raw == [] then [] else
    var front := Normalized(raw[..|raw| - 1], builtins, trim);
    var s := trim(raw[|raw| - 1]);
    if Eligible(s) && s !in front && s !in builtins then front + [s] else front
  }

  /** The trimmed patterns of a list that are neither empty nor too long, repeats and built-ins included. */
  function Trimmed(raw: seq<string>, trim: string -> string): seq<string> {
    Filter(Map(raw, trim), Eligible)
  }

  lemma {:induction false} NormalizedIsExact(raw: seq<string>, builtins: seq<string>, trim: string -> string)
    ensures Distinct(Normalized(raw, builtins, trim))
    ensures forall s :: s in Normalized(raw, builtins, trim) <==> s in Trimmed(raw, trim) && s !in builtins
  {
    if raw == [] {
      assert Map(raw, trim) == [];
    } else {
      var front, s := raw[..|raw| - 1], trim(raw[|raw| - 1]);
      NormalizedIsExact(front, builtins, trim);
      assert Map(raw, trim)[..|raw| - 1] == Map(front, trim);
    }
  }

  /** What a user's raw lists configure, given the built-in lists. */
  function Configured(builtin: Classifier, prefixes: seq<string>, substrings: seq<string>, exacts: seq<string>,
                      trim: string -> string): Classifier {
    builtin.(userPrefixes := Normalized(prefixes, builtin.prefixes, trim),
             userSubstrings := Normalized(substrings, builtin.substrings, trim),
             userExacts := Normalized(exacts, builtin.exacts, trim))
  }

  /** Dropping repeats and built-ins never changes a verdict. */
  lemma NormalizationKeepsTheVerdict(builtin: Classifier, prefixes: seq<string>, substrings: seq<string>,
                                     exacts: seq<string>, trim: string -> string, message: string)
    ensures IsAutomated(Configured(builtin, prefixes, substrings, exacts, trim), message, trim)
            == IsAutomated(builtin.(userPrefixes := Trimmed(prefixes, trim),
                                    userSubstrings := Trimmed(substrings, trim),
                                    userExacts := Trimmed(exacts, trim)), message, trim)
  {
    NormalizedIsExact(prefixes, builtin.prefixes, trim);
    NormalizedIsExact(substrings, builtin.substrings, trim);
    NormalizedIsExact(exacts, builtin.exacts, trim);
  }

  /** The two raw lists offer the same patterns beyond the built-in ones. */
  ghost predicate OfferTheSame(a: seq<string>, b: seq<string>, builtins: seq<string>, trim: string -> string) {
    forall s :: s !in builtins ==> (s in Trimmed(a, trim) <==> s in Trimmed(b, trim))
  }

  lemma NormalizedForgetsOrder(a: seq<string>, b: seq<string>, builtins: seq<string>, trim: string -> string)
    ensures multiset(Normalized(a, builtins, trim)) == multiset(Normalized(b, builtins, trim))
            <==> OfferTheSame(a, b, builtins, trim)
  {
    var na, nb := Normalized(a, builtins, trim), Normalized(b, builtins, trim);
    NormalizedIsExact(a, builtins, trim);
    NormalizedIsExact(b, builtins, trim);
    if multiset(na) == multiset(nb) { SameElements(na, nb); }
    if OfferTheSame(a, b, builtins, trim) { DistinctSameElements(na, nb); }
  }

  /**
   The hash of a configuration depends on the patterns it offers: not on their order, repeats, padding or
   overlap with built-ins.
   */
  lemma ConfiguredPreimages(builtin: Classifier, p: seq<string>, s: seq<string>, e: seq<string>,
                            p': seq<string>, s': seq<string>, e': seq<string>, trim: string -> string)
    ensures Preimage(Configured(builtin, p, s, e, trim)) == Preimage(Configured(builtin, p', s', e', trim)) <==>
            && OfferTheSame(p, p', builtin.prefixes, trim)
            && OfferTheSame(s, s', builtin.substrings, trim)
            && OfferTheSame(e, e', builtin.exacts, trim)
  {
    PreimageIsUniquelyDecodable(Configured(builtin, p, s, e, trim), Configured(builtin, p', s', e', trim));
    NormalizedForgetsOrder(p, p', builtin.prefixes, trim);
    NormalizedForgetsOrder(s, s', builtin.substrings, trim);
    NormalizedForgetsOrder(e, e', builtin.exacts, trim);
  }

  /** Normalizing is idempotent when trimming is. */
  lemma NormalizedTwice(raw: seq<string>, builtins: seq<string>, trim: string -> string)
    requires forall s :: trim(trim(s)) == trim(s)
    ensures Normalized(Normalized(raw, builtins, trim), builtins, trim) == Normalized(raw, builtins, trim)
  {
    NormalizedIsExact(raw, builtins, trim);
    FilterMembers(Map(raw, trim), Eligible);
    NormalizedStays(Normalized(raw, builtins, trim), builtins, trim);
  }

  lemma {:induction false} NormalizedStays(clean: seq<string>, builtins: seq<string>, trim: string -> string)
    requires Distinct(clean)
    requires forall s :: s in clean ==> Eligible(s) && s !in builtins && trim(s) == s
    ensures Normalized(clean, builtins, trim) == clean
  {
    if clean != [] {
      NormalizedStays(clean[..|clean| - 1], builtins, trim);
      assert clean == clean[..|clean| - 1] + [clean[|clean| - 1]];
    }
  }

  // ----- The process-wide classifier -----

  class Matchers {
    var current: Classifier

    constructor (builtin: Classifier)
      ensures current == builtin.(userPrefixes := [], userSubstrings := [], userExacts := [])
    {
      current := builtin.(userPrefixes := [], userSubstrings := [], userExacts := []);
    }

    method NormalizeUserPatterns(raw: seq<string>, builtins: seq<string>, trim: string -> string)
      returns (out: seq<string>)
      ensures out == Normalized(raw, builtins, trim)
    {
      var seen: set<string> := {};
      out := [];
      for k := 0 to |raw|
        invariant out == Normalized(raw[..k], builtins, trim)
        invariant forall s :: s in seen <==> s in out
      {
        assert raw[..k + 1][..k] == raw[..k];
        var s := trim(raw[k]);
        if s == "" || |s| > USER_PREFIX_MAX_LEN { continue; }
        if s in seen { continue; }
        if s in builtins { continue; }
        seen := seen + {s};
        out := out + [s];
      }
      assert raw[..|raw|] == raw;
    }

    /** Replaces all three user lists at once. */
    method SetUserAutomationMatchers(prefixes: seq<string>, substrings: seq<string>, exacts: seq<string>,
            trim: string -> string)
      modifies this
      ensures current == Configured(old(current), prefixes, substrings, exacts, trim)
    {
      var p := NormalizeUserPatterns(prefixes, current.prefixes, trim);
      var s := NormalizeUserPatterns(substrings, current.substrings, trim);
      var e := NormalizeUserPatterns(exacts, current.exacts, trim);
      current := current.(userPrefixes := p, userSubstrings := s, userExacts := e);
    }

    method IsAutomatedSession(message: string, trim: string -> string) returns (automated: bool)
      ensures automated == IsAutomated(current, message, trim)
    {
      var c := current;
      var found := HasAnyPrefix(message, c.prefixes);
      if found { return true; }
      found := HasAnyPrefix(message, c.userPrefixes);
      if found { return true; }
      found := HasAnySubstring(message, c.substrings);
      if found { return true; }
      found := HasAnySubstring(message, c.userSubstrings);
      if found { return true; }
      var trimmed := trim(message);
      return trimmed in c.exacts || trimmed in c.userExacts;
    }
  }

  method HasAnyPrefix(message: string, prefixes: seq<string>) returns (found: bool)
    ensures found == StartsWithAny(message, prefixes)
  {
    for k := 0 to |prefixes|
      invariant !StartsWithAny(message, prefixes[..k])
    {
      assert prefixes[..k + 1] == prefixes[..k] + [prefixes[k]];
      if prefixes[k] <= message {
        assert prefixes[k] in prefixes;
        return true;
      }
    }
    assert prefixes[..|prefixes|] == prefixes;
    return false;
  }

  method HasAnySubstring(message: string, subs: seq<string>) returns (found: bool)
    ensures found == ContainsAny(message, subs)
  {
    for k := 0 to |subs|
      invariant !ContainsAny(message, subs[..k])
    {
      assert subs[..k + 1] == subs[..k] + [subs[k]];
      if Contains(message, subs[k]) {
        assert subs[k] in subs;
        return true;
      }
    }
    assert subs[..|subs|] == subs;
    return false;
  }
}
