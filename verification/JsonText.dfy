/**
 JSON texts as section 2 to section 7 of RFC 8259 allow them, with blanks in every place
 where they may stand, and the fact that extraction returns any such object whole.
 */
module JsonText {
  import opened Sequences
  import opened JsonExtract

  /** One character of a string: unescaped, a two-character escape, or a \u escape. */
  datatype StrChar = Unescaped(c: char) | Escape(c: char) | Unicode(hex: string)

  datatype Json =
    | Scalar(text: string)                                   // true, false, null or a number
    | Str(chars: seq<StrChar>)
    | Arr(blank: string, elements: Elements)
    | Obj(blank: string, members: Members)

  datatype Elements = NoElements | Element(before: string, value: Json, after: string, rest: Elements)

  datatype Members = NoMembers
    | Member(before: string, key: seq<StrChar>, beforeColon: string, afterColon: string, value: Json, after: string,
      rest: Members)

  predicate IsHex(c: char) {
    '0' <= c <= '9' || 'a' <= c <= 'f' || 'A' <= c <= 'F'
  }

  predicate IsBlank(text: string) {
    forall c :: c in text ==> c == ' ' || c == '\t' || c == '\n' || c == '\r'
  }

  /** The characters of numbers and literal names. */
  predicate IsScalarText(text: string) {
    forall c :: c in text ==> '0' <= c <= '9' || 'a' <= c <= 'z' || c == 'E' || c == '+' || c == '-' || c == '.'
  }

  predicate ValidChar(c: StrChar) {
    match c
    case Unescaped(u) => u >= ' ' && u != '\"' && u != '\\'
    case Escape(e) => e in ['\"', '\\', '/', 'b', 'f', 'n', 'r', 't']
    case Unicode(hex) => |hex| == 4 && forall h :: h in hex ==> IsHex(h)
  }

  predicate ValidChars(chars: seq<StrChar>) {
    forall k :: 0 <= k < |chars| ==> ValidChar(chars[k])
  }

  predicate Valid(v: Json) {
    match v
    case Scalar(text) => IsScalarText(text)
    case Str(chars) => ValidChars(chars)
    case Arr(blank, elements) => IsBlank(blank) && ValidElements(elements)
    case Obj(blank, members) => IsBlank(blank) && ValidMembers(members)
  }

  predicate ValidElements(es: Elements) {
    match es
    case NoElements => true
    case Element(before, value, after, rest) => IsBlank(before) && Valid(value) && IsBlank(after) && ValidElements(rest)
  }

  predicate ValidMembers(ms: Members) {
    match ms
    case NoMembers => true
    case Member(before, key, beforeColon, afterColon, value, after, rest) =>
      && IsBlank(before) && ValidChars(key) && IsBlank(beforeColon) && IsBlank(afterColon)
      && Valid(value) && IsBlank(after) && ValidMembers(rest)
  }

  function PrintChar(c: StrChar): string {
    match c
    case Unescaped(u) => [u]
    case Escape(e) => ['\\', e]
    case Unicode(hex) => "\\u" + hex
  }

  function PrintChars(chars: seq<StrChar>): string {
    if chars == [] then "" else PrintChar(chars[0]) + PrintChars(chars[1..])
  }

  function Print(v: Json): string {
    match v
    case Scalar(text) => text
    case Str(chars) => "\"" + PrintChars(chars) + "\""
    case Arr(blank, elements) => "[" + (blank + PrintElements(elements)) + "]"
    case Obj(blank, members) => "{" + (blank + PrintMembers(members)) + "}"
  }

  function PrintElements(es: Elements): string {
    match es
    case NoElements => ""
    case Element(before, value, after, rest) =>
      before + (Print(value) + (after + ((if rest.NoElements? then "" else ",") + PrintElements(rest))))
  }

  function PrintMembers(ms: Members): string {
    match ms
    case NoMembers => ""
    case Member(before, key, beforeColon, afterColon, value, after, rest) =>
      before + ("\"" + PrintChars(key) + "\"" + (beforeColon + (":" + (afterColon + (Print(value) + (after +
        ((if rest.NoMembers? then "" else ",") + PrintMembers(rest))))))))
  }

  // ----- Printed texts as pieces -----

  lemma {:induction false} EscapedPrefix(a: string, b: string)
    requires WellEscaped(a) && WellEscaped(b)
    ensures WellEscaped(a + b)
    decreases |a|
  {
    if a == "" {
      assert a + b == b;
    } else {
      var step := if a[0] == '\\' then 2 else 1;
      assert (a + b)[step..] == a[step..] + b;
      EscapedPrefix(a[step..], b);
    }
  }

  lemma {:induction false} PlainIsEscaped(text: string)
    requires forall c :: c in text ==> c != '\"' && c != '\\'
    ensures WellEscaped(text)
  {
    if text != "" {
      assert text[0] in text;
      assert forall c :: c in text[1..] ==> c in text;
      PlainIsEscaped(text[1..]);
    }
  }

  lemma {:induction false} PrintedCharsAreEscaped(chars: seq<StrChar>)
    requires ValidChars(chars)
    ensures WellEscaped(PrintChars(chars))
  {
    if chars != [] {
      PrintedCharsAreEscaped(chars[1..]);
      var c := chars[0];
      assert WellEscaped(PrintChar(c)) by {
        match c {
          case Unescaped(_) => PlainIsEscaped(PrintChar(c));
          case Escape(e) => assert ['\\', e][2..] == "";
          case Unicode(hex) =>
            PlainIsEscaped(hex);
            assert ("\\u" + hex)[2..] == hex;
        }
      }
      EscapedPrefix(PrintChar(c), PrintChars(chars[1..]));
    }
  }

  /** After `k` pieces, no more braces are closed than opened. */
  ghost predicate NotBelow(pieces: seq<Piece>, k: int)
    requires 0 <= k <= |pieces|
  {
    Height(pieces[..k]) >= 0
  }

  /** Pieces that end at the height they start from and never go below it. */
  ghost predicate Level(pieces: seq<Piece>) {
    && AllWellFormed(pieces)
    && Height(pieces) == 0
    && forall k :: 0 <= k <= |pieces| ==> NotBelow(pieces, k)
  }

  lemma {:induction false} HeightAppend(a: seq<Piece>, b: seq<Piece>)
    ensures Height(a + b) == Height(a) + Height(b)
  {
    if a == [] {
      assert a + b == b;
    } else {
      assert (a + b)[1..] == a[1..] + b;
      HeightAppend(a[1..], b);
    }
  }

  lemma {:induction false} TextAppend(a: seq<Piece>, b: seq<Piece>)
    ensures Text(a + b) == Text(a) + Text(b)
  {
    if a == [] {
      assert a + b == b;
    } else {
      assert (a + b)[1..] == a[1..] + b;
      TextAppend(a[1..], b);
      AppendAssociates(TextOf(a[0]), Text(a[1..]), Text(b));
    }
  }

  lemma LevelAppend(a: seq<Piece>, b: seq<Piece>)
    requires Level(a) && Level(b)
    ensures Level(a + b)
  {
    HeightAppend(a, b);
    forall k | 0 <= k <= |a + b| ensures NotBelow(a + b, k) {
      if k <= |a| {
        assert (a + b)[..k] == a[..k] && NotBelow(a, k);
      } else {
        assert (a + b)[..k] == a + b[..k - |a|] && NotBelow(b, k - |a|);
        HeightAppend(a, b[..k - |a|]);
      }
    }
  }

  /** `pieces` are level and spell `text`. */
  ghost predicate Spells(pieces: seq<Piece>, text: string) {
    Level(pieces) && Text(pieces) == text
  }

  ghost predicate Spellable(text: string) {
    exists pieces :: Spells(pieces, text)
  }

  lemma SpellableAppend(s: string, t: string)
    requires Spellable(s) && Spellable(t)
    ensures Spellable(s + t)
  {
    var a :| Spells(a, s);
    var b :| Spells(b, t);
    LevelAppend(a, b);
    TextAppend(a, b);
    assert Spells(a + b, s + t);
  }

  lemma OneSpells(p: Piece)
    requires WellFormedPiece(p) && Rise(p) == 0
    ensures Spellable(TextOf(p))
  {
    assert [p][1..] == [];
    assert [p][..0] == [] && [p][..1] == [p];
    assert Text([p]) == TextOf(p);
    forall k | 0 <= k <= 1 ensures NotBelow([p], k) {
    }
    assert Spells([p], TextOf(p));
  }

  /** Texts without braces and quotes are spelled by their characters. */
  lemma {:induction false} OthersSpell(text: string)
    requires forall c :: c in text ==> WellFormedPiece(Other(c))
    ensures Spellable(text)
  {
    if text == "" {
      var none: seq<Piece> := [];
      assert NotBelow(none, 0);
      assert Spells(none, text);
    } else {
      OneSpells(Other(text[0]));
      OthersSpell(text[1..]);
      SpellableAppend([text[0]], text[1..]);
      assert [text[0]] + text[1..] == text;
    }
  }

  lemma StringSpells(chars: seq<StrChar>)
    requires ValidChars(chars)
    ensures Spellable("\"" + PrintChars(chars) + "\"")
  {
    PrintedCharsAreEscaped(chars);
    OneSpells(Literal(PrintChars(chars)));
  }

  /** Level pieces between braces are one balanced object. */
  lemma WrapBalanced(inner: seq<Piece>)
    requires Level(inner)
    ensures Balanced([Open] + inner + [Close]) && Level([Open] + inner + [Close])
    ensures Text([Open] + inner + [Close]) == "{" + Text(inner) + "}"
  {
    var pieces := [Open] + inner + [Close];
    assert [Open][1..] == [] && [Close][1..] == [];
    HeightAppend([Open] + inner, [Close]);
    HeightAppend([Open], inner);
    TextAppend([Open] + inner, [Close]);
    TextAppend([Open], inner);
    assert Height([Open]) == 1 && Height([Close]) == -1;
    assert Text([Open]) == "{" && Text([Close]) == "}";
    forall k | 0 < k < |pieces| ensures Aloft(pieces, 0, k) && NotBelow(pieces, k) {
      assert pieces[..k] == [Open] + inner[..k - 1] && NotBelow(inner, k - 1);
      HeightAppend([Open], inner[..k - 1]);
    }
    assert pieces[..0] == [] && pieces[..|pieces|] == pieces;
    assert NotBelow(pieces, 0) && NotBelow(pieces, |pieces|);
  }

  lemma {:induction false} JsonSpells(v: Json)
    requires Valid(v)
    ensures Spellable(Print(v))
    decreases v, 1
  {
    match v
    case Scalar(text) =>
      OthersSpell(text);
    case Str(chars) =>
      StringSpells(chars);
    case Arr(blank, elements) =>
      OthersSpell(blank);
      ElementsSpell(elements);
      SpellableAppend(blank, PrintElements(elements));
      OthersSpell("[");
      OthersSpell("]");
      SpellableAppend("[", blank + PrintElements(elements));
      SpellableAppend("[" + (blank + PrintElements(elements)), "]");
    case Obj(blank, members) =>
      var pieces := ObjectIsBalanced(v);
      assert Spells(pieces, Print(v));
  }

  /** A printed object is one balanced object. */
  lemma {:induction false} ObjectIsBalanced(v: Json) returns (pieces: seq<Piece>)
    requires Valid(v) && v.Obj?
    ensures Balanced(pieces) && Level(pieces) && Text(pieces) == Print(v)
    decreases v, 0
  {
    var body := v.blank + PrintMembers(v.members);
    OthersSpell(v.blank);
    MembersSpell(v.members);
    SpellableAppend(v.blank, PrintMembers(v.members));
    var inner :| Spells(inner, body);
    WrapBalanced(inner);
    pieces := [Open] + inner + [Close];
  }

  lemma {:induction false} ElementsSpell(es: Elements)
    requires ValidElements(es)
    ensures Spellable(PrintElements(es))
    decreases es, 2
  {
    match es
    case NoElements => OthersSpell("");
    case Element(before, value, after, rest) =>
      OthersSpell(before);
      JsonSpells(value);
      ElementsSpell(rest);
      TailSpells(rest.NoElements?, after, PrintElements(rest));
      var tail := after + ((if rest.NoElements? then "" else ",") + PrintElements(rest));
      SpellableAppend(Print(value), tail);
      SpellableAppend(before, Print(value) + tail);
  }

  /** What follows a value: a blank, and a comma with the other values if there are any. */
  lemma TailSpells(last: bool, after: string, rest: string)
    requires IsBlank(after) && Spellable(rest)
    ensures Spellable(after + ((if last then "" else ",") + rest))
  {
    var comma := if last then "" else ",";
    OthersSpell(comma);
    OthersSpell(after);
    SpellableAppend(comma, rest);
    SpellableAppend(after, comma + rest);
  }

  lemma {:induction false} MembersSpell(ms: Members)
    requires ValidMembers(ms)
    ensures Spellable(PrintMembers(ms))
    decreases ms, 2
  {
    match ms
    case NoMembers => OthersSpell("");
    case Member(before, key, beforeColon, afterColon, value, after, rest) =>
      JsonSpells(value);
      MembersSpell(rest);
      TailSpells(rest.NoMembers?, after, PrintMembers(rest));
      var tail := after + ((if rest.NoMembers? then "" else ",") + PrintMembers(rest));
      SpellableAppend(Print(value), tail);
      ColonSpells(beforeColon, afterColon, Print(value) + tail);
      StringSpells(key);
      var pair := beforeColon + (":" + (afterColon + (Print(value) + tail)));
      SpellableAppend("\"" + PrintChars(key) + "\"", pair);
      OthersSpell(before);
      SpellableAppend(before, "\"" + PrintChars(key) + "\"" + pair);
  }

  lemma ColonSpells(beforeColon: string, afterColon: string, rest: string)
    requires IsBlank(beforeColon) && IsBlank(afterColon) && Spellable(rest)
    ensures Spellable(beforeColon + (":" + (afterColon + rest)))
  {
    OthersSpell(beforeColon);
    OthersSpell(afterColon);
    OthersSpell(":");
    SpellableAppend(afterColon, rest);
    SpellableAppend(":", afterColon + rest);
    SpellableAppend(beforeColon, ":" + (afterColon + rest));
  }

  /**
   Any JSON object, however nested and spaced and whatever its strings contain, is extracted
   exactly, behind any text without a brace and before any text at all.
   */
  lemma ExtractsAnyObject(prefix: string, v: Json, suffix: string)
    requires '{' !in prefix && Valid(v) && v.Obj?
    ensures Extracted(prefix + Print(v) + suffix) == Print(v)
  {
    var pieces := ObjectIsBalanced(v);
    FindsBalancedObject(prefix, pieces, suffix);
  }

  lemma {:induction false} FirstBraceInPrefix(prefix: string, rest: string)
    ensures '{' in prefix ==> FirstBrace(prefix + rest) == FirstBrace(prefix) < |prefix|
    ensures '{' !in prefix ==> FirstBrace(prefix + rest) == |prefix| + FirstBrace(rest)
  {
    if prefix == "" {
      assert prefix + rest == rest;
    } else if prefix[0] != '{' {
      assert (prefix + rest)[1..] == prefix[1..] + rest;
      assert prefix == [prefix[0]] + prefix[1..];
      FirstBraceInPrefix(prefix[1..], rest);
    }
  }

  /**
   The scan starts at the object exactly if the text before it has no brace. With one, whatever
   is found starts inside that text.
   */
  lemma NoteIsToleratedIff(prefix: string, v: Json, suffix: string)
    requires Valid(v) && v.Obj?
    ensures var s := prefix + (Print(v) + suffix);
            && (FirstBrace(s) == |prefix| <==> '{' !in prefix)
            && ('{' !in prefix ==> Extracted(s) == Print(v))
            && ('{' in prefix ==> FirstBrace(s) < |prefix| && Extracted(s) <= s[FirstBrace(s)..])
  {
    var s := prefix + (Print(v) + suffix);
    FirstBraceInPrefix(prefix, Print(v) + suffix);
    if '{' !in prefix {
      assert s == prefix + Print(v) + suffix;
      ExtractsAnyObject(prefix, v, suffix);
      assert (Print(v) + suffix)[0] == '{';
    }
  }

  /** A leading note with a brace hides the object. */
  lemma BraceInProseMisleads()
    ensures Extracted("} {{}") == "" && Valid(Obj("", NoMembers)) && Print(Obj("", NoMembers)) == "{}"
  {
    var s := "} {{}";
    assert FirstBrace(s) == 2 by {
      assert s[1..] == " {{}" && s[1..][1..] == "{{}";
    }
    assert ObjectEnd(s, 5, 1).None?;
    assert ObjectEnd(s, 4, 2) == None;
    assert ObjectEnd(s, 3, 1) == None;
    assert ObjectEnd(s, 2, 0) == None;
  }
}
