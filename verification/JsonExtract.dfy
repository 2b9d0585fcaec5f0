/**
 Finding the JSON object in a language model's answer: the text from the first opening
 brace to the brace that balances it, where braces inside string literals do not count.
 */
module JsonExtract {
  import opened Sequences

  // ----- The scan, jumping over string literals -----

  /** Where the string literal ends whose content starts at `i`. */
  function StringEnd(s: string, i: nat): Option<nat>
    decreases |s| - i
  {
    if i >= |s| then None
    else if s[i] == '\"' then Some(i + 1)
    else if s[i] == '\\' then StringEnd(s, i + 2)
    else StringEnd(s, i + 1)
  }

  /** StringEnd never leaves the text, and always advances. */
  lemma {:induction false} StringEndBounds(s: string, i: nat)
    ensures StringEnd(s, i).Some? ==> i < StringEnd(s, i).value <= |s|
    decreases |s| - i
  {
    if i < |s| {
      if s[i] == '\\' { StringEndBounds(s, i + 2); } else if s[i] != '\"' { StringEndBounds(s, i + 1); }
    }
  }

  /** Where the object ends that is `depth` braces deep at `i`. */
  function ObjectEnd(s: string, i: nat, depth: int): Option<nat>
    decreases |s| - i
  {
    if i >= |s| then None
    else if s[i] == '\"' then
      StringEndBounds(s, i + 1);
      match StringEnd(s, i + 1)
      case None => None
      case Some(e) => ObjectEnd(s, e, depth)
    else if s[i] == '{' then ObjectEnd(s, i + 1, depth + 1)
    else if s[i] == '}' then
      if depth == 1 then Some(i + 1) else ObjectEnd(s, i + 1, depth - 1)
    else ObjectEnd(s, i + 1, depth)
  }

  /** Where the object ends, seen from the middle of a string literal or of an escape. */
  function Resume(s: string, i: nat, depth: int, inStr: bool, escaped: bool): Option<nat> {
    if !inStr then ObjectEnd(s, i, depth)
    else
      match StringEnd(s, if escaped then i + 1 else i)
      case None => None
      case Some(e) => ObjectEnd(s, e, depth)
  }

  function FirstBrace(s: string): (start: nat)
    ensures start <= |s|
    ensures start < |s| ==> s[start] == '{'
    ensures forall k :: 0 <= k < start ==> s[k] != '{'
  {
    if s == [] || s[0] == '{' then 0 else 1 + FirstBrace(s[1..])
  }

  function Extracted(s: string): string {
    var start := FirstBrace(s);
    if start == |s| then ""
    else
      match ObjectEnd(s, start, 0)
      case None => ""
      case Some(e) => if start <= e <= |s| then s[start..e] else ""
  }

  method IndexOfBrace(s: string) returns (start: int)
    ensures start == if FirstBrace(s) < |s| then FirstBrace(s) else -1
  {
    start := 0;
    while start < |s|
      invariant 0 <= start <= |s|
      invariant FirstBrace(s) == start + FirstBrace(s[start..])
    {
      if s[start] == '{' { return; }
      start := start + 1;
    }
    start := -1;
  }

  method ExtractJSONObject(s: string) returns (found: string)
    ensures found == Extracted(s)
  {
    var start := IndexOfBrace(s);
    if start < 0 { return ""; }
    var depth, inStr, escaped := 0, false, false;
    var i := start;
    while i < |s|
      invariant start <= i <= |s|
      invariant escaped ==> inStr
      invariant Resume(s, i, depth, inStr, escaped) == ObjectEnd(s, start, 0)
    {
      var ch := s[i];
      if inStr {
        if escaped {
          escaped := false;
        } else if ch == '\\' {
          escaped := true;
        } else if ch == '\"' {
          inStr := false;
        }
      } else if ch == '\"' {
        inStr := true;
      } else if ch == '{' {
        depth := depth + 1;
      } else if ch == '}' {
        depth := depth - 1;
        if depth == 0 { return s[start..i + 1]; }
      }
      i := i + 1;
    }
    found := "";
  }

  // ----- What is extracted, without a scan -----

  /** A text as a row of braces, string literals and other characters. */
  datatype Piece = Open | Close | Literal(content: string) | Other(c: char)

  /** Escapes are complete, and every quote is escaped. */
  predicate WellEscaped(content: string) {
    || content == ""
    || (content[0] == '\\' && |content| >= 2 && WellEscaped(content[2..]))
    || (content[0] != '\\' && content[0] != '\"' && WellEscaped(content[1..]))
  }

  predicate WellFormedPiece(p: Piece) {
    match p
    case Open | Close => true
    case Literal(content) => WellEscaped(content)
    case Other(c) => c != '{' && c != '}' && c != '\"'
  }

  function TextOf(p: Piece): string {
    match p
    case Open => "{"
    case Close => "}"
    case Literal(content) => "\"" + content + "\""
    case Other(c) => [c]
  }

  function Text(pieces: seq<Piece>): string {
    if pieces == [] then "" else TextOf(pieces[0]) + Text(pieces[1..])
  }

  function Rise(p: Piece): int {
    match p
    case Open => 1
    case Close => -1
    case _ => 0
  }

  /** How many more braces open than close. */
  function Height(pieces: seq<Piece>): int {
    if pieces == [] then 0 else Rise(pieces[0]) + Height(pieces[1..])
  }

  ghost predicate AllWellFormed(pieces: seq<Piece>) {
    forall k :: 0 <= k < |pieces| ==> WellFormedPiece(pieces[k])
  }

  /** After `k` pieces, some brace is still open. */
  ghost predicate Aloft(pieces: seq<Piece>, depth: int, k: int)
    requires 0 <= k <= |pieces|
  {
    depth + Height(pieces[..k]) > 0
  }

  /** Starting `depth` braces deep, the pieces come down to the ground exactly at their end. */
  ghost predicate LandsFrom(pieces: seq<Piece>, depth: int) {
    && AllWellFormed(pieces)
    && depth + Height(pieces) == 0
    && forall k :: 0 < k < |pieces| ==> Aloft(pieces, depth, k)
  }

  /** One balanced object: it starts with a brace, and no proper part of it from the start is balanced. */
  ghost predicate Balanced(pieces: seq<Piece>) {
    pieces != [] && pieces[0].Open? && LandsFrom(pieces, 0)
  }

  lemma {:induction false} LiteralEnds(s: string, i: nat, content: string)
    requires i + |content| < |s| && s[i..i + |content|] == content && WellEscaped(content) && s[i + |content|] == '\"'
    ensures StringEnd(s, i) == Some(i + |content| + 1)
    decreases |content|
  {
    if content != "" {
      assert s[i] == content[0];
      var step := if content[0] == '\\' then 2 else 1;
      assert s[i + step..i + |content|] == content[step..];
      LiteralEnds(s, i + step, content[step..]);
    }
  }

  lemma {:induction false} LiteralBegins(s: string, i: nat)
    requires StringEnd(s, i).Some?
    ensures var e := StringEnd(s, i).value; i < e <= |s| && s[e - 1] == '\"' && WellEscaped(s[i..e - 1])
    decreases |s| - i
  {
    if s[i] != '\"' {
      var step := if s[i] == '\\' then 2 else 1;
      LiteralBegins(s, i + step);
      var content := s[i..StringEnd(s, i).value - 1];
      assert content[step..] == s[i + step..StringEnd(s, i).value - 1];
    }
  }

  lemma HeightOfPrefix(p: Piece, rest: seq<Piece>, k: nat)
    requires k <= |rest|
    ensures Height(([p] + rest)[..k + 1]) == Rise(p) + Height(rest[..k])
  {
    assert ([p] + rest)[..k + 1][1..] == rest[..k];
  }

  lemma HeightStep(pieces: seq<Piece>, depth: int)
    requires LandsFrom(pieces, depth) && |pieces| >= 2
    ensures LandsFrom(pieces[1..], depth + Rise(pieces[0])) && depth + Rise(pieces[0]) > 0
  {
    var p, rest, lower := pieces[0], pieces[1..], depth + Rise(pieces[0]);
    assert pieces == [p] + rest;
    forall k: nat | k < |rest| ensures Aloft(rest, lower, k) {
      assert Aloft(pieces, depth, k + 1);
      HeightOfPrefix(p, rest, k);
    }
    assert Aloft(rest, lower, 0) && rest[..0] == [];
  }

  lemma SliceSplit(s: string, i: nat, a: string, b: string)
    requires i + |a| + |b| <= |s| && s[i..i + |a| + |b|] == a + b
    ensures s[i..i + |a|] == a && s[i + |a|..i + |a| + |b|] == b
  {
    assert s[i..i + |a|] == (a + b)[..|a|];
    assert s[i + |a|..i + |a| + |b|] == (a + b)[|a|..];
  }

  /** The scan passes over one piece and carries on, unless it is the brace that lands. */
  lemma ScanPiece(s: string, i: nat, depth: int, p: Piece)
    requires WellFormedPiece(p) && i + |TextOf(p)| <= |s| && s[i..i + |TextOf(p)|] == TextOf(p)
    ensures ObjectEnd(s, i, depth)
            == if p.Close? && depth == 1 then Some(i + 1) else ObjectEnd(s, i + |TextOf(p)|, depth + Rise(p))
  {
    var j := i + |TextOf(p)|;
    assert s[i] == s[i..j][0] == TextOf(p)[0];
    if p.Literal? {
      SliceSplit(s, i, "\"", p.content + "\"");
      SliceSplit(s, i + 1, p.content, "\"");
      assert s[j - 1] == s[j - 1..j][0];
      LiteralEnds(s, i + 1, p.content);
    }
  }

  /** Of several pieces that land, the first does not land, and the others land from where it leads. */
  lemma FirstOfLanding(pieces: seq<Piece>, depth: int)
    requires depth > 0 && LandsFrom(pieces, depth) && |pieces| >= 2
    ensures WellFormedPiece(pieces[0]) && !(pieces[0].Close? && depth == 1)
    ensures depth + Rise(pieces[0]) > 0 && LandsFrom(pieces[1..], depth + Rise(pieces[0]))
  {
    HeightStep(pieces, depth);
  }

  /** Text `t` stands at position `i`. */
  predicate StandsAt(s: string, i: nat, t: string) {
    i + |t| <= |s| && s[i..i + |t|] == t
  }

  lemma ScanFirst(s: string, i: nat, depth: int, p: Piece, text: string, tail: string)
    requires WellFormedPiece(p) && text == TextOf(p) + tail && StandsAt(s, i, text)
    ensures |text| == |TextOf(p)| + |tail| && StandsAt(s, i + |TextOf(p)|, tail)
    ensures ObjectEnd(s, i, depth)
            == if p.Close? && depth == 1 then Some(i + 1) else ObjectEnd(s, i + |TextOf(p)|, depth + Rise(p))
  {
    SliceSplit(s, i, TextOf(p), tail);
    ScanPiece(s, i, depth, p);
  }

  /** A single piece that lands is the closing brace. */
  lemma LastLands(s: string, i: nat, depth: int, pieces: seq<Piece>)
    requires depth > 0 && LandsFrom(pieces, depth) && |pieces| == 1 && StandsAt(s, i, Text(pieces))
    ensures ObjectEnd(s, i, depth) == Some(i + |Text(pieces)|)
  {
    assert pieces[1..] == [];
    assert Text(pieces) == TextOf(pieces[0]);
    assert Height(pieces) == Rise(pieces[0]);
    ScanPiece(s, i, depth, pieces[0]);
  }

  /** The scan finds the end of any pieces that land, whatever follows them. */
  lemma {:induction false} ScanLands(s: string, i: nat, depth: int, pieces: seq<Piece>)
    requires depth > 0 && LandsFrom(pieces, depth) && StandsAt(s, i, Text(pieces))
    ensures ObjectEnd(s, i, depth) == Some(i + |Text(pieces)|)
    decreases |pieces|
  {
    if |pieces| == 1 {
      LastLands(s, i, depth, pieces);
    } else {
      FirstOfLanding(pieces, depth);
      ScanFirst(s, i, depth, pieces[0], Text(pieces), Text(pieces[1..]));
      ScanLands(s, i + |TextOf(pieces[0])|, depth + Rise(pieces[0]), pieces[1..]);
    }
  }

  lemma Prepend(p: Piece, rest: seq<Piece>, depth: int)
    requires WellFormedPiece(p) && depth + Rise(p) > 0 && LandsFrom(rest, depth + Rise(p))
    ensures LandsFrom([p] + rest, depth) && Text([p] + rest) == TextOf(p) + Text(rest)
  {
    var pieces := [p] + rest;
    assert pieces[1..] == rest;
    forall k | 0 < k < |pieces| ensures Aloft(pieces, depth, k) {
      HeightOfPrefix(p, rest, k - 1);
      if k == 1 { assert rest[..0] == []; } else { assert Aloft(rest, depth + Rise(p), k - 1); }
    }
  }

  lemma SliceJoin(s: string, i: nat, j: nat, k: nat)
    requires i <= j <= k <= |s|
    ensures s[i..j] + s[j..k] == s[i..k]
  {
  }

  /** The piece that the scan reads at `i`. */
  lemma PieceAt(s: string, i: nat) returns (p: Piece)
    requires i < |s| && (s[i] == '\"' ==> StringEnd(s, i + 1).Some?)
    ensures WellFormedPiece(p) && i + |TextOf(p)| <= |s| && s[i..i + |TextOf(p)|] == TextOf(p)
  {
    if s[i] == '\"' {
      LiteralBegins(s, i + 1);
      var e := StringEnd(s, i + 1).value;
      p := Literal(s[i + 1..e - 1]);
      assert s[i..e] == "\"" + s[i + 1..e - 1] + "\"";
    } else {
      p := if s[i] == '{' then Open else if s[i] == '}' then Close else Other(s[i]);
    }
  }

  lemma OneClose()
    ensures LandsFrom([Close], 1) && Text([Close]) == "}"
  {
    assert [Close][1..] == [];
  }

  /** Whatever the scan accepts is the text of pieces that land. */
  lemma {:induction false} ScanYieldsPieces(s: string, i: nat, depth: int) returns (pieces: seq<Piece>)
    requires depth > 0 && ObjectEnd(s, i, depth).Some?
    ensures var e := ObjectEnd(s, i, depth).value; i < e <= |s| && LandsFrom(pieces, depth) && Text(pieces) == s[i..e]
    decreases |s| - i
  {
    var end := ObjectEnd(s, i, depth).value;
    var p := PieceAt(s, i);
    var j := i + |TextOf(p)|;
    ScanPiece(s, i, depth, p);
    if p.Close? && depth == 1 {
      pieces := [Close];
      OneClose();
    } else {
      var rest := ScanYieldsPieces(s, j, depth + Rise(p));
      Prepend(p, rest, depth);
      SliceJoin(s, i, j, end);
      pieces := [p] + rest;
    }
  }

  lemma FirstBraceAfter(prefix: string, rest: string)
    requires '{' !in prefix && rest != "" && rest[0] == '{'
    ensures FirstBrace(prefix + rest) == |prefix|
  {
    assert forall k :: 0 <= k < |prefix| ==> (prefix + rest)[k] == prefix[k];
    assert (prefix + rest)[|prefix|] == '{';
  }

  lemma BalancedHasTwo(pieces: seq<Piece>)
    requires pieces != [] && pieces[0].Open? && Height(pieces) == 0
    ensures |pieces| >= 2
  {
    assert Height(pieces) == 1 + Height(pieces[1..]);
  }

  lemma BalancedStart(pieces: seq<Piece>)
    requires Balanced(pieces)
    ensures |pieces| >= 2 && LandsFrom(pieces[1..], 1)
  {
    BalancedHasTwo(pieces);
    HeightStep(pieces, 0);
    assert 0 + Rise(pieces[0]) == 1;
  }

  /** Every balanced object is found, behind any prose without a brace and before any text at all. */
  lemma FindsBalancedObject(prefix: string, pieces: seq<Piece>, suffix: string)
    requires '{' !in prefix && Balanced(pieces)
    ensures Extracted(prefix + Text(pieces) + suffix) == Text(pieces)
  {
    var s := prefix + Text(pieces) + suffix;
    BalancedStart(pieces);
    assert Text(pieces) == "{" + Text(pieces[1..]);
    FirstBraceAfter(prefix, Text(pieces) + suffix);
    assert s == prefix + (Text(pieces) + suffix);
    assert s[|prefix|..|prefix| + |Text(pieces)|] == Text(pieces);
    SliceSplit(s, |prefix|, "{", Text(pieces[1..]));
    ScanLands(s, |prefix| + 1, 1, pieces[1..]);
  }

  lemma CutAround(s: string, i: nat, j: nat)
    requires i < j <= |s|
    ensures s == s[..i] + s[i..j] + s[j..] && s[i..j] == [s[i]] + s[i + 1..j]
  {
  }

  /** Whatever is found is a balanced object, and the first one: no brace comes before it. */
  lemma FoundIsBalanced(s: string) returns (prefix: string, pieces: seq<Piece>, suffix: string)
    requires Extracted(s) != ""
    ensures '{' !in prefix && Balanced(pieces)
    ensures s == prefix + Text(pieces) + suffix && Extracted(s) == Text(pieces)
  {
    var start := FirstBrace(s);
    var end := ObjectEnd(s, start, 0).value;
    var rest := ScanYieldsPieces(s, start + 1, 1);
    Prepend(Open, rest, 0);
    prefix, pieces, suffix := s[..start], [Open] + rest, s[end..];
    CutAround(s, start, end);
  }

  /** Nothing is found exactly when the text holds no balanced object behind a prefix without braces. */
  lemma FoundIffBalanced(s: string)
    ensures Extracted(s) != "" <==>
            exists prefix, pieces, suffix :: '{' !in prefix && Balanced(pieces) && s == prefix + Text(pieces) + suffix
  {
    if Extracted(s) != "" {
      var prefix, pieces, suffix := FoundIsBalanced(s);
    }
    if prefix, pieces, suffix :| '{' !in prefix && Balanced(pieces) && s == prefix + Text(pieces) + suffix {
      FindsBalancedObject(prefix, pieces, suffix);
      BalancedStart(pieces);
    }
  }
}
