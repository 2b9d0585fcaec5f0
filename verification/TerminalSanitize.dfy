/**
 The terminal sanitizer: control characters are dropped from a string of bytes read as
 UTF-8 (RFC 3629), with a shortcut for strings that hold no control byte.
 */
module TerminalSanitize {
  import opened Sequences

  type Byte = x: int | 0 <= x < 256

  // ----- UTF-8 -----

  /** A Unicode scalar value: the characters UTF-8 can carry. */
  type Scalar = r: int | 0 <= r < 0xD800 || 0xE000 <= r < 0x110000

  /** A continuation byte, with the six lowest bits of `x`. */
  function TailByte(x: nat): Byte {
    0x80 + x % 0x40
  }

  /** The encoding table of RFC 3629, section 3. */
  function Encode(r: Scalar): (bytes: seq<Byte>)
    ensures 1 <= |bytes| <= 4
  {
    var r1, r2, r3: int := r / 0x40, r / 0x40 / 0x40, r / 0x40 / 0x40 / 0x40;
    if r < 0x80 then var lead: Byte := r; [lead]
    else if r < 0x800 then var lead: Byte := 0xC0 + r1; [lead, TailByte(r)]
    else if r < 0x10000 then var lead: Byte := 0xE0 + r2; [lead, TailByte(r1), TailByte(r)]
    else var lead: Byte := 0xF0 + r3; [lead, TailByte(r2), TailByte(r1), TailByte(r)]
  }

  datatype Decoded = Rune(value: Scalar, size: nat) | BadByte

  predicate IsTail(b: Byte) {
    0x80 <= b < 0xC0
  }

  /** `x` shifted left by six bits, with the payload of a continuation byte. */
  function Shifted(x: int, b: Byte): int {
    x * 0x40 + (b as int - 0x80)
  }

  /** The second bytes a leading byte accepts. */
  predicate Accepts(lead: Byte, second: Byte) {
    if lead == 0xE0 then 0xA0 <= second < 0xC0
    else if lead == 0xED then 0x80 <= second < 0xA0
    else if lead == 0xF0 then 0x90 <= second < 0xC0
    else if lead == 0xF4 then 0x80 <= second < 0x90
    else IsTail(second)
  }

  /** The character at the front of a string, or that its first byte starts none. */
  function Decode(s: seq<Byte>): (d: Decoded)
    requires s != []
    ensures d.Rune? ==> 1 <= d.size <= |s|
  {
    var a: int := s[0];
    if a < 0x80 then Rune(a, 1)
    else if a < 0xC2 || a > 0xF4 || |s| < 2 || !Accepts(s[0], s[1]) then BadByte
    else if a < 0xE0 then Rune(Shifted(a - 0xC0, s[1]), 2)
    else if |s| < 3 || !IsTail(s[2]) then BadByte
    else if a < 0xF0 then Rune(Shifted(Shifted(a - 0xE0, s[1]), s[2]), 3)
    else if |s| < 4 || !IsTail(s[3]) then BadByte
    else Rune(Shifted(Shifted(Shifted(a - 0xF0, s[1]), s[2]), s[3]), 4)
  }

  lemma ShiftedSplits(x: nat, b: Byte)
    requires IsTail(b)
    ensures Shifted(x, b) / 0x40 == x && TailByte(Shifted(x, b)) == b
  {
  }

  lemma SplitIsShifted(r: nat)
    ensures IsTail(TailByte(r)) && Shifted(r / 0x40, TailByte(r)) == r
  {
  }

  /** What is encoded is decoded. */
  lemma DecodeInvertsEncode(r: Scalar, rest: seq<Byte>)
    ensures Decode(Encode(r) + rest) == Rune(r, |Encode(r)|)
  {
    var s, n := Encode(r) + rest, |Encode(r)|;
    SplitIsShifted(r);
    SplitIsShifted(r / 0x40);
    SplitIsShifted(r / 0x40 / 0x40);
    assert s[0] == Encode(r)[0];
    assert n > 1 ==> s[1] == Encode(r)[1];
    assert n > 2 ==> s[2] == Encode(r)[2];
    assert n > 3 ==> s[3] == Encode(r)[3];
  }

  /** Only encodings are decoded. */
  lemma DecodedIsEncoded(s: seq<Byte>)
    requires s != [] && Decode(s).Rune?
    ensures s[..Decode(s).size] == Encode(Decode(s).value)
  {
    var n, a: int := Decode(s).size, s[0];
    if n == 2 {
      ShiftedSplits(a - 0xC0, s[1]);
      assert s[..2] == [s[0], s[1]];
    } else if n == 3 {
      ShiftedSplits(a - 0xE0, s[1]);
      ShiftedSplits(Shifted(a - 0xE0, s[1]), s[2]);
      assert s[..3] == [s[0], s[1], s[2]];
    } else if n == 4 {
      ShiftedSplits(a - 0xF0, s[1]);
      ShiftedSplits(Shifted(a - 0xF0, s[1]), s[2]);
      ShiftedSplits(Shifted(Shifted(a - 0xF0, s[1]), s[2]), s[3]);
      assert s[..4] == [s[0], s[1], s[2], s[3]];
    }
  }

  /** A byte is bad exactly if no encoding starts with it there. */
  lemma BadByteStartsNoRune(s: seq<Byte>)
    requires s != []
    ensures Decode(s).BadByte? <==> forall r: Scalar :: !(Encode(r) <= s)
  {
    if Decode(s).Rune? {
      DecodedIsEncoded(s);
      assert Encode(Decode(s).value) <= s;
    }
    forall r: Scalar | Encode(r) <= s ensures Decode(s).Rune? {
      DecodeInvertsEncode(r, s[|Encode(r)|..]);
      assert s == Encode(r) + s[|Encode(r)|..];
    }
  }

  // ----- Strings -----

  function EncodeAll(runes: seq<Scalar>): seq<Byte> {
    if runes == [] then [] else Encode(runes[0]) + EncodeAll(runes[1..])
  }

  /** The characters of a string; bytes that belong to none are skipped. */
  function Runes(s: seq<Byte>): seq<Scalar> {
    if s == [] then [] else
    match Decode(s)
    case BadByte => Runes(s[1..])
    case Rune(r, n) => [r] + Runes(s[n..])
  }

  /** The string is the encoding of some characters. */
  ghost predicate ValidUtf8(s: seq<Byte>) {
    exists runes: seq<Scalar> :: s == EncodeAll(runes)
  }

  lemma {:induction false} RunesOfEncoded(runes: seq<Scalar>)
    ensures Runes(EncodeAll(runes)) == runes
  {
    if runes != [] {
      var head, rest := Encode(runes[0]), EncodeAll(runes[1..]);
      DecodeInvertsEncode(runes[0], rest);
      assert (head + rest)[|head|..] == rest;
      RunesOfEncoded(runes[1..]);
    }
  }

  lemma ValidIffReencoded(s: seq<Byte>)
    ensures ValidUtf8(s) <==> s == EncodeAll(Runes(s))
  {
    if ValidUtf8(s) {
      var runes: seq<Scalar> :| s == EncodeAll(runes);
      RunesOfEncoded(runes);
    }
  }

  // ----- The sanitizer -----

  /** What is preserved: everything but C0 controls other than newline and tab, DEL, and C1 controls. */
  predicate Keeps(r: Scalar) {
    r == 0x0A || r == 0x09 || !(r < 0x20 || r == 0x7F || 0x80 <= r <= 0x9F)
  }

  /** The full filter: bad bytes and control characters dropped. */
  function Filtered(s: seq<Byte>): seq<Byte> {
    if s == [] then [] else
    match Decode(s)
    case BadByte => Filtered(s[1..])
    case Rune(r, n) => if Keeps(r) then Encode(r) + Filtered(s[n..]) else Filtered(s[n..])
  }

  /** The full filter encodes the preserved characters of the string. */
  lemma {:induction false} FilteredIsEncoded(s: seq<Byte>)
    ensures Filtered(s) == EncodeAll(Filter<Scalar>(Runes(s), Keeps))
  {
    if s != [] {
      match Decode(s)
      case BadByte =>
        FilteredIsEncoded(s[1..]);
      case Rune(r, n) =>
        FilteredIsEncoded(s[n..]);
        var first: seq<Scalar>, rest: seq<Scalar> := [r], Runes(s[n..]);
        assert Runes(s) == first + rest;
        FilterAppend<Scalar>(first, rest, Keeps);
        FilterOne<Scalar>(r, Keeps);
        EncodeAllStep(r, Filter<Scalar>(rest, Keeps));
        assert [] + Filter<Scalar>(rest, Keeps) == Filter<Scalar>(rest, Keeps);
    }
  }

  lemma EncodeAllStep(r: Scalar, rest: seq<Scalar>)
    ensures EncodeAll([r] + rest) == Encode(r) + EncodeAll(rest)
  {
    assert ([r] + rest)[1..] == rest;
  }

  /** Some byte of the string would be a control character if it stood alone. */
  ghost predicate HasControlByte(s: seq<Byte>) {
    exists b :: b in s && !Keeps(b)
  }

  ghost function Sanitized(s: seq<Byte>): seq<Byte> {
    if HasControlByte(s) then Filtered(s) else s
  }

  lemma ControlHasControlByte(r: Scalar)
    requires !Keeps(r)
    ensures HasControlByte(Encode(r))
  {
    assert Encode(r)[|Encode(r)| - 1] in Encode(r);
  }

  lemma {:induction false} CleanBytesCleanRunes(s: seq<Byte>)
    requires !HasControlByte(s)
    ensures forall r :: r in Runes(s) ==> Keeps(r)
  {
    if s != [] {
      match Decode(s)
      case BadByte =>
        CleanBytesCleanRunes(s[1..]);
      case Rune(r, n) =>
        CleanBytesCleanRunes(s[n..]);
        DecodedIsEncoded(s);
        assert s == s[..n] + s[n..];
        if !Keeps(r) { ControlHasControlByte(r); }
    }
  }

  /** On every byte string, the output holds exactly the preserved characters of the input, in order. */
  lemma SanitizedRunes(s: seq<Byte>)
    ensures Runes(Sanitized(s)) == Filter<Scalar>(Runes(s), Keeps)
  {
    FilteredIsEncoded(s);
    if HasControlByte(s) {
      RunesOfEncoded(Filter<Scalar>(Runes(s), Keeps));
    } else {
      CleanBytesCleanRunes(s);
      FilterAll<Scalar>(Runes(s), Keeps);
    }
  }

  /** The output holds no control character but newline and tab. */
  lemma SanitizedHasNoControls(s: seq<Byte>, r: Scalar)
    requires r in Runes(Sanitized(s))
    ensures r == 0x0A || r == 0x09 || 0x20 <= r < 0x7F || 0x9F < r
  {
    SanitizedRunes(s);
    FilterMembers<Scalar>(Runes(s), Keeps);
  }

  lemma SanitizeTwice(s: seq<Byte>)
    ensures Sanitized(Sanitized(s)) == Sanitized(s)
  {
    if HasControlByte(s) {
      FilteredIsEncoded(s);
      FilteredIsEncoded(Filtered(s));
      var kept := Filter<Scalar>(Runes(s), Keeps);
      RunesOfEncoded(kept);
      FilterMembers<Scalar>(Runes(s), Keeps);
      FilterAll<Scalar>(kept, Keeps);
    }
  }

  /** The shortcut returns what the full filter would, and the output is valid UTF-8, on exactly the same inputs. */
  lemma ShortcutAgreesIffOutputValid(s: seq<Byte>)
    ensures Sanitized(s) == Filtered(s) <==> HasControlByte(s) || ValidUtf8(s)
    ensures ValidUtf8(Sanitized(s)) <==> HasControlByte(s) || ValidUtf8(s)
  {
    ValidIffReencoded(s);
    FilteredIsEncoded(s);
    if !HasControlByte(s) {
      CleanBytesCleanRunes(s);
      FilterAll<Scalar>(Runes(s), Keeps);
    }
  }

  /** A lone byte 0xFF passes through, so the output need not be valid UTF-8. */
  lemma InvalidByteSurvives()
    ensures Sanitized([0xFF]) == [0xFF] && !ValidUtf8(Sanitized([0xFF])) && Filtered([0xFF]) == []
  {
    var s: seq<Byte> := [0xFF];
    assert s[1..] == [];
    assert Runes(s) == [];
    ValidIffReencoded(s);
  }

  method HasControlBytes(s: seq<Byte>) returns (found: bool)
    ensures found == HasControlByte(s)
  {
    for i := 0 to |s|
      invariant forall k :: 0 <= k < i ==> Keeps(s[k])
    {
      var c := s[i];
      if c == 0x0A || c == 0x09 { continue; }
      if c < 0x20 || c == 0x7F || 0x80 <= c <= 0x9F {
        assert c in s;
        return true;
      }
    }
    return false;
  }

  method SanitizeTerminal(s: seq<Byte>) returns (out: seq<Byte>)
    ensures out == Sanitized(s)
  {
    var control := HasControlBytes(s);
    if !control { return s; }
    out := [];
    var i := 0;
    while i < |s|
      invariant 0 <= i <= |s|
      invariant out + Filtered(s[i..]) == Filtered(s)
    {
      var d := Decode(s[i..]);
      FilteredAdvances(s, i, out);
      if d.BadByte? {
        i := i + 1;
        continue;
      }
      var r := d.value;
      var written: seq<Byte>;
      if r == 0x0A || r == 0x09 {
        written := Encode(r);
      } else if r < 0x20 || r == 0x7F || 0x80 <= r <= 0x9F {
        written := [];
      } else {
        written := Encode(r);
      }
      assert written == if Keeps(r) then Encode(r) else [];
      out := out + written;
      i := i + d.size;
    }
  }

  lemma FilteredAdvances(s: seq<Byte>, i: nat, out: seq<Byte>)
    requires i < |s|
    ensures match Decode(s[i..])
            case BadByte => Filtered(s[i + 1..]) == Filtered(s[i..])
            case Rune(r, n) =>
              (out + if Keeps(r) then Encode(r) else []) + Filtered(s[i + n..]) == out + Filtered(s[i..])
  {
    match Decode(s[i..])
    case BadByte =>
      assert s[i..][1..] == s[i + 1..];
    case Rune(r, n) =>
      assert s[i..][n..] == s[i + n..];
      assert out + [] == out;
      AppendAssociates(out, Encode(r), Filtered(s[i + n..]));
  }
}
