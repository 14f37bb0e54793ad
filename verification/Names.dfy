/** The 32-byte message-type field: how a name is padded into it and trimmed out of it. */
module Names {
  import opened Numbers

  const FIELD_WIDTH: nat := 32

  type Name = seq<Byte>

  // ---- White space as bytes.TrimSpace sees it --------------------------------------------

  predicate AsciiSpace(b: Byte) {
    b == 0x20 || 0x09 <= b <= 0x0D
  }

  /** U+0085 and U+00A0 in UTF-8. */
  predicate TwoByteSpace(b: Byte, c: Byte) {
    b == 0xC2 && (c == 0x85 || c == 0xA0)
  }

  /** U+1680, U+2000 to U+200A, U+2028, U+2029, U+202F, U+205F and U+3000 in UTF-8. */
  predicate ThreeByteSpace(b: Byte, c: Byte, d: Byte) {
    || (b == 0xE1 && c == 0x9A && d == 0x80)
    || (b == 0xE2 && c == 0x80 && (0x80 <= d <= 0x8A || d == 0xA8 || d == 0xA9 || d == 0xAF))
    || (b == 0xE2 && c == 0x81 && d == 0x9F)
    || (b == 0xE3 && c == 0x80 && d == 0x80)
  }

  /** How many bytes the white-space character at the front of `s` takes; 0 when there is none. */
  function LeadingSpace(s: seq<Byte>): (w: nat)
    ensures w <= |s|
  {
    if |s| >= 1 && AsciiSpace(s[0]) then 1
    else if |s| >= 2 && TwoByteSpace(s[0], s[1]) then 2
    else if |s| >= 3 && ThreeByteSpace(s[0], s[1], s[2]) then 3
    else 0
  }

  /** How many bytes the white-space character at the end of `s` takes; 0 when there is none. */
  function TrailingSpace(s: seq<Byte>): (w: nat)
    ensures w <= |s|
  {
    var n := |s|;
    if n >= 1 && AsciiSpace(s[n - 1]) then 1
    else if n >= 2 && TwoByteSpace(s[n - 2], s[n - 1]) then 2
    else if n >= 3 && ThreeByteSpace(s[n - 3], s[n - 2], s[n - 1]) then 3
    else 0
  }

  /** The code points with Unicode's white-space property. */
  predicate IsWhite(point: int) {
    || 0x09 <= point <= 0x0D || point == 0x20 || point == 0x85 || point == 0xA0 || point == 0x1680
    || 0x2000 <= point <= 0x200A || point == 0x2028 || point == 0x2029 || point == 0x202F || point == 0x205F
    || point == 0x3000
  }

  /** The UTF-8 encoding of a code point below 2^16. */
  function Utf8(point: int): (s: seq<Byte>)
    requires 0 <= point < 0x1_0000
    ensures 1 <= |s| <= 3
  {
    if point < 0x80 then [point]
    else if point < 0x800 then [0xC0 + point / 64, 0x80 + point % 64]
    else [0xE0 + point / 4096, 0x80 + point / 64 % 64, 0x80 + point % 64]
  }

  /** The code point encoded by the first `w` bytes. */
  function FrontPoint(s: seq<Byte>, w: nat): int
    requires 1 <= w <= 3 && w <= |s|
  {
    var b: int := s[0];
    if w == 1 then b
    else if w == 2 then (b - 0xC0) * 64 + (s[1] as int - 0x80)
    else (b - 0xE0) * 4096 + (s[1] as int - 0x80) * 64 + (s[2] as int - 0x80)
  }

  /** White space at the front is the encoding of a white-space code point ... */
  lemma SpaceIsPoint(s: seq<Byte>)
    ensures var w := LeadingSpace(s);
            0 < w <= 3 ==> var point := FrontPoint(s, w); IsWhite(point) && 0 <= point && Utf8(point) == s[..w]
    ensures LeadingSpace(s) <= 3
  {
  }

  /** ... and the encoding of every one of them is recognised. */
  lemma PointIsSpace(point: int, rest: seq<Byte>)
    requires IsWhite(point)
    ensures LeadingSpace(Utf8(point) + rest) == |Utf8(point)|
  {
    var s := Utf8(point) + rest;
    assert s[0] == Utf8(point)[0];
    assert |Utf8(point)| > 1 ==> s[1] == Utf8(point)[1];
    assert |Utf8(point)| > 2 ==> s[2] == Utf8(point)[2];
  }

  /** White space at the end is white space of the same length that stands there ... */
  lemma EndIsSpace(s: seq<Byte>)
    ensures var w := TrailingSpace(s); w > 0 ==> LeadingSpace(s[|s| - w..]) == w
  {
    var w := TrailingSpace(s);
    var end := s[|s| - w..];
    assert w > 0 ==> end[0] == s[|s| - w];
    assert w > 1 ==> end[1] == s[|s| - w + 1];
    assert w > 2 ==> end[2] == s[|s| - w + 2];
  }

  /** ... and every such is recognised. */
  lemma SpaceIsEnd(s: seq<Byte>, space: seq<Byte>)
    requires 0 < |space| == LeadingSpace(space)
    ensures TrailingSpace(s + space) == |space|
  {
    var t, w := s + space, |space|;
    assert t[|t| - 1] == space[w - 1];
    assert w > 1 ==> t[|t| - 2] == space[w - 2];
    assert w > 2 ==> t[|t| - 3] == space[w - 3];
  }

  // ---- Trimming and padding --------------------------------------------------------------

  function TrimLeft(s: seq<Byte>): (r: seq<Byte>)
    ensures LeadingSpace(r) == 0 && |r| <= |s|
    decreases |s|
  {
    var w := LeadingSpace(s);
    if w == 0 then s else TrimLeft(s[w..])
  }

  function TrimRight(s: seq<Byte>): (r: seq<Byte>)
    ensures TrailingSpace(r) == 0 && r <= s
    decreases |s|
  {
    var w := TrailingSpace(s);
    if w == 0 then s else TrimRight(s[..|s| - w])
  }

  function TrimNul(s: seq<Byte>): (r: seq<Byte>)
    ensures r <= s && (r == [] || r[|r| - 1] != 0)
    decreases |s|
  {
    if s != [] && s[|s| - 1] == 0 then TrimNul(s[..|s| - 1]) else s
  }

  function Repeat(b: Byte, n: nat): (r: seq<Byte>)
    ensures |r| == n && forall i :: 0 <= i < n ==> r[i] == b
  {
    seq(n, _ => b)
  }

  /** parseMessageType: trailing NULs go first, then white space on both sides. */
  function ParseName(field: seq<Byte>): (t: Name)
    ensures |t| <= |field|
  {
    TrimRight(TrimLeft(TrimNul(field)))
  }

  /** convertMessageType: pad with spaces to 32 bytes, or keep the first 32. */
  function PadName(t: Name): (field: seq<Byte>)
    ensures |field| == FIELD_WIDTH
  {
    if |t| >= FIELD_WIDTH then t[..FIELD_WIDTH] else t + Repeat(0x20, FIELD_WIDTH - |t|)
  }

  // ---- Which names survive the field -----------------------------------------------------

  /** No outer white space, at most 32 bytes, and a name that fills the field does not end in NUL. */
  predicate Canonical(t: Name) {
    && |t| <= FIELD_WIDTH
    && LeadingSpace(t) == 0
    && TrailingSpace(t) == 0
    && (|t| == FIELD_WIDTH ==> t[|t| - 1] != 0)
  }

  lemma {:induction false} TrimRightPadding(t: Name, n: nat)
    ensures TrimRight(t + Repeat(0x20, n)) == TrimRight(t)
  {
    if n == 0 {
      assert t + Repeat(0x20, 0) == t;
    } else {
      var s := t + Repeat(0x20, n);
      assert TrailingSpace(s) == 1;
      assert s[..|s| - 1] == t + Repeat(0x20, n - 1);
      TrimRightPadding(t, n - 1);
    }
  }

  lemma {:induction false} TrimNulPadding(t: Name, n: nat)
    ensures TrimNul(t + Repeat(0, n)) == TrimNul(t)
  {
    if n == 0 {
      assert t + Repeat(0, 0) == t;
    } else {
      var s := t + Repeat(0, n);
      assert s[..|s| - 1] == t + Repeat(0, n - 1);
      TrimNulPadding(t, n - 1);
    }
  }

  lemma {:induction false} TrimLeftBlank(n: nat)
    ensures TrimLeft(Repeat(0x20, n)) == []
  {
    if n == 0 {
    } else {
      assert Repeat(0x20, n)[1..] == Repeat(0x20, n - 1);
      TrimLeftBlank(n - 1);
    }
  }

  lemma CanonicalSurvives(t: Name)
    requires Canonical(t)
    ensures ParseName(PadName(t)) == t
  {
    var field := PadName(t);
    assert TrimNul(field) == field;
    if t == [] {
      assert field == Repeat(0x20, FIELD_WIDTH);
      TrimLeftBlank(FIELD_WIDTH);
    } else {
      assert LeadingSpace(field) == 0;
      if |t| < FIELD_WIDTH {
        TrimRightPadding(t, FIELD_WIDTH - |t|);
      } else {
        assert field == t;
      }
    }
  }

  /** Trimming on the right cannot bring white space to the front. */
  lemma ParsedIsTrimmed(field: seq<Byte>)
    ensures LeadingSpace(ParseName(field)) == 0
    ensures TrailingSpace(ParseName(field)) == 0
  {
    var s := TrimLeft(TrimNul(field));
    var r := TrimRight(s);
    assert r <= s;
    assert LeadingSpace(r) == 0;
  }

  // ---- What is trimmed -------------------------------------------------------------------

  /** White-space characters, one after the other from the front. */
  predicate Blank(s: seq<Byte>)
    decreases |s|
  {
    s == [] || (LeadingSpace(s) > 0 && Blank(s[LeadingSpace(s)..]))
  }

  /** And from the end. */
  predicate BlankAtEnd(s: seq<Byte>)
    decreases |s|
  {
    s == [] || (TrailingSpace(s) > 0 && BlankAtEnd(s[..|s| - TrailingSpace(s)]))
  }

  lemma {:induction false} TrimLeftDrops(s: seq<Byte>) returns (front: seq<Byte>)
    ensures s == front + TrimLeft(s) && Blank(front)
    decreases |s|
  {
    hide LeadingSpace, TrimLeft;
    TrimLeftUnfolds(s);
    var w := LeadingSpace(s);
    if w == 0 {
      front := [];
    } else {
      var rest := TrimLeftDrops(s[w..]);
      front := s[..w] + rest;
      SpaceStays(s, rest);
      BlankMore(s[..w], rest);
      hide Blank;
      assert s == s[..w] + s[w..];
      Regroup(s[..w], rest, TrimLeft(s));
    }
  }

  lemma TrimLeftUnfolds(s: seq<Byte>)
    ensures TrimLeft(s) == if LeadingSpace(s) == 0 then s else TrimLeft(s[LeadingSpace(s)..])
  {
    hide LeadingSpace;
  }

  lemma BlankMore(space: seq<Byte>, rest: seq<Byte>)
    requires Blank(rest) && |space| > 0 && LeadingSpace(space + rest) == |space|
    ensures Blank(space + rest)
  {
    hide LeadingSpace;
    assert (space + rest)[|space|..] == rest;
  }

  /** A white-space character is recognised by its own bytes. */
  lemma SpaceStays(s: seq<Byte>, rest: seq<Byte>)
    ensures var w := LeadingSpace(s); w > 0 ==> LeadingSpace(s[..w] + rest) == w
  {
    var w := LeadingSpace(s);
    var t := s[..w] + rest;
    assert w >= 1 ==> t[0] == s[0];
    assert w >= 2 ==> t[1] == s[1];
    assert w >= 3 ==> t[2] == s[2];
  }

  lemma {:induction false} TrimRightDrops(s: seq<Byte>)
    ensures BlankAtEnd(s[|TrimRight(s)|..])
    decreases |s|
  {
    hide TrailingSpace, TrimRight, BlankAtEnd;
    TrimRightUnfolds(s);
    var w := TrailingSpace(s);
    if w == 0 {
      assert s[|s|..] == [];
      BlankNothing();
    } else {
      var n, k := |s| - w, |TrimRight(s)|;
      TrimRightDrops(s[..n]);
      SpaceStaysAtEnd(s, s[..n][k..]);
      BlankMoreAtEnd(s[..n][k..], s[n..]);
      assert s[k..] == s[..n][k..] + s[n..];
    }
  }

  lemma BlankNothing()
    ensures BlankAtEnd([])
  {
  }

  lemma Regroup(a: seq<Byte>, b: seq<Byte>, c: seq<Byte>)
    ensures (a + b) + c == a + (b + c)
  {
  }

  lemma TrimRightUnfolds(s: seq<Byte>)
    ensures TrimRight(s) == if TrailingSpace(s) == 0 then s else TrimRight(s[..|s| - TrailingSpace(s)])
  {
    hide TrailingSpace;
  }

  lemma BlankMoreAtEnd(rest: seq<Byte>, space: seq<Byte>)
    requires BlankAtEnd(rest) && |space| > 0 && TrailingSpace(rest + space) == |space|
    ensures BlankAtEnd(rest + space)
  {
    hide TrailingSpace;
    assert (rest + space)[..|rest|] == rest;
  }

  lemma SpaceStaysAtEnd(s: seq<Byte>, rest: seq<Byte>)
    ensures var w := TrailingSpace(s); w > 0 ==> TrailingSpace(rest + s[|s| - w..]) == w
  {
    var w := TrailingSpace(s);
    var t := rest + s[|s| - w..];
    assert w >= 1 ==> t[|t| - 1] == s[|s| - 1];
    assert w >= 2 ==> t[|t| - 2] == s[|s| - 2];
    assert w >= 3 ==> t[|t| - 3] == s[|s| - 3];
  }

  lemma {:induction false} TrimNulDrops(s: seq<Byte>)
    ensures s == TrimNul(s) + Repeat(0, |s| - |TrimNul(s)|)
    decreases |s|
  {
    if s != [] && s[|s| - 1] == 0 {
      TrimNulDrops(s[..|s| - 1]);
    }
  }

  /**
   * The name read from a field: behind it, the field has NULs, as many as there are, and before those
   * white space on both sides of the name, which has none of its own.
   */
  lemma ParsedName(field: seq<Byte>) returns (front: seq<Byte>, end: seq<Byte>, nuls: nat)
    ensures field == front + ParseName(field) + end + Repeat(0, nuls)
    ensures Blank(front) && BlankAtEnd(end)
    ensures var text := front + ParseName(field) + end; text == [] || text[|text| - 1] != 0
    ensures LeadingSpace(ParseName(field)) == 0 && TrailingSpace(ParseName(field)) == 0
  {
    hide TrimNul, TrimLeft, TrimRight, Blank, BlankAtEnd, LeadingSpace, TrailingSpace, Repeat;
    var s := TrimNul(field);
    TrimNulDrops(field);
    nuls := |field| - |s|;
    front := TrimLeftDrops(s);
    TrimRightDrops(TrimLeft(s));
    end := TrimLeft(s)[|ParseName(field)|..];
    ParsedIsTrimmed(field);
    assert front + ParseName(field) + end == front + (ParseName(field) + end) == s;
  }

  /** A name comes back from its padded field exactly when it is canonical. */
  lemma SurvivesIffCanonical(t: Name)
    ensures ParseName(PadName(t)) == t <==> Canonical(t)
  {
    if Canonical(t) {
      CanonicalSurvives(t);
    } else if ParseName(PadName(t)) == t {
      ParsedIsTrimmed(PadName(t));
    }
  }

  /** NUL padding carries the same canonical names as space padding, but for those that end in NUL. */
  lemma EitherPaddingParses(t: Name)
    requires Canonical(t)
    ensures ParseName(PadName(t)) == t
    ensures ParseName(t + Repeat(0, FIELD_WIDTH - |t|)) == t <==> t == [] || t[|t| - 1] != 0
  {
    hide PadName, Repeat, TrimNul, TrimLeft, TrimRight, LeadingSpace, TrailingSpace;
    TrimNulPadding(t, FIELD_WIDTH - |t|);
    CanonicalSurvives(t);
    TrimmedIff(t);
  }

  /** A canonical name is not changed by trimming unless it ends in NUL. */
  lemma TrimmedIff(t: Name)
    requires Canonical(t)
    ensures TrimRight(TrimLeft(TrimNul(t))) == t <==> t == [] || t[|t| - 1] != 0
  {
    hide LeadingSpace, TrailingSpace;
    if t == [] || t[|t| - 1] != 0 {
      assert TrimNul(t) == t;
    } else {
      assert |TrimNul(t)| < |t|;
    }
  }

  /** The field is a canonical name and spaces behind it. */
  predicate SpacePadded(field: seq<Byte>)
    requires |field| == FIELD_WIDTH
  {
    exists n :: 0 <= n <= FIELD_WIDTH && Canonical(field[..n]) && forall i :: n <= i < FIELD_WIDTH ==> field[i] == 0x20
  }

  /** A field is written back as it was read exactly when it is a canonical name and spaces. */
  lemma FieldSurvivesIff(field: seq<Byte>)
    requires |field| == FIELD_WIDTH
    ensures PadName(ParseName(field)) == field <==> SpacePadded(field)
  {
    hide LeadingSpace, TrailingSpace;
    if PadName(ParseName(field)) == field {
      var t := ParseName(field);
      ParsedIsTrimmed(field);
      assert field[..|t|] == t;
    }
    if SpacePadded(field) {
      var n :| 0 <= n <= FIELD_WIDTH && Canonical(field[..n]) && forall i :: n <= i < FIELD_WIDTH ==> field[i] == 0x20;
      assert PadName(field[..n]) == field;
      CanonicalSurvives(field[..n]);
    }
  }
}
