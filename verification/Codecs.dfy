/** Cursor texts and escapes: `Cursor.UnmarshalJSON` in internal/core/state.go, `CursorID`,
    `ParseCursor` and `validEscapes` in internal/adapters/httpapi/codec.go. */
module Codecs {
  import opened Utf8
  import opened Contract

  // ---- canonical decimals ----

  predicate Digit(b: Byte) { 48 <= b <= 57 }

  function DigitValue(b: Byte): nat
    requires Digit(b)
  {
    var x: int := b;
    x - 48
  }

  /** strconv.FormatUint in base ten. */
  function Decimal(n: nat): (s: Text)
    ensures s != [] && (forall i | 0 <= i < |s| :: Digit(s[i]))
    ensures |s| > 1 ==> s[0] != 48
  {
    if n < 10 then [48 + n] else Decimal(n / 10) + [48 + n % 10]
  }

  function Value(s: Text): (n: nat)
    requires forall i | 0 <= i < |s| :: Digit(s[i])
  {
    if s == [] then 0 else 10 * Value(s[..|s| - 1]) + DigitValue(s[|s| - 1])
  }

  lemma {:induction false} ValueOfDecimal(n: nat)
    ensures Value(Decimal(n)) == n
  {
    if n >= 10 {
      ValueOfDecimal(n / 10);
      var s := Decimal(n);
      assert s[..|s| - 1] == Decimal(n / 10);
    } else {
      assert Decimal(n)[..0] == [];
    }
  }

  /** Text without a leading zero is the decimal form of its value. */
  lemma {:induction false} DecimalOfValue(s: Text)
    requires s != [] && (forall i | 0 <= i < |s| :: Digit(s[i])) && (|s| > 1 ==> s[0] != 48)
    ensures Decimal(Value(s)) == s
    decreases |s|
  {
    var init := s[..|s| - 1];
    if init == [] {
      assert s == [s[0]];
    } else {
      DecimalOfValue(init);
      assert Value(init) > 0 by {
        assert Decimal(0) == [48];
        assert init[0] == s[0];
      }
      assert s == init + [s[|s| - 1]];
    }
  }

  lemma {:induction false} ValueGrows(s: Text, n: nat)
    requires n <= |s| && forall i | 0 <= i < |s| :: Digit(s[i])
    ensures Value(s[..n]) <= Value(s)
    decreases |s|
  {
    if n < |s| {
      assert s[..|s| - 1][..n] == s[..n];
      ValueGrows(s[..|s| - 1], n);
    } else {
      assert s[..n] == s;
    }
  }

  /** The decimal text of some 64-bit sequence. */
  ghost predicate Canonical(s: Text) { exists n: nat :: n <= MAX_UINT64 && s == Decimal(n) }

  /** The JSON sequence parser: exactly the canonical 64-bit decimals, with their value; the
      running value never exceeds 64 bits. */
  method ParseSequence(s: Text) returns (r: Option<nat>)
    ensures r.Some? <==> Canonical(s)
    ensures r.Some? ==> r.value <= MAX_UINT64 && Decimal(r.value) == s
  {
    if s == [] || (|s| > 1 && s[0] == 48) {
      return None;
    }
    var n: nat := 0;
    for i := 0 to |s|
      invariant forall k | 0 <= k < i :: Digit(s[k])
      invariant n == Value(s[..i]) && n <= MAX_UINT64
    {
      assert s[..i + 1][..i] == s[..i];
      if !Digit(s[i]) {
        return None;
      }
      if n > (MAX_UINT64 - DigitValue(s[i])) / 10 {
        TooLarge(s, i + 1);
        return None;
      }
      n := n * 10 + DigitValue(s[i]);
    }
    assert s[..|s|] == s;
    DecimalOfValue(s);
    return Some(n);
  }

  lemma TooLarge(s: Text, n: nat)
    requires n <= |s| && (forall i | 0 <= i < n :: Digit(s[i])) && Value(s[..n]) > MAX_UINT64
    ensures !Canonical(s)
  {
    if Canonical(s) {
      var v: nat :| v <= MAX_UINT64 && s == Decimal(v);
      ValueOfDecimal(v);
      ValueGrows(s, n);
    }
  }

  // ---- cursor ids ----

  const COLON: Byte := 58

  function CursorId(c: Cursor): Text { c.storeId + [COLON] + Decimal(c.sequence) }

  predicate CursorOk(c: Cursor) { HexId(c.storeId) && c.sequence <= MAX_UINT64 }

  /** strconv.ParseUint(s, 10, 64). */
  method ParseUint(s: Text) returns (r: Option<nat>)
    ensures r.Some? <==> s != [] && (forall i | 0 <= i < |s| :: Digit(s[i])) && Value(s) <= MAX_UINT64
    ensures r.Some? ==> r.value == Value(s)
  {
    if s == [] {
      return None;
    }
    var n: nat := 0;
    for i := 0 to |s|
      invariant forall k | 0 <= k < i :: Digit(s[k])
      invariant n == Value(s[..i]) && n <= MAX_UINT64
    {
      assert s[..i + 1][..i] == s[..i];
      if !Digit(s[i]) {
        return None;
      }
      n := n * 10 + DigitValue(s[i]);
      if n > MAX_UINT64 {
        if forall k | 0 <= k < |s| :: Digit(s[k]) {
          ValueGrows(s, i + 1);
        }
        return None;
      }
    }
    assert s[..|s|] == s;
    return Some(n);
  }

  /** Accepts exactly the cursor ids the service emits, and returns the cursor they name. */
  method ParseCursor(s: Text) returns (r: Option<Cursor>)
    ensures r.Some? ==> CursorOk(r.value) && CursorId(r.value) == s
    ensures r.None? ==> forall c: Cursor | CursorOk(c) :: CursorId(c) != s
  {
    // strings.Split(s, ":") has exactly two parts iff exactly one byte is a colon; with a
    // first part of 32 hex digits that colon is at index 32.
    var colons := 0;
    for i := 0 to |s|
      invariant 0 <= colons <= i
      invariant colons == 1 ==> exists k :: 0 <= k < i && s[k] == COLON && forall l | 0 <= l < i && l != k :: s[l] != COLON
      invariant colons == 0 ==> forall k | 0 <= k < i :: s[k] != COLON
      invariant colons > 1 ==> exists k, l :: 0 <= k < l < i && s[k] == COLON && s[l] == COLON
    {
      if s[i] == COLON {
        colons := colons + 1;
      }
    }
    if colons != 1 || |s| <= 33 || s[32] != COLON {
      forall c: Cursor | CursorOk(c) ensures CursorId(c) != s {
        OneColon(c);
      }
      return None;
    }
    var store, digits := s[..32], s[33..];
    assert s == store + [COLON] + digits;
    for i := 0 to 32
      invariant forall k | 0 <= k < i :: HexByte(store[k])
    {
      if !HexByte(store[i]) {
        forall c: Cursor | CursorOk(c) ensures CursorId(c) != s {
          assert CursorId(c)[..32] == c.storeId;
        }
        return None;
      }
    }
    var n := ParseUint(digits);
    if n.None? || Decimal(n.value) != digits {
      forall c: Cursor | CursorOk(c) ensures CursorId(c) != s {
        assert CursorId(c)[33..] == Decimal(c.sequence);
        ValueOfDecimal(c.sequence);
      }
      return None;
    }
    return Some(Cursor(store, n.value));
  }

  lemma OneColon(c: Cursor)
    requires CursorOk(c)
    ensures |CursorId(c)| > 33 && CursorId(c)[32] == COLON
    ensures forall k | 0 <= k < |CursorId(c)| && k != 32 :: CursorId(c)[k] != COLON
  {
    var s := CursorId(c);
    forall k | 0 <= k < |s| && k != 32 ensures s[k] != COLON {
      if k < 32 {
        assert s[k] == c.storeId[k];
      } else {
        assert s[k] == Decimal(c.sequence)[k - 33];
      }
    }
  }

  /** Different cursors have different ids. */
  lemma CursorIdInjective(a: Cursor, b: Cursor)
    requires CursorOk(a) && CursorOk(b) && CursorId(a) == CursorId(b)
    ensures a == b
  {
    assert CursorId(a)[..32] == a.storeId && CursorId(b)[..32] == b.storeId;
    assert CursorId(a)[33..] == Decimal(a.sequence) && CursorId(b)[33..] == Decimal(b.sequence);
    ValueOfDecimal(a.sequence);
    ValueOfDecimal(b.sequence);
  }

  // ---- escapes ----

  const QUOTE: Byte := 34
  const BACKSLASH: Byte := 92
  const LETTER_U: Byte := 117

  predicate HexDigit(b: Byte) { 48 <= b <= 57 || 97 <= b <= 102 || 65 <= b <= 70 }

  function HexValue(b: Byte): (n: nat)
    requires HexDigit(b)
    ensures n < 16
  {
    var x: int := b;
    if x <= 57 then x - 48 else if x >= 97 then x - 87 else x - 55
  }

  /** One character of a JSON string as section 7 of RFC 8259 spells it. */
  datatype Char = Plain(b: Byte) | Escape(b: Byte) | Unicode(hex: Text)

  predicate CharOk(c: Char) {
    match c
    case Plain(b) => b != QUOTE && b != BACKSLASH
    case Escape(b) => b != LETTER_U
    case Unicode(h) => |h| == 4 && forall i | 0 <= i < 4 :: HexDigit(h[i])
  }

  function Spelled(c: Char): (s: Text)
    ensures s != []
  {
    match c
    case Plain(b) => [b]
    case Escape(b) => [BACKSLASH, b]
    case Unicode(h) => [BACKSLASH, LETTER_U] + h
  }

  function Unit(h: Text): nat
    requires |h| == 4 && forall i | 0 <= i < 4 :: HexDigit(h[i])
  {
    ((HexValue(h[0]) * 16 + HexValue(h[1])) * 16 + HexValue(h[2])) * 16 + HexValue(h[3])
  }

  predicate High(c: Char) { c.Unicode? && CharOk(c) && 0xD800 <= Unit(c.hex) <= 0xDBFF }
  predicate Low(c: Char) { c.Unicode? && CharOk(c) && 0xDC00 <= Unit(c.hex) <= 0xDFFF }

  /** Every surrogate escape of a string belongs to a pair. */
  predicate Paired(cs: seq<Char>) {
    if cs == [] then true
    else if High(cs[0]) then |cs| > 1 && Low(cs[1]) && Paired(cs[2..])
    else !Low(cs[0]) && Paired(cs[1..])
  }

  /** A JSON text as its strings and the bytes between them. */
  datatype Piece = Between(b: Byte) | Str(chars: seq<Char>)

  predicate PieceOk(p: Piece) {
    match p
    case Between(b) => b != QUOTE
    case Str(cs) => forall i | 0 <= i < |cs| :: CharOk(cs[i])
  }

  function Body(cs: seq<Char>): Text {
    if cs == [] then [QUOTE] else Spelled(cs[0]) + Body(cs[1..])
  }

  function Rendered(ps: seq<Piece>): Text {
    if ps == [] then [] else PieceText(ps[0]) + Rendered(ps[1..])
  }

  predicate AllPaired(ps: seq<Piece>) {
    forall i | 0 <= i < |ps| && ps[i].Str? :: Paired(ps[i].chars)
  }

  /** Position `i` of `b` is where the characters `cs` of a string and then `tail` remain. */
  ghost predicate Inside(b: Text, i: int, cs: seq<Char>, tail: Text) {
    && 0 <= i <= |b| && b[i..] == Body(cs) + tail
    && forall k | 0 <= k < |cs| :: CharOk(cs[k])
  }

  /** What stands at that position. */
  lemma {:induction false} AtChar(b: Text, i: int, cs: seq<Char>, tail: Text)
    requires Inside(b, i, cs, tail)
    ensures i < |b| && (b[i] == QUOTE <==> cs == []) && (cs == [] ==> b[i + 1..] == tail)
    ensures cs != [] ==> (b[i] == BACKSLASH <==> !cs[0].Plain?) && (cs[0].Plain? ==> Inside(b, i + 1, cs[1..], tail))
    ensures cs != [] ==>
              var n := |Spelled(cs[0])|;
              && i + n <= |b| && b[i..i + n] == Spelled(cs[0]) && Inside(b, i + n, cs[1..], tail)
  {
    if cs == [] {
      assert b[i..][0] == QUOTE;
      assert b[i + 1..] == b[i..][1..];
    } else {
      var n := |Spelled(cs[0])|;
      assert b[i..] == Spelled(cs[0]) + (Body(cs[1..]) + tail);
      assert b[i..i + n] == b[i..][..n];
      assert b[i + n..] == b[i..][n..];
      assert b[i] == b[i..][0] == Spelled(cs[0])[0];
    }
  }

  /** The same for a unicode escape, byte by byte. */
  lemma {:induction false} AtUnicode(b: Text, i: int, cs: seq<Char>, tail: Text)
    requires Inside(b, i, cs, tail) && cs != [] && b[i] == BACKSLASH
    ensures i + 1 < |b| && (b[i + 1] == LETTER_U <==> cs[0].Unicode?)
    ensures cs[0].Unicode? ==> i + 6 < |b| && b[i + 2..i + 6] == cs[0].hex && Inside(b, i + 6, cs[1..], tail)
    ensures !cs[0].Unicode? ==> Inside(b, i + 2, cs[1..], tail)
  {
    AtChar(b, i, cs, tail);
    var w := Spelled(cs[0]);
    var n := |w|;
    assert b[i] == b[i..i + n][0];
    assert b[i + 1] == b[i..i + n][1];
    if cs[0].Unicode? {
      assert b[i + 2..i + 6] == b[i..i + n][2..];
      AtChar(b, i + n, cs[1..], tail);
    }
  }

  /** The scan of a string has reached the characters `cs`, all earlier ones being paired.
      (A one-point quantifier, so that the loops do not unfold it.) */
  ghost predicate Scanned(b: Text, i: int, all: seq<Char>, cs: seq<Char>, tail: Text) {
    forall x {:trigger Inside(b, i, x, tail)} | x == cs :: Inside(b, i, x, tail) && (Paired(all) <==> Paired(x))
  }

  /** A character before the closing quote, unless it is a `u` escape. */
  lemma {:induction false} CharScanned(b: Text, i: nat, all: seq<Char>, cs: seq<Char>, tail: Text)
    requires Scanned(b, i, all, cs, tail) && i < |b| && b[i] != QUOTE
    ensures cs != [] && (b[i] != BACKSLASH ==> Scanned(b, i + 1, all, cs[1..], tail))
    ensures b[i] == BACKSLASH ==>
              && i + 1 < |b| && (b[i + 1] == LETTER_U <==> cs[0].Unicode?)
              && (b[i + 1] != LETTER_U ==> Scanned(b, i + 2, all, cs[1..], tail))
  {
    assert Inside(b, i, cs, tail);
    AtChar(b, i, cs, tail);
    if b[i] == BACKSLASH {
      AtUnicode(b, i, cs, tail);
    }
  }

  /** A `u` escape and, behind it, another one or not. */
  lemma {:induction false} UnicodeScanned(b: Text, i: nat, all: seq<Char>, cs: seq<Char>, tail: Text)
    requires Scanned(b, i, all, cs, tail) && cs != [] && cs[0].Unicode? && i < |b| && b[i] == BACKSLASH
    ensures i + 6 < |b| && b[i + 2..i + 6] == cs[0].hex && CharOk(cs[0])
    ensures !High(cs[0]) && !Low(cs[0]) ==> Scanned(b, i + 6, all, cs[1..], tail)
    ensures Low(cs[0]) ==> !Paired(all)
    ensures High(cs[0]) ==>
              if i + 11 >= |b| || b[i + 6] != BACKSLASH || b[i + 7] != LETTER_U then !Paired(all)
              else
                && |cs| > 1 && cs[1].Unicode? && CharOk(cs[1]) && b[i + 8..i + 12] == cs[1].hex && i + 12 < |b|
                && (if Low(cs[1]) then Scanned(b, i + 12, all, cs[2..], tail) else !Paired(all))
  {
    assert Inside(b, i, cs, tail);
    AtUnicode(b, i, cs, tail);
    if High(cs[0]) {
      AtChar(b, i + 6, cs[1..], tail);
      if i + 11 >= |b| || b[i + 6] != BACKSLASH || b[i + 7] != LETTER_U {
        LoneHigh(b, i + 6, cs, tail);
      } else {
        AtUnicode(b, i + 6, cs[1..], tail);
        assert cs[1..][1..] == cs[2..];
      }
    }
  }

  /** One `u` escape at `at`, with the low half of its pair if it is a high surrogate;
      `i` is its last byte. */
  method ScanUnicode(b: Text, at: nat, ghost all: seq<Char>, ghost cs: seq<Char>, ghost tail: Text)
    returns (ok: bool, i: nat, ghost rest: seq<Char>)
    requires 0 < at <= |b| && Scanned(b, at - 1, all, cs, tail) && cs != [] && cs[0].Unicode? && b[at - 1] == BACKSLASH
    ensures ok ==> at < i < |b| && Scanned(b, i + 1, all, rest, tail)
    ensures !ok ==> !Paired(all)
  {
    UnicodeScanned(b, at - 1, all, cs, tail);
    var n := Unit(b[at + 1..at + 5]);
    i, rest := at + 4, cs[1..];
    if 0xD800 <= n <= 0xDBFF {
      if i + 6 >= |b| || b[i + 1] != BACKSLASH || b[i + 2] != LETTER_U {
        return false, i, rest;
      }
      var m := Unit(b[i + 3..i + 7]);
      if m < 0xDC00 || m > 0xDFFF {
        return false, i, rest;
      }
      return true, i + 6, cs[2..];
    }
    return !(0xDC00 <= n <= 0xDFFF), i, rest;
  }

  /** The inner loop: the characters of one string, up to its closing quote. */
  method ScanString(b: Text, start: nat, ghost all: seq<Char>, ghost tail: Text) returns (ok: bool, i: nat)
    requires Inside(b, start, all, tail)
    ensures ok <==> Paired(all)
    ensures ok ==> start <= i < |b| && b[i] == QUOTE && b[i + 1..] == tail
  {
    i := start;
    ghost var cs := all;
    while i < |b| && b[i] != QUOTE
      invariant start <= i <= |b| && Scanned(b, i, all, cs, tail)
      decreases |b| - i
    {
      CharScanned(b, i, all, cs, tail);
      ghost var rest := cs[1..];
      if b[i] == BACKSLASH {
        i := i + 1;
        if b[i] == LETTER_U {
          ok, i, rest := ScanUnicode(b, i, all, cs, tail);
          if !ok {
            return;
          }
        }
      }
      i, cs := i + 1, rest;
    }
    StringEnds(b, i, all, cs, tail);
    ok := true;
  }

  lemma {:induction false} StringEnds(b: Text, i: nat, all: seq<Char>, cs: seq<Char>, tail: Text)
    requires Scanned(b, i, all, cs, tail) && (i < |b| ==> b[i] == QUOTE)
    ensures i < |b| && Paired(all) && b[i + 1..] == tail
  {
    assert Inside(b, i, cs, tail);
    AtChar(b, i, cs, tail);
  }

  /** A high surrogate not followed by another unicode escape is not paired. */
  lemma {:induction false} LoneHigh(b: Text, i: int, cs: seq<Char>, tail: Text)
    requires cs != [] && High(cs[0]) && Inside(b, i, cs[1..], tail)
    requires i + 5 >= |b| || b[i] != BACKSLASH || b[i + 1] != LETTER_U
    ensures !Paired(cs)
  {
    var rest := cs[1..];
    AtChar(b, i, rest, tail);
    if rest != [] && rest[0].Unicode? {
      assert b[i] == b[i..i + |Spelled(rest[0])|][0];
      AtUnicode(b, i, rest, tail);
    }
  }

  /** The bytes from `i` on spell the pieces `ps`. */
  ghost predicate Outside(b: Text, i: int, ps: seq<Piece>) {
    0 <= i <= |b| && b[i..] == Rendered(ps) && forall k | 0 <= k < |ps| :: PieceOk(ps[k])
  }

  function PieceText(p: Piece): (s: Text)
    ensures s != [] && (s[0] == QUOTE <==> p.Str? || p.b == QUOTE)
  {
    match p
    case Between(b) => [b]
    case Str(cs) => [QUOTE] + Body(cs)
  }

  lemma {:induction false} AtPiece(b: Text, i: int, ps: seq<Piece>)
    requires Outside(b, i, ps)
    ensures i == |b| <==> ps == []
    ensures ps != [] ==> (b[i] == QUOTE <==> ps[0].Str?)
    ensures ps != [] && ps[0].Between? ==> Outside(b, i + 1, ps[1..])
    ensures ps != [] && ps[0].Str? ==> Inside(b, i + 1, ps[0].chars, Rendered(ps[1..]))
  {
    if ps != [] {
      var p := PieceText(ps[0]);
      Pieces(b, i, p, Rendered(ps[1..]));
      assert PieceOk(ps[0]);
      if ps[0].Str? {
        assert p[1..] == Body(ps[0].chars);
      }
    }
  }

  lemma {:induction false} Pieces(b: Text, i: int, p: Text, rest: Text)
    requires 0 <= i <= |b| && p != [] && b[i..] == p + rest
    ensures i < |b| && b[i] == p[0] && b[i + 1..] == p[1..] + rest
  {
    assert b[i] == b[i..][0];
    assert b[i + 1..] == b[i..][1..];
  }

  /** The scan has reached the pieces `rest`, all earlier strings being paired. */
  ghost predicate Passed(b: Text, i: int, all: seq<Piece>, rest: seq<Piece>) {
    forall x {:trigger Outside(b, i, x)} | x == rest :: Outside(b, i, x) && (AllPaired(all) <==> AllPaired(x))
  }

  lemma {:induction false} PairedSplit(ps: seq<Piece>)
    requires ps != []
    ensures AllPaired(ps) <==> (ps[0].Str? ==> Paired(ps[0].chars)) && AllPaired(ps[1..])
  {
    var rest := ps[1..];
    assert forall i | 0 < i < |ps| :: ps[i] == rest[i - 1];
    assert forall i | 0 <= i < |rest| :: rest[i] == ps[i + 1];
  }

  /** One piece: a byte between strings, or a string whose characters follow. */
  lemma {:induction false} PiecePassed(b: Text, i: nat, all: seq<Piece>, rest: seq<Piece>)
    requires Passed(b, i, all, rest) && i < |b|
    ensures rest != [] && (b[i] != QUOTE ==> Passed(b, i + 1, all, rest[1..]))
    ensures b[i] == QUOTE ==> rest[0].Str? && Inside(b, i + 1, rest[0].chars, Rendered(rest[1..]))
  {
    assert Outside(b, i, rest);
    AtPiece(b, i, rest);
    PairedSplit(rest);
  }

  /** A whole string. */
  lemma {:induction false} StringPassed(b: Text, i: nat, all: seq<Piece>, rest: seq<Piece>, end: nat)
    requires Passed(b, i, all, rest) && rest != [] && rest[0].Str?
    ensures !Paired(rest[0].chars) ==> !AllPaired(all)
    ensures Paired(rest[0].chars) && end <= |b| && b[end..] == Rendered(rest[1..]) ==> Passed(b, end, all, rest[1..])
  {
    assert Outside(b, i, rest);
    PairedSplit(rest);
  }

  /** The bytes of a JSON text, taken apart at its strings. */
  ghost predicate JsonText(b: Text, ps: seq<Piece>) {
    forall x {:trigger Outside(b, 0, x)} | x == ps :: Outside(b, 0, x)
  }

  lemma {:induction false} ScanStarts(b: Text, ps: seq<Piece>)
    requires JsonText(b, ps)
    ensures Passed(b, 0, ps, ps)
  {
    assert Outside(b, 0, ps);
  }

  /** On any JSON text the scan stays in bounds and accepts exactly when every surrogate
      escape is paired. */
  method ValidEscapes(b: Text, ghost ps: seq<Piece>) returns (ok: bool)
    requires JsonText(b, ps)
    ensures ok <==> AllPaired(ps)
  {
    var i := 0;
    ScanStarts(b, ps);
    ghost var rest := ps;
    while i < |b|
      invariant i <= |b| && Passed(b, i, ps, rest)
      decreases |b| - i
    {
      PiecePassed(b, i, ps, rest);
      if b[i] == QUOTE {
        var end;
        ok, end := ScanString(b, i + 1, rest[0].chars, Rendered(rest[1..]));
        StringPassed(b, i, ps, rest, end + 1);
        if !ok {
          return false;
        }
        i := end;
      }
      i, rest := i + 1, rest[1..];
    }
    NothingLeft(b, ps, rest);
    return true;
  }

  lemma {:induction false} NothingLeft(b: Text, all: seq<Piece>, rest: seq<Piece>)
    requires Passed(b, |b|, all, rest)
    ensures AllPaired(all)
  {
    assert Outside(b, |b|, rest);
    AtPiece(b, |b|, rest);
  }
}
