/** Go strings as byte sequences, UTF-8 validity as section 4 of RFC 3629 defines
    it, and the two places where the service cuts text on character boundaries. */
module Utf8 {
  type Byte = x: int | 0 <= x < 256
  type Text = seq<Byte>

  const MAX_CHUNK_BYTES: nat := 16384

  /** The bytes of an ASCII text. */
  function Ascii(s: string): (t: Text)
    ensures |t| == |s| && forall i | 0 <= i < |t| :: t[i] < 128
  {
    seq(|s|, i requires 0 <= i < |s| => s[i] as int % 128)
  }

  predicate Continuation(b: Byte) { 0x80 <= b < 0xC0 }

  /** Whether a byte can begin an encoded character. */
  predicate RuneStart(b: Byte) { !Continuation(b) }

  /** Length of the well-formed character at the front of `s`, or 0. */
  function RuneLen(s: Text): (n: nat)
    ensures n <= |s| && n <= 4
    ensures n > 0 ==> RuneStart(s[0])
    ensures forall k | 0 < k < n :: Continuation(s[k])
  {
    if |s| == 0 then 0
    else if s[0] < 0x80 then 1
    else if 0xC2 <= s[0] <= 0xDF then
      if |s| >= 2 && Continuation(s[1]) then 2 else 0
    else if 0xE0 <= s[0] <= 0xEF then
      if |s| >= 3 && Continuation(s[1]) && Continuation(s[2])
         && (s[0] == 0xE0 ==> s[1] >= 0xA0) && (s[0] == 0xED ==> s[1] < 0xA0)
      then 3 else 0
    else if 0xF0 <= s[0] <= 0xF4 then
      if |s| >= 4 && Continuation(s[1]) && Continuation(s[2]) && Continuation(s[3])
         && (s[0] == 0xF0 ==> s[1] >= 0x90) && (s[0] == 0xF4 ==> s[1] < 0x90)
      then 4 else 0
    else 0
  }

  predicate ValidUtf8(s: Text)
    decreases |s|
  {
    s == [] || (RuneLen(s) > 0 && ValidUtf8(s[RuneLen(s)..]))
  }

  /** `n` is a place where `s` may be cut without splitting a character. */
  predicate Boundary(s: Text, n: int) {
    0 <= n <= |s| && (n < |s| ==> RuneStart(s[n]))
  }

  lemma RuneLenPrefix(a: Text, b: Text)
    requires RuneLen(a) > 0
    ensures RuneLen(a + b) == RuneLen(a)
  {
  }

  lemma {:induction false} ValidConcat(a: Text, b: Text)
    requires ValidUtf8(a)
    ensures ValidUtf8(a + b) <==> ValidUtf8(b)
    decreases |a|
  {
    if a == [] {
      assert a + b == b;
    } else {
      var r := RuneLen(a);
      RuneLenPrefix(a, b);
      assert (a + b)[r..] == a[r..] + b;
      ValidConcat(a[r..], b);
    }
  }

  lemma FirstRuneValid(s: Text)
    requires RuneLen(s) > 0
    ensures ValidUtf8(s[..RuneLen(s)])
  {
    var first := s[..RuneLen(s)];
    assert RuneLen(first) == RuneLen(s);
    assert first[RuneLen(first)..] == [];
  }

  lemma PrefixValid(s: Text, n: nat)
    requires 0 < RuneLen(s) <= n <= |s| && ValidUtf8(s[RuneLen(s)..n])
    ensures ValidUtf8(s[..n])
  {
    var r := RuneLen(s);
    FirstRuneValid(s);
    ValidConcat(s[..r], s[r..n]);
    assert s[..n] == s[..r] + s[r..n];
  }

  /** Cutting valid text at a boundary leaves two valid pieces. */
  lemma {:induction false} CutValid(s: Text, n: nat)
    requires ValidUtf8(s) && Boundary(s, n)
    ensures ValidUtf8(s[..n]) && ValidUtf8(s[n..])
    decreases |s|
  {
    if n > 0 {
      var r := RuneLen(s);
      assert r <= n;
      var rest := s[r..];
      assert n < |s| ==> rest[n - r] == s[n];
      CutValid(rest, n - r);
      assert rest[n - r..] == s[n..];
      assert rest[..n - r] == s[r..n];
      PrefixValid(s, n);
    }
  }

  /** Every position of valid text has a character start at most three bytes before it. */
  lemma {:induction false} StartNearby(s: Text, p: nat)
    requires ValidUtf8(s) && p < |s|
    ensures exists q :: p - 3 <= q <= p && 0 <= q && RuneStart(s[q])
    decreases |s|
  {
    var r := RuneLen(s);
    if p < r {
      assert RuneStart(s[0]);
    } else {
      StartNearby(s[r..], p - r);
      var q :| p - r - 3 <= q <= p - r && 0 <= q && RuneStart(s[r..][q]);
      assert RuneStart(s[q + r]);
    }
  }

  /** The cut `emit` makes: the last boundary within the chunk bound. */
  method ChunkEnd(text: Text) returns (n: nat)
    requires ValidUtf8(text) && text != []
    ensures 0 < n <= |text| && n <= MAX_CHUNK_BYTES
    ensures Boundary(text, n) && ValidUtf8(text[..n]) && ValidUtf8(text[n..])
    ensures forall m | n < m <= |text| && m <= MAX_CHUNK_BYTES :: !Boundary(text, m)
  {
    n := if |text| < MAX_CHUNK_BYTES then |text| else MAX_CHUNK_BYTES;
    ghost var top, low := n, n;
    if n < |text| {
      StartNearby(text, n);
      low :| top - 3 <= low <= top && 0 <= low && RuneStart(text[low]);
    }
    while n < |text| && !RuneStart(text[n])
      invariant low <= n <= top
      invariant forall m | n < m <= top :: !Boundary(text, m)
      decreases n
    {
      n := n - 1;
    }
    CutValid(text, n);
  }

  /** Valid text, as a one-point quantifier so that callers do not unfold the decoder. */
  predicate Wellformed(s: Text) { forall x {:trigger ValidUtf8(x)} | x == s :: ValidUtf8(x) }

  predicate ChunkOk(s: Text) {
    0 < |s| <= MAX_CHUNK_BYTES && Wellformed(s)
  }

  lemma WellformedCut(s: Text, n: nat)
    requires Wellformed(s) && Boundary(s, n)
    ensures Wellformed(s[..n]) && Wellformed(s[n..])
  {
    assert ValidUtf8(s);
    CutValid(s, n);
  }

  lemma WellformedSlice(s: Text, lo: nat, hi: nat)
    requires Wellformed(s) && lo <= hi && Boundary(s, lo) && Boundary(s, hi)
    ensures Wellformed(s[lo..hi])
  {
    WellformedCut(s, lo);
    var rest := s[lo..];
    assert hi < |s| ==> rest[hi - lo] == s[hi];
    WellformedCut(rest, hi - lo);
    assert rest[..hi - lo] == s[lo..hi];
  }

  lemma WellformedConcat(a: Text, b: Text)
    requires Wellformed(a) && Wellformed(b)
    ensures Wellformed(a + b)
  {
    assert ValidUtf8(a) && ValidUtf8(b);
    ValidConcat(a, b);
  }

  /** The text split after its first chunk. */
  /** The chunk a text is cut into first: as long as the limit and its characters permit. */
  predicate FirstChunk(text: Text, chunk: Text) {
    ChunkOk(chunk) && chunk <= text && forall m | |chunk| < m <= |text| && m <= MAX_CHUNK_BYTES :: !Boundary(text, m)
  }

  lemma {:induction false} FirstChunkLong(text: Text, chunk: Text)
    requires Wellformed(text) && FirstChunk(text, chunk)
    ensures chunk == text || |chunk| >= MAX_CHUNK_BYTES - 3
  {
    assert ValidUtf8(text);
    assert Boundary(text, |text|);
    if |text| > MAX_CHUNK_BYTES {
      StartNearby(text, MAX_CHUNK_BYTES);
      var q :| MAX_CHUNK_BYTES - 3 <= q <= MAX_CHUNK_BYTES && RuneStart(text[q]);
      assert Boundary(text, q);
    }
  }

  method NextChunk(text: Text) returns (chunk: Text, rest: Text)
    requires Wellformed(text) && text != []
    ensures text == chunk + rest && ChunkOk(chunk) && Wellformed(rest) && FirstChunk(text, chunk)
    ensures rest != [] ==> |chunk| >= MAX_CHUNK_BYTES - 3
  {
    assert ValidUtf8(text);
    var n := ChunkEnd(text);
    chunk, rest := text[..n], text[n..];
    FirstChunkLong(text, chunk);
  }

  /** One page of retained output: the text and the offset to continue from,
      or a caller error. */
  datatype Page = Page(text: Text, next: nat) | BadOffset | PageTooSmall

  method PageOutput(text: Text, offset: int, max: nat) returns (p: Page)
    ensures p.BadOffset? <==> !Boundary(text, offset)
    ensures p.Page? ==> offset <= p.next <= offset + max && Boundary(text, p.next)
                        && p.text == text[offset..p.next]
                        && (offset < |text| && max > 0 ==> offset < p.next)
    ensures p.Page? ==> forall m | p.next < m <= offset + max :: !Boundary(text, m)
    ensures p.PageTooSmall? ==> offset < |text| && forall m | offset < m <= offset + max :: !Boundary(text, m)
    ensures ValidUtf8(text) && Boundary(text, offset) && max >= 4 ==> p.Page?
  {
    if offset < 0 || offset > |text| || (offset < |text| && !RuneStart(text[offset])) {
      return BadOffset;
    }
    var end := offset + max;
    if end >= |text| {
      assert text[offset..] == text[offset..|text|];
      return Page(text[offset..], |text|);
    }
    while end > offset && !RuneStart(text[end])
      invariant offset <= end <= offset + max < |text|
      invariant forall m | end < m <= offset + max :: !Boundary(text, m)
    {
      end := end - 1;
    }
    if ValidUtf8(text) && max >= 4 {
      StartNearby(text, offset + max);
      var q :| offset + max - 3 <= q <= offset + max && RuneStart(text[q]);
      assert Boundary(text, q);
    }
    if end == offset {
      return PageTooSmall;
    }
    return Page(text[offset..end], end);
  }

  /** Reading page after page, with any page sizes of at least four bytes, never
      fails, always moves forward and returns exactly the text. */
  method ReadAllPages(text: Text, sizes: seq<nat>) returns (pages: seq<Text>, next: nat)
    requires Wellformed(text)
    requires forall k | 0 <= k < |sizes| :: sizes[k] >= 4
    ensures Boundary(text, next) && Flatten(pages) == text[..next]
    ensures |sizes| >= |text| ==> Flatten(pages) == text
    ensures forall k | 0 <= k < |pages| :: pages[k] != [] && Wellformed(pages[k])
  {
    assert text != [] ==> Boundary(text, 0) by { assert ValidUtf8(text); }
    pages, next := [], 0;
    var i := 0;
    while i < |sizes| && next < |text|
      invariant 0 <= i <= |sizes| && Boundary(text, next)
      invariant next == |text| || i <= next
      invariant Flatten(pages) == text[..next]
      invariant forall k | 0 <= k < |pages| :: pages[k] != [] && Wellformed(pages[k])
    {
      var p := PageOutput(text, next, sizes[i]);
      assert p.Page? by { assert ValidUtf8(text); }
      WellformedSlice(text, next, p.next);
      FlattenAppend(pages, p.text);
      assert text[..next] + text[next..p.next] == text[..p.next];
      pages, next, i := pages + [p.text], p.next, i + 1;
    }
    if |sizes| >= |text| {
      assert text[..next] == text;
    }
  }

  function Flatten(parts: seq<Text>): Text {
    if parts == [] then [] else Flatten(parts[..|parts| - 1]) + parts[|parts| - 1]
  }

  lemma FlattenAppend(parts: seq<Text>, last: Text)
    ensures Flatten(parts + [last]) == Flatten(parts) + last
  {
    assert (parts + [last])[..|parts|] == parts;
  }
}
