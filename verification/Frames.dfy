/** The journal file as bytes (internal/adapters/journal/journal.go): a 64-byte header and
    checksummed frames, the recovery scan over them, and what a crash can leave behind. */
module Frames {
  import opened Utf8
  import opened Contract
  import opened Encoding
  import opened Reducer
  import opened History
  import opened Legible

  const HEADER_SIZE: nat := 64
  const FRAME_SIZE: nat := 72

  /** The library functions the journal relies on: JSON marshalling of a commit (and the
      length of one marshalled event), its inverse, and SHA-256. */
  datatype Codec = Codec(
    marshal: Commit -> Text, unmarshal: Text -> Option<Commit>, eventLen: Event -> nat, sha256: Text -> Text)

  /** What is assumed of them. Lengths: `CommitLen` bounds an encoded commit, and each event is
      part of it. Decoding inverts encoding exactly for commits whose texts are UTF-8: in any
      other the encoder writes an escape of six bytes that decodes to a character of three, so
      that the decoded commit no longer encodes to the same bytes. */
  ghost predicate Lawful(k: Codec) {
    && (forall b: Text :: |k.sha256(b)| == 32)
    && (forall c: Commit {:trigger k.marshal(c)} :: 0 < |k.marshal(c)|)
    && (forall c: Commit {:trigger CommitLen(c)} :: |k.marshal(c)| <= CommitLen(c))
    && (forall c: Commit, e: Event | e in c.events :: k.eventLen(e) <= |k.marshal(c)|)
    && (forall c: Commit {:trigger Decode(k, k.marshal(c))} ::
          Decode(k, k.marshal(c)) == if LegibleCommit(c) then Some(c) else None)
  }

  /** Decoding accepts only the canonical encoding of what it decodes to. */
  function Decode(k: Codec, b: Text): (c: Option<Commit>)
    ensures c.Some? ==> k.marshal(c.value) == b
  {
    var c := k.unmarshal(b);
    if c.Some? && k.marshal(c.value) == b then c else None
  }

  /** A commit reads back as itself or not at all. */
  lemma DecodesExactly(k: Codec, c: Commit)
    requires Lawful(k)
    ensures Decode(k, k.marshal(c)) == if Decodable(c) then Some(c) else None
  {
    assert Decodable(c) ==> LegibleCommit(c);
  }

  // ---- bytes ----

  function BigEndian(n: nat): (b: Text)
    requires n < 0x1_0000_0000
    ensures |b| == 4
  {
    var n1 := n / 256;
    var n2 := n1 / 256;
    [n2 / 256, n2 % 256, n1 % 256, n % 256]
  }

  function FromBigEndian(b: Text): nat
    requires |b| == 4
  {
    ((b[0] as int * 256 + b[1] as int) * 256 + b[2] as int) * 256 + b[3] as int
  }

  lemma BigEndianInverse(n: nat)
    requires n < 0x1_0000_0000
    ensures FromBigEndian(BigEndian(n)) == n
  {
  }

  function Nibble(n: nat): (b: Byte)
    requires n < 16
    ensures HexByte(b)
  {
    if n < 10 then 48 + n else 87 + n
  }

  function Hex(b: Text): (h: Text)
    ensures |h| == 2 * |b| && forall k | 0 <= k < |h| :: HexByte(h[k])
  {
    if b == [] then [] else Hex(b[..|b| - 1]) + [Nibble(b[|b| - 1] / 16), Nibble(b[|b| - 1] % 16)]
  }

  /** "TWJRNL\r\n" */
  const MAGIC: Text := [84, 87, 74, 82, 78, 76, 13, 10]

  function HeaderPrefix(seed: Text): Text { MAGIC + BigEndian(1) + BigEndian(HEADER_SIZE) + seed }

  function FileHeader(k: Codec, seed: Text): Text { HeaderPrefix(seed) + k.sha256(HeaderPrefix(seed)) }

  function FramePrefix(n: nat): (b: Text)
    requires n < 0x1_0000_0000
    ensures |b| == 8
  {
    BigEndian(1) + BigEndian(n)
  }

  function Frame(k: Codec, b: Text): Text
    requires |b| < 0x1_0000_0000
  {
    FramePrefix(|b|) + k.sha256(FramePrefix(|b|)) + k.sha256(b) + b
  }

  // ---- the image of a run ----

  ghost predicate Storable(k: Codec, cs: seq<Commit>) {
    forall i | 0 <= i < |cs| :: 0 < |k.marshal(cs[i])| <= MAX_COMMIT_BYTES
  }

  ghost function Image(k: Codec, seed: Text, cs: seq<Commit>): Text
    requires Storable(k, cs)
  {
    if cs == [] then FileHeader(k, seed)
    else Image(k, seed, cs[..|cs| - 1]) + Frame(k, k.marshal(cs[|cs| - 1]))
  }

  ghost function End(k: Codec, cs: seq<Commit>): nat {
    if cs == [] then HEADER_SIZE else End(k, cs[..|cs| - 1]) + FRAME_SIZE + |k.marshal(cs[|cs| - 1])|
  }

  datatype Index = Index(offset: nat, length: nat, first: nat, last: nat)

  /** Where each commit of a run is stored and which events it holds. */
  ghost function Records(k: Codec, cs: seq<Commit>): seq<Index> {
    if cs == [] then []
    else
      var init, c := cs[..|cs| - 1], cs[|cs| - 1];
      Records(k, init) + [Index(End(k, init), |k.marshal(c)|, |Log(init)| + 1, |Log(cs)|)]
  }

  lemma FrameLen(k: Codec, b: Text)
    requires Lawful(k) && |b| < 0x1_0000_0000
    ensures |Frame(k, b)| == FRAME_SIZE + |b|
  {
  }

  lemma {:induction false} ImageLen(k: Codec, seed: Text, cs: seq<Commit>)
    requires Lawful(k) && |seed| == 16 && Storable(k, cs)
    ensures |Image(k, seed, cs)| == End(k, cs)
  {
    if cs != [] {
      ImageLen(k, seed, cs[..|cs| - 1]);
      FrameLen(k, k.marshal(cs[|cs| - 1]));
    }
  }

  lemma {:induction false} ImagePrefix(k: Codec, seed: Text, cs: seq<Commit>, n: nat)
    requires Storable(k, cs) && n <= |cs|
    ensures Storable(k, cs[..n]) && Image(k, seed, cs[..n]) <= Image(k, seed, cs)
    decreases |cs|
  {
    if n < |cs| {
      assert cs[..|cs| - 1][..n] == cs[..n];
      ImagePrefix(k, seed, cs[..|cs| - 1], n);
    } else {
      assert cs[..n] == cs;
    }
  }

  // ---- reading one frame ----

  datatype FrameRead = Torn | Bad | Whole(commit: Commit, length: nat)

  function ReadFrame(k: Codec, file: Text, pos: nat): (r: FrameRead)
    requires pos <= |file|
    ensures r.Whole? ==> 0 < r.length && pos + FRAME_SIZE + r.length <= |file|
  {
    if |file| - pos < FRAME_SIZE then Torn
    else
      var h := file[pos..pos + FRAME_SIZE];
      var length := FromBigEndian(h[4..8]);
      if k.sha256(h[..8]) != h[8..40] then Bad
      else if FromBigEndian(h[..4]) != 1 || length == 0 || length > MAX_COMMIT_BYTES then Bad
      else if length > |file| - pos - FRAME_SIZE then Torn
      else
        var b := file[pos + FRAME_SIZE..pos + FRAME_SIZE + length];
        if k.sha256(b) != h[40..] || Decode(k, b).None? then Bad
        else Whole(Decode(k, b).value, length)
  }

  /** The pieces of a frame sit where the reader looks for them. */
  lemma FramePieces(k: Codec, b: Text, rest: Text)
    requires Lawful(k) && |b| < 0x1_0000_0000
    requires rest <= Frame(k, b) && |rest| >= FRAME_SIZE
    ensures rest[..4] == BigEndian(1) && rest[4..8] == BigEndian(|b|) && rest[..8] == FramePrefix(|b|)
    ensures rest[8..40] == k.sha256(FramePrefix(|b|)) && rest[40..72] == k.sha256(b)
    ensures rest[72..] <= b
  {
    var p, s, t := FramePrefix(|b|), k.sha256(FramePrefix(|b|)), k.sha256(b);
    var f := p + s + t + b;
    assert f[..8] == p && f[8..40] == s && f[40..72] == t && f[72..] == b;
    assert f[..4] == BigEndian(1) && f[4..8] == BigEndian(|b|);
    assert rest == f[..|rest|];
    assert rest[..8] == f[..8] && rest[8..40] == f[8..40] && rest[40..72] == f[40..72];
    assert rest[..4] == f[..4] && rest[4..8] == f[4..8];
    assert rest[72..] == f[72..][..|rest| - 72];
  }

  /** A frame cut short anywhere is seen as torn. */
  lemma TornRead(k: Codec, file: Text, pos: nat, b: Text)
    requires Lawful(k) && 0 < |b| <= MAX_COMMIT_BYTES && pos <= |file|
    requires file[pos..] <= Frame(k, b) && |file| - pos < FRAME_SIZE + |b|
    ensures ReadFrame(k, file, pos) == Torn
  {
    if |file| - pos >= FRAME_SIZE {
      var rest := file[pos..];
      FramePieces(k, b, rest);
      BigEndianInverse(1);
      BigEndianInverse(|b|);
      var h := file[pos..pos + FRAME_SIZE];
      assert h == rest[..FRAME_SIZE];
      assert h[4..8] == rest[4..8] && h[..4] == rest[..4] && h[..8] == rest[..8] && h[8..40] == rest[8..40];
    }
  }

  /** A complete frame is decoded from exactly the bytes that were marshalled. */
  lemma WholeRead(k: Codec, file: Text, pos: nat, c: Commit)
    requires Lawful(k) && 0 < |k.marshal(c)| <= MAX_COMMIT_BYTES && pos <= |file|
    requires Frame(k, k.marshal(c)) <= file[pos..]
    ensures var d := Decode(k, k.marshal(c));
            ReadFrame(k, file, pos) == if d.None? then Bad else Whole(d.value, |k.marshal(c)|)
  {
    var b := k.marshal(c);
    var f := Frame(k, b);
    FrameLen(k, b);
    FramePieces(k, b, f);
    BigEndianInverse(1);
    BigEndianInverse(|b|);
    var rest := file[pos..];
    var h := file[pos..pos + FRAME_SIZE];
    assert rest[..|f|] == f;
    assert h == f[..FRAME_SIZE];
    assert h[4..8] == f[4..8] && h[..4] == f[..4] && h[..8] == f[..8] && h[8..40] == f[8..40] && h[40..] == f[40..72];
    assert file[pos + FRAME_SIZE..pos + FRAME_SIZE + |b|] == f[72..];
    assert f[72..] == b;
  }

  lemma FromBigEndianInverse(b: Text)
    requires |b| == 4
    ensures FromBigEndian(b) < 0x1_0000_0000 && BigEndian(FromBigEndian(b)) == b
  {
    var n1 := FromBigEndian(b) / 256;
    assert n1 == (b[0] as int * 256 + b[1] as int) * 256 + b[2] as int;
    var n2 := n1 / 256;
    assert n2 == b[0] as int * 256 + b[1] as int;
  }

  /** ONLY FRAMES ARE READ. Whatever the file holds, a frame that is read as a commit is, byte for
      byte, the frame of that commit: version, length, both checksums and canonical encoding. */
  lemma {:induction false} OnlyFramesRead(k: Codec, file: Text, pos: nat)
    requires pos <= |file| && ReadFrame(k, file, pos).Whole?
    ensures var r := ReadFrame(k, file, pos);
            && r.length == |k.marshal(r.commit)| && 0 < r.length <= MAX_COMMIT_BYTES
            && file[pos..pos + FRAME_SIZE + r.length] == Frame(k, k.marshal(r.commit))
            && Decode(k, k.marshal(r.commit)) == Some(r.commit)
  {
    var r := ReadFrame(k, file, pos);
    var h, b := file[pos..pos + FRAME_SIZE], file[pos + FRAME_SIZE..pos + FRAME_SIZE + r.length];
    FromBigEndianInverse(h[..4]);
    FromBigEndianInverse(h[4..8]);
    assert h[..8] == h[..4] + h[4..8];
    assert h == h[..8] + h[8..40] + h[40..];
    assert file[pos..pos + FRAME_SIZE + r.length] == h + b;
  }
}
