/** Opening a journal: the recovery scan, and the proof that it recovers exactly the
    complete frames of any byte prefix a crash can leave. */
module Recovery {
  import opened Utf8
  import opened Contract
  import opened Reducer
  import opened History
  import opened Frames
  import opened Legible

  datatype Recovered = Recovered(state: Snapshot, receipts: seq<Receipt>, records: seq<Index>, pos: nat)

  // ---- the scan ----

  predicate KeyUsed(receipts: seq<Receipt>, key: Text) {
    exists i :: 0 <= i < |receipts| && receipts[i].key == key
  }

  /** One verified frame is applied, or the journal is refused. */
  function Advance(r: Recovered, c: Commit, length: nat): Option<Recovered> {
    var next := ApplyCommit(r.state, c);
    if next.None? || (c.receipt.Some? && KeyUsed(r.receipts, c.receipt.value.key)) then None
    else Some(Recovered(next.value,
                        r.receipts + (if c.receipt.Some? then [c.receipt.value] else []),
                        r.records + [Index(r.pos, length, c.events[0].cursor.sequence, next.value.cursor.sequence)],
                        r.pos + FRAME_SIZE + length))
  }

  /** The state after the last complete frame, or None when a complete frame is corrupt. */
  function Scan(k: Codec, file: Text, r: Recovered): (result: Option<Recovered>)
    ensures result.Some? ==> r.pos <= result.value.pos
    ensures result.Some? && r.pos <= |file| ==> result.value.pos <= |file|
    decreases |file| - r.pos
  {
    if r.pos >= |file| then Some(r)
    else
      match ReadFrame(k, file, r.pos)
      case Torn => Some(r)
      case Bad => None
      case Whole(c, n) => if Advance(r, c, n).None? then None else Scan(k, file, Advance(r, c, n).value)
  }

  function Fresh(storeId: Id): Recovered { Recovered(EmptySnapshot(storeId), [], [], HEADER_SIZE) }

  predicate HeaderOk(k: Codec, file: Text) {
    |file| >= HEADER_SIZE
    && file[..8] == MAGIC && FromBigEndian(file[8..12]) == 1 && FromBigEndian(file[12..16]) == HEADER_SIZE
    && file[32..64] == k.sha256(file[..32])
  }

  /** What `Open` makes of a file within the size limit. */
  function OpenFile(k: Codec, file: Text, hard: nat): Option<Recovered> {
    if |file| < HEADER_SIZE || |file| > hard || !HeaderOk(k, file) then None
    else Scan(k, file, Fresh(Hex(file[16..32])))
  }

  /** The scan as it runs, and the truncation of an incomplete tail. */
  method Open(k: Codec, file: Text, hard: nat) returns (found: Option<Recovered>, disk: Text, tailBytes: nat)
    ensures found == OpenFile(k, file, hard)
    ensures found.None? ==> disk == file
    ensures found.Some? ==> found.value.pos <= |file| && disk == file[..found.value.pos]
                             && tailBytes == |file| - found.value.pos
  {
    disk, tailBytes := file, 0;
    if |file| < HEADER_SIZE || |file| > hard || !HeaderOk(k, file) {
      return None, file, 0;
    }
    var r := Fresh(Hex(file[16..32]));
    while r.pos < |file|
      invariant r.pos <= |file|
      invariant OpenFile(k, file, hard) == Scan(k, file, r)
      decreases |file| - r.pos
    {
      var read := ReadFrame(k, file, r.pos);
      if read.Torn? {
        break;
      }
      if read.Bad? {
        return None, file, 0;
      }
      var next := Advance(r, read.commit, read.length);
      if next.None? {
        return None, file, 0;
      }
      r := next.value;
    }
    found := Some(r);
    if r.pos != |file| {
      tailBytes := |file| - r.pos;
      disk := file[..r.pos];
    } else {
      assert file[..r.pos] == file;
    }
  }

  // ---- runs that were written ----

  ghost predicate UniqueKeys(receipts: seq<Receipt>) {
    forall i, j | 0 <= i < j < |receipts| :: receipts[i].key != receipts[j].key
  }

  /** A run as a sequence of successful appends leaves it. */
  ghost predicate Written(k: Codec, storeId: Id, cs: seq<Commit>) {
    Storable(k, cs) && Replay(EmptySnapshot(storeId), cs).Some? && UniqueKeys(Receipts(cs))
  }

  /** What must be recovered from a run. */
  ghost function RecoveredFrom(k: Codec, storeId: Id, cs: seq<Commit>): Recovered
    requires Replay(EmptySnapshot(storeId), cs).Some?
  {
    Recovered(Replay(EmptySnapshot(storeId), cs).value, Receipts(cs), Records(k, cs), End(k, cs))
  }

  lemma {:induction false} ReceiptsPrefix(cs: seq<Commit>, n: nat)
    requires n <= |cs|
    ensures Receipts(cs[..n]) <= Receipts(cs)
    decreases |cs|
  {
    if n < |cs| {
      assert cs[..|cs| - 1][..n] == cs[..n];
      ReceiptsPrefix(cs[..|cs| - 1], n);
    } else {
      assert cs[..n] == cs;
    }
  }

  lemma WrittenPrefix(k: Codec, storeId: Id, cs: seq<Commit>, n: nat)
    requires Written(k, storeId, cs) && n <= |cs|
    ensures Written(k, storeId, cs[..n])
  {
    ReplayPrefix(EmptySnapshot(storeId), cs, n);
    ReceiptsPrefix(cs, n);
    var a, b := Receipts(cs[..n]), Receipts(cs);
    forall i, j | 0 <= i < j < |a| ensures a[i].key != a[j].key {
      assert a[i] == b[i] && a[j] == b[j];
    }
  }

  lemma {:induction false} KeyFresh(cs: seq<Commit>)
    requires cs != [] && UniqueKeys(Receipts(cs)) && cs[|cs| - 1].receipt.Some?
    ensures !KeyUsed(Receipts(cs[..|cs| - 1]), cs[|cs| - 1].receipt.value.key)
  {
    var a, r := Receipts(cs[..|cs| - 1]), cs[|cs| - 1].receipt.value;
    assert Receipts(cs) == a + [r];
    forall i | 0 <= i < |a| ensures a[i].key != r.key {
      assert Receipts(cs)[i] == a[i] && Receipts(cs)[|a|] == r;
    }
  }

  lemma FirstSequence(storeId: Id, cs: seq<Commit>)
    requires cs != [] && Replay(EmptySnapshot(storeId), cs).Some?
    ensures cs[|cs| - 1].events != [] && cs[|cs| - 1].events[0].cursor.sequence == |Log(cs[..|cs| - 1])| + 1
    ensures Replay(EmptySnapshot(storeId), cs).value.cursor.sequence == |Log(cs)|
  {
    var init := cs[..|cs| - 1];
    RunNumbered(storeId, init);
    RunNumbered(storeId, cs);
    assert Log(cs)[|Log(init)|] == cs[|cs| - 1].events[0];
  }

  /** One accepted commit with a fresh key. */
  lemma AdvanceStep(r: Recovered, c: Commit, length: nat, t: Snapshot)
    requires Accepts(r.state, c, t) && c.events != [] && (c.receipt.Some? ==> !KeyUsed(r.receipts, c.receipt.value.key))
    ensures Advance(r, c, length) ==
            Some(Recovered(t, r.receipts + (if c.receipt.Some? then [c.receipt.value] else []),
                           r.records + [Index(r.pos, length, c.events[0].cursor.sequence, t.cursor.sequence)],
                           r.pos + FRAME_SIZE + length))
  {
    assert ApplyCommit(r.state, c) == Some(t);
  }

  lemma {:induction false} ReplayLast(s: Snapshot, cs: seq<Commit>)
    requires cs != [] && Replay(s, cs).Some?
    ensures Replay(s, cs[..|cs| - 1]).Some? && Accepts(Replay(s, cs[..|cs| - 1]).value, cs[|cs| - 1], Replay(s, cs).value)
  {
  }

  /** How the bookkeeping of a run grows with its last commit. */
  lemma {:induction false} BookkeepingLast(k: Codec, cs: seq<Commit>)
    requires cs != []
    ensures var init, c := cs[..|cs| - 1], cs[|cs| - 1];
            && Receipts(cs) == Receipts(init) + (if c.receipt.Some? then [c.receipt.value] else [])
            && Records(k, cs) == Records(k, init) + [Index(End(k, init), |k.marshal(c)|, |Log(init)| + 1, |Log(cs)|)]
            && End(k, cs) == End(k, init) + FRAME_SIZE + |k.marshal(c)|
  {
  }

  /** What is recovered grows likewise. */
  lemma {:induction false} RecoveredLast(k: Codec, storeId: Id, cs: seq<Commit>)
    requires cs != [] && Replay(EmptySnapshot(storeId), cs).Some? && Replay(EmptySnapshot(storeId), cs[..|cs| - 1]).Some?
    ensures cs[|cs| - 1].events != []
    ensures var r, c, t := RecoveredFrom(k, storeId, cs[..|cs| - 1]), cs[|cs| - 1], Replay(EmptySnapshot(storeId), cs).value;
            RecoveredFrom(k, storeId, cs) ==
            Recovered(t, r.receipts + (if c.receipt.Some? then [c.receipt.value] else []),
                      r.records + [Index(r.pos, |k.marshal(c)|, c.events[0].cursor.sequence, t.cursor.sequence)],
                      r.pos + FRAME_SIZE + |k.marshal(c)|)
  {
    FirstSequence(storeId, cs);
    BookkeepingLast(k, cs);
  }

  /** Applying the next commit of a run to what was recovered so far. */
  lemma {:induction false} AdvanceWritten(k: Codec, storeId: Id, cs: seq<Commit>)
    requires Written(k, storeId, cs) && cs != []
    requires Replay(EmptySnapshot(storeId), cs[..|cs| - 1]).Some?
    ensures var init, c := cs[..|cs| - 1], cs[|cs| - 1];
            Advance(RecoveredFrom(k, storeId, init), c, |k.marshal(c)|) == Some(RecoveredFrom(k, storeId, cs))
  {
    var init, c := cs[..|cs| - 1], cs[|cs| - 1];
    RecoveredLast(k, storeId, cs);
    if c.receipt.Some? {
      KeyFresh(cs);
    }
    ReplayLast(EmptySnapshot(storeId), cs);
    AdvanceStep(RecoveredFrom(k, storeId, init), c, |k.marshal(c)|, Replay(EmptySnapshot(storeId), cs).value);
  }

  /** The header is accepted and names the store. */
  lemma HeaderRead(k: Codec, seed: Text, file: Text)
    requires Lawful(k) && |seed| == 16 && FileHeader(k, seed) <= file
    ensures HeaderOk(k, file) && file[16..32] == seed
  {
    var h := FileHeader(k, seed);
    var p := HeaderPrefix(seed);
    assert |p| == 32 && p[..8] == MAGIC && p[8..12] == BigEndian(1) && p[12..16] == BigEndian(HEADER_SIZE) && p[16..] == seed;
    assert h[..32] == p && h[32..] == k.sha256(p);
    assert file[..64] == h;
    assert file[..8] == p[..8] && file[8..12] == p[8..12] && file[12..16] == p[12..16] && file[16..32] == p[16..];
    assert file[..32] == p && file[32..64] == h[32..];
    BigEndianInverse(1);
    BigEndianInverse(HEADER_SIZE);
  }

  /** The scan of a file that starts with the image of a run gets past that run. */
  lemma {:induction false} ScanReaches(k: Codec, seed: Text, cs: seq<Commit>, file: Text)
    requires Lawful(k) && |seed| == 16 && Written(k, Hex(seed), cs) && AllDecodable(cs)
    requires Image(k, seed, cs) <= file
    ensures Scan(k, file, Fresh(Hex(seed))) == Scan(k, file, RecoveredFrom(k, Hex(seed), cs))
  {
    if cs != [] {
      var init, c := cs[..|cs| - 1], cs[|cs| - 1];
      WrittenPrefix(k, Hex(seed), cs, |cs| - 1);
      ImageLen(k, seed, init);
      assert Image(k, seed, init) <= file;
      ScanReaches(k, seed, init, file);
      FrameFollows(k, seed, cs, file);
      WholeRead(k, file, End(k, init), c);
      DecodesExactly(k, c);
      AdvanceWritten(k, Hex(seed), cs);
    }
  }

  lemma FrameFollows(k: Codec, seed: Text, cs: seq<Commit>, file: Text)
    requires Lawful(k) && |seed| == 16 && Storable(k, cs) && cs != [] && Image(k, seed, cs) <= file
    ensures var init := cs[..|cs| - 1];
            End(k, init) < |file| && Frame(k, k.marshal(cs[|cs| - 1])) <= file[End(k, init)..]
  {
    var init, b := cs[..|cs| - 1], k.marshal(cs[|cs| - 1]);
    ImageLen(k, seed, init);
    FrameLen(k, b);
    var image := Image(k, seed, init) + Frame(k, b);
    assert file[..|image|] == image;
    assert file[End(k, init)..][..|Frame(k, b)|] == image[End(k, init)..];
  }

  /** How many commits of a run lie completely within the first `p` bytes. */
  ghost function WholeFrames(k: Codec, cs: seq<Commit>, p: nat): (m: nat)
    ensures m <= |cs|
  {
    if cs == [] || End(k, cs) <= p then |cs| else WholeFrames(k, cs[..|cs| - 1], p)
  }

  lemma {:induction false} WholeFramesEnd(k: Codec, cs: seq<Commit>, p: nat)
    requires p >= HEADER_SIZE
    ensures var m := WholeFrames(k, cs, p);
            End(k, cs[..m]) <= p && (m < |cs| ==> p < End(k, cs[..m + 1]))
  {
    var m := WholeFrames(k, cs, p);
    if cs == [] || End(k, cs) <= p {
      assert cs[..m] == cs;
    } else {
      var init := cs[..|cs| - 1];
      WholeFramesEnd(k, init, p);
      assert init[..m] == cs[..m];
      if m < |init| {
        assert init[..m + 1] == cs[..m + 1];
      } else {
        assert cs[..m + 1] == cs;
      }
    }
  }

  /** A cut file holds the complete frames in front of the cut. */
  lemma WholeKept(k: Codec, seed: Text, cs: seq<Commit>, n: nat, p: nat)
    requires Lawful(k) && |seed| == 16 && Storable(k, cs) && n <= |cs| && End(k, cs[..n]) <= p <= End(k, cs)
    ensures |Image(k, seed, cs)| == End(k, cs)
    ensures Storable(k, cs[..n]) && Image(k, seed, cs[..n]) <= Image(k, seed, cs)[..p]
    ensures |Image(k, seed, cs[..n])| == End(k, cs[..n])
  {
    ImageLen(k, seed, cs);
    ImagePrefix(k, seed, cs, n);
    ImageLen(k, seed, cs[..n]);
    var full := Image(k, seed, cs);
    assert full[..p][..End(k, cs[..n])] == full[..End(k, cs[..n])];
  }

  /** What follows the complete frames in a cut file is read as a torn frame. */
  lemma TailTorn(k: Codec, seed: Text, cs: seq<Commit>, m: nat, p: nat)
    requires Lawful(k) && |seed| == 16 && Storable(k, cs)
    requires m < |cs| && End(k, cs[..m]) < p < End(k, cs[..m + 1]) && p <= End(k, cs)
    ensures |Image(k, seed, cs)| == End(k, cs)
    ensures ReadFrame(k, Image(k, seed, cs)[..p], End(k, cs[..m])) == Torn
  {
    var whole, next, b := cs[..m], cs[..m + 1], k.marshal(cs[m]);
    assert next[..m] == whole && next[m] == cs[m];
    WholeKept(k, seed, cs, m, p);
    ImagePrefix(k, seed, cs, m + 1);
    FrameLen(k, b);
    CutFrame(k, Image(k, seed, whole), b, Image(k, seed, cs), p);
    TornRead(k, Image(k, seed, cs)[..p], End(k, whole), b);
  }

  lemma CutFrame(k: Codec, before: Text, b: Text, full: Text, p: nat)
    requires |b| < 0x1_0000_0000 && before + Frame(k, b) <= full && |before| <= p <= |before + Frame(k, b)|
    ensures full[..p][|before|..] <= Frame(k, b)
  {
    var image := before + Frame(k, b);
    assert full[..|image|] == image;
    assert full[..p] == image[..p];
    assert full[..p][|before|..] == image[|before|..][..p - |before|];
    assert image[|before|..] == Frame(k, b);
  }

  /** CRASH RECOVERY AT EVERY BYTE. Whatever prefix of at least the header a crash leaves of
      a run's journal, opening it recovers exactly the run of the complete frames in it:
      state, receipts, index and end position. */
  lemma CrashRecovery(k: Codec, seed: Text, cs: seq<Commit>, p: nat, hard: nat)
    requires Lawful(k) && |seed| == 16 && Written(k, Hex(seed), cs) && AllDecodable(cs[..WholeFrames(k, cs, p)])
    requires HEADER_SIZE <= p <= End(k, cs) <= hard
    ensures |Image(k, seed, cs)| == End(k, cs)
    ensures var m := WholeFrames(k, cs, p);
            && Replay(EmptySnapshot(Hex(seed)), cs[..m]).Some?
            && OpenFile(k, Image(k, seed, cs)[..p], hard) == Some(RecoveredFrom(k, Hex(seed), cs[..m]))
  {
    var m := WholeFrames(k, cs, p);
    WholeFramesEnd(k, cs, p);
    WholeKept(k, seed, cs, m, p);
    WrittenPrefix(k, Hex(seed), cs, m);
    var file := Image(k, seed, cs)[..p];
    OpensPast(k, seed, cs[..m], file, hard);
    if End(k, cs[..m]) < p {
      assert m < |cs| by { assert cs[..|cs|] == cs; }
      TailTorn(k, seed, cs, m, p);
    }
  }

  /** A file within the limit that starts with the image of a run is scanned past that run. */
  lemma OpensPast(k: Codec, seed: Text, cs: seq<Commit>, file: Text, hard: nat)
    requires Lawful(k) && |seed| == 16 && Written(k, Hex(seed), cs) && AllDecodable(cs)
    requires Image(k, seed, cs) <= file && |file| <= hard
    ensures OpenFile(k, file, hard) == Scan(k, file, RecoveredFrom(k, Hex(seed), cs))
  {
    ImagePrefix(k, seed, cs, 0);
    assert cs[..0] == [];
    assert FileHeader(k, seed) <= file;
    HeaderRead(k, seed, file);
    ScanReaches(k, seed, cs, file);
  }

  /** The complete frames of a cut file are the image of their run. */
  lemma {:induction false} WholeImage(k: Codec, seed: Text, cs: seq<Commit>, p: nat)
    requires Lawful(k) && |seed| == 16 && Storable(k, cs) && HEADER_SIZE <= p <= End(k, cs)
    ensures var whole := cs[..WholeFrames(k, cs, p)];
            && Storable(k, whole) && |Image(k, seed, cs)| == End(k, cs) && End(k, whole) <= p
            && |Image(k, seed, whole)| == End(k, whole)
            && Image(k, seed, cs)[..p][..End(k, whole)] == Image(k, seed, whole)
  {
    var m := WholeFrames(k, cs, p);
    WholeFramesEnd(k, cs, p);
    WholeKept(k, seed, cs, m, p);
  }

  /** A file without a tail opens to its whole run. */
  lemma {:induction false} CleanOpen(k: Codec, seed: Text, cs: seq<Commit>, hard: nat)
    requires Lawful(k) && |seed| == 16 && Written(k, Hex(seed), cs) && AllDecodable(cs) && End(k, cs) <= hard
    ensures OpenFile(k, Image(k, seed, cs), hard) == Some(RecoveredFrom(k, Hex(seed), cs))
  {
    HeaderFits(k, cs);
    assert WholeFrames(k, cs, End(k, cs)) == |cs| && cs[..|cs|] == cs;
    CrashRecovery(k, seed, cs, End(k, cs), hard);
    assert Image(k, seed, cs)[..End(k, cs)] == Image(k, seed, cs);
  }

  lemma {:induction false} HeaderFits(k: Codec, cs: seq<Commit>)
    ensures HEADER_SIZE <= End(k, cs)
  {
    if cs != [] {
      HeaderFits(k, cs[..|cs| - 1]);
    }
  }

  /** Reopening what a recovery left behind gives the same state and no tail. */
  lemma {:induction false} RecoveryStable(k: Codec, seed: Text, cs: seq<Commit>, p: nat, hard: nat)
    requires Lawful(k) && |seed| == 16 && Written(k, Hex(seed), cs) && AllDecodable(cs[..WholeFrames(k, cs, p)])
    requires HEADER_SIZE <= p <= End(k, cs) <= hard
    ensures |Image(k, seed, cs)| == End(k, cs)
    ensures var file := Image(k, seed, cs)[..p];
            var r := OpenFile(k, file, hard);
            && r.Some? && r.value.pos <= |file|
            && OpenFile(k, file[..r.value.pos], hard) == r
  {
    var whole := cs[..WholeFrames(k, cs, p)];
    CrashRecovery(k, seed, cs, p, hard);
    WholeImage(k, seed, cs, p);
    WrittenPrefix(k, Hex(seed), cs, |whole|);
    CleanOpen(k, seed, whole, hard);
  }

  /** A complete frame with a text that was not UTF-8 reads as corrupt. */
  lemma {:induction false} FrameRefused(k: Codec, seed: Text, cs: seq<Commit>, file: Text)
    requires Lawful(k) && |seed| == 16 && Storable(k, cs) && cs != [] && !Decodable(cs[|cs| - 1])
    requires Image(k, seed, cs) <= file
    ensures End(k, cs[..|cs| - 1]) < |file| && ReadFrame(k, file, End(k, cs[..|cs| - 1])) == Bad
  {
    var c := cs[|cs| - 1];
    FrameFollows(k, seed, cs, file);
    WholeRead(k, file, End(k, cs[..|cs| - 1]), c);
    DecodesExactly(k, c);
  }

  /** The condition is needed: once a complete frame holds a text that is not UTF-8, the journal
      cannot be opened any more. */
  lemma {:induction false} UnreadableFails(k: Codec, seed: Text, cs: seq<Commit>, n: nat, p: nat, hard: nat)
    requires Lawful(k) && |seed| == 16 && Written(k, Hex(seed), cs)
    requires n < |cs| && AllDecodable(cs[..n]) && !Decodable(cs[n])
    requires End(k, cs[..n + 1]) <= p <= End(k, cs)
    ensures |Image(k, seed, cs)| == End(k, cs)
    ensures OpenFile(k, Image(k, seed, cs)[..p], hard).None?
  {
    var upto, next := cs[..n], cs[..n + 1];
    assert next[..n] == upto && next[n] == cs[n];
    WholeKept(k, seed, cs, n + 1, p);
    var file := Image(k, seed, cs)[..p];
    if |file| <= hard {
      WrittenPrefix(k, Hex(seed), cs, n);
      FrameRefused(k, seed, next, file);
      ImagePrefix(k, seed, next, n);
      OpensPast(k, seed, upto, file, hard);
    }
  }

  /** WHEN A CUT FILE OPENS. A file cut at any byte opens exactly if every text in each of its
      complete frames was UTF-8, and then to the run of those frames. */
  lemma {:induction false} RecoveryExact(k: Codec, seed: Text, cs: seq<Commit>, p: nat, hard: nat)
    requires Lawful(k) && |seed| == 16 && Written(k, Hex(seed), cs) && HEADER_SIZE <= p <= End(k, cs) <= hard
    ensures |Image(k, seed, cs)| == End(k, cs)
    ensures var whole := cs[..WholeFrames(k, cs, p)];
            && Replay(EmptySnapshot(Hex(seed)), whole).Some?
            && OpenFile(k, Image(k, seed, cs)[..p], hard) ==
               if AllDecodable(whole) then Some(RecoveredFrom(k, Hex(seed), whole)) else None
  {
    var m := WholeFrames(k, cs, p);
    WrittenPrefix(k, Hex(seed), cs, m);
    if AllDecodable(cs[..m]) {
      CrashRecovery(k, seed, cs, p, hard);
    } else {
      SomeUnreadable(k, seed, cs, p, hard);
    }
  }

  lemma {:induction false} SomeUnreadable(k: Codec, seed: Text, cs: seq<Commit>, p: nat, hard: nat)
    requires Lawful(k) && |seed| == 16 && Written(k, Hex(seed), cs) && HEADER_SIZE <= p <= End(k, cs)
    requires !AllDecodable(cs[..WholeFrames(k, cs, p)])
    ensures |Image(k, seed, cs)| == End(k, cs) && OpenFile(k, Image(k, seed, cs)[..p], hard).None?
  {
    var m := WholeFrames(k, cs, p);
    var n := FirstIllegible(cs, m);
    WholeFramesEnd(k, cs, p);
    EndPrefix(k, cs, n + 1, m);
    UnreadableFails(k, seed, cs, n, p, hard);
  }

  /** The first of the commits before `m` that does not read back. */
  ghost function FirstIllegible(cs: seq<Commit>, m: nat): (n: nat)
    requires m <= |cs| && !AllDecodable(cs[..m])
    ensures n < m && !Decodable(cs[n]) && AllDecodable(cs[..n])
  {
    if AllDecodable(cs[..m - 1]) then m - 1 else FirstIllegible(cs, m - 1)
  }

  /** Fewer commits end earlier. */
  lemma {:induction false} EndPrefix(k: Codec, cs: seq<Commit>, n: nat, m: nat)
    requires n <= m <= |cs|
    ensures End(k, cs[..n]) <= End(k, cs[..m])
    decreases m
  {
    if n < m {
      assert cs[..m][..m - 1] == cs[..m - 1];
      EndPrefix(k, cs, n, m - 1);
    }
  }

  // ---- arbitrary files ----

  lemma {:induction false} KeysExtended(cs: seq<Commit>, c: Commit)
    requires UniqueKeys(Receipts(cs)) && (c.receipt.Some? ==> !KeyUsed(Receipts(cs), c.receipt.value.key))
    ensures UniqueKeys(Receipts(cs + [c]))
  {
    ReceiptsExtended(cs, c);
  }

  /** A header that is accepted is the header of the store it names. */
  lemma {:induction false} HeaderExact(k: Codec, file: Text)
    requires HeaderOk(k, file)
    ensures FileHeader(k, file[16..32]) <= file
  {
    FromBigEndianInverse(file[8..12]);
    FromBigEndianInverse(file[12..16]);
    assert file[..32] == file[..8] + file[8..12] + file[12..16] + file[16..32];
    assert file[..64] == file[..32] + file[32..64];
  }

  /** The file starts with the image of this run, which can be read back, and that was scanned. */
  ghost predicate Scanned(k: Codec, seed: Text, cs: seq<Commit>, file: Text, r: Recovered) {
    && Written(k, Hex(seed), cs) && AllDecodable(cs) && r == RecoveredFrom(k, Hex(seed), cs)
    && Image(k, seed, cs) <= file
  }

  /** One more frame that was read and applied. */
  lemma {:induction false} ScannedMore(k: Codec, seed: Text, cs: seq<Commit>, file: Text, r: Recovered)
    requires Lawful(k) && |seed| == 16 && Scanned(k, seed, cs, file, r) && r.pos <= |file|
    requires ReadFrame(k, file, r.pos).Whole?
    requires Advance(r, ReadFrame(k, file, r.pos).commit, ReadFrame(k, file, r.pos).length).Some?
    ensures var read := ReadFrame(k, file, r.pos);
            Scanned(k, seed, cs + [read.commit], file, Advance(r, read.commit, read.length).value)
  {
    var c := ReadFrame(k, file, r.pos).commit;
    OnlyFramesRead(k, file, r.pos);
    ImageLen(k, seed, cs);
    WrittenMore(k, Hex(seed), cs, c, r);
    ImageMore(k, seed, cs, c, file);
    DecodesExactly(k, c);
    DecodableMore(cs, c);
  }

  /** A commit that was applied extends the run. */
  lemma {:induction false} WrittenMore(k: Codec, storeId: Id, cs: seq<Commit>, c: Commit, r: Recovered)
    requires Written(k, storeId, cs) && r == RecoveredFrom(k, storeId, cs)
    requires 0 < |k.marshal(c)| <= MAX_COMMIT_BYTES && Advance(r, c, |k.marshal(c)|).Some?
    ensures Written(k, storeId, cs + [c]) && Advance(r, c, |k.marshal(c)|) == Some(RecoveredFrom(k, storeId, cs + [c]))
  {
    var all := cs + [c];
    assert all[..|cs|] == cs && all[|cs|] == c;
    ReplayExtended(EmptySnapshot(storeId), cs, c);
    KeysExtended(cs, c);
    AdvanceWritten(k, storeId, all);
  }

  lemma {:induction false} DecodableMore(cs: seq<Commit>, c: Commit)
    requires AllDecodable(cs) && Decodable(c)
    ensures AllDecodable(cs + [c])
  {
  }

  lemma {:induction false} ImageMore(k: Codec, seed: Text, cs: seq<Commit>, c: Commit, file: Text)
    requires Storable(k, cs) && Storable(k, cs + [c]) && Image(k, seed, cs) <= file
    requires |k.marshal(c)| < 0x1_0000_0000
    requires var n := |Image(k, seed, cs)|;
             var m := n + |Frame(k, k.marshal(c))|; m <= |file| && file[n..m] == Frame(k, k.marshal(c))
    ensures Image(k, seed, cs + [c]) <= file
  {
    ImageLast(k, seed, cs, c);
    PrefixMore(file, Image(k, seed, cs), Frame(k, k.marshal(c)));
  }

  lemma {:induction false} ImageLast(k: Codec, seed: Text, cs: seq<Commit>, c: Commit)
    requires Storable(k, cs) && Storable(k, cs + [c]) && |k.marshal(c)| < 0x1_0000_0000
    ensures Image(k, seed, cs + [c]) == Image(k, seed, cs) + Frame(k, k.marshal(c))
  {
    assert (cs + [c])[..|cs|] == cs;
  }

  lemma {:induction false} PrefixMore(file: Text, a: Text, f: Text)
    requires a <= file && |a| + |f| <= |file| && file[|a|..|a| + |f|] == f
    ensures a + f <= file
  {
    assert file[..|a| + |f|] == file[..|a|] + file[|a|..|a| + |f|];
  }

  /** Nothing more can be read: the file ends, or goes on with a torn frame. */
  ghost predicate Exhausted(k: Codec, file: Text, pos: nat) { pos <= |file| && (pos == |file| || ReadFrame(k, file, pos) == Torn) }

  lemma {:induction false} ScanSound(k: Codec, seed: Text, cs: seq<Commit>, file: Text, r: Recovered) returns (all: seq<Commit>)
    requires Lawful(k) && |seed| == 16 && Scanned(k, seed, cs, file, r) && r.pos <= |file| && Scan(k, file, r).Some?
    ensures Scanned(k, seed, all, file, Scan(k, file, r).value) && Exhausted(k, file, Scan(k, file, r).value.pos)
    decreases |file| - r.pos
  {
    all := cs;
    if r.pos < |file| && ReadFrame(k, file, r.pos).Whole? {
      var read := ReadFrame(k, file, r.pos);
      ScannedMore(k, seed, cs, file, r);
      all := ScanSound(k, seed, cs + [read.commit], file, Advance(r, read.commit, read.length).value);
    }
  }

  /** WHATEVER OPENS IS A RUN. Any bytes at all that open as a journal are the file of some run of
      accepted commits with distinct keys that can be read back, possibly followed by a torn frame,
      and what is recovered is exactly that run. */
  lemma {:induction false} OpenSound(k: Codec, file: Text, hard: nat)
    requires Lawful(k) && OpenFile(k, file, hard).Some?
    ensures HEADER_SIZE <= |file| <= hard
    ensures exists cs :: Scanned(k, file[16..32], cs, file, OpenFile(k, file, hard).value)
    ensures Exhausted(k, file, OpenFile(k, file, hard).value.pos)
  {
    var seed := file[16..32];
    HeaderExact(k, file);
    EmptyRun(k, seed);
    assert Scanned(k, seed, [], file, Fresh(Hex(seed)));
    var all := ScanSound(k, seed, [], file, Fresh(Hex(seed)));
  }

  lemma {:induction false} EmptyRun(k: Codec, seed: Text)
    ensures Written(k, Hex(seed), []) && RecoveredFrom(k, Hex(seed), []) == Fresh(Hex(seed))
    ensures Image(k, seed, []) == FileHeader(k, seed)
  {
  }
}
