/** The open journal (internal/adapters/journal/journal.go): appending within the byte
    budget, poisoning after a failed write, and paging history back out of the file. */
module Journal {
  import opened Utf8
  import opened Contract
  import opened Reducer
  import opened History
  import opened Frames
  import opened Legible
  import opened Recovery
  import opened Paging

  const ADMISSION_BYTES: nat := 201326592
  const HARD_BYTES: nat := 268435456

  /** The run is accepted, and its file plus the reserve is within the hard limit. (A one-point
      quantifier, so that proofs about prefixes do not unfold it.) */
  ghost predicate Affords(k: Codec, storeId: Id, cs: seq<Commit>, hard: nat) {
    forall x {:trigger Replay(EmptySnapshot(storeId), x)} | x == cs ::
      var r := Replay(EmptySnapshot(storeId), x);
      r.Some? && End(k, x) + TerminalReserve(r.value) <= hard
  }

  /** That holds at every point of the run. */
  ghost predicate Budgeted(k: Codec, storeId: Id, cs: seq<Commit>, hard: nat) {
    forall n {:trigger cs[..n]} | 0 <= n <= |cs| :: Affords(k, storeId, cs[..n], hard)
  }

  lemma {:induction false} BudgetedPrefix(k: Codec, storeId: Id, cs: seq<Commit>, hard: nat, m: nat)
    requires Budgeted(k, storeId, cs, hard) && m <= |cs|
    ensures Budgeted(k, storeId, cs[..m], hard)
  {
    forall n | 0 <= n <= m ensures cs[..m][..n] == cs[..n] {}
  }

  lemma {:induction false} BudgetedExtended(k: Codec, storeId: Id, cs: seq<Commit>, c: Commit, hard: nat)
    requires Budgeted(k, storeId, cs, hard) && Affords(k, storeId, cs + [c], hard)
    ensures Budgeted(k, storeId, cs + [c], hard)
  {
    var all := cs + [c];
    forall n | 0 <= n <= |all| ensures Affords(k, storeId, all[..n], hard) {
      assert all[..n] == if n <= |cs| then cs[..n] else all;
    }
  }

  /** What it says about the whole run. */
  lemma {:induction false} BudgetedWhole(k: Codec, storeId: Id, cs: seq<Commit>, hard: nat)
    requires Budgeted(k, storeId, cs, hard)
    ensures Replay(EmptySnapshot(storeId), cs).Some?
    ensures End(k, cs) + TerminalReserve(Replay(EmptySnapshot(storeId), cs).value) <= hard
  {
    assert cs[..|cs|] == cs;
    assert Affords(k, storeId, cs, hard);
  }

  /** One answer of the device to a write: bytes taken, or a failure after some bytes. */
  datatype WriteReply = Took(n: int) | Broke(after: nat)

  /** How a write and the sync after it turn out. */
  datatype Io = Smooth | Faulty(device: seq<WriteReply>, synced: bool)

  /** The loop that hands a record to the device; `done` bytes of it reached the file. */
  method WriteFull(b: Text, device: seq<WriteReply>) returns (ok: bool, done: nat)
    ensures done <= |b| && (ok ==> done == |b|)
    ensures device != [] && device[0] == Took(|b|) ==> ok
  {
    done := 0;
    var i := 0;
    while done < |b|
      invariant done <= |b| && i <= |device|
      invariant device != [] && device[0] == Took(|b|) ==> (i == 0 && done == 0) || done == |b|
      decreases |device| - i
    {
      if i == |device| {
        return false, done;
      }
      match device[i] {
        case Broke(n) =>
          return false, if done + n < |b| then done + n else |b|;
        case Took(n) =>
          if n <= 0 || n > |b| - done {
            return false, done;
          }
          done, i := done + n, i + 1;
      }
    }
    ok := true;
  }

  /** The commit's key was used before. */
  predicate Duplicate(receipts: seq<Receipt>, c: Commit) { c.receipt.Some? && KeyUsed(receipts, c.receipt.value.key) }

  datatype AppendResult = Appended | Refused | Invalid | StorageError

  /** The record this commit would add does not fit the remaining budget. */
  predicate OverBudget(k: Codec, size: nat, admission: nat, hard: nat, c: Commit, next: Snapshot) {
    var projected := size + FRAME_SIZE + |k.marshal(c)|;
    forall x {:trigger TerminalReserve(x)} | x == next ::
      (c.receipt.Some? && projected > admission) || projected + TerminalReserve(x) > hard
  }

  /** The record fits one frame, a create leaves the rest of the journal to accepted work, and the
      reserve for that work still fits behind the record. */
  predicate InBudget(k: Codec, size: nat, admission: nat, hard: nat, c: Commit, next: Snapshot) {
    && |k.marshal(c)| <= MAX_COMMIT_BYTES
    && (c.receipt.Some? ==> size + FRAME_SIZE + |k.marshal(c)| <= admission)
    && forall x {:trigger TerminalReserve(x)} | x == next :: size + FRAME_SIZE + |k.marshal(c)| + TerminalReserve(x) <= hard
  }

  lemma {:induction false} BudgetExact(k: Codec, size: nat, admission: nat, hard: nat, c: Commit, next: Snapshot)
    requires |k.marshal(c)| <= MAX_COMMIT_BYTES
    ensures OverBudget(k, size, admission, hard, c, next) <==> !InBudget(k, size, admission, hard, c, next)
  {
    var n := TerminalReserve(next);
  }

  datatype ReadResult = Events(page: seq<Event>) | CursorRefused | LimitInvalid | ReadFailed

  /** A cursor of this store that is not ahead of it. */
  predicate CursorKnown(c: Cursor, end: Cursor) { c.storeId == end.storeId && c.sequence <= end.sequence }

  /** WHICH CURSORS ARE KNOWN: exactly the one in front of a run and those of its events. */
  lemma {:induction false} CursorKnownExact(storeId: Id, cs: seq<Commit>, c: Cursor)
    requires Replay(EmptySnapshot(storeId), cs).Some?
    ensures CursorKnown(c, Replay(EmptySnapshot(storeId), cs).value.cursor) <==>
              c == EmptySnapshot(storeId).cursor || exists i :: 0 <= i < |Log(cs)| && Log(cs)[i].cursor == c
  {
    RunNumbered(storeId, cs);
    if CursorKnown(c, Replay(EmptySnapshot(storeId), cs).value.cursor) && c.sequence > 0 {
      assert Log(cs)[c.sequence - 1].cursor == c;
    }
  }

  /** The in-memory state is what the appended commits lead to, within budget. */
  ghost predicate Current(k: Codec, seed: Text, cs: seq<Commit>, hard: nat, r: Recovered) {
    && Lawful(k) && |seed| == 16 && Written(k, Hex(seed), cs)
    && RecoveredFrom(k, Hex(seed), cs) == r && Budgeted(k, Hex(seed), cs, hard)
  }

  /** The file holds all commits and at most a part of one failed append. */
  ghost predicate OnDisk(k: Codec, seed: Text, cs: seq<Commit>, attempt: seq<Commit>, hard: nat, file: Text) {
    && Written(k, Hex(seed), cs) && Written(k, Hex(seed), cs + attempt) && |attempt| <= 1
    && Budgeted(k, Hex(seed), cs + attempt, hard)
    && Image(k, seed, cs) <= file <= Image(k, seed, cs + attempt)
  }

  lemma {:induction false} OpenedRun(k: Codec, seed: Text, cs: seq<Commit>, hard: nat, disk: Text)
    requires Lawful(k) && |seed| == 16 && Written(k, Hex(seed), cs)
    requires HEADER_SIZE <= |disk| && disk <= Image(k, seed, cs) && End(k, cs) <= hard
    ensures var whole := cs[..WholeFrames(k, cs, |disk|)];
            && Replay(EmptySnapshot(Hex(seed)), whole).Some?
            && OpenFile(k, disk, hard) == if AllDecodable(whole) then Some(RecoveredFrom(k, Hex(seed), whole)) else None
  {
    ImageLen(k, seed, cs);
    RecoveryExact(k, seed, cs, |disk|, hard);
    assert disk == Image(k, seed, cs)[..|disk|];
  }

  lemma OpenedCurrent(k: Codec, seed: Text, cs: seq<Commit>, hard: nat, disk: Text)
    requires Lawful(k) && |seed| == 16 && Written(k, Hex(seed), cs)
    requires Budgeted(k, Hex(seed), cs, hard) && HEADER_SIZE <= |disk| && disk <= Image(k, seed, cs)
    ensures var whole := cs[..WholeFrames(k, cs, |disk|)];
            && Replay(EmptySnapshot(Hex(seed)), whole).Some?
            && Current(k, seed, whole, hard, RecoveredFrom(k, Hex(seed), whole))
            && End(k, whole) <= |disk| && disk[..End(k, whole)] == Image(k, seed, whole)
    ensures End(k, cs) <= hard
  {
    ImageLen(k, seed, cs);
    var m := WholeFrames(k, cs, |disk|);
    WrittenPrefix(k, Hex(seed), cs, m);
    BudgetedPrefix(k, Hex(seed), cs, hard, m);
    WholeFramesEnd(k, cs, |disk|);
    WholeKept(k, seed, cs, m, |disk|);
    assert disk == Image(k, seed, cs)[..|disk|];
    assert cs[..|cs|] == cs;
  }

  lemma CleanDisk(k: Codec, seed: Text, cs: seq<Commit>, hard: nat)
    requires Written(k, Hex(seed), cs) && Budgeted(k, Hex(seed), cs, hard)
    ensures OnDisk(k, seed, cs, [], hard, Image(k, seed, cs))
  {
    assert cs + [] == cs;
  }

  /** Memory and file agree with the run of appended commits. (A one-point quantifier, so
      that proofs about callers do not unfold it.) */
  ghost predicate Held(k: Codec, seed: Text, cs: seq<Commit>, attempt: seq<Commit>, hard: nat, file: Text, r: Recovered) {
    forall x {:trigger Current(k, seed, x, hard, r)} | x == cs ::
      Current(k, seed, x, hard, r) && OnDisk(k, seed, x, attempt, hard, file)
  }

  lemma CleanHeld(k: Codec, seed: Text, cs: seq<Commit>, hard: nat, r: Recovered)
    requires Current(k, seed, cs, hard, r)
    ensures Held(k, seed, cs, [], hard, Image(k, seed, cs), r)
  {
    CleanDisk(k, seed, cs, hard);
  }

  /** A fresh journal holds the empty run. */
  lemma EmptyHeld(k: Codec, seed: Text, hard: nat)
    requires Lawful(k) && |seed| == 16 && HEADER_SIZE + 8192 <= hard
    ensures Held(k, seed, [], [], hard, FileHeader(k, seed), Fresh(Hex(seed)))
  {
    CleanHeld(k, seed, [], hard, Fresh(Hex(seed)));
  }

  /** The bookkeeping for an appended commit. */
  function Added(k: Codec, r: Recovered, c: Commit, t: Snapshot): Recovered
    requires c.events != []
  {
    Recovered(t, r.receipts + (if c.receipt.Some? then [c.receipt.value] else []),
              r.records + [Index(r.pos, |k.marshal(c)|, c.events[0].cursor.sequence, t.cursor.sequence)],
              r.pos + FRAME_SIZE + |k.marshal(c)|)
  }

  /** Storing one more commit: complete, or cut after any number of bytes. */
  lemma StoredMore(k: Codec, seed: Text, cs: seq<Commit>, hard: nat, file: Text, r: Recovered, c: Commit, t: Snapshot, admission: nat, done: nat)
    requires Held(k, seed, cs, [], hard, file, r)
    requires |k.marshal(c)| <= MAX_COMMIT_BYTES && Accepts(r.state, c, t)
    requires !Duplicate(r.receipts, c)
    requires !OverBudget(k, r.pos, admission, hard, c, t)
    requires done <= |Frame(k, k.marshal(c))|
    ensures c.events != []
    ensures Held(k, seed, cs, [c], hard, file + Frame(k, k.marshal(c))[..done], r)
    ensures done == |Frame(k, k.marshal(c))| ==>
              Held(k, seed, cs + [c], [], hard, file + Frame(k, k.marshal(c))[..done], Added(k, r, c, t))
  {
    assert Current(k, seed, cs, hard, r);
    MoreCurrent(k, seed, cs, hard, r, c, t, admission);
    MoreOnDisk(k, seed, cs, hard, file, c, done);
    assert Current(k, seed, cs + [c], hard, Added(k, r, c, t));
  }

  lemma MoreCurrent(k: Codec, seed: Text, cs: seq<Commit>, hard: nat, r: Recovered, c: Commit, t: Snapshot, admission: nat)
    requires Current(k, seed, cs, hard, r)
    requires |k.marshal(c)| <= MAX_COMMIT_BYTES && Accepts(r.state, c, t) && !Duplicate(r.receipts, c)
    requires !OverBudget(k, r.pos, admission, hard, c, t)
    ensures c.events != [] && Current(k, seed, cs + [c], hard, Added(k, r, c, t))
  {
    assert ApplyCommit(r.state, c) == Some(t);
    assert r.pos + FRAME_SIZE + |k.marshal(c)| + TerminalReserve(t) <= hard;
    ExtendedRun(k, seed, cs, hard, r, c);
  }

  lemma {:induction false} MoreOnDisk(k: Codec, seed: Text, cs: seq<Commit>, hard: nat, file: Text, c: Commit, done: nat)
    requires OnDisk(k, seed, cs, [], hard, file) && Written(k, Hex(seed), cs + [c]) && Budgeted(k, Hex(seed), cs + [c], hard)
    requires |k.marshal(c)| <= MAX_COMMIT_BYTES && done <= |Frame(k, k.marshal(c))|
    ensures OnDisk(k, seed, cs, [c], hard, file + Frame(k, k.marshal(c))[..done])
    ensures done == |Frame(k, k.marshal(c))| ==> OnDisk(k, seed, cs + [c], [], hard, file + Frame(k, k.marshal(c))[..done])
  {
    assert cs + [] == cs;
    assert file == Image(k, seed, cs);
    ImageGrows(k, seed, cs, c, done);
    if done == |Frame(k, k.marshal(c))| {
      CleanDisk(k, seed, cs + [c], hard);
    }
  }

  /** Between the two images, however much of the record was written. */
  lemma {:induction false} ImageGrows(k: Codec, seed: Text, cs: seq<Commit>, c: Commit, done: nat)
    requires Storable(k, cs) && Storable(k, cs + [c]) && |k.marshal(c)| <= MAX_COMMIT_BYTES && done <= |Frame(k, k.marshal(c))|
    ensures var file := Image(k, seed, cs) + Frame(k, k.marshal(c))[..done];
            && Image(k, seed, cs) <= file <= Image(k, seed, cs + [c])
            && (done == |Frame(k, k.marshal(c))| ==> file == Image(k, seed, cs + [c]))
  {
    WriteReached(k, seed, cs, c, done);
  }

  class Journal {
    const k: Codec
    const admission: nat
    const hard: nat
    var file: Text
    var state: Snapshot
    var receipts: seq<Receipt>
    var records: seq<Index>
    var size: nat
    var poisoned: bool
    var closed: bool
    var recoveredTailBytes: nat
    ghost const seed: Text
    /** Every commit that was appended successfully. */
    ghost var commits: seq<Commit>
    /** The commit of a failed write, part of which may have reached the file. */
    ghost var attempt: seq<Commit>

    ghost predicate Valid()
      reads this
    {
      && Held(k, seed, commits, attempt, hard, file, Recovered(state, receipts, records, size))
      && (attempt != [] ==> poisoned)
    }

    /** What a valid journal's fields mean. */
    lemma Meaning()
      requires Valid()
      ensures Lawful(k) && |seed| == 16 && Written(k, Hex(seed), commits)
      ensures Replay(EmptySnapshot(Hex(seed)), commits) == Some(state)
      ensures receipts == Receipts(commits) && records == Records(k, commits) && size == End(k, commits)
      ensures size + TerminalReserve(state) <= hard
      ensures attempt == [] ==> file == Image(k, seed, commits)
    {
      assert Current(k, seed, commits, hard, Recovered(state, receipts, records, size));
      assert commits[..|commits|] == commits;
      assert commits + [] == commits;
    }

    /** The same, as far as paging needs it. */
    lemma LogMeaning()
      requires Valid()
      ensures Lawful(k) && |seed| == 16 && Storable(k, commits) && records == Records(k, commits)
      ensures Numbered(Log(commits), Hex(seed), 0) && state.cursor == Cursor(Hex(seed), |Log(commits)|)
      ensures attempt == [] ==> file == Image(k, seed, commits)
    {
      Meaning();
      RunNumbered(Hex(seed), commits);
    }

    /** A handle on a scanned and truncated file. */
    constructor Scanned(k: Codec, admission: nat, hard: nat, r: Recovered, disk: Text, tail: nat, ghost seed: Text, ghost whole: seq<Commit>)
      requires Held(k, seed, whole, [], hard, disk, r)
      ensures Valid() && !poisoned && !closed && commits == whole && attempt == [] && recoveredTailBytes == tail
      ensures this.k == k && this.admission == admission && this.hard == hard && this.seed == seed && file == disk
    {
      this.k, this.admission, this.hard, this.seed := k, admission, hard, seed;
      this.file, this.state, this.receipts, this.records, this.size := disk, r.state, r.receipts, r.records, r.pos;
      this.poisoned, this.closed, this.recoveredTailBytes := false, false, tail;
      this.commits, this.attempt := whole, [];
    }

    /** Opening any prefix of a run's journal behind the header: it succeeds exactly if every text
        in the complete frames was UTF-8, and then holds the run of those frames. */
    static method Open(k: Codec, admission: nat, hard: nat, disk: Text, ghost seed: Text, ghost cs: seq<Commit>) returns (j: Journal?)
      requires Lawful(k) && |seed| == 16 && Written(k, Hex(seed), cs) && Budgeted(k, Hex(seed), cs, hard)
      requires HEADER_SIZE <= |disk| && disk <= Image(k, seed, cs)
      ensures j != null <==> AllDecodable(cs[..WholeFrames(k, cs, |disk|)])
      ensures j != null ==>
                && fresh(j) && j.Valid() && !j.poisoned && !j.closed
                && j.k == k && j.admission == admission && j.hard == hard && j.seed == seed
                && j.commits == cs[..WholeFrames(k, cs, |disk|)] && j.attempt == []
                && j.recoveredTailBytes == |disk| - End(k, j.commits)
    {
      OpenedCurrent(k, seed, cs, hard, disk);
      OpenedRun(k, seed, cs, hard, disk);
      var found, rest, tail := Recovery.Open(k, disk, hard);
      if found.None? {
        return null;
      }
      ghost var whole := cs[..WholeFrames(k, cs, |disk|)];
      CleanHeld(k, seed, whole, hard, found.value);
      j := new Journal.Scanned(k, admission, hard, found.value, rest, tail, seed, whole);
    }

    /** A fresh file: the header is written and synced, with a drawn store identity. */
    static method Create(k: Codec, admission: nat, hard: nat, seed: Text, io: Io) returns (j: Journal?)
      requires Lawful(k) && |seed| == 16 && HEADER_SIZE + 8192 <= hard
      ensures io.Smooth? ==> j != null
      ensures j != null ==>
                && fresh(j) && j.Valid() && !j.poisoned && !j.closed
                && j.k == k && j.admission == admission && j.hard == hard && j.seed == seed
                && j.commits == [] && j.attempt == []
    {
      var h := FileHeader(k, seed);
      var ok, done := WriteFull(h, if io.Smooth? then [Took(|h|)] else io.device);
      if !ok || (io.Faulty? && !io.synced) {
        return null;
      }
      EmptyHeld(k, seed, hard);
      j := new Journal.Scanned(k, admission, hard, Fresh(Hex(seed)), h, 0, seed, []);
    }

    /** One commit, its size and budget checked, then written and synced. A refusal changes
        nothing; a failed write poisons the handle and may leave part of the record. */
    method Append(c: Commit, io: Io) returns (r: AppendResult)
      requires Valid()
      modifies this
      ensures Valid() && closed == old(closed) && recoveredTailBytes == old(recoveredTailBytes)
      ensures r.Appended? ==>
                && !poisoned && !old(poisoned) && !closed && commits == old(commits) + [c]
                && size == old(size) + FRAME_SIZE + |k.marshal(c)|
                && Accepts(old(state), c, state)
                && receipts == old(receipts) + (if c.receipt.Some? then [c.receipt.value] else [])
      ensures !r.Appended? ==> commits == old(commits) && state == old(state) && receipts == old(receipts)
      ensures attempt == old(attempt) || (attempt == [c] && r.StorageError? && !old(poisoned) && !Rejects(old(state), c))
      ensures r.Refused? || r.Invalid? ==> file == old(file) && poisoned == old(poisoned)
      ensures !old(poisoned) && !closed && |k.marshal(c)| <= MAX_COMMIT_BYTES ==> (r.Invalid? <==> Rejects(old(state), c))
      ensures !old(poisoned) && !closed && |k.marshal(c)| > MAX_COMMIT_BYTES ==> r.Refused?
      ensures forall t | Accepts(old(state), c, t) ::
                !old(poisoned) && !closed && !Duplicate(old(receipts), c) ==>
                  (r.Refused? <==> !InBudget(k, old(size), admission, hard, c, t))
      ensures old(poisoned) || closed ==> r.StorageError? && file == old(file) && poisoned == old(poisoned)
      ensures !old(poisoned) && !closed && r.StorageError? ==> poisoned || Duplicate(old(receipts), c)
      ensures r.StorageError? && io.Smooth? ==> old(poisoned) || closed || Duplicate(old(receipts), c)
    {
      if poisoned || closed {
        return StorageError;
      }
      var b := k.marshal(c);
      if |b| > MAX_COMMIT_BYTES {
        return Refused;
      }
      var next := Check(state, c);
      if next.None? {
        forall t ensures !Accepts(state, c, t) {
          AcceptsOrRejects(state, c, t);
        }
        return Invalid;
      }
      forall t | Accepts(state, c, t) ensures t == next.value {
        AcceptsOne(state, c, t, next.value);
      }
      BudgetExact(k, size, admission, hard, c, next.value);
      AcceptsOrRejects(state, c, next.value);
      if Duplicate(receipts, c) {
        return StorageError;
      }
      if OverBudget(k, size, admission, hard, c, next.value) {
        return Refused;
      }
      var ok := Persist(c, next.value, io);
      return if ok then Appended else StorageError;
    }

    /** The write and sync of a checked record, and the bookkeeping after them. */
    method Persist(c: Commit, next: Snapshot, io: Io) returns (ok: bool)
      requires Valid() && !poisoned && |k.marshal(c)| <= MAX_COMMIT_BYTES && Accepts(state, c, next)
      requires !Duplicate(receipts, c)
      requires !OverBudget(k, size, admission, hard, c, next)
      modifies this
      ensures Valid() && closed == old(closed) && recoveredTailBytes == old(recoveredTailBytes)
      ensures io.Smooth? ==> ok
      ensures ok ==> !poisoned && commits == old(commits) + [c] && state == next
      ensures ok ==> size == old(size) + FRAME_SIZE + |k.marshal(c)|
      ensures ok ==> receipts == old(receipts) + (if c.receipt.Some? then [c.receipt.value] else [])
      ensures !ok ==> poisoned && commits == old(commits) && state == old(state) && receipts == old(receipts)
      ensures attempt == if ok then old(attempt) else [c]
    {
      var b := k.marshal(c);
      var done;
      ok, done := WriteFull(Frame(k, b), if io.Smooth? then [Took(|Frame(k, b)|)] else io.device);
      StoredMore(k, seed, commits, hard, file, Recovered(state, receipts, records, size), c, next, admission, done);
      var bytes := file + Frame(k, b)[..done];
      if !ok || (io.Faulty? && !io.synced) {
        Damage(bytes, c);
        return false;
      }
      Adopt(bytes, Added(k, Recovered(state, receipts, records, size), c, next), commits + [c]);
    }

    /** A failed write: some bytes of the record may be in the file. */
    method Damage(bytes: Text, ghost c: Commit)
      requires Held(k, seed, commits, [c], hard, bytes, Recovered(state, receipts, records, size))
      modifies this`file, this`poisoned, this`attempt
      ensures Valid() && poisoned && attempt == [c]
    {
      file, poisoned, attempt := bytes, true, [c];
    }

    /** The bookkeeping of a stored record. */
    method Adopt(bytes: Text, now: Recovered, ghost cs: seq<Commit>)
      requires Held(k, seed, cs, [], hard, bytes, now) && attempt == []
      modifies this`file, this`state, this`receipts, this`records, this`size, this`commits
      ensures Valid() && commits == cs && state == now.state && receipts == now.receipts && size == now.pos
    {
      file, state, receipts, records, size := bytes, now.state, now.receipts, now.records, now.pos;
      commits := cs;
    }

    /** A page of history after a cursor, read back from the file. `broken` names the records
        whose bytes cannot be read; reading one of those poisons the handle. */
    method ReadEvents(after: Cursor, limit: int, broken: set<nat>) returns (r: ReadResult)
      requires Valid()
      modifies this`poisoned
      ensures Valid() && (poisoned && !old(poisoned) ==> r.ReadFailed?)
      ensures old(poisoned) || closed ==> r.ReadFailed?
      ensures r.CursorRefused? <==> !old(poisoned) && !closed && !CursorKnown(after, state.cursor)
      ensures r.LimitInvalid? <==>
                !old(poisoned) && !closed && CursorKnown(after, state.cursor) && !(1 <= limit <= MAX_OBSERVER_EVENTS)
      ensures r.Events? ==> limit >= 1 && CursorKnown(after, state.cursor)
      ensures r.Events? ==> IsPage(k, Log(commits), after.sequence, limit, r.page) && Own(r.page)
      ensures r.ReadFailed? && AllDecodable(commits) && broken == {} ==> old(poisoned) || closed
    {
      if poisoned || closed {
        return ReadFailed;
      }
      if !CursorKnown(after, state.cursor) {
        return CursorRefused;
      }
      if limit < 1 || limit > MAX_OBSERVER_EVENTS {
        return LimitInvalid;
      }
      LogMeaning();
      var page := ReadPage(k, file, records, after.sequence, limit, broken, seed, commits);
      if page.None? {
        poisoned := true;
        return ReadFailed;
      }
      return Events(page.value);
    }

    method Close()
      requires Valid()
      modifies this`closed
      ensures Valid() && closed
    {
      closed := true;
    }
  }

  /** NOTHING ACKNOWLEDGED IS LOST. Whatever the live handle went through, failed writes
      included, its file cut at any byte behind the header opens exactly if every text in the
      complete frames was UTF-8, and then to a prefix of the appended commits and the one whose
      write failed. With no synced byte lost that includes every appended commit. */
  lemma AcknowledgedSurvives(j: Journal, p: nat)
    requires j.Valid() && HEADER_SIZE <= p <= |j.file|
    ensures |j.attempt| <= 1
    ensures var all := j.commits + j.attempt;
            var whole := all[..WholeFrames(j.k, all, p)];
            && Lawful(j.k) && Storable(j.k, whole) && Replay(EmptySnapshot(Hex(j.seed)), whole).Some?
            && OpenFile(j.k, j.file[..p], j.hard) ==
               (if AllDecodable(whole) then Some(RecoveredFrom(j.k, Hex(j.seed), whole)) else None)
            && (j.size <= p ==> j.commits <= whole)
  {
    var k, seed, cs, all := j.k, j.seed, j.commits, j.commits + j.attempt;
    var r := Recovered(j.state, j.receipts, j.records, j.size);
    assert Current(k, seed, cs, j.hard, r);
    assert OnDisk(k, seed, cs, j.attempt, j.hard, j.file);
    ImageLen(k, seed, cs);
    CutRecovers(k, seed, cs, all, j.hard, j.file, p);
  }

  lemma {:induction false} CutRecovers(k: Codec, seed: Text, cs: seq<Commit>, all: seq<Commit>, hard: nat, file: Text, p: nat)
    requires Lawful(k) && |seed| == 16 && cs <= all && Written(k, Hex(seed), cs) && Written(k, Hex(seed), all)
    requires Budgeted(k, Hex(seed), all, hard)
    requires Image(k, seed, cs) <= file <= Image(k, seed, all) && HEADER_SIZE <= p <= |file|
    ensures var whole := all[..WholeFrames(k, all, p)];
            && Storable(k, whole) && Replay(EmptySnapshot(Hex(seed)), whole).Some?
            && OpenFile(k, file[..p], hard) ==
               (if AllDecodable(whole) then Some(RecoveredFrom(k, Hex(seed), whole)) else None)
            && (|Image(k, seed, cs)| <= p ==> cs <= whole)
  {
    WrittenPrefix(k, Hex(seed), all, WholeFrames(k, all, p));
    assert file[..p] <= Image(k, seed, all);
    OpenedCurrent(k, seed, all, hard, file[..p]);
    OpenedRun(k, seed, all, hard, file[..p]);
    if |Image(k, seed, cs)| <= p {
      AllKept(k, seed, cs, all, p);
    }
  }

  /** A cut behind the image of a shorter run keeps that run. */
  lemma {:induction false} AllKept(k: Codec, seed: Text, cs: seq<Commit>, all: seq<Commit>, p: nat)
    requires Lawful(k) && |seed| == 16 && cs <= all && Storable(k, cs) && |Image(k, seed, cs)| <= p
    ensures cs <= all[..WholeFrames(k, all, p)]
  {
    ImageLen(k, seed, cs);
    assert all[..|cs|] == cs;
    WholeFramesAtLeast(k, all, p, |cs|);
  }

  /** A run whose first `n` commits end within the cut keeps them. */
  lemma {:induction false} WholeFramesAtLeast(k: Codec, cs: seq<Commit>, p: nat, n: nat)
    requires n <= |cs| && End(k, cs[..n]) <= p
    ensures n <= WholeFrames(k, cs, p)
    decreases |cs|
  {
    if cs != [] && End(k, cs) > p {
      assert n < |cs| by {
        assert cs[..|cs|] == cs;
      }
      assert cs[..|cs| - 1][..n] == cs[..n];
      WholeFramesAtLeast(k, cs[..|cs| - 1], p, n);
    }
  }

  /** Appending an accepted commit within budget extends the run. */
  lemma ExtendedRun(k: Codec, seed: Text, cs: seq<Commit>, hard: nat, r: Recovered, c: Commit)
    requires Current(k, seed, cs, hard, r)
    requires |k.marshal(c)| <= MAX_COMMIT_BYTES && ApplyCommit(r.state, c).Some?
    requires c.receipt.Some? ==> !KeyUsed(r.receipts, c.receipt.value.key)
    requires r.pos + FRAME_SIZE + |k.marshal(c)| + TerminalReserve(ApplyCommit(r.state, c).value) <= hard
    ensures Advance(r, c, |k.marshal(c)|).Some?
    ensures Current(k, seed, cs + [c], hard, Advance(r, c, |k.marshal(c)|).value)
  {
    var all := cs + [c];
    assert all[..|cs|] == cs && all[|cs|] == c;
    ReplayExtended(EmptySnapshot(Hex(seed)), cs, c);
    StorableExtended(k, cs, c);
    KeysExtended(cs, c);
    AdvanceWritten(k, Hex(seed), all);
    BudgetedExtended(k, Hex(seed), cs, c, hard);
  }

  lemma StorableExtended(k: Codec, cs: seq<Commit>, c: Commit)
    requires Lawful(k) && Storable(k, cs) && |k.marshal(c)| <= MAX_COMMIT_BYTES
    ensures Storable(k, cs + [c])
  {
  }

  /** However much of the record reached the file, the file is a prefix of the extended run. */
  lemma WriteReached(k: Codec, seed: Text, cs: seq<Commit>, c: Commit, done: nat)
    requires Storable(k, cs) && Storable(k, cs + [c]) && |k.marshal(c)| < 0x1_0000_0000
    requires done <= |Frame(k, k.marshal(c))|
    ensures Image(k, seed, cs) + Frame(k, k.marshal(c))[..done] <= Image(k, seed, cs + [c])
    ensures done == |Frame(k, k.marshal(c))| ==>
              Image(k, seed, cs) + Frame(k, k.marshal(c))[..done] == Image(k, seed, cs + [c])
  {
    assert (cs + [c])[..|cs|] == cs;
    var f := Frame(k, k.marshal(c));
    assert Image(k, seed, cs + [c]) == Image(k, seed, cs) + f;
    assert f == f[..done] + f[done..];
  }
}
