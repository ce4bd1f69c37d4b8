/** What texts that are not UTF-8 do to the reducer and the journal. Only callers other than the
    worker can pass them: the reducer replaces such bytes where it copies, and neither it nor
    `Append` refuses them everywhere. */
module Illegible {
  import opened Utf8
  import opened Contract
  import opened Encoding
  import opened Legible
  import opened Reducer
  import opened History
  import opened Commits
  import opened Frames
  import opened Recovery
  import opened Journal

  /** An identity of one byte that is no UTF-8 text. */
  function Stray(b: Byte): Id
    requires b >= 0xF8
  {
    [b]
  }

  const REQUEST: Request := Request([109], [], [], [112], GenerationOptions(None, 1, None, None))

  /** A queued job under this identity. */
  function StrayJob(id: Id, at: Time): Job {
    Job(id, Queued, REQUEST, Compose(REQUEST), [], None, at, None, None, EMPTY_RESULT, None)
  }

  /** The receipt names the job as it is stored. */
  function StrayReceipt(key: Byte): Receipt { Receipt([key], seq(64, i => 48), REPLACEMENT) }

  /** A transaction that accepts the job. */
  function StrayCommit(s: Snapshot, b: Byte, key: Byte, at: Time): Commit
    requires b >= 0xF8
  {
    RawCreate(s, StrayJob(Stray(b), at), StrayReceipt(key), at)
  }

  lemma {:induction false} StrayCopied(b: Byte)
    requires b >= 0xF8
    ensures !Wellformed(Stray(b)) && Sanitized(Stray(b)) == REPLACEMENT && EscapedLen(Stray(b)) == 6
    ensures Wellformed(REPLACEMENT) && EscapedLen(REPLACEMENT) == 3
  {
    var s := Stray(b);
    assert RuneLen(s) == 0 && s[1..] == [];
    assert !ValidUtf8(s);
    assert Sanitized([]) == [] && REPLACEMENT + [] == REPLACEMENT;
    ReplacementRune();
    assert REPLACEMENT[3..] == [] && REPLACEMENT[..3] == REPLACEMENT;
    assert ValidUtf8(REPLACEMENT);
  }

  lemma {:induction false} OneByteTrimmed(b: Byte)
    requires 97 <= b <= 122
    ensures TrimSpace([b]) == [b] && ValidUtf8([b]) && EscapedLen([b]) == 1
  {
    var s := [b];
    assert SpaceLen(s) == 0 && TrimLeft(s) == s;
    assert s[|s| - 1..] == s;
    assert SpaceBefore(s) == 0 && TrimRight(s) == s;
    assert RuneLen(s) == 1 && s[1..] == [] && s[..1] == s;
    assert RuneCost(s) == 1;
  }

  lemma {:induction false} EmptyTrimmed()
    ensures TrimSpace([]) == [] && ValidUtf8([]) && EscapedLen([]) == 0
  {
    assert SpaceLen([]) == 0 && TrimLeft([]) == [];
    assert SpaceBefore([]) == 0;
  }

  lemma {:induction false} RequestValid()
    ensures Compose(REQUEST) == Instructions([], [], [112])
    ensures ValidateRequest(REQUEST, Compose(REQUEST)).None?
  {
    OneByteTrimmed(109);
    OneByteTrimmed(112);
    EmptyTrimmed();
    assert HistoryBytes([]) == 0;
  }

  /** Everything but the identity is copied as it is. */
  lemma {:induction false} StrayStored(b: Byte, at: Time)
    requires b >= 0xF8
    ensures CloneJob(StrayJob(Stray(b), at)) == StrayJob(REPLACEMENT, at)
  {
    var j := StrayJob(Stray(b), at);
    StrayCopied(b);
    RequestValid();
    EmptyWellformed();
    OneByteTrimmed(109);
    OneByteTrimmed(112);
    RequestSame(REQUEST);
    InstructionsSame(Compose(REQUEST));
    SanitizedSame([]);
    ResultSame(EMPTY_RESULT);
    assert CopiedJob(j) == StrayJob(REPLACEMENT, at);
  }

  /** The record is small. */
  lemma {:induction false} StraySmall(id: Id, at: Time)
    requires EscapedLen(id) <= 6
    ensures JobLen(StrayJob(id, at)) <= 1000
  {
    RequestValid();
    OneByteTrimmed(109);
    OneByteTrimmed(112);
    EmptyTrimmed();
    assert IntLen(1) == 1;
    assert RequestLen(REQUEST) <= 120;
    assert InstructionsLen(Compose(REQUEST)) <= 120;
    assert TextsLen([]) == 0;
    assert MetadataLen(EMPTY_RESULT) <= 100;
  }

  lemma {:induction false} StrayRecordOk(at: Time)
    requires at.At?
    ensures RecordChecked(StrayJob(REPLACEMENT, at)) && FitChecked(StrayJob(REPLACEMENT, at))
  {
    RequestValid();
    EmptyTrimmed();
    StrayCopied(0xFF);
    StraySmall(REPLACEMENT, at);
    assert JobRecordOk(StrayJob(REPLACEMENT, at));
  }

  /** The reducer accepts it whenever there is room, under any identity not retained yet. */
  lemma {:induction false} StrayAccepted(s: Snapshot, b: Byte, key: Byte, at: Time)
    requires Steady(s) && s.cursor.sequence + 2 <= MAX_UINT64 && at.At? && b >= 0xF8 && 97 <= key <= 122
    requires |s.queue.pending| < MAX_PENDING && |s.jobs| < MAX_JOBS
    ensures ApplyCommit(s, StrayCommit(s, b, key, at)) ==
            Some(After(s, 2, Enqueued(s.queue, REPLACEMENT), s.jobs + [StrayJob(REPLACEMENT, at)]))
  {
    var raw := StrayJob(Stray(b), at);
    StrayStored(b, at);
    StrayRecordOk(at);
    StrayCopied(b);
    StrayUnknown(s.jobs, b);
    assert ExpectedInstructions(s.jobs, StrayJob(REPLACEMENT, at)) == Some(Compose(REQUEST));
    OneByteTrimmed(key);
    RawAccepted(s, raw, StrayReceipt(key), at);
  }

  lemma {:induction false} StrayUnknown(jobs: seq<Job>, b: Byte)
    requires ReadableJobs(jobs) && b >= 0xF8
    ensures Find(jobs, Stray(b)) < 0
  {
    StrayCopied(b);
    var i := Find(jobs, Stray(b));
    if i >= 0 {
      ReadableId(jobs, i);
    }
  }

  /** TWO JOBS UNDER ONE IDENTITY. Two accepted transactions with different identities that are not
      UTF-8 leave two jobs under the same one. */
  lemma {:induction false} TwinsAccepted(storeId: Id, at: Time)
    requires at.At?
    ensures var s := EmptySnapshot(storeId);
            var one := StrayCommit(s, 0xFF, 97, at);
            && ApplyCommit(s, one).Some?
            && var t := ApplyCommit(s, one).value;
               var two := StrayCommit(t, 0xFE, 98, at);
               && Replay(s, [one, two]).Some? && !UniqueIds(Replay(s, [one, two]).value.jobs)
  {
    var s := EmptySnapshot(storeId);
    EmptyConsistent(storeId);
    StrayAccepted(s, 0xFF, 97, at);
    var one := StrayCommit(s, 0xFF, 97, at);
    var t := ApplyCommit(s, one).value;
    CommitKeeps(s, one);
    StrayAccepted(t, 0xFE, 98, at);
    var two := StrayCommit(t, 0xFE, 98, at);
    assert [one, two][..1] == [one] && [one][..0] == [];
    assert Replay(s, [one]) == Some(t);
    var jobs := ApplyCommit(t, two).value.jobs;
    assert jobs[0].id == jobs[1].id;
  }

  // ---- the journal ----

  lemma {:induction false} AcceptedLen(c: Cursor, at: Time, e: Event)
    requires HexId(c.storeId) && c.sequence == 0 && at.At?
    requires e == Stamp(c, 0, at, JobEvent(JobAccepted, StrayJob(Stray(0xFF), at)))
    ensures EventLen(e) <= 1300
  {
    IdLen(c.storeId);
    StrayCopied(0xFF);
    StraySmall(Stray(0xFF), at);
    assert Digits(1) == 1;
  }

  lemma {:induction false} QueuedLen(c: Cursor, at: Time, e: Event)
    requires HexId(c.storeId) && c.sequence == 0 && at.At?
    requires e == Stamp(c, 1, at, QueueEvent(QueueState(false, [REPLACEMENT], None, MAX_PENDING)))
    ensures EventLen(e) <= 500
  {
    IdLen(c.storeId);
    StrayCopied(0xFF);
    assert Digits(2) == 1 && IntLen(64) == 2;
    assert [REPLACEMENT][..0] == [];
    assert PendingLen([REPLACEMENT]) == 4 + StringLen(REPLACEMENT) + 1;
  }

  lemma {:induction false} StrayReceiptLen(key: Byte)
    requires 97 <= key <= 122
    ensures ReceiptLen(Some(StrayReceipt(key))) <= 300
  {
    OneByteTrimmed(key);
    HexCostsItself(StrayReceipt(key).digest);
    StrayCopied(0xFF);
  }

  lemma {:induction false} TwoEventsLen(c: Commit, a: Event, b: Event)
    requires c.events == [a, b] && c.version == 1
    ensures CommitLen(c) == 25 + EventLen(a) + EventLen(b) + ReceiptLen(c.receipt) + 1
  {
    assert c.events[..1] == [a] && [a][..0] == [];
    assert EventsLen([a]) == 1 + EventLen(a) + 1;
    assert EventsLen(c.events) == EventsLen([a]) + EventLen(b) + 1;
    assert IntLen(1) == 1;
  }

  /** The first transaction of a store. */
  function FirstStray(storeId: Id, at: Time): Commit { StrayCommit(EmptySnapshot(storeId), 0xFF, 97, at) }

  lemma {:induction false} StrayCommitLen(storeId: Id, at: Time)
    requires HexId(storeId) && at.At?
    ensures CommitLen(FirstStray(storeId, at)) <= 3000
  {
    var c := FirstStray(storeId, at);
    var a, b := c.events[0], c.events[1];
    StrayStored(0xFF, at);
    assert Enqueued(EmptySnapshot(storeId).queue, REPLACEMENT) == QueueState(false, [REPLACEMENT], None, MAX_PENDING);
    assert a == Stamp(Cursor(storeId, 0), 0, at, JobEvent(JobAccepted, StrayJob(Stray(0xFF), at)));
    assert b == Stamp(Cursor(storeId, 0), 1, at, QueueEvent(QueueState(false, [REPLACEMENT], None, MAX_PENDING)));
    assert c.events == [a, b];
    AcceptedLen(Cursor(storeId, 0), at, a);
    QueuedLen(Cursor(storeId, 0), at, b);
    StrayReceiptLen(97);
    TwoEventsLen(c, a, b);
  }

  lemma StrayUndecodable(storeId: Id, at: Time)
    ensures !Decodable(FirstStray(storeId, at))
  {
    var c := FirstStray(storeId, at);
    StrayCopied(0xFF);
    assert !LegibleEvent(c.events[0]);
    assert !LegibleCommit(c);
  }

  /** AN ACCEPTED TRANSACTION THAT CLOSES THE JOURNAL FOR GOOD. On an empty journal, `Append`
      takes the stray transaction; the resulting file cannot be opened again. */
  method AppendStray(j: Journal, at: Time) returns (r: AppendResult)
    requires j.Valid() && j.commits == [] && !j.poisoned && !j.closed && j.admission >= 200000 && j.hard >= 200000
    requires at.At?
    modifies j
    ensures r.Appended? && j.Valid() && j.commits == [FirstStray(Hex(j.seed), at)]
    ensures OpenFile(j.k, j.file, j.hard).None?
  {
    ghost var storeId := Hex(j.seed);
    j.LogMeaning();
    j.Meaning();
    assert j.state == EmptySnapshot(storeId);
    var c := FirstStray(j.state.cursor.storeId, at);
    StrayFits(j, c, at);
    ghost var t :| Accepts(j.state, c, t) && !OverBudget(j.k, j.size, j.admission, j.hard, c, t);
    AcceptsOrRejects(j.state, c, t);
    r := j.Append(c, Smooth);
    StrayFile(j, at);
  }

  /** The transaction is within every limit of an empty journal. */
  lemma {:induction false} StrayFits(j: Journal, c: Commit, at: Time)
    requires j.Valid() && j.commits == [] && j.admission >= 200000 && j.hard >= 200000
    requires at.At? && c == FirstStray(Hex(j.seed), at)
    ensures j.state == EmptySnapshot(Hex(j.seed)) && j.receipts == []
    ensures |j.k.marshal(c)| <= MAX_COMMIT_BYTES && !Duplicate(j.receipts, c)
    ensures exists t :: Accepts(j.state, c, t) && !OverBudget(j.k, j.size, j.admission, j.hard, c, t)
  {
    j.Meaning();
    StrayCommitLen(Hex(j.seed), at);
    assert |j.k.marshal(c)| <= CommitLen(c);
    StrayCheap(j.k, j.admission, j.hard, Hex(j.seed), at);
  }

  lemma {:induction false} StrayCheap(k: Codec, admission: nat, hard: nat, storeId: Id, at: Time)
    requires admission >= 200000 && hard >= 200000 && at.At? && |k.marshal(FirstStray(storeId, at))| <= 3000
    ensures exists t :: Accepts(EmptySnapshot(storeId), FirstStray(storeId, at), t)
                        && !OverBudget(k, HEADER_SIZE, admission, hard, FirstStray(storeId, at), t)
  {
    var s, c := EmptySnapshot(storeId), FirstStray(storeId, at);
    EmptyConsistent(storeId);
    StrayAccepted(s, 0xFF, 97, at);
    StrayReserve(at);
    var t := After(s, 2, Enqueued(s.queue, REPLACEMENT), s.jobs + [StrayJob(REPLACEMENT, at)]);
    assert s.jobs + [StrayJob(REPLACEMENT, at)] == [StrayJob(REPLACEMENT, at)];
    assert TerminalReserve(t) <= 100000;
    assert Accepts(s, c, t);
  }

  lemma {:induction false} StrayReserve(at: Time)
    ensures ReserveSum([StrayJob(REPLACEMENT, at)]) <= 90000
  {
    var j := StrayJob(REPLACEMENT, at);
    StrayCopied(0xFF);
    StraySmall(REPLACEMENT, at);
    assert [j][..0] == [];
    assert ReserveSum([j]) == JobReserve(j);
  }

  /** The file then holds a complete frame that does not decode. */
  lemma {:induction false} StrayFile(j: Journal, at: Time)
    requires j.Valid() && j.attempt == [] && j.commits == [FirstStray(Hex(j.seed), at)]
    ensures OpenFile(j.k, j.file, j.hard).None?
  {
    var cs := j.commits;
    j.Meaning();
    ImageLen(j.k, j.seed, cs);
    HeaderFits(j.k, cs);
    assert cs + [] == cs;
    AcknowledgedSurvives(j, |j.file|);
    assert j.file[..|j.file|] == j.file;
    StrayUndecodable(Hex(j.seed), at);
    assert WholeFrames(j.k, cs, |j.file|) == 1 && cs[..1] == cs;
  }
}
