/** When output is accepted (`emit`, internal/core/worker.go): the limits on a job's retained text,
    and what a stored chunk costs. */
module Output {
  import opened Utf8
  import opened Contract
  import opened Encoding
  import opened Reducer
  import opened History
  import opened Frames
  import opened Commits
  import opened Legible
  import opened Reserve
  import opened Steps
  import opened Orders
  import opened Journal

  /** With `more` the job's text is too long. */
  predicate TooLong(jobs: seq<Job>, id: Id, more: Text) {
    forall x: seq<Job> {:trigger Find(x, id)} | x == jobs :: Find(x, id) >= 0 && |x[Find(x, id)].result.text| + |more| > MAX_OUTPUT_BYTES
  }

  /** With `more` its record no longer fits one commit. */
  predicate TooLarge(jobs: seq<Job>, id: Id, more: Text) {
    forall x: seq<Job> {:trigger Find(x, id)} | x == jobs :: Find(x, id) >= 0 && !Compact(Extended(x[Find(x, id)], more))
  }

  /** The job can take `more`. */
  predicate Roomy(jobs: seq<Job>, id: Id, more: Text) { !TooLong(jobs, id, more) && !TooLarge(jobs, id, more) }

  /** The text and the record of a job are UTF-8. */
  lemma {:induction false} TextReadable(jobs: seq<Job>, i: nat)
    requires ReadableJobs(jobs) && i < |jobs|
    ensures ValidUtf8(jobs[i].result.text)
  {
    assert Readable(jobs[i]);
    assert LegibleJob(jobs[i]);
    assert Wellformed(jobs[i].result.text);
  }

  lemma {:induction false} ExtendedLen(j: Job, more: Text)
    requires ValidUtf8(j.result.text)
    ensures JobLen(Extended(j, more)) == JobLen(j) + EscapedLen(more)
  {
    EscapedConcat(j.result.text, more);
  }

  /** A job that can take a text can take every valid beginning of it. */
  lemma {:induction false} RoomyPrefix(jobs: seq<Job>, id: Id, a: Text, b: Text)
    requires ReadableJobs(jobs) && Find(jobs, id) >= 0 && ValidUtf8(a) && Roomy(jobs, id, a + b)
    ensures Roomy(jobs, id, a)
  {
    var i := Find(jobs, id);
    TextReadable(jobs, i);
    ExtendedLen(jobs[i], a);
    ExtendedLen(jobs[i], a + b);
    EscapedConcat(a, b);
    assert Compact(Extended(jobs[i], a + b));
  }

  /** Limits are judged alike before and after part of a text was stored. */
  lemma {:induction false} RoomyGained(a: seq<Job>, b: seq<Job>, id: Id, more: Text, rest: Text)
    requires Gained(a, b, id, more)
    ensures TooLong(a, id, more + rest) <==> TooLong(b, id, rest)
    ensures TooLarge(a, id, more + rest) <==> TooLarge(b, id, rest)
  {
    var i := Find(a, id);
    FindSameIds(a, b, id);
    var j := a[i];
    assert j.result.text + more + rest == j.result.text + (more + rest);
    assert Extended(Extended(j, more), rest) == Extended(j, more + rest);
  }

  // ---- what a chunk costs ----

  lemma {:induction false} OutputEventLen(e: Event)
    requires HexId(e.cursor.storeId) && e.cursor.sequence <= MAX_UINT64 && ClockOk(e.at) && e.kind.JobOutput? && HexId(e.jobId)
    requires e.job.None? && e.queue.None? && e.output.Some? && 0 <= e.output.value.offsetBytes <= MAX_UINT64
    ensures EventLen(e) <= 260 + 6 * |e.output.value.text|
  {
    IdLen(e.cursor.storeId);
    IdLen(e.jobId);
    SequenceDigits(e.cursor.sequence);
    SequenceDigits(e.output.value.offsetBytes);
  }

  lemma {:induction false} OneEventLen(e: Event)
    ensures CommitLen(Commit(1, [e], None)) == 25 + EventLen(e)
  {
    assert [e][..0] == [];
    assert EventsLen([e]) == 1 + EventLen(e) + 1;
    assert IntLen(1) == 1;
  }

  lemma {:induction false} OutputLen(s: Snapshot, i: nat, chunk: Text, at: Time)
    requires HexId(s.cursor.storeId) && Room(s, 1) && ClockOk(at) && i < |s.jobs| && HexId(s.jobs[i].id)
    requires |s.jobs[i].result.text| <= MAX_OUTPUT_BYTES
    ensures CommitLen(OutputCommit(s, i, chunk, at)) <= 300 + 6 * |chunk|
  {
    var e := Stamp(s.cursor, 0, at, OutputEvent(s.jobs[i].id, |s.jobs[i].result.text|, chunk));
    assert OutputCommit(s, i, chunk, at) == Commit(1, [e], None);
    OutputEventLen(e);
    OneEventLen(e);
  }

  lemma {:induction false} OutputReserve(s: Snapshot, i: nat, chunk: Text)
    requires i < |s.jobs| && Executing(s.jobs[i].state) && ValidUtf8(s.jobs[i].result.text)
    ensures ReserveSum(s.jobs[i := Extended(s.jobs[i], chunk)]) <= ReserveSum(s.jobs) + 12 * |chunk|
  {
    ExtendedLen(s.jobs[i], chunk);
    ReserveReplaced(s.jobs, i, Extended(s.jobs[i], chunk));
  }

  /** The journal has room for `n` bytes of output, however they are escaped and cut. */
  predicate Ample(size: nat, s: Snapshot, n: nat, hard: nat) {
    forall x {:trigger TerminalReserve(x)} | x == s :: size + TerminalReserve(x) + 20 * n + 1000 <= hard
  }

  /** The snapshot after a chunk. */
  function AfterOutput(s: Snapshot, i: nat, chunk: Text): Snapshot
    requires i < |s.jobs|
  {
    After(s, 1, s.queue, s.jobs[i := Extended(s.jobs[i], chunk)])
  }

  /** Ample room pays for the next chunk and remains ample for the rest. */
  lemma {:induction false} AmpleChunk(k: Codec, size: nat, admission: nat, hard: nat, s: Snapshot, i: nat, chunk: Text, more: nat, at: Time)
    requires Lawful(k) && Good(s) && i < |s.jobs| && Executing(s.jobs[i].state) && Room(s, 1) && ClockOk(at)
    requires ChunkOk(chunk) && (more == 0 || |chunk| >= MAX_CHUNK_BYTES - 3) && Ample(size, s, |chunk| + more, hard)
    ensures var c, t := OutputCommit(s, i, chunk, at), AfterOutput(s, i, chunk);
            && InBudget(k, size, admission, hard, c, t)
            && (more > 0 ==> Ample(size + FRAME_SIZE + |k.marshal(c)|, t, more, hard))
  {
    var c, t := OutputCommit(s, i, chunk, at), AfterOutput(s, i, chunk);
    GoodJob(s, i);
    OutputLen(s, i, chunk, at);
    assert |k.marshal(c)| <= CommitLen(c);
    OutputReserve(s, i, chunk);
    assert TerminalReserve(t) <= TerminalReserve(s) + 12 * |chunk|;
    assert |c.events| == 1 && c.receipt.None?;
  }

  lemma {:induction false} GoodJob(s: Snapshot, i: nat)
    requires Good(s) && i < |s.jobs|
    ensures HexId(s.cursor.storeId) && HexId(s.jobs[i].id) && ValidUtf8(s.jobs[i].result.text)
    ensures |s.jobs[i].result.text| <= MAX_OUTPUT_BYTES
  {
    assert Consistent(s);
    TextReadable(s.jobs, i);
    assert JobOk(s.jobs[i]);
    assert JobRecordOk(s.jobs[i]);
  }

  // ---- faults ----

  /** Which chunk of the text was refused, and with which fault: the first that would make the job's
      text too long or its record too large. */
  ghost predicate Overflows(jobs: seq<Job>, id: Id, text: Text, kept: nat, chunk: Text) {
    && kept <= |text| && FirstChunk(text[kept..], chunk)
    && (kept > 0 ==> Roomy(jobs, id, text[..kept])) && !Roomy(jobs, id, text[..kept] + chunk)
  }

  /** A text that overflows anywhere is more than the job can take. */
  lemma {:induction false} OverflowFinal(s: Snapshot, id: Id, text: Text, kept: nat, chunk: Text)
    requires Good(s) && Find(s.jobs, id) >= 0 && Wellformed(text) && Overflows(s.jobs, id, text, kept, chunk) && Wellformed(text[..kept])
    ensures text != [] && !Roomy(s.jobs, id, text)
  {
    var a, b := text[..kept] + chunk, text[kept..][|chunk|..];
    assert Consistent(s);
    assert text[kept..] == chunk + b;
    assert text == a + b;
    assert Wellformed(chunk);
    WellformedConcat(text[..kept], chunk);
    if Roomy(s.jobs, id, text) {
      RoomyPrefix(s.jobs, id, a, b);
    }
  }
}
