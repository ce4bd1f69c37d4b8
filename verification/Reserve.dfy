/** Why accepted work can always be finished: every lifecycle transaction is paid for by
    the reserve it releases, and fits one journal record. */
module Reserve {
  import opened Utf8
  import opened Contract
  import opened Encoding
  import opened Reducer
  import opened History
  import opened Commits
  import opened Legible

  const FRAME_BYTES: nat := 72
  const FIT_LIMIT: nat := MAX_COMMIT_BYTES - METADATA_RESERVE - 8192
  const QUEUE_ENVELOPE: nat := 2800

  /** A clock reading: a nonzero UTC time in RFC 3339 form. */
  predicate ClockOk(t: Time) { t.At? && |t.stamp| <= 35 }

  /** The worker's own faults carry a fixed code and a short fixed message. */
  predicate FaultOk(f: Fault) { !f.code.NoCode? && !f.code.OtherCode? && |f.message| <= 128 && Wellformed(f.message) }

  /** How large an unfinished job can have become since it was last checked to fit. */
  predicate Snug(j: Job) {
    && (j.state.Queued? ==> JobLen(j) <= FIT_LIMIT)
    && (j.state.Running? ==> JobLen(j) <= FIT_LIMIT + 64)
    && (j.state.Cancelling? ==> JobLen(j) <= FIT_LIMIT + 72)
  }

  predicate SnugChecked(j: Job) { forall k {:trigger Snug(k)} | k == j :: Snug(k) }

  ghost predicate HexIds(jobs: seq<Job>) { forall i | 0 <= i < |jobs| :: HexId(jobs[i].id) }

  ghost predicate SnugJobs(jobs: seq<Job>) { forall i | 0 <= i < |jobs| :: SnugChecked(jobs[i]) }

  /** What the worker adds to the reducer's invariant: drawn identities, bounded sizes and texts
      that are UTF-8 throughout. */
  ghost predicate Tidy(s: Snapshot) {
    HexId(s.cursor.storeId) && HexIds(s.jobs) && SnugJobs(s.jobs) && ReadableJobs(s.jobs)
  }

  // ---- the reserve of a job list ----

  lemma {:induction false} ReserveReplaced(jobs: seq<Job>, i: nat, j: Job)
    requires i < |jobs|
    ensures ReserveSum(jobs[i := j]) + JobReserve(jobs[i]) == ReserveSum(jobs) + JobReserve(j)
  {
    var n := |jobs| - 1;
    if i < n {
      assert jobs[i := j][..n] == jobs[..n][i := j];
      ReserveReplaced(jobs[..n], i, j);
    } else {
      assert jobs[i := j][..n] == jobs[..n];
    }
  }

  // ---- the length of a lifecycle transaction ----

  lemma {:induction false} PendingHex(jobs: seq<Job>)
    requires HexIds(jobs)
    ensures forall k | 0 <= k < |QueuedIds(jobs)| :: HexId(QueuedIds(jobs)[k])
  {
    if jobs != [] {
      PendingHex(jobs[..|jobs| - 1]);
    }
  }

  lemma QueueLenBound(q: QueueState)
    requires |q.pending| <= MAX_PENDING && q.maxPending == MAX_PENDING
    requires forall k | 0 <= k < |q.pending| :: HexId(q.pending[k])
    requires q.active.Some? ==> HexId(q.active.value)
    ensures QueueLen(q) <= 2332
  {
    PendingLenBound(q.pending);
    assert IntLen(64) == 2;
    if q.active.Some? {
      IdLen(q.active.value);
    }
  }

  lemma EventEnvelope(e: Event)
    requires HexId(e.cursor.storeId) && e.cursor.sequence <= MAX_UINT64 && ClockOk(e.at) && !e.kind.OtherKind?
    requires e.jobId == [] || HexId(e.jobId)
    requires e.output.None?
    ensures EventLen(e) <= 210 + (if e.job.None? then 0 else JobLen(e.job.value)) + (if e.queue.None? then 0 else 9 + QueueLen(e.queue.value))
  {
    IdLen(e.cursor.storeId);
    SequenceDigits(e.cursor.sequence);
    if e.jobId != [] {
      IdLen(e.jobId);
    }
  }

  lemma CommitLenTwo(a: Event, b: Event)
    ensures CommitLen(Commit(1, [a, b], None)) == 27 + EventLen(a) + EventLen(b) - 1
  {
    assert [a, b][..1] == [a] && [a][..0] == [];
    assert EventsLen([a]) == 1 + EventLen(a) + 1;
    assert EventsLen([a, b]) == EventsLen([a]) + EventLen(b) + 1;
  }

  /** One job record plus at most 2800 bytes of cursors, times, kinds and queue. */
  lemma LifecycleLen(s: Snapshot, i: nat, j: Job, at: Time)
    requires Consistent(s) && Tidy(s) && Allowed(s, i, j)
    requires s.cursor.sequence + 2 <= MAX_UINT64 && ClockOk(at)
    ensures CommitLen(Lifecycle(s, s.jobs[i], j, at)) <= JobLen(j) + QUEUE_ENVELOPE
  {
    var q := QueueAfter(s.queue, s.jobs[i], j);
    var kind := if Terminal(j.state) then JobResult else JobStateChanged;
    var a, b := Stamp(s.cursor, 0, at, JobEvent(kind, j)), Stamp(s.cursor, 1, at, QueueEvent(q));
    assert Lifecycle(s, s.jobs[i], j, at).events == [a, b];
    QueueAfterHex(s, i, j);
    QueueLenBound(q);
    assert HexId(s.jobs[i].id);
    EventEnvelope(a);
    EventEnvelope(b);
    CommitLenTwo(a, b);
  }

  lemma QueueAfterHex(s: Snapshot, i: nat, j: Job)
    requires Consistent(s) && Tidy(s) && i < |s.jobs| && s.jobs[i].id == j.id
    ensures var q := QueueAfter(s.queue, s.jobs[i], j);
            && |q.pending| <= MAX_PENDING && q.maxPending == MAX_PENDING
            && (forall k | 0 <= k < |q.pending| :: HexId(q.pending[k]))
            && (q.active.Some? ==> HexId(q.active.value))
  {
    PendingHex(s.jobs);
    RemoveFirstShorter(s.queue.pending, j.id);
    ActiveIndex(s);
    if s.queue.active.Some? {
      assert HexId(s.jobs[Find(s.jobs, s.queue.active.value)].id);
    }
    assert HexId(s.jobs[i].id);
  }

  // ---- growth of one record ----

  /** The most a record may grow by in a transition. */
  function Growth(to: JobState): nat {
    if to.Running? then 64 else if to.Cancelling? then 8 else 40000
  }

  lemma FaultLenBound(f: Option<Fault>)
    requires f.Some? ==> FaultOk(f.value)
    ensures FaultLen(f) <= 1000
  {
  }

  lemma StartedGrowth(j: Job, now: Time)
    requires j.state.Queued? && j.startedAt.None? && ClockOk(now)
    ensures JobLen(Started(j, now)) <= JobLen(j) + Growth(Running)
  {
  }

  lemma CancelledGrowth(j: Job, error: Fault, now: Time)
    requires (j.state.Queued? || j.state.Running?) && j.finishedAt.None? && j.error.None? && ClockOk(now) && FaultOk(error)
    ensures JobLen(CancelledJob(j, error, now)) <= JobLen(j) + Growth(CancelledJob(j, error, now).state)
  {
    FaultLenBound(Some(error));
  }

  lemma FinishedGrowth(j: Job, state: JobState, error: Option<Fault>, result: Result, now: Time)
    requires Executing(j.state) && Terminal(state) && j.finishedAt.None? && j.error.None? && ClockOk(now)
    requires MetadataLen(result) <= METADATA_RESERVE / 2 || MetadataLen(result) == MetadataLen(j.result)
    requires error.Some? ==> FaultOk(error.value)
    ensures JobLen(Finished(j, state, error, result, now)) <= JobLen(j) + Growth(state)
  {
    FaultLenBound(error);
  }

  // ---- the theorem ----

  /** A transaction that fits one record and costs no more than the reserve it releases. */
  predicate Affordable(s: Snapshot, c: Commit, t: Snapshot) {
    CommitLen(c) <= MAX_COMMIT_BYTES && FRAME_BYTES + CommitLen(c) + TerminalReserve(t) <= TerminalReserve(s)
  }

  lemma ReserveReleased(was: Job, j: Job)
    requires Transition(was.state, j.state) && Snug(was) && JobLen(j) <= JobLen(was) + Growth(j.state)
    ensures FRAME_BYTES + JobLen(j) + QUEUE_ENVELOPE + JobReserve(j) <= JobReserve(was)
    ensures JobLen(j) + QUEUE_ENVELOPE <= MAX_COMMIT_BYTES
    ensures Snug(j)
  {
  }

  /** Every lifecycle transaction with bounded growth is affordable, so if the journal's
      size plus the reserve was within the hard limit before it, it is after it. */
  lemma LifecycleAffordable(s: Snapshot, i: nat, j: Job, at: Time)
    requires Consistent(s) && Tidy(s) && Allowed(s, i, j) && JobLen(j) <= JobLen(s.jobs[i]) + Growth(j.state)
    requires s.cursor.sequence + 2 <= MAX_UINT64 && ClockOk(at) && Readable(j)
    ensures Affordable(s, Lifecycle(s, s.jobs[i], j, at), AfterLifecycle(s, i, j))
    ensures Tidy(AfterLifecycle(s, i, j))
  {
    LifecycleLen(s, i, j, at);
    assert SnugChecked(s.jobs[i]);
    assert Snug(s.jobs[i]);
    ReserveReleased(s.jobs[i], j);
    ReserveReplaced(s.jobs, i, j);
    TidyReplaced(s, i, j);
  }

  lemma TidyReplaced(s: Snapshot, i: nat, j: Job)
    requires Tidy(s) && i < |s.jobs| && s.jobs[i].id == j.id && Snug(j) && Readable(j)
    ensures HexIds(s.jobs[i := j]) && SnugJobs(s.jobs[i := j]) && ReadableJobs(s.jobs[i := j])
  {
    var jobs := s.jobs[i := j];
    forall k | 0 <= k < |jobs| ensures Readable(jobs[k]) {
      assert k != i ==> Readable(s.jobs[k]);
    }
    forall k | 0 <= k < |jobs| ensures SnugChecked(jobs[k]) {
      assert k != i ==> SnugChecked(s.jobs[k]);
    }
    forall k | 0 <= k < |jobs| ensures HexId(jobs[k].id) {
      assert HexId(s.jobs[k].id);
    }
  }

  lemma TidyExtended(s: Snapshot, j: Job)
    requires Tidy(s) && HexId(j.id) && Snug(j) && Readable(j)
    ensures HexIds(s.jobs + [j]) && SnugJobs(s.jobs + [j]) && ReadableJobs(s.jobs + [j])
  {
    var jobs := s.jobs + [j];
    forall k | 0 <= k < |jobs| ensures Readable(jobs[k]) {
      assert k < |s.jobs| ==> Readable(s.jobs[k]);
    }
    forall k | 0 <= k < |jobs| ensures SnugChecked(jobs[k]) {
      assert k < |s.jobs| ==> SnugChecked(s.jobs[k]);
    }
  }
}
