/** Why everything the worker stores can be read back: all texts in its transactions are
    UTF-8, as validated on the way in, drawn, constant or sanitised by copying. */
module Storage {
  import opened Utf8
  import opened Contract
  import opened Reducer
  import opened History
  import opened Commits
  import opened Legible
  import opened Reserve

  /** The transaction survives storage and states the queue at most once. (A one-point quantifier,
      so that callers do not unfold it.) */
  ghost predicate Tame(c: Commit) {
    forall x {:trigger LegibleCommit(x)} {:trigger OneQueue(x.events)} | x == c :: LegibleCommit(x) && OneQueue(x.events)
  }

  lemma TameMeans(c: Commit)
    requires Tame(c)
    ensures Decodable(c) && OneQueue(c.events)
  {
    assert LegibleCommit(c);
  }

  predicate HexQueue(q: QueueState) {
    (forall k | 0 <= k < |q.pending| :: HexId(q.pending[k])) && (q.active.Some? ==> HexId(q.active.value))
  }

  lemma HexQueueLegible(q: QueueState)
    requires HexQueue(q)
    ensures LegibleQueue(q)
  {
    forall k | 0 <= k < |q.pending| ensures Wellformed(q.pending[k]) {
      HexWellformed(q.pending[k]);
    }
    if q.active.Some? {
      HexWellformed(q.active.value);
    }
  }

  /** Numbering and stamping add nothing that is not UTF-8. */
  lemma {:induction false} StampLegible(c: Cursor, k: nat, at: Time, e: Event)
    requires HexId(c.storeId) && !e.kind.OtherKind? && (e.jobId == [] || HexId(e.jobId))
    requires e.job.Some? ==> Readable(e.job.value)
    requires e.output.Some? ==> Wellformed(e.output.value.text)
    requires e.queue.Some? ==> HexQueue(e.queue.value)
    ensures LegibleEvent(Stamp(c, k, at, e))
  {
    HexWellformed(c.storeId);
    EmptyWellformed();
    if e.jobId != [] {
      HexWellformed(e.jobId);
    }
    if e.job.Some? {
      assert LegibleJob(e.job.value);
    }
    if e.queue.Some? {
      HexQueueLegible(e.queue.value);
    }
  }

  /** A job record and the queue beside it. */
  lemma {:induction false} RecordTame(s: Snapshot, kind: EventKind, j: Job, q: QueueState, receipt: Option<Receipt>, at: Time)
    requires HexId(s.cursor.storeId) && !kind.OtherKind? && HexId(j.id) && Readable(j) && HexQueue(q)
    requires receipt.Some? ==> LegibleReceipt(receipt.value)
    ensures Tame(Build(s, [JobEvent(kind, j), QueueEvent(q)], receipt, at))
  {
    var c := Build(s, [JobEvent(kind, j), QueueEvent(q)], receipt, at);
    StampLegible(s.cursor, 0, at, JobEvent(kind, j));
    StampLegible(s.cursor, 1, at, QueueEvent(q));
    assert LegibleCommit(c);
  }

  lemma {:induction false} OutputTame(s: Snapshot, i: nat, chunk: Text, at: Time)
    requires Tidy(s) && i < |s.jobs| && Wellformed(chunk)
    ensures Tame(OutputCommit(s, i, chunk, at))
  {
    var e := OutputEvent(s.jobs[i].id, |s.jobs[i].result.text|, chunk);
    assert HexId(s.jobs[i].id);
    StampLegible(s.cursor, 0, at, e);
    assert LegibleCommit(OutputCommit(s, i, chunk, at));
  }

  lemma {:induction false} PauseTame(s: Snapshot, paused: bool, at: Time)
    requires Consistent(s) && Tidy(s)
    ensures Tame(PauseCommit(s, paused, at))
  {
    QueueHex(s);
    StampLegible(s.cursor, 0, at, QueueEvent(s.queue.(paused := paused)));
    assert LegibleCommit(PauseCommit(s, paused, at));
  }

  /** The queue of a consistent snapshot names retained jobs. */
  lemma QueueHex(s: Snapshot)
    requires Consistent(s) && Tidy(s)
    ensures HexQueue(s.queue)
  {
    PendingHex(s.jobs);
    ActiveIndex(s);
    if s.queue.active.Some? {
      assert HexId(s.jobs[Find(s.jobs, s.queue.active.value)].id);
    }
  }

  lemma {:induction false} LifecycleTame(s: Snapshot, i: nat, j: Job, at: Time)
    requires Consistent(s) && Tidy(s) && Allowed(s, i, j) && Readable(j)
    ensures Tame(Lifecycle(s, s.jobs[i], j, at))
  {
    QueueAfterHex(s, i, j);
    assert HexId(s.jobs[i].id);
    RecordTame(s, if Terminal(j.state) then JobResult else JobStateChanged, j, QueueAfter(s.queue, s.jobs[i], j), None, at);
  }

  lemma {:induction false} CreateTame(s: Snapshot, j: Job, receipt: Receipt, at: Time)
    requires Consistent(s) && Tidy(s) && HexId(j.id) && Readable(j) && ReceiptOk(Some(receipt), j.id)
    ensures Tame(CreateCommit(s, j, receipt, at))
  {
    QueueHex(s);
    assert HexQueue(Enqueued(s.queue, j.id));
    HexWellformed(receipt.digest);
    HexWellformed(j.id);
    RecordTame(s, JobAccepted, j, Enqueued(s.queue, j.id), Some(receipt), at);
  }

  // ---- records ----

  lemma {:induction false} CancelledReadable(j: Job, error: Fault, now: Time)
    requires Readable(j) && FaultOk(error)
    ensures Readable(CancelledJob(j, error, now))
  {
    assert LegibleJob(j);
  }

  lemma {:induction false} FinishedReadable(j: Job, state: JobState, error: Option<Fault>, result: Result, now: Time)
    requires Readable(j) && Terminal(state) && (error.Some? ==> FaultOk(error.value)) && LegibleMetadata(result)
    ensures Readable(Finished(j, state, error, result, now))
  {
    assert LegibleJob(j);
  }

  /** A validated new job: its request and instructions were checked, the rest is drawn. */
  lemma {:induction false} NewReadable(j: Job)
    requires ValidateRequest(j.request, j.instructions).None? && ValidUtf8(j.origin) && HexId(j.id)
    requires j.state.Queued? && j.result == EMPTY_RESULT && j.error.None?
    requires j.lineage.Some? ==> HexId(j.lineage.value.parentId) && !j.lineage.value.relation.OtherRelation?
    ensures Readable(j)
  {
    EmptyWellformed();
    HexWellformed(j.id);
    if j.lineage.Some? {
      HexWellformed(j.lineage.value.parentId);
    }
    ValidatedLegible(j.request, j.instructions);
    assert LegibleJob(j);
  }

  lemma {:induction false} ValidatedLegible(r: Request, i: Instructions)
    requires ValidateRequest(r, i).None?
    ensures LegibleRequest(r) && LegibleInstructions(i)
  {
  }
}
