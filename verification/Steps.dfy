/** The worker's steps on snapshots: each transaction it builds is accepted, paid for by the
    reserve, and keeps every invariant of a live worker. */
module Steps {
  import opened Utf8
  import opened Contract
  import opened Encoding
  import opened Reducer
  import opened History
  import opened Commits
  import opened Legible
  import opened Reserve
  import opened Storage

  /** The invariant of a worker's snapshot (one-point quantifiers keep callers from
      unfolding it). */
  ghost predicate Good(s: Snapshot) {
    forall x {:trigger Consistent(x)} | x == s :: Consistent(x) && Tidy(x) && Fifo(x.jobs)
  }

  /** Fits one record and costs no more than the reserve it releases. */
  predicate Payable(s: Snapshot, c: Commit, t: Snapshot) {
    forall x {:trigger CommitLen(x)} | x == c :: Affordable(s, x, t)
  }

  /** The job list grew, as History.Grows says. */
  ghost predicate Grew(a: seq<Job>, b: seq<Job>) {
    forall x {:trigger Grows(a, x)} | x == b :: Grows(a, x)
  }

  lemma GrewReflexive(a: seq<Job>)
    ensures Grew(a, a)
  {
  }

  lemma GrewTransitive(a: seq<Job>, b: seq<Job>, c: seq<Job>)
    requires Grew(a, b) && Grew(b, c)
    ensures Grew(a, c)
  {
    assert Grows(a, b) && Grows(b, c);
    GrowsTransitive(a, b, c);
  }

  /** A job with this id is retained. */
  predicate Retains(jobs: seq<Job>, id: Id) {
    forall x: seq<Job> {:trigger Find(x, id)} | x == jobs :: Find(x, id) >= 0
  }

  lemma RetainsGrew(a: seq<Job>, b: seq<Job>, id: Id)
    requires Retains(a, id) && Grew(a, b)
    ensures Retains(b, id)
  {
    assert Grows(a, b) && Find(a, id) >= 0;
    assert forall i | 0 <= i < |a| :: Evolves(a[i], b[i]);
    FindKept(a, b, id);
  }

  lemma EmptyGood(storeId: Id)
    requires HexId(storeId)
    ensures Good(EmptySnapshot(storeId))
  {
    EmptyConsistent(storeId);
  }

  /** Every snapshot along the run is good, and every transaction in it can be read back and
      states the queue at most once. */
  ghost predicate GoodRun(storeId: Id, cs: seq<Commit>) {
    && (forall n {:trigger cs[..n]} | 0 <= n <= |cs| ::
          var r := Replay(EmptySnapshot(storeId), cs[..n]);
          r.Some? && Good(r.value))
    && (forall i | 0 <= i < |cs| :: Tame(cs[i]))
  }

  /** `GoodRun` for the stored commits and one whose write failed, kept folded. */
  ghost predicate Sane(storeId: Id, cs: seq<Commit>, attempt: seq<Commit>) {
    forall x {:trigger GoodRun(storeId, x)} | x == cs + attempt :: GoodRun(storeId, x)
  }

  lemma {:induction false} SaneState(storeId: Id, cs: seq<Commit>, attempt: seq<Commit>)
    requires Sane(storeId, cs, attempt)
    ensures Replay(EmptySnapshot(storeId), cs).Some? && Good(Replay(EmptySnapshot(storeId), cs).value)
  {
    var all := cs + attempt;
    assert GoodRun(storeId, all);
    assert all[..|cs|] == cs;
  }

  /** Everything stored or tried can be read back. */
  lemma {:induction false} SaneTame(storeId: Id, cs: seq<Commit>, attempt: seq<Commit>)
    requires Sane(storeId, cs, attempt)
    ensures AllDecodable(cs + attempt) && (forall c | c in cs + attempt :: OneQueue(c.events))
  {
    var all := cs + attempt;
    assert GoodRun(storeId, all);
    forall i | 0 <= i < |all| ensures Decodable(all[i]) && OneQueue(all[i].events) {
      TameMeans(all[i]);
    }
  }

  /** One more accepted transaction that leads to a good snapshot, stored or merely tried. */
  lemma {:induction false} SaneExtended(storeId: Id, cs: seq<Commit>, c: Commit, s: Snapshot, t: Snapshot)
    requires Sane(storeId, cs, []) && Replay(EmptySnapshot(storeId), cs) == Some(s) && Accepts(s, c, t) && Good(t) && Tame(c)
    ensures Sane(storeId, cs + [c], []) && Sane(storeId, cs, [c])
  {
    assert cs + [] == cs;
    assert GoodRun(storeId, cs);
    var all := cs + [c];
    ReplayExtended(EmptySnapshot(storeId), cs, c);
    assert ApplyCommit(s, c) == Some(t);
    forall n | 0 <= n <= |all|
      ensures var r := Replay(EmptySnapshot(storeId), all[..n]); r.Some? && Good(r.value)
    {
      assert all[..n] == if n <= |cs| then cs[..n] else all;
    }
    assert all + [] == all;
  }

  lemma {:induction false} SanePrefix(storeId: Id, cs: seq<Commit>, attempt: seq<Commit>, m: nat)
    requires Sane(storeId, cs, attempt) && m <= |cs + attempt|
    ensures Sane(storeId, (cs + attempt)[..m], [])
  {
    var all := cs + attempt;
    assert GoodRun(storeId, all);
    var part := all[..m];
    forall n | 0 <= n <= m ensures part[..n] == all[..n] {}
    assert part + [] == part;
  }

  /** Room for the two events of a lifecycle transaction. */
  predicate Room(s: Snapshot, n: nat) { s.cursor.sequence + n <= MAX_UINT64 }

  /** One lifecycle step: accepted, paid for and good again. */
  lemma LifecycleStep(s: Snapshot, i: nat, j: Job, at: Time)
    requires Good(s) && Allowed(s, i, j) && JobLen(j) <= JobLen(s.jobs[i]) + Growth(j.state)
    requires j.startedAt.Some? ==> j.state.Running? || s.jobs[i].startedAt.Some?
    requires Room(s, 2) && ClockOk(at) && Readable(j)
    ensures var c, t := Lifecycle(s, s.jobs[i], j, at), AfterLifecycle(s, i, j);
            Accepts(s, c, t) && Payable(s, c, t) && Tame(c) && Good(t) && Grew(s.jobs, t.jobs)
  {
    assert Consistent(s);
    LifecycleTame(s, i, j, at);
    LifecycleAccepted(s, i, j, at);
    LifecycleAffordable(s, i, j, at);
    LifecycleKeepsFifo(s, i, j);
  }

  /** DISPATCH: whenever a job may start, starting the first pending one goes through. */
  lemma DispatchStep(s: Snapshot, now: Time, at: Time)
    requires Good(s) && CanDispatch(s) && Room(s, 2) && ClockOk(now) && ClockOk(at)
    ensures var i := Find(s.jobs, s.queue.pending[0]);
            && i >= 0 && s.jobs[i].state.Queued?
            && var j := Started(s.jobs[i], now);
               var c, t := Lifecycle(s, s.jobs[i], j, at), AfterLifecycle(s, i, j);
               && Accepts(s, c, t) && Payable(s, c, t) && Tame(c) && Good(t) && Grew(s.jobs, t.jobs)
               && t.queue == s.queue.(pending := s.queue.pending[1..], active := Some(s.queue.pending[0]))
  {
    assert Consistent(s);
    DispatchAllowed(s, now);
    var i := Find(s.jobs, s.queue.pending[0]);
    assert JobOk(s.jobs[i]);
    StartedGrowth(s.jobs[i], now);
    StartedReadable(s.jobs[i], now);
    LifecycleStep(s, i, Started(s.jobs[i], now), at);
  }

  /** CANCEL: a queued or running job can be cancelled at any time. */
  lemma CancelStep(s: Snapshot, i: nat, error: Fault, now: Time, at: Time)
    requires Good(s) && i < |s.jobs| && (s.jobs[i].state.Queued? || s.jobs[i].state.Running?)
    requires Room(s, 2) && ClockOk(now) && ClockOk(at) && FaultOk(error)
    ensures var j := CancelledJob(s.jobs[i], error, now);
            var c, t := Lifecycle(s, s.jobs[i], j, at), AfterLifecycle(s, i, j);
            && Accepts(s, c, t) && Payable(s, c, t) && Tame(c) && Good(t) && Grew(s.jobs, t.jobs)
            && t.queue == (if s.jobs[i].state.Queued? then s.queue.(pending := RemoveFirst(s.queue.pending, j.id)) else s.queue)
            && (s.jobs[i].state.Running? ==> s.queue.active == Some(s.jobs[i].id))
  {
    assert Consistent(s);
    CancelAllowed(s, i, error, now);
    assert JobOk(s.jobs[i]);
    CancelledGrowth(s.jobs[i], error, now);
    CancelledReadable(s.jobs[i], error, now);
    LifecycleStep(s, i, CancelledJob(s.jobs[i], error, now), at);
  }

  /** FINISH: the active job can always be brought to its end, with any bounded metadata. */
  lemma FinishStep(s: Snapshot, state: JobState, error: Option<Fault>, result: Result, now: Time, at: Time)
    requires Good(s) && s.queue.active.Some? && Room(s, 2) && ClockOk(now) && ClockOk(at)
    requires forall i | 0 <= i < |s.jobs| && s.jobs[i].id == s.queue.active.value ::
               && Outcome(s.jobs[i].state, state, error)
               && (MetadataLen(result) <= METADATA_RESERVE / 2 || MetadataLen(result) == MetadataLen(s.jobs[i].result))
    requires (error.Some? ==> FaultOk(error.value)) && LegibleMetadata(result)
    ensures var i := Find(s.jobs, s.queue.active.value);
            && i >= 0 && Executing(s.jobs[i].state)
            && var j := Finished(s.jobs[i], state, error, result, now);
               var c, t := Lifecycle(s, s.jobs[i], j, at), AfterLifecycle(s, i, j);
               && Accepts(s, c, t) && Payable(s, c, t) && Tame(c) && Good(t) && Grew(s.jobs, t.jobs)
               && t.queue == s.queue.(active := None)
  {
    assert Consistent(s);
    FinishAllowed(s, state, error, result, now);
    var i := Find(s.jobs, s.queue.active.value);
    assert JobOk(s.jobs[i]);
    FinishedGrowth(s.jobs[i], state, error, result, now);
    FinishedReadable(s.jobs[i], state, error, result, now);
    LifecycleStep(s, i, Finished(s.jobs[i], state, error, result, now), at);
  }

  /** The active job exists and executes; without one, nothing executes. */
  lemma ActiveExecutes(s: Snapshot)
    requires Good(s)
    ensures s.queue.active.Some? ==>
              var i := Find(s.jobs, s.queue.active.value);
              i >= 0 && Executing(s.jobs[i].state) && forall k | 0 <= k < |s.jobs| && s.jobs[k].id == s.queue.active.value :: k == i
    ensures s.queue.active.None? ==> Idle(s.jobs)
  {
    assert Consistent(s);
    ActiveIndex(s);
  }

  /** What a good snapshot already records of the active job can be stored again. */
  lemma ActiveReadable(s: Snapshot)
    requires Good(s) && s.queue.active.Some?
    ensures var i := Find(s.jobs, s.queue.active.value);
            i >= 0 && LegibleMetadata(s.jobs[i].result)
  {
    ActiveExecutes(s);
    assert Consistent(s);
    var i := Find(s.jobs, s.queue.active.value);
    assert Readable(s.jobs[i]);
    assert LegibleJob(s.jobs[i]);
  }

  // ---- create ----

  datatype Operation = Submit | RetryOf | BranchOf

  datatype Draft = Draft(request: Request, instructions: Instructions, lineage: Option<Lineage>) | DraftError(code: ErrorCode)

  /** The request, instructions and lineage of a new job, or why it cannot be prepared. */
  function Prepare(jobs: seq<Job>, op: Operation, parent: Id, r: Request): Draft {
    if parent == [] then
      if op.Submit? then Draft(r, Compose(r), None) else DraftError(InvalidRequest)
    else
      var p := Find(jobs, parent);
      if p < 0 then DraftError(NotFound)
      else if !Terminal(jobs[p].state) then DraftError(Conflict)
      else match op
        case RetryOf => Draft(jobs[p].request, jobs[p].instructions, Some(Lineage(parent, Retry)))
        case BranchOf => Draft(r, Compose(r).(history := jobs[p].instructions.history + TurnMessages(jobs[p])),
                               Some(Lineage(parent, Branch)))
        case Submit => Draft(r, Compose(r), Some(Lineage(parent, OtherRelation([]))))
  }

  function NewJob(id: Id, d: Draft, origin: Text, now: Time): Job
    requires d.Draft?
  {
    Job(id, Queued, d.request, d.instructions, origin, d.lineage, now, None, None, EMPTY_RESULT, None)
  }

  /** What the builder prepared is what the checker expects. */
  lemma PreparedExpected(jobs: seq<Job>, op: Operation, parent: Id, r: Request, id: Id, origin: Text, now: Time)
    requires op.Submit? ==> parent == []
    requires Prepare(jobs, op, parent, r).Draft?
    ensures InstructionsChecked(jobs, NewJob(id, Prepare(jobs, op, parent, r), origin, now))
  {
  }

  predicate OriginOk(origin: Text) { ValidUtf8(origin) && |origin| <= 1024 }

  predicate KeyOk(key: Text) { 0 < |key| <= 128 && ValidUtf8(key) }

  /** CREATE: a prepared, validated job with a fresh identity is accepted. */
  lemma CreateStep(s: Snapshot, op: Operation, parent: Id, r: Request, id: Id, origin: Text, now: Time, at: Time, receipt: Receipt)
    requires Good(s) && Room(s, 2) && ClockOk(now) && ClockOk(at)
    requires (op.Submit? ==> parent == []) && Prepare(s.jobs, op, parent, r).Draft?
    requires var d := Prepare(s.jobs, op, parent, r); ValidateRequest(d.request, d.instructions).None?
    requires OriginOk(origin) && HexId(id) && Find(s.jobs, id) < 0
    requires |s.queue.pending| < MAX_PENDING && |s.jobs| < MAX_JOBS
    requires JobFits(NewJob(id, Prepare(s.jobs, op, parent, r), origin, now)) && ReceiptOk(Some(receipt), id)
    ensures var j := NewJob(id, Prepare(s.jobs, op, parent, r), origin, now);
            var t := After(s, 2, Enqueued(s.queue, id), s.jobs + [j]);
            && Accepts(s, CreateCommit(s, j, receipt, at), t) && Tame(CreateCommit(s, j, receipt, at))
            && Good(t) && Grew(s.jobs, t.jobs) && Retains(t.jobs, id)
  {
    var j := NewJob(id, Prepare(s.jobs, op, parent, r), origin, now);
    assert Consistent(s);
    PreparedExpected(s.jobs, op, parent, r, id, origin, now);
    NewRecordChecked(j);
    NewAccepted(s.jobs, j);
    PreparedReadable(s, op, parent, r, id, origin, now);
    EnrollStep(s, j, receipt, at);
  }

  lemma {:induction false} NewAccepted(jobs: seq<Job>, j: Job)
    requires JobFits(j) && Find(jobs, j.id) < 0 && |jobs| < MAX_JOBS && InstructionsChecked(jobs, j)
    requires j.state.Queued? && j.startedAt.None? && j.finishedAt.None? && j.result == EMPTY_RESULT && j.error.None?
    ensures AcceptChecked(jobs, [], j) && Snug(j)
  {
  }

  /** An acceptable job and its receipt in one transaction. */
  lemma {:induction false} EnrollStep(s: Snapshot, j: Job, receipt: Receipt, at: Time)
    requires Good(s) && Room(s, 2) && ClockOk(at) && HexId(j.id) && Readable(j) && Snug(j)
    requires RecordChecked(j) && AcceptChecked(s.jobs, [], j) && j.state.Queued? && j.startedAt.None?
    requires |s.queue.pending| < MAX_PENDING && ReceiptOk(Some(receipt), j.id) && Find(s.jobs, j.id) < 0
    ensures var t := After(s, 2, Enqueued(s.queue, j.id), s.jobs + [j]);
            && Accepts(s, CreateCommit(s, j, receipt, at), t) && Tame(CreateCommit(s, j, receipt, at))
            && Good(t) && Grew(s.jobs, t.jobs) && Retains(t.jobs, j.id)
  {
    assert Consistent(s);
    assert AcceptOk(s.jobs, [], j);
    CreateAccepted(s, j, receipt, at);
    CommitKeeps(s, CreateCommit(s, j, receipt, at));
    CreateTame(s, j, receipt, at);
    TidyExtended(s, j);
    assert (s.jobs + [j])[|s.jobs|].id == j.id;
  }

  /** Its texts were validated, and its parent is a retained job. */
  lemma PreparedReadable(s: Snapshot, op: Operation, parent: Id, r: Request, id: Id, origin: Text, now: Time)
    requires Tidy(s) && (op.Submit? ==> parent == []) && Prepare(s.jobs, op, parent, r).Draft? && OriginOk(origin) && HexId(id)
    requires var d := Prepare(s.jobs, op, parent, r); ValidateRequest(d.request, d.instructions).None?
    ensures Readable(NewJob(id, Prepare(s.jobs, op, parent, r), origin, now))
  {
    if parent != [] {
      assert HexId(s.jobs[Find(s.jobs, parent)].id);
    }
    NewReadable(NewJob(id, Prepare(s.jobs, op, parent, r), origin, now));
  }

  lemma NewRecordChecked(j: Job)
    requires ValidateRequest(j.request, j.instructions).None? && OriginOk(j.origin) && j.createdAt.At? && j.result == EMPTY_RESULT
    ensures RecordChecked(j)
  {
    assert ValidUtf8([]);
    assert JobRecordOk(j);
  }

  // ---- output and pause ----

  /** OUTPUT: a chunk within the limits is accepted and appended. */
  lemma OutputStep(s: Snapshot, i: nat, chunk: Text, at: Time)
    requires Good(s) && i < |s.jobs| && Executing(s.jobs[i].state) && Room(s, 1) && ClockOk(at)
    requires 0 < |chunk| <= MAX_CHUNK_BYTES && ValidUtf8(chunk)
    requires |s.jobs[i].result.text| + |chunk| <= MAX_OUTPUT_BYTES && JobFits(Extended(s.jobs[i], chunk))
    ensures var t := After(s, 1, s.queue, s.jobs[i := Extended(s.jobs[i], chunk)]);
            && Accepts(s, OutputCommit(s, i, chunk, at), t) && Tame(OutputCommit(s, i, chunk, at))
            && Good(t) && Grew(s.jobs, t.jobs)
  {
    assert Consistent(s);
    var t := After(s, 1, s.queue, s.jobs[i := Extended(s.jobs[i], chunk)]);
    OutputChecks(s.jobs[i], chunk);
    OutputAccepted(s, i, chunk, at);
    OutputTame(s, i, chunk, at);
    OutputTidy(s, i, chunk);
    assert Consistent(t);
  }

  lemma {:induction false} OutputChecks(j: Job, chunk: Text)
    requires Executing(j.state) && 0 < |chunk| <= MAX_CHUNK_BYTES && ValidUtf8(chunk)
    requires |j.result.text| + |chunk| <= MAX_OUTPUT_BYTES && JobFits(Extended(j, chunk))
    ensures OutputOk(j, OutputDelta(|j.result.text|, chunk))
  {
  }

  lemma {:induction false} OutputTidy(s: Snapshot, i: nat, chunk: Text)
    requires Consistent(s) && Tidy(s) && Fifo(s.jobs) && i < |s.jobs| && Executing(s.jobs[i].state)
    requires JobFits(Extended(s.jobs[i], chunk)) && ValidUtf8(chunk)
    ensures var t := After(s, 1, s.queue, s.jobs[i := Extended(s.jobs[i], chunk)]);
            Tidy(t) && Fifo(t.jobs)
  {
    ExtendedReadable(s.jobs[i], chunk);
    TidyReplaced(s, i, Extended(s.jobs[i], chunk));
  }

  /** PAUSE and RESUME change the flag and nothing else. */
  lemma PauseStep(s: Snapshot, paused: bool, at: Time)
    requires Good(s) && Room(s, 1) && ClockOk(at)
    ensures var t := After(s, 1, s.queue.(paused := paused), s.jobs);
            Accepts(s, PauseCommit(s, paused, at), t) && Tame(PauseCommit(s, paused, at)) && Good(t) && Grew(s.jobs, t.jobs)
  {
    assert Consistent(s);
    PauseTame(s, paused, at);
    PauseAccepted(s, paused, at);
    GrewReflexive(s.jobs);
  }

  // ---- the steps in the form the worker uses ----

  /** Committing these events is accepted, can be read back and leads to the good snapshot `t`. */
  ghost predicate Ready(s: Snapshot, es: seq<Event>, receipt: Option<Receipt>, at: Time, t: Snapshot) {
    forall x {:trigger Build(s, x, receipt, at)} | x == es ::
      Accepts(s, Build(s, x, receipt, at), t) && Tame(Build(s, x, receipt, at)) && Good(t) && Grew(s.jobs, t.jobs)
  }

  /** ... and the reserve pays for it. */
  ghost predicate Paid(s: Snapshot, es: seq<Event>, at: Time, t: Snapshot) {
    forall x {:trigger Build(s, x, None, at)} | x == es :: Payable(s, Build(s, x, None, at), t)
  }

  lemma DispatchReady(s: Snapshot, now: Time, at: Time)
    requires Good(s) && CanDispatch(s) && ClockOk(now) && ClockOk(at)
    ensures var i := Find(s.jobs, s.queue.pending[0]);
            && i >= 0
            && (Room(s, 2) ==>
                  var j := Started(s.jobs[i], now);
                  var q := s.queue.(pending := s.queue.pending[1..], active := Some(j.id));
                  var es, t := [JobEvent(JobStateChanged, j), QueueEvent(q)], After(s, 2, q, s.jobs[i := j]);
                  Ready(s, es, None, at, t) && Paid(s, es, at, t))
  {
    assert Consistent(s);
    PendingIndex(s, s.queue.pending[0]);
    if Room(s, 2) {
      DispatchStep(s, now, at);
    }
  }

  lemma FinishReady(s: Snapshot, state: JobState, error: Option<Fault>, result: Result, now: Time, at: Time)
    requires Good(s) && s.queue.active.Some? && ClockOk(now) && ClockOk(at)
    requires var i := Find(s.jobs, s.queue.active.value);
             && i >= 0 && Outcome(s.jobs[i].state, state, error)
             && (MetadataLen(result) <= METADATA_RESERVE / 2 || result == s.jobs[i].result)
    requires (error.Some? ==> FaultOk(error.value)) && LegibleMetadata(result)
    ensures Room(s, 2) ==>
              var i := Find(s.jobs, s.queue.active.value);
              var j, q := Finished(s.jobs[i], state, error, result, now), s.queue.(active := None);
              var es, t := [JobEvent(JobResult, j), QueueEvent(q)], After(s, 2, q, s.jobs[i := j]);
              Ready(s, es, None, at, t) && Paid(s, es, at, t)
  {
    if Room(s, 2) {
      ActiveExecutes(s);
      FinishStep(s, state, error, result, now, at);
    }
  }

  lemma CancelReady(s: Snapshot, i: nat, error: Fault, now: Time, at: Time)
    requires Good(s) && i < |s.jobs| && (s.jobs[i].state.Queued? || s.jobs[i].state.Running?)
    requires ClockOk(now) && ClockOk(at) && FaultOk(error)
    ensures s.jobs[i].state.Running? ==> s.queue.active == Some(s.jobs[i].id)
    ensures Room(s, 2) ==>
              var j := CancelledJob(s.jobs[i], error, now);
              var q := if s.jobs[i].state.Queued? then s.queue.(pending := RemoveFirst(s.queue.pending, j.id)) else s.queue;
              var kind := if s.jobs[i].state.Queued? then JobResult else JobStateChanged;
              var es, t := [JobEvent(kind, j), QueueEvent(q)], After(s, 2, q, s.jobs[i := j]);
              Ready(s, es, None, at, t) && Paid(s, es, at, t)
  {
    assert Consistent(s);
    CancelAllowed(s, i, error, now);
    if Room(s, 2) {
      CancelStep(s, i, error, now, at);
    }
  }

  /** The job's text gained exactly `more`, and nothing else changed. */
  predicate Gained(a: seq<Job>, b: seq<Job>, id: Id, more: Text) {
    forall x: seq<Job> {:trigger Find(x, id)} | x == a :: Find(x, id) >= 0 && b == x[Find(x, id) := Extended(x[Find(x, id)], more)]
  }

  lemma {:induction false} GainedNothing(a: seq<Job>, id: Id)
    requires Find(a, id) >= 0
    ensures Gained(a, a, id, [])
  {
    var j := a[Find(a, id)];
    assert j.result.text + [] == j.result.text;
  }

  lemma {:induction false} GainedBoth(a: seq<Job>, b: seq<Job>, c: seq<Job>, id: Id, more: Text, evenMore: Text)
    requires Gained(a, b, id, more) && Gained(b, c, id, evenMore)
    ensures Gained(a, c, id, more + evenMore)
  {
    var i := Find(a, id);
    FindSameIds(a, b, id);
    assert i == Find(b, id) && i >= 0;
    assert a[i].result.text + more + evenMore == a[i].result.text + (more + evenMore);
    assert Extended(Extended(a[i], more), evenMore) == Extended(a[i], more + evenMore);
  }

  /** One chunk for the active job, within the output limits. */
  predicate ChunkFits(s: Snapshot, i: nat, chunk: Text) {
    i < |s.jobs| && |s.jobs[i].result.text| + |chunk| <= MAX_OUTPUT_BYTES && FitChecked(Extended(s.jobs[i], chunk))
  }

  lemma OutputReady(s: Snapshot, chunk: Text, at: Time)
    requires Good(s) && s.queue.active.Some? && ClockOk(at) && ChunkOk(chunk)
    ensures var i := Find(s.jobs, s.queue.active.value);
            && i >= 0
            && (ChunkFits(s, i, chunk) && Room(s, 1) ==>
                  var es := [OutputEvent(s.jobs[i].id, |s.jobs[i].result.text|, chunk)];
                  var t := After(s, 1, s.queue, s.jobs[i := Extended(s.jobs[i], chunk)]);
                  && Ready(s, es, None, at, t)
                  && Gained(s.jobs, t.jobs, s.queue.active.value, chunk))
  {
    ActiveExecutes(s);
    var i := Find(s.jobs, s.queue.active.value);
    if ChunkFits(s, i, chunk) && Room(s, 1) {
      assert ValidUtf8(chunk) && JobFits(Extended(s.jobs[i], chunk));
      OutputStep(s, i, chunk, at);
      FindSameIds(s.jobs, s.jobs[i := Extended(s.jobs[i], chunk)], s.queue.active.value);
    }
  }

  lemma PauseReady(s: Snapshot, paused: bool, at: Time)
    requires Good(s) && ClockOk(at)
    ensures var q := s.queue.(paused := paused);
            Room(s, 1) ==> Ready(s, [QueueEvent(q)], None, at, After(s, 1, q, s.jobs))
  {
    if Room(s, 1) {
      PauseStep(s, paused, at);
    }
  }

  lemma CreateReady(s: Snapshot, op: Operation, parent: Id, r: Request, id: Id, origin: Text, now: Time, at: Time, receipt: Receipt)
    requires Good(s) && ClockOk(now) && ClockOk(at)
    requires (op.Submit? ==> parent == []) && Prepare(s.jobs, op, parent, r).Draft?
    requires var d := Prepare(s.jobs, op, parent, r); ValidateRequest(d.request, d.instructions).None?
    requires OriginOk(origin) && HexId(id) && Find(s.jobs, id) < 0
    requires |s.queue.pending| < MAX_PENDING && |s.jobs| < MAX_JOBS
    requires JobFits(NewJob(id, Prepare(s.jobs, op, parent, r), origin, now)) && ReceiptOk(Some(receipt), id)
    ensures var j, q := NewJob(id, Prepare(s.jobs, op, parent, r), origin, now), Enqueued(s.queue, id);
            var t := After(s, 2, q, s.jobs + [j]);
            && Retains(t.jobs, id)
            && (Room(s, 2) ==> Ready(s, [JobEvent(JobAccepted, j), QueueEvent(q)], Some(receipt), at, t))
  {
    var j := NewJob(id, Prepare(s.jobs, op, parent, r), origin, now);
    assert (s.jobs + [j])[|s.jobs|].id == id;
    if Room(s, 2) {
      CreateStep(s, op, parent, r, id, origin, now, at, receipt);
    }
  }

  /** The job with this id is recorded as `j`. */
  predicate RecordedAs(jobs: seq<Job>, id: Id, j: Job) {
    forall x: seq<Job> {:trigger Find(x, id)} | x == jobs :: Find(x, id) >= 0 && x[Find(x, id)] == j
  }

  /** The job is recorded as running since `now`. */
  predicate RunsSince(jobs: seq<Job>, id: Id, now: Time) {
    forall x: seq<Job> {:trigger Find(x, id)} | x == jobs ::
      Find(x, id) >= 0 && x[Find(x, id)].state.Running? && x[Find(x, id)].startedAt == Some(now)
  }

  lemma StartRecorded(jobs: seq<Job>, id: Id, now: Time)
    requires Find(jobs, id) >= 0
    ensures RunsSince(jobs[Find(jobs, id) := Started(jobs[Find(jobs, id)], now)], id, now)
  {
    FindSameIds(jobs, jobs[Find(jobs, id) := Started(jobs[Find(jobs, id)], now)], id);
  }

  /** A finished record stays as it is. */
  lemma FinishedStays(a: seq<Job>, b: seq<Job>, id: Id, j: Job)
    requires RecordedAs(a, id, j) && Terminal(j.state) && Grew(a, b)
    requires forall i, k | 0 <= i < k < |b| :: b[i].id != b[k].id
    ensures RecordedAs(b, id, j)
  {
    assert Grows(a, b) && Find(a, id) >= 0;
    var i := Find(a, id);
    assert Evolves(a[i], b[i]);
    assert Find(b, id) == i;
  }

  lemma IdsUnique(s: Snapshot)
    requires Good(s)
    ensures UniqueIds(s.jobs)
  {
    assert Consistent(s);
  }

  /** The record a replacement of the active job leaves. */
  lemma ReplacedRecord(jobs: seq<Job>, id: Id, j: Job)
    requires Find(jobs, id) >= 0 && j.id == id
    ensures RecordedAs(jobs[Find(jobs, id) := j], id, j)
  {
    FindSameIds(jobs, jobs[Find(jobs, id) := j], id);
  }
}
