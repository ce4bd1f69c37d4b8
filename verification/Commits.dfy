/** The transactions the worker builds (internal/core/worker.go), and the proof that the
    reducer accepts each of them in every state the worker can build it in. */
module Commits {
  import opened Utf8
  import opened Contract
  import opened Legible
  import opened Reducer
  import opened History

  // ---- building ----

  function JobEvent(kind: EventKind, j: Job): Event {
    Event(Cursor([], 0), ZeroTime, kind, j.id, Some(j), None, None)
  }

  function QueueEvent(q: QueueState): Event {
    Event(Cursor([], 0), ZeroTime, QueueChanged, [], None, None, Some(q))
  }

  function OutputEvent(id: Id, offset: nat, text: Text): Event {
    Event(Cursor([], 0), ZeroTime, JobOutput, id, None, Some(OutputDelta(offset, text)), None)
  }

  function Stamp(c: Cursor, k: nat, at: Time, e: Event): Event {
    e.(cursor := Cursor(c.storeId, c.sequence + k + 1), at := at)
  }

  /** `commit` numbers the events after the current cursor and stamps them. */
  function Build(s: Snapshot, es: seq<Event>, receipt: Option<Receipt>, at: Time): Commit {
    Commit(1, seq(|es|, k requires 0 <= k < |es| => Stamp(s.cursor, k, at, es[k])), receipt)
  }

  function After(s: Snapshot, n: nat, q: QueueState, jobs: seq<Job>): Snapshot {
    Snapshot(Cursor(s.cursor.storeId, s.cursor.sequence + n), q, jobs)
  }

  /** A transaction states the queue at most once. */
  ghost predicate OneQueue(es: seq<Event>) {
    forall i, k | 0 <= i < k < |es| :: es[i].queue.None? || es[k].queue.None?
  }

  predicate Ticks(at: Time) { at.At? }

  /** Numbering leaves identities alone. */
  lemma {:induction false} BuiltIds(s: Snapshot, es: seq<Event>, receipt: Option<Receipt>, at: Time)
    requires forall k | 0 <= k < |es| :: LegibleId(es[k])
    ensures LegibleIds(Build(s, es, receipt, at).events)
  {
    var c := Build(s, es, receipt, at);
    forall e | e in c.events ensures LegibleId(e) {
      var k :| 0 <= k < |c.events| && c.events[k] == e;
      assert LegibleId(es[k]);
    }
  }

  lemma ApplyOne(f: Fold, e: Event)
    ensures ApplyEvents(f, [e]) == ApplyEvent(f, e)
  {
    assert [e][..0] == [];
  }

  lemma ApplyLast(f: Fold, es: seq<Event>, e: Event)
    requires ApplyEvents(f, es).Some?
    ensures ApplyEvents(f, es + [e]) == ApplyEvent(ApplyEvents(f, es).value, e)
  {
    assert (es + [e])[..|es|] == es;
  }

  lemma ApplyTwo(f: Fold, a: Event, b: Event)
    requires ApplyEvent(f, a).Some?
    ensures ApplyEvents(f, [a, b]) == ApplyEvent(ApplyEvent(f, a).value, b)
  {
    ApplyOne(f, a);
    ApplyLast(f, [a], b);
    assert [a] + [b] == [a, b];
  }

  lemma QueueEventAccepted(f: Fold, q: QueueState, e: Event)
    requires e.kind.QueueChanged? && e.queue == Some(q) && e.job.None? && e.output.None? && e.jobId == []
    requires NextCursor(f.snap.cursor, e) && q.maxPending == MAX_PENDING && LegibleQueue(q)
    ensures ApplyEvent(f, e) == Some(f.(snap := f.snap.(queue := q, cursor := e.cursor)))
  {
    QueueSame(q);
  }

  /** A replacement followed by a queue state is accepted once the replacement is
      allowed and the queue describes the resulting jobs. */
  lemma ReplacementAccepted(s: Snapshot, i: nat, j: Job, kind: EventKind, q: QueueState, at: Time)
    requires Sound(s) && i < |s.jobs| && s.jobs[i].id == j.id
    requires kind == JobStateChanged || kind == JobResult
    requires RecordChecked(j) && ChangeOk(s.queue, s.jobs[i], j, kind) && Readable(j) && UniqueIds(s.jobs)
    requires q.maxPending == MAX_PENDING && QueueMatchesJobs(After(s, 2, q, s.jobs[i := j]))
    requires s.cursor.sequence + 2 <= MAX_UINT64 && Ticks(at)
    ensures ApplyCommit(s, Build(s, [JobEvent(kind, j), QueueEvent(q)], None, at))
            == Some(After(s, 2, q, s.jobs[i := j]))
  {
    var c := Build(s, [JobEvent(kind, j), QueueEvent(q)], None, at);
    var a, b := Stamp(s.cursor, 0, at, JobEvent(kind, j)), Stamp(s.cursor, 1, at, QueueEvent(q));
    assert c.events == [a, b];
    assert s.jobs[i].id != [];
    assert Find(s.jobs, j.id) == i;
    CloneSame(j);
    ReadableReplaced(s.jobs, i, j);
    MatchesLegible(After(s, 2, q, s.jobs[i := j]));
    var f := Fold(s, []);
    assert ApplyEvent(f, a) == Some(f.(snap := s.(jobs := s.jobs[i := j], cursor := a.cursor)));
    QueueEventAccepted(ApplyEvent(f, a).value, q, b);
    ApplyTwo(f, a, b);
  }

  // ---- queue bookkeeping ----

  function RemoveFirst(ids: seq<Id>, id: Id): seq<Id> {
    if ids == [] then [] else if ids[0] == id then ids[1..] else [ids[0]] + RemoveFirst(ids[1..], id)
  }

  lemma {:induction false} RemoveFirstAppend(ids: seq<Id>, last: Id, id: Id)
    ensures id in ids ==> RemoveFirst(ids + [last], id) == RemoveFirst(ids, id) + [last]
    ensures id !in ids && last == id ==> RemoveFirst(ids + [last], id) == ids
  {
    if ids != [] {
      assert (ids + [last])[1..] == ids[1..] + [last];
      RemoveFirstAppend(ids[1..], last, id);
    }
  }

  lemma {:induction false} QueuedIdsMember(jobs: seq<Job>, id: Id)
    ensures id in QueuedIds(jobs) <==> exists k :: 0 <= k < |jobs| && jobs[k].state.Queued? && jobs[k].id == id
  {
    if jobs != [] {
      var init := jobs[..|jobs| - 1];
      QueuedIdsMember(init, id);
      if exists k :: 0 <= k < |jobs| && jobs[k].state.Queued? && jobs[k].id == id {
        var k :| 0 <= k < |jobs| && jobs[k].state.Queued? && jobs[k].id == id;
        if k < |init| {
          assert init[k].state.Queued?;
        }
      }
      if id in QueuedIds(init) {
        var k :| 0 <= k < |init| && init[k].state.Queued? && init[k].id == id;
        assert jobs[k].state.Queued?;
      }
    }
  }

  lemma {:induction false} QueuedIdsReplaced(jobs: seq<Job>, i: nat, j: Job)
    requires i < |jobs| && jobs[i].id == j.id && !j.state.Queued? && UniqueIds(jobs)
    ensures QueuedIds(jobs[i := j])
            == if jobs[i].state.Queued? then RemoveFirst(QueuedIds(jobs), j.id) else QueuedIds(jobs)
  {
    var n := |jobs| - 1;
    var init, last := jobs[..n], jobs[n];
    QueuedIdsMember(init, j.id);
    if i < n {
      assert jobs[i := j][..n] == init[i := j];
      QueuedIdsReplaced(init, i, j);
      assert jobs[i].state.Queued? ==> init[i].state.Queued?;
      QueuedIdsShifted(QueuedIds(init), last, j.id, jobs[i].state.Queued?);
    } else {
      assert jobs[i := j][..n] == init;
      RemoveFirstAppend(QueuedIds(init), j.id, j.id);
    }
  }

  /** Removing an id commutes with a later job's contribution. */
  lemma {:induction false} QueuedIdsShifted(ids: seq<Id>, last: Job, id: Id, listed: bool)
    requires last.id != id && (listed ==> id in ids)
    ensures var more := if last.state.Queued? then [last.id] else [];
            (if listed then RemoveFirst(ids, id) else ids) + more
            == if listed then RemoveFirst(ids + more, id) else ids + more
  {
    RemoveFirstAppend(ids, last.id, id);
    assert ids + [] == ids && RemoveFirst(ids, id) + [] == RemoveFirst(ids, id);
  }

  /** Exactly one job executes, the one at `i`. */
  ghost predicate ActiveAt(jobs: seq<Job>, i: nat) {
    i < |jobs| && Executing(jobs[i].state) && forall k | 0 <= k < |jobs| && k != i :: !Executing(jobs[k].state)
  }

  ghost predicate Idle(jobs: seq<Job>) { forall k | 0 <= k < |jobs| :: !Executing(jobs[k].state) }

  ghost predicate Named(jobs: seq<Job>) { forall k | 0 <= k < |jobs| :: jobs[k].id != [] }

  lemma {:induction false} ScanIdle(jobs: seq<Job>)
    requires Idle(jobs)
    ensures ScanActive(jobs) == Some([])
  {
    if jobs != [] {
      ScanIdle(jobs[..|jobs| - 1]);
    }
  }

  lemma {:induction false} ScanActiveAt(jobs: seq<Job>, i: nat)
    requires ActiveAt(jobs, i)
    ensures ScanActive(jobs) == Some(jobs[i].id)
  {
    var init := jobs[..|jobs| - 1];
    if i < |init| {
      ScanActiveAt(init, i);
    } else {
      ScanIdle(init);
    }
  }

  lemma {:induction false} ScanFound(jobs: seq<Job>)
    requires Named(jobs) && ScanActive(jobs).Some?
    ensures ScanActive(jobs).value == [] ==> Idle(jobs)
    ensures ScanActive(jobs).value != [] ==>
              exists i :: 0 <= i < |jobs| && ActiveAt(jobs, i) && jobs[i].id == ScanActive(jobs).value
  {
    if jobs != [] {
      var n := |jobs| - 1;
      var init := jobs[..n];
      ScanFound(init);
      if Executing(jobs[n].state) {
        assert ActiveAt(jobs, n);
      } else if ScanActive(init).value != [] {
        var i :| 0 <= i < |init| && ActiveAt(init, i) && init[i].id == ScanActive(init).value;
        assert ActiveAt(jobs, i);
      }
    }
  }

  /** A queue that describes jobs of UTF-8 texts holds only such texts. */
  lemma {:induction false} MatchesLegible(s: Snapshot)
    requires QueueMatchesJobs(s) && ReadableJobs(s.jobs) && Named(s.jobs)
    ensures LegibleQueue(s.queue)
  {
    forall k | 0 <= k < |s.queue.pending| ensures Wellformed(s.queue.pending[k]) {
      QueuedIdsMember(s.jobs, s.queue.pending[k]);
      var i :| 0 <= i < |s.jobs| && s.jobs[i].id == s.queue.pending[k];
      ReadableId(s.jobs, i);
    }
    ScanFound(s.jobs);
    if s.queue.active.Some? {
      var i :| 0 <= i < |s.jobs| && ActiveAt(s.jobs, i) && s.jobs[i].id == s.queue.active.value;
      ReadableId(s.jobs, i);
    }
  }

  /** The copy of the queue the reducer makes first changes nothing between transactions. */
  lemma {:induction false} QueueOwn(s: Snapshot)
    requires Steady(s)
    ensures CloneQueue(s.queue) == s.queue
  {
    assert forall k | 0 <= k < |s.jobs| :: JobOk(s.jobs[k]);
    MatchesLegible(s);
    QueueSame(s.queue);
  }

  lemma ReadableId(jobs: seq<Job>, i: nat)
    requires ReadableJobs(jobs) && i < |jobs|
    ensures Wellformed(jobs[i].id)
  {
    assert Readable(jobs[i]);
    assert LegibleJob(jobs[i]);
  }

  /** In a consistent snapshot the active job is the only executing one. */
  lemma ActiveIndex(s: Snapshot)
    requires Consistent(s)
    ensures s.queue.active.None? ==> Idle(s.jobs)
    ensures s.queue.active.Some? ==>
              var i := Find(s.jobs, s.queue.active.value);
              i >= 0 && ActiveAt(s.jobs, i) && s.queue.active.value != []
  {
    ScanFound(s.jobs);
    if s.queue.active.Some? {
      var k :| 0 <= k < |s.jobs| && ActiveAt(s.jobs, k) && s.jobs[k].id == s.queue.active.value;
      assert Find(s.jobs, s.queue.active.value) == k;
    }
  }

  /** A pending id names a queued job, and the first one the earliest queued job. */
  lemma PendingIndex(s: Snapshot, id: Id)
    requires Consistent(s) && id in s.queue.pending
    ensures var i := Find(s.jobs, id);
            i >= 0 && s.jobs[i].state.Queued?
  {
    QueuedIdsMember(s.jobs, id);
    var k :| 0 <= k < |s.jobs| && s.jobs[k].state.Queued? && s.jobs[k].id == id;
    assert Find(s.jobs, id) == k;
  }

  lemma {:induction false} FirstQueued(jobs: seq<Job>, i: nat)
    requires UniqueIds(jobs) && i < |jobs| && jobs[i].state.Queued?
    requires QueuedIds(jobs) != [] && QueuedIds(jobs)[0] == jobs[i].id
    ensures forall k | 0 <= k < i :: !jobs[k].state.Queued?
  {
    var n := |jobs| - 1;
    var init := jobs[..n];
    if i < n {
      QueuedIdsMember(init, jobs[i].id);
      assert init[i].state.Queued?;
      FirstQueued(init, i);
    } else {
      QueuedIdsMember(init, jobs[i].id);
      assert QueuedIds(init) == [];
      forall k | 0 <= k < i ensures !jobs[k].state.Queued? {
        QueuedIdsMember(init, init[k].id);
      }
    }
  }

  /** The queue that describes the jobs after one of them was replaced. */
  function QueueAfter(q: QueueState, was: Job, j: Job): QueueState {
    q.(pending := if was.state.Queued? then RemoveFirst(q.pending, j.id) else q.pending,
       active := if Executing(j.state) then Some(j.id) else if Executing(was.state) then None else q.active)
  }

  lemma {:induction false} RemoveFirstShorter(ids: seq<Id>, id: Id)
    ensures |RemoveFirst(ids, id)| <= |ids|
    ensures forall k | 0 <= k < |RemoveFirst(ids, id)| :: RemoveFirst(ids, id)[k] in ids
  {
    if ids != [] {
      RemoveFirstShorter(ids[1..], id);
    }
  }

  lemma ReplacedActive(s: Snapshot, i: nat, j: Job)
    requires Consistent(s) && i < |s.jobs| && s.jobs[i].id == j.id
    requires Executing(j.state) && !Executing(s.jobs[i].state) ==> s.queue.active.None?
    ensures var a := ScanActive(s.jobs[i := j]);
            var q := QueueAfter(s.queue, s.jobs[i], j);
            a.Some? && (a.value == [] <==> q.active.None?) && (q.active.Some? ==> q.active.value == a.value)
  {
    ActiveIndex(s);
    var jobs := s.jobs[i := j];
    if Executing(j.state) {
      assert ActiveAt(jobs, i);
      ScanActiveAt(jobs, i);
    } else if Executing(s.jobs[i].state) || s.queue.active.None? {
      ScanIdle(jobs);
    } else {
      var k := Find(s.jobs, s.queue.active.value);
      assert ActiveAt(jobs, k);
      ScanActiveAt(jobs, k);
    }
  }

  lemma ReplacedQueue(s: Snapshot, i: nat, j: Job)
    requires Consistent(s) && i < |s.jobs| && s.jobs[i].id == j.id && !j.state.Queued?
    requires Executing(j.state) && !Executing(s.jobs[i].state) ==> s.queue.active.None?
    ensures QueueMatchesJobs(After(s, 2, QueueAfter(s.queue, s.jobs[i], j), s.jobs[i := j]))
  {
    ReplacedActive(s, i, j);
    QueuedIdsReplaced(s.jobs, i, j);
    RemoveFirstShorter(s.queue.pending, j.id);
  }

  /** The record checks only look at fields a replacement keeps. */
  lemma RecordCarries(was: Job, j: Job)
    requires RecordChecked(was) && SameIdentity(was, j)
    ensures RecordChecked(j)
  {
    assert JobRecordOk(was);
  }

  /** A lifecycle transaction: one job replaced, and the queue that follows from it. */
  function Lifecycle(s: Snapshot, was: Job, j: Job, at: Time): Commit {
    Build(s, [JobEvent(if Terminal(j.state) then JobResult else JobStateChanged, j), QueueEvent(QueueAfter(s.queue, was, j))],
          None, at)
  }

  function AfterLifecycle(s: Snapshot, i: nat, j: Job): Snapshot
    requires i < |s.jobs|
  {
    After(s, 2, QueueAfter(s.queue, s.jobs[i], j), s.jobs[i := j])
  }

  /** Everything the worker must respect when it replaces job `i` by `j`. */
  predicate Allowed(s: Snapshot, i: nat, j: Job) {
    && i < |s.jobs| && s.jobs[i].id == j.id
    && ChangeOk(s.queue, s.jobs[i], j, if Terminal(j.state) then JobResult else JobStateChanged)
  }

  lemma LifecycleAccepted(s: Snapshot, i: nat, j: Job, at: Time)
    requires Consistent(s) && Allowed(s, i, j) && Readable(j) && s.cursor.sequence + 2 <= MAX_UINT64 && Ticks(at)
    ensures ApplyCommit(s, Lifecycle(s, s.jobs[i], j, at)) == Some(AfterLifecycle(s, i, j))
    ensures Consistent(AfterLifecycle(s, i, j)) && Grows(s.jobs, s.jobs[i := j])
  {
    assert JobOk(s.jobs[i]);
    RecordCarries(s.jobs[i], j);
    ReplacedQueue(s, i, j);
    ReplacementAccepted(s, i, j, if Terminal(j.state) then JobResult else JobStateChanged,
                        QueueAfter(s.queue, s.jobs[i], j), at);
    BuiltIds(s, [JobEvent(if Terminal(j.state) then JobResult else JobStateChanged, j), QueueEvent(QueueAfter(s.queue, s.jobs[i], j))], None, at);
    CommitKeeps(s, Lifecycle(s, s.jobs[i], j, at));
  }

  // ---- the worker's transactions ----

  predicate CanDispatch(s: Snapshot) { !s.queue.paused && s.queue.active.None? && s.queue.pending != [] }

  function Started(j: Job, now: Time): Job { j.(state := Running, startedAt := Some(now)) }

  lemma {:induction false} StartedReadable(j: Job, now: Time)
    requires Readable(j)
    ensures Readable(Started(j, now))
  {
    assert LegibleJob(j);
  }

  /** The first pending job can always be started. */
  lemma DispatchAllowed(s: Snapshot, now: Time)
    requires Consistent(s) && CanDispatch(s)
    ensures var i := Find(s.jobs, s.queue.pending[0]);
            && i >= 0 && s.jobs[i].state.Queued?
            && Allowed(s, i, Started(s.jobs[i], now))
            && QueueAfter(s.queue, s.jobs[i], Started(s.jobs[i], now))
               == s.queue.(pending := s.queue.pending[1..], active := Some(s.queue.pending[0]))
  {
    PendingIndex(s, s.queue.pending[0]);
    var i := Find(s.jobs, s.queue.pending[0]);
    assert JobOk(s.jobs[i]);
  }

  /** How the worker ends an executing job once its backend call has returned. */
  function Finished(j: Job, state: JobState, error: Option<Fault>, result: Result, now: Time): Job {
    j.(state := state, finishedAt := Some(now), error := error, result := result.(text := j.result.text))
  }

  predicate Outcome(from: JobState, to: JobState, error: Option<Fault>) {
    && Terminal(to) && Transition(from, to)
    && (to.Succeeded? <==> error.None?) && (error.Some? ==> !error.value.code.NoCode?)
  }

  /** The active job can always be finished, whatever metadata the backend reported. */
  lemma FinishAllowed(s: Snapshot, state: JobState, error: Option<Fault>, result: Result, now: Time)
    requires Consistent(s) && s.queue.active.Some?
    requires forall i | 0 <= i < |s.jobs| && s.jobs[i].id == s.queue.active.value :: Outcome(s.jobs[i].state, state, error)
    ensures var i := Find(s.jobs, s.queue.active.value);
            && i >= 0 && Executing(s.jobs[i].state)
            && var j := Finished(s.jobs[i], state, error, result, now);
               Allowed(s, i, j) && QueueAfter(s.queue, s.jobs[i], j) == s.queue.(active := None)
  {
    ActiveIndex(s);
    var i := Find(s.jobs, s.queue.active.value);
    assert JobOk(s.jobs[i]);
  }

  function CancelledJob(j: Job, error: Fault, now: Time): Job {
    if j.state.Queued? then j.(state := Cancelled, finishedAt := Some(now), error := Some(error))
    else j.(state := Cancelling)
  }

  /** A queued or running job can always be cancelled. */
  lemma CancelAllowed(s: Snapshot, i: nat, error: Fault, now: Time)
    requires Consistent(s) && i < |s.jobs| && (s.jobs[i].state.Queued? || s.jobs[i].state.Running?)
    requires !error.code.NoCode?
    ensures var j := CancelledJob(s.jobs[i], error, now);
            && Allowed(s, i, j)
            && QueueAfter(s.queue, s.jobs[i], j)
               == (if s.jobs[i].state.Queued? then s.queue.(pending := RemoveFirst(s.queue.pending, j.id)) else s.queue)
            && (s.jobs[i].state.Running? ==> s.queue.active == Some(s.jobs[i].id))
  {
    ActiveIndex(s);
    assert JobOk(s.jobs[i]);
  }

  // ---- acceptance of a new job ----

  function Enqueued(q: QueueState, id: Id): QueueState { q.(pending := q.pending + [id]) }

  function CreateCommit(s: Snapshot, j: Job, receipt: Receipt, at: Time): Commit {
    Build(s, [JobEvent(JobAccepted, j), QueueEvent(Enqueued(s.queue, j.id))], Some(receipt), at)
  }

  lemma QueuedIdsExtended(jobs: seq<Job>, j: Job)
    ensures QueuedIds(jobs + [j]) == QueuedIds(jobs) + (if j.state.Queued? then [j.id] else [])
    ensures !Executing(j.state) ==> ScanActive(jobs + [j]) == ScanActive(jobs)
  {
    assert (jobs + [j])[..|jobs|] == jobs;
  }

  /** A new job as some caller describes it, with the identity it will be stored under. */
  function RawCreate(s: Snapshot, raw: Job, receipt: Receipt, at: Time): Commit {
    Build(s, [JobEvent(JobAccepted, raw), QueueEvent(Enqueued(s.queue, CloneJob(raw).id))], Some(receipt), at)
  }

  lemma {:induction false} NewEventAccepted(s: Snapshot, raw: Job, e: Event)
    requires e.kind.JobAccepted? && e.jobId == raw.id && e.job == Some(raw) && e.output.None? && e.queue.None?
    requires NextCursor(s.cursor, e) && raw.id != [] && Find(s.jobs, raw.id) < 0
    requires RecordChecked(CloneJob(raw)) && AcceptChecked(s.jobs, [], CloneJob(raw))
    ensures ApplyEvent(Fold(s, []), e) == Some(Fold(s.(jobs := s.jobs + [CloneJob(raw)], cursor := e.cursor), CloneJob(raw).id))
  {
  }

  /** The queue with a new job behind it describes the jobs with that job. */
  lemma {:induction false} EnqueuedMatches(s: Snapshot, j: Job)
    requires Steady(s) && j.id != [] && j.state.Queued? && Readable(j) && |s.queue.pending| < MAX_PENDING
    ensures var q := Enqueued(s.queue, j.id);
            QueueMatchesJobs(After(s, 2, q, s.jobs + [j])) && LegibleQueue(q) && q.maxPending == MAX_PENDING
  {
    var q := Enqueued(s.queue, j.id);
    QueuedIdsExtended(s.jobs, j);
    ReadableExtended(s.jobs, j);
    assert forall k | 0 <= k < |s.jobs| :: JobOk(s.jobs[k]);
    MatchesLegible(After(s, 2, q, s.jobs + [j]));
  }

  lemma {:induction false} RawAccepted(s: Snapshot, raw: Job, receipt: Receipt, at: Time)
    requires Steady(s) && s.cursor.sequence + 2 <= MAX_UINT64 && Ticks(at)
    requires raw.id != [] && Find(s.jobs, raw.id) < 0 && RecordChecked(CloneJob(raw))
    requires AcceptChecked(s.jobs, [], CloneJob(raw)) && CloneJob(raw).state.Queued?
    requires |s.queue.pending| < MAX_PENDING && ReceiptOk(Some(receipt), CloneJob(raw).id)
    ensures var j := CloneJob(raw);
            ApplyCommit(s, RawCreate(s, raw, receipt, at)) == Some(After(s, 2, Enqueued(s.queue, j.id), s.jobs + [j]))
  {
    var c, j := RawCreate(s, raw, receipt, at), CloneJob(raw);
    var q := Enqueued(s.queue, j.id);
    var a, b := Stamp(s.cursor, 0, at, JobEvent(JobAccepted, raw)), Stamp(s.cursor, 1, at, QueueEvent(q));
    assert c.events == [a, b];
    CloneShares(raw);
    CheckedReadable(raw);
    EnqueuedMatches(s, j);
    var f := Fold(s, []);
    NewEventAccepted(s, raw, a);
    QueueEventAccepted(Fold(s.(jobs := s.jobs + [j], cursor := a.cursor), j.id), q, b);
    ApplyTwo(f, a, b);
  }

  lemma {:induction false} CreateAccepted(s: Snapshot, j: Job, receipt: Receipt, at: Time)
    requires Consistent(s) && s.cursor.sequence + 2 <= MAX_UINT64 && Ticks(at)
    requires j.id != [] && RecordChecked(j) && AcceptOk(s.jobs, [], j) && |s.queue.pending| < MAX_PENDING
    requires Find(s.jobs, j.id) < 0 && Readable(j) && ReceiptOk(Some(receipt), j.id)
    ensures ApplyCommit(s, CreateCommit(s, j, receipt, at)) == Some(After(s, 2, Enqueued(s.queue, j.id), s.jobs + [j]))
    ensures Consistent(After(s, 2, Enqueued(s.queue, j.id), s.jobs + [j]))
  {
    CloneSame(j);
    RawAccepted(s, j, receipt, at);
    assert LegibleJob(j);
    BuiltIds(s, [JobEvent(JobAccepted, j), QueueEvent(Enqueued(s.queue, j.id))], Some(receipt), at);
    CommitKeeps(s, CreateCommit(s, j, receipt, at));
  }

  // ---- output and queue controls ----

  function OutputCommit(s: Snapshot, i: nat, chunk: Text, at: Time): Commit
    requires i < |s.jobs|
  {
    Build(s, [OutputEvent(s.jobs[i].id, |s.jobs[i].result.text|, chunk)], None, at)
  }

  lemma {:induction false} QueuedIdsSameStates(a: seq<Job>, b: seq<Job>)
    requires |a| == |b| && forall k | 0 <= k < |a| :: a[k].id == b[k].id && a[k].state == b[k].state
    ensures QueuedIds(a) == QueuedIds(b) && ScanActive(a) == ScanActive(b)
  {
    if a != [] {
      QueuedIdsSameStates(a[..|a| - 1], b[..|b| - 1]);
    }
  }

  lemma {:induction false} OutputEventAccepted(s: Snapshot, i: nat, o: OutputDelta, e: Event)
    requires e.kind.JobOutput? && i < |s.jobs| && e.jobId == s.jobs[i].id && e.output == Some(o) && e.job.None? && e.queue.None?
    requires NextCursor(s.cursor, e) && Find(s.jobs, e.jobId) == i && OutputChecked(s.jobs[i], o)
    ensures ApplyEvent(Fold(s, []), e) ==
            Some(Fold(s.(jobs := s.jobs[i := Extended(s.jobs[i], o.text)], cursor := e.cursor), []))
  {
  }

  lemma OutputAccepted(s: Snapshot, i: nat, chunk: Text, at: Time)
    requires Consistent(s) && i < |s.jobs| && OutputOk(s.jobs[i], OutputDelta(|s.jobs[i].result.text|, chunk))
    requires s.cursor.sequence < MAX_UINT64 && Ticks(at)
    ensures ApplyCommit(s, OutputCommit(s, i, chunk, at))
            == Some(After(s, 1, s.queue, s.jobs[i := Extended(s.jobs[i], chunk)]))
    ensures Consistent(After(s, 1, s.queue, s.jobs[i := Extended(s.jobs[i], chunk)]))
    ensures Grows(s.jobs, s.jobs[i := Extended(s.jobs[i], chunk)])
  {
    var c := OutputCommit(s, i, chunk, at);
    var a := Stamp(s.cursor, 0, at, OutputEvent(s.jobs[i].id, |s.jobs[i].result.text|, chunk));
    assert c.events == [a];
    assert Find(s.jobs, s.jobs[i].id) == i;
    OutputEventAccepted(s, i, OutputDelta(|s.jobs[i].result.text|, chunk), a);
    ApplyOne(Fold(s, []), a);
    QueuedIdsSameStates(s.jobs, s.jobs[i := Extended(s.jobs[i], chunk)]);
    BuiltIds(s, [OutputEvent(s.jobs[i].id, |s.jobs[i].result.text|, chunk)], None, at);
    CommitKeeps(s, c);
  }

  function PauseCommit(s: Snapshot, paused: bool, at: Time): Commit {
    Build(s, [QueueEvent(s.queue.(paused := paused))], None, at)
  }

  lemma PauseAccepted(s: Snapshot, paused: bool, at: Time)
    requires Consistent(s) && s.cursor.sequence < MAX_UINT64 && Ticks(at)
    ensures ApplyCommit(s, PauseCommit(s, paused, at)) == Some(After(s, 1, s.queue.(paused := paused), s.jobs))
    ensures Consistent(After(s, 1, s.queue.(paused := paused), s.jobs))
  {
    var c := PauseCommit(s, paused, at);
    var q := s.queue.(paused := paused);
    var a := Stamp(s.cursor, 0, at, QueueEvent(q));
    assert c.events == [a];
    MatchesLegible(s);
    QueueEventAccepted(Fold(s, []), q, a);
    ApplyOne(Fold(s, []), a);
    BuiltIds(s, [QueueEvent(q)], None, at);
    CommitKeeps(s, c);
  }

  // ---- first in, first out ----

  /** No job that ever started was accepted after a job that still waits. */
  ghost predicate Fifo(jobs: seq<Job>) {
    forall i, k | 0 <= i < k < |jobs| && jobs[i].state.Queued? :: jobs[k].startedAt.None?
  }

  /** Every lifecycle transaction of the worker keeps acceptance order: a start takes the
      earliest waiting job and nothing goes back to waiting. */
  lemma LifecycleKeepsFifo(s: Snapshot, i: nat, j: Job)
    requires Consistent(s) && Allowed(s, i, j) && Fifo(s.jobs)
    requires j.startedAt.Some? ==> j.state.Running? || s.jobs[i].startedAt.Some?
    ensures Fifo(s.jobs[i := j])
  {
    if j.state.Running? {
      FirstQueued(s.jobs, i);
    }
  }

  /** A transaction that rewrites the queue first, starts the second waiting job, and
      then describes the result. */
  function OvertakingCommit(s: Snapshot, was: Job, now: Time, at: Time): Commit {
    var j := Started(was, now);
    Build(s, [QueueEvent(s.queue.(pending := [j.id])), JobEvent(JobStateChanged, j),
              QueueEvent(QueueAfter(s.queue, was, j))], None, at)
  }

  lemma ApplyThree(f: Fold, a: Event, b: Event, c: Event)
    requires ApplyEvent(f, a).Some? && ApplyEvent(ApplyEvent(f, a).value, b).Some?
    ensures ApplyEvents(f, [a, b, c]) == ApplyEvent(ApplyEvent(ApplyEvent(f, a).value, b).value, c)
  {
    ApplyTwo(f, a, b);
    ApplyLast(f, [a, b], c);
    assert [a, b] + [c] == [a, b, c];
  }

  /** The checker alone does not enforce first in, first out: it compares a start with the
      queue as rewritten inside the transaction. Whenever two jobs wait it accepts a
      transaction that starts the second; only the worker's own transactions never do that. */
  lemma OvertakingAccepted(s: Snapshot, k: nat, now: Time, at: Time)
    requires Consistent(s) && CanDispatch(s) && k < |s.jobs| && s.jobs[k].state.Queued?
    requires s.queue.pending[0] != s.jobs[k].id
    requires s.cursor.sequence + 3 <= MAX_UINT64 && Ticks(at)
    ensures ApplyCommit(s, OvertakingCommit(s, s.jobs[k], now, at)).Some?
    ensures !Fifo(ApplyCommit(s, OvertakingCommit(s, s.jobs[k], now, at)).value.jobs)
  {
    var was, j := s.jobs[k], Started(s.jobs[k], now);
    var c, q0, q1 := OvertakingCommit(s, was, now, at), s.queue.(pending := [j.id]), QueueAfter(s.queue, was, j);
    var e0, e1, e2 := Stamp(s.cursor, 0, at, QueueEvent(q0)), Stamp(s.cursor, 1, at, JobEvent(JobStateChanged, j)),
                      Stamp(s.cursor, 2, at, QueueEvent(q1));
    assert c.events == [e0, e1, e2];
    var f := Fold(s, []);
    StartedReadable(was, now);
    CloneSame(j);
    ReadableId(s.jobs, k);
    MatchesLegible(s);
    QueueEventAccepted(f, q0, e0);
    var g := ApplyEvent(f, e0).value;
    assert JobOk(was);
    RecordCarries(was, j);
    assert Find(s.jobs, j.id) == k;
    assert ApplyEvent(g, e1) == Some(g.(snap := g.snap.(jobs := s.jobs[k := j], cursor := e1.cursor)));
    var h := ApplyEvent(g, e1).value;
    ReplacedQueue(s, k, j);
    ReadableReplaced(s.jobs, k, j);
    MatchesLegible(After(s, 2, q1, s.jobs[k := j]));
    QueueEventAccepted(h, q1, e2);
    ApplyThree(f, e0, e1, e2);
    OvertakenWaits(s, k, j);
  }

  lemma OvertakenWaits(s: Snapshot, k: nat, j: Job)
    requires Consistent(s) && CanDispatch(s) && k < |s.jobs| && s.jobs[k].state.Queued?
    requires s.queue.pending[0] != s.jobs[k].id && j.id == s.jobs[k].id && j.startedAt.Some?
    ensures !Fifo(s.jobs[k := j])
  {
    PendingIndex(s, s.queue.pending[0]);
    var i := Find(s.jobs, s.queue.pending[0]);
    FirstQueued(s.jobs, i);
    assert s.jobs[k := j][i].state.Queued? && s.jobs[k := j][k].startedAt.Some?;
  }
}
