/** What holds in every snapshot some run of accepted transactions leads to, and how
    snapshots of one run relate. */
module History {
  import opened Utf8
  import opened Contract
  import opened Legible
  import opened Reducer

  // ---- invariants of a job list ----

  ghost predicate UniqueIds(jobs: seq<Job>) {
    forall i, k | 0 <= i < k < |jobs| :: jobs[i].id != jobs[k].id
  }

  /** What each lifecycle state says about the rest of the record. */
  predicate PhaseOk(j: Job) {
    && !j.state.OtherState?
    && (j.state.Queued? ==> j.startedAt.None? && j.result == EMPTY_RESULT)
    && (Executing(j.state) ==> j.startedAt.Some? && j.result == EMPTY_RESULT.(text := j.result.text))
    && (Terminal(j.state) <==> j.finishedAt.Some?)
    && (!Terminal(j.state) || j.state.Succeeded? ==> j.error.None?)
    && (Terminal(j.state) && !j.state.Succeeded? ==> j.error.Some? && !j.error.value.code.NoCode?)
  }

  ghost predicate JobOk(j: Job) { j.id != [] && RecordChecked(j) && PhaseOk(j) }

  /** Each job's instructions follow from its request and from jobs accepted before it. */
  ghost predicate Lineaged(jobs: seq<Job>) {
    forall i {:trigger InstructionsChecked(jobs[..i], jobs[i])} | 0 <= i < |jobs| :: InstructionsChecked(jobs[..i], jobs[i])
  }

  ghost predicate EachOk(jobs: seq<Job>) { forall i | 0 <= i < |jobs| :: JobOk(jobs[i]) }

  ghost predicate JobsOk(jobs: seq<Job>) { Lineaged(jobs) && EachOk(jobs) && ReadableJobs(jobs) }

  /** The part of the invariant that also holds inside a transaction. */
  ghost predicate Sound(s: Snapshot) {
    && JobsOk(s.jobs) && |s.jobs| <= MAX_JOBS
    && s.queue.maxPending == MAX_PENDING && s.cursor.sequence <= MAX_UINT64
  }

  /** The invariant of every committed snapshot. */
  ghost predicate Steady(s: Snapshot) { Sound(s) && QueueMatchesJobs(s) }

  /** The same, with every identity retained once. */
  ghost predicate Consistent(s: Snapshot) { Steady(s) && UniqueIds(s.jobs) }

  // ---- what an accepted lifecycle event says ----

  /** A JOB STARTS ONLY WHEN IT IS ITS TURN: with the queue not paused, nothing active and the job in
      front. A record carried as a result is finished, and one carried as a state is not. */
  lemma {:induction false} StartsInTurn(f: Fold, e: Event)
    requires ApplyEvent(f, e).Some? && (e.kind.JobStateChanged? || e.kind.JobResult?)
    ensures e.job.Some? && (Terminal(e.job.value.state) <==> e.kind.JobResult?)
    ensures e.job.value.state.Running? ==>
              var q := f.snap.queue;
              && !q.paused && q.active.None? && q.pending != [] && q.pending[0] == CloneJob(e.job.value).id
    ensures var i := Find(f.snap.jobs, e.jobId);
            i >= 0 && NextState(f.snap.jobs[i].state, e.job.value.state)
  {
    var i := Find(f.snap.jobs, e.jobId);
    CloneShares(e.job.value);
    assert ChangeOk(f.snap.queue, f.snap.jobs[i], CloneJob(e.job.value), e.kind);
  }

  /** The lifecycle: queued, running, cancelling, and the four ends. */
  predicate NextState(a: JobState, b: JobState) {
    if a.Queued? then b in {Running, Cancelled}
    else if a.Running? then b in {Cancelling, Succeeded, Failed, Interrupted}
    else a.Cancelling? && b in {Cancelled, Interrupted}
  }

  // ---- how jobs may change ----

  /** States that can follow a state in any number of steps. */
  predicate Later(a: JobState, b: JobState) {
    || a == b
    || (a.Queued? && (b.Running? || b.Cancelling? || Terminal(b)))
    || (a.Running? && (b.Cancelling? || Terminal(b)))
    || (a.Cancelling? && (b.Cancelled? || b.Interrupted?))
  }

  ghost predicate Evolves(a: Job, b: Job) {
    && a.id == b.id && a.request == b.request && a.instructions == b.instructions && a.lineage == b.lineage
    && a.origin == b.origin && a.createdAt == b.createdAt
    && a.result.text <= b.result.text
    && (a.startedAt.Some? ==> a.startedAt == b.startedAt)
    && Later(a.state, b.state)
    && (Terminal(a.state) ==> a == b)
  }

  /** The job list only grows and every retained job only evolves. */
  ghost predicate Grows(a: seq<Job>, b: seq<Job>) {
    |a| <= |b| && forall i | 0 <= i < |a| :: Evolves(a[i], b[i])
  }

  lemma GrowsTransitive(a: seq<Job>, b: seq<Job>, c: seq<Job>)
    requires Grows(a, b) && Grows(b, c)
    ensures Grows(a, c)
  {
    forall i | 0 <= i < |a| ensures Evolves(a[i], c[i]) {
      assert Evolves(a[i], b[i]) && Evolves(b[i], c[i]);
    }
  }

  // ---- one event keeps the invariant ----

  lemma {:induction false} FindSameIds(a: seq<Job>, b: seq<Job>, id: Id)
    requires |a| == |b| && forall k | 0 <= k < |a| :: a[k].id == b[k].id
    ensures Find(a, id) == Find(b, id)
  {
  }

  lemma FindExtended(jobs: seq<Job>, j: Job, id: Id)
    ensures Find(jobs, id) >= 0 ==> Find(jobs + [j], id) == Find(jobs, id)
  {
    assert (jobs + [j])[..|jobs|] == jobs;
  }

  lemma AcceptKeepsLineage(jobs: seq<Job>, j: Job)
    requires Lineaged(jobs) && InstructionsChecked(jobs, j)
    ensures Lineaged(jobs + [j])
  {
    var all := jobs + [j];
    forall i | 0 <= i < |all|
      ensures InstructionsChecked(all[..i], all[i])
    {
      assert all[..i] == if i < |jobs| then jobs[..i] else jobs;
      assert i < |jobs| ==> InstructionsChecked(jobs[..i], jobs[i]);
    }
  }

  lemma EachOkExtended(jobs: seq<Job>, j: Job)
    requires EachOk(jobs) && JobOk(j)
    ensures EachOk(jobs + [j])
  {
  }

  lemma EachOkReplaced(jobs: seq<Job>, k: nat, j: Job)
    requires EachOk(jobs) && k < |jobs| && JobOk(j)
    ensures EachOk(jobs[k := j])
  {
  }

  lemma ReadableExtended(jobs: seq<Job>, j: Job)
    requires ReadableJobs(jobs) && Readable(j)
    ensures ReadableJobs(jobs + [j])
  {
  }

  lemma ReadableReplaced(jobs: seq<Job>, k: nat, j: Job)
    requires ReadableJobs(jobs) && k < |jobs| && Readable(j)
    ensures ReadableJobs(jobs[k := j])
  {
  }

  /** A checked copy holds only UTF-8 texts. */
  lemma CheckedReadable(j: Job)
    requires RecordChecked(CloneJob(j))
    ensures Readable(CloneJob(j))
  {
    assert JobRecordOk(CloneJob(j));
    CloneReadable(j);
  }

  lemma AcceptKeeps(jobs: seq<Job>, accepted: Id, j: Job)
    requires JobsOk(jobs) && j.id != [] && RecordChecked(j) && AcceptOk(jobs, accepted, j) && Readable(j)
    ensures JobsOk(jobs + [j]) && Grows(jobs, jobs + [j])
  {
    AcceptKeepsLineage(jobs, j);
    EachOkExtended(jobs, j);
    ReadableExtended(jobs, j);
  }

  /** A replacement of an unfinished job with the same identity. */
  ghost predicate Replaces(was: Job, j: Job) {
    && !Terminal(was.state) && was.id == j.id && was.request == j.request
    && was.instructions == j.instructions && was.lineage == j.lineage
  }

  lemma ReplaceKeepsLineage(jobs: seq<Job>, k: nat, j: Job)
    requires Lineaged(jobs) && k < |jobs| && Replaces(jobs[k], j)
    ensures Lineaged(jobs[k := j])
  {
    var all := jobs[k := j];
    forall i | 0 <= i < |all|
      ensures InstructionsChecked(all[..i], all[i])
    {
      assert InstructionsChecked(jobs[..i], jobs[i]);
      assert ExpectedInstructions(jobs[..i], jobs[i]) == Some(jobs[i].instructions);
      if i <= k {
        assert all[..i] == jobs[..i];
      }
      if all[i].lineage.Some? {
        FindSameIds(jobs[..i], all[..i], all[i].lineage.value.parentId);
      }
    }
  }

  lemma ReplaceKeeps(jobs: seq<Job>, k: nat, j: Job)
    requires JobsOk(jobs) && k < |jobs| && Replaces(jobs[k], j) && JobOk(j) && Evolves(jobs[k], j) && Readable(j)
    ensures JobsOk(jobs[k := j]) && Grows(jobs, jobs[k := j])
  {
    ReplaceKeepsLineage(jobs, k, j);
    EachOkReplaced(jobs, k, j);
    ReadableReplaced(jobs, k, j);
  }

  lemma ChangeEvolves(q: QueueState, was: Job, j: Job, kind: EventKind)
    requires JobOk(was) && j.id == was.id && RecordChecked(j) && ChangeOk(q, was, j, kind)
    ensures Replaces(was, j) && JobOk(j) && Evolves(was, j)
  {
  }

  lemma {:induction false} ExtendedReadable(j: Job, chunk: Text)
    requires Readable(j) && Wellformed(chunk)
    ensures Readable(Extended(j, chunk))
  {
    assert LegibleJob(j);
    WellformedConcat(j.result.text, chunk);
  }

  lemma OutputEvolves(j: Job, o: OutputDelta)
    requires JobOk(j) && OutputOk(j, o) && Readable(j)
    ensures Replaces(j, Extended(j, o.text)) && JobOk(Extended(j, o.text)) && Evolves(j, Extended(j, o.text))
    ensures Readable(Extended(j, o.text))
  {
    ExtendedReadable(j, o.text);
    assert JobRecordOk(j);
    ValidConcat(j.result.text, o.text);
    assert JobRecordOk(Extended(j, o.text));
  }

  lemma ChangeKeeps(s: Snapshot, i: nat, raw: Job, kind: EventKind)
    requires Sound(s) && i < |s.jobs| && s.jobs[i].id == raw.id
    requires RecordChecked(CloneJob(raw)) && ChangeChecked(s.queue, s.jobs[i], CloneJob(raw), kind)
    ensures var jobs := s.jobs[i := CloneJob(raw)];
            JobsOk(jobs) && Grows(s.jobs, jobs) && CloneJob(raw).id == raw.id
  {
    assert Readable(s.jobs[i]);
    assert LegibleJob(s.jobs[i]);
    CloneShares(raw);
    CheckedReadable(raw);
    ChangeEvolves(s.queue, s.jobs[i], CloneJob(raw), kind);
    ReplaceKeeps(s.jobs, i, CloneJob(raw));
  }

  lemma EventKeeps(f: Fold, e: Event)
    requires Sound(f.snap) && ApplyEvent(f, e).Some?
    ensures var g := ApplyEvent(f, e).value;
            Sound(g.snap) && Grows(f.snap.jobs, g.snap.jobs)
  {
    var s := f.snap;
    var i := Find(s.jobs, e.jobId);
    match e.kind {
      case JobAccepted =>
        CloneShares(e.job.value);
        CheckedReadable(e.job.value);
        AcceptKeeps(s.jobs, f.accepted, CloneJob(e.job.value));
      case JobStateChanged => ChangeKeeps(s, i, e.job.value, e.kind);
      case JobResult => ChangeKeeps(s, i, e.job.value, e.kind);
      case JobOutput =>
        OutputEvolves(s.jobs[i], e.output.value);
        ReplaceKeeps(s.jobs, i, Extended(s.jobs[i], e.output.value.text));
      case QueueChanged => QueueCopied(e.queue.value);
      case OtherKind(_) =>
    }
  }

  lemma {:induction false} EventsKeep(f: Fold, es: seq<Event>)
    requires Sound(f.snap) && ApplyEvents(f, es).Some?
    ensures var g := ApplyEvents(f, es).value;
            Sound(g.snap) && Grows(f.snap.jobs, g.snap.jobs)
  {
    if es != [] {
      var init := es[..|es| - 1];
      EventsKeep(f, init);
      var g := ApplyEvents(f, init).value;
      EventKeeps(g, es[|es| - 1]);
      GrowsTransitive(f.snap.jobs, g.snap.jobs, ApplyEvents(f, es).value.snap.jobs);
    }
  }

  // ---- identities ----

  /** The identity a new job is stored under is not retained yet. */
  predicate FreshId(jobs: seq<Job>, e: Event) {
    e.kind.JobAccepted? && e.job.Some? ==> Find(jobs, CloneJob(e.job.value).id) < 0
  }

  /** A new job's identity is UTF-8, so that it is stored as it comes. */
  predicate LegibleId(e: Event) { e.kind.JobAccepted? && e.job.Some? ==> Wellformed(e.job.value.id) }

  ghost predicate LegibleIds(es: seq<Event>) { forall e | e in es :: LegibleId(e) }

  /** WHEN IDENTITIES STAY UNIQUE. The reducer looks a new identity up as it comes, but stores a
      copy, in which bytes that are not UTF-8 are replaced. */
  lemma {:induction false} EventUnique(f: Fold, e: Event)
    requires Sound(f.snap) && UniqueIds(f.snap.jobs) && ApplyEvent(f, e).Some?
    ensures UniqueIds(ApplyEvent(f, e).value.snap.jobs) <==> FreshId(f.snap.jobs, e)
    ensures LegibleId(e) ==> FreshId(f.snap.jobs, e)
  {
    var jobs, after := f.snap.jobs, ApplyEvent(f, e).value.snap.jobs;
    EventKeeps(f, e);
    assert forall i | 0 <= i < |jobs| :: Evolves(jobs[i], after[i]);
    if e.kind.JobAccepted? {
      CloneShares(e.job.value);
      var k := Find(jobs, CloneJob(e.job.value).id);
      assert k >= 0 ==> after[k].id == after[|jobs|].id;
    }
  }

  lemma {:induction false} UniqueGrows(a: seq<Job>, b: seq<Job>)
    requires Grows(a, b) && UniqueIds(b)
    ensures UniqueIds(a)
  {
    forall i, k | 0 <= i < k < |a| ensures a[i].id != a[k].id {
      assert Evolves(a[i], b[i]) && Evolves(a[k], b[k]);
    }
  }

  /** Identities retained once after an event were so before it. */
  lemma UniqueBefore(f: Fold, e: Event)
    requires Sound(f.snap) && ApplyEvent(f, e).Some? && UniqueIds(ApplyEvent(f, e).value.snap.jobs)
    ensures UniqueIds(f.snap.jobs) && FreshId(f.snap.jobs, e)
  {
    EventKeeps(f, e);
    UniqueGrows(f.snap.jobs, ApplyEvent(f, e).value.snap.jobs);
    EventUnique(f, e);
  }

  lemma {:induction false} EventsUnique(f: Fold, es: seq<Event>)
    requires Sound(f.snap) && UniqueIds(f.snap.jobs) && ApplyEvents(f, es).Some? && LegibleIds(es)
    ensures UniqueIds(ApplyEvents(f, es).value.snap.jobs)
  {
    if es != [] {
      var init, e := es[..|es| - 1], es[|es| - 1];
      assert forall x | x in init :: x in es;
      EventsUnique(f, init);
      EventsKeep(f, init);
      assert e in es;
      EventUnique(ApplyEvents(f, init).value, e);
    }
  }

  lemma CommitKeeps(s: Snapshot, c: Commit)
    requires Steady(s) && ApplyCommit(s, c).Some?
    ensures var t := ApplyCommit(s, c).value;
            && Steady(t) && Grows(s.jobs, t.jobs)
            && (Consistent(s) && LegibleIds(c.events) ==> Consistent(t))
  {
    EventsKeep(Fold(s, []), c.events);
    if Consistent(s) && LegibleIds(c.events) {
      EventsUnique(Fold(s, []), c.events);
    }
  }

  // ---- whole runs ----

  /** The state a sequence of transactions leads to, if every one is accepted. */
  function Replay(s: Snapshot, cs: seq<Commit>): Option<Snapshot> {
    if cs == [] then Some(s)
    else
      var t := Replay(s, cs[..|cs| - 1]);
      if t.None? then None else ApplyCommit(t.value, cs[|cs| - 1])
  }

  lemma ReplayExtended(s: Snapshot, cs: seq<Commit>, c: Commit)
    requires Replay(s, cs).Some?
    ensures Replay(s, cs + [c]) == ApplyCommit(Replay(s, cs).value, c)
  {
    assert (cs + [c])[..|cs|] == cs;
  }

  lemma EmptyConsistent(storeId: Id)
    ensures Consistent(EmptySnapshot(storeId))
  {
  }

  /** Every reachable snapshot keeps the invariant. */
  lemma {:induction false} RunsStaySteady(storeId: Id, cs: seq<Commit>)
    requires Replay(EmptySnapshot(storeId), cs).Some?
    ensures Steady(Replay(EmptySnapshot(storeId), cs).value)
  {
    if cs == [] {
      EmptyConsistent(storeId);
    } else {
      RunsStaySteady(storeId, cs[..|cs| - 1]);
      CommitKeeps(Replay(EmptySnapshot(storeId), cs[..|cs| - 1]).value, cs[|cs| - 1]);
    }
  }

  lemma {:induction false} LegibleIdsSplit(a: seq<Event>, b: seq<Event>)
    ensures LegibleIds(a + b) <==> LegibleIds(a) && LegibleIds(b)
  {
    assert forall e | e in a :: e in a + b;
    assert forall e | e in b :: e in a + b;
  }

  /** ... and, if the identities accepted on the way were UTF-8, retains each once. */
  lemma {:induction false} RunsStayConsistent(storeId: Id, cs: seq<Commit>)
    requires Replay(EmptySnapshot(storeId), cs).Some? && LegibleIds(Log(cs))
    ensures Consistent(Replay(EmptySnapshot(storeId), cs).value)
  {
    if cs == [] {
      EmptyConsistent(storeId);
    } else {
      LegibleIdsSplit(Log(cs[..|cs| - 1]), cs[|cs| - 1].events);
      RunsStayConsistent(storeId, cs[..|cs| - 1]);
      CommitKeeps(Replay(EmptySnapshot(storeId), cs[..|cs| - 1]).value, cs[|cs| - 1]);
    }
  }

  lemma {:induction false} ReplayPrefix(s: Snapshot, cs: seq<Commit>, n: nat)
    requires n <= |cs| && Replay(s, cs).Some?
    ensures Replay(s, cs[..n]).Some?
    decreases |cs|
  {
    if n < |cs| {
      assert cs[..|cs| - 1][..n] == cs[..n];
      ReplayPrefix(s, cs[..|cs| - 1], n);
    } else {
      assert cs[..n] == cs;
    }
  }

  /** Between any two points of any run: the job list only grows, identity fields never
      change, text only extends, started jobs keep their start, states only move forward
      and finished jobs are frozen. */
  lemma {:induction false} RunsGrow(storeId: Id, cs: seq<Commit>, n: nat)
    requires n <= |cs| && Replay(EmptySnapshot(storeId), cs).Some?
    ensures Replay(EmptySnapshot(storeId), cs[..n]).Some?
    ensures Grows(Replay(EmptySnapshot(storeId), cs[..n]).value.jobs, Replay(EmptySnapshot(storeId), cs).value.jobs)
    decreases |cs|
  {
    var s := EmptySnapshot(storeId);
    if n < |cs| {
      var init := cs[..|cs| - 1];
      assert init[..n] == cs[..n];
      RunsGrow(storeId, init, n);
      RunsStaySteady(storeId, init);
      CommitKeeps(Replay(s, init).value, cs[|cs| - 1]);
      GrowsTransitive(Replay(s, cs[..n]).value.jobs, Replay(s, init).value.jobs, Replay(s, cs).value.jobs);
    } else {
      assert cs[..n] == cs;
    }
  }

  // ---- the flat event log ----

  function Log(cs: seq<Commit>): seq<Event> {
    if cs == [] then [] else Log(cs[..|cs| - 1]) + cs[|cs| - 1].events
  }

  lemma LogExtended(cs: seq<Commit>, c: Commit)
    ensures Log(cs + [c]) == Log(cs) + c.events
  {
    assert (cs + [c])[..|cs|] == cs;
  }

  lemma {:induction false} LogPrefix(cs: seq<Commit>, m: nat)
    requires m <= |cs|
    ensures Log(cs[..m]) <= Log(cs)
    decreases |cs|
  {
    if m < |cs| {
      assert cs[..|cs| - 1][..m] == cs[..m];
      LogPrefix(cs[..|cs| - 1], m);
    } else {
      assert cs[..m] == cs;
    }
  }

  /** What a client without any validation makes of an event. */
  function Project(s: Snapshot, e: Event): Snapshot {
    var i := Find(s.jobs, e.jobId);
    var t := s.(cursor := e.cursor);
    if e.kind.JobAccepted? && e.job.Some? then t.(jobs := s.jobs + [e.job.value])
    else if (e.kind.JobStateChanged? || e.kind.JobResult?) && e.job.Some? && i >= 0
    then t.(jobs := s.jobs[i := e.job.value])
    else if e.kind.JobOutput? && e.output.Some? && i >= 0
    then t.(jobs := s.jobs[i := Extended(s.jobs[i], e.output.value.text)])
    else if e.kind.QueueChanged? && e.queue.Some? then t.(queue := e.queue.value)
    else t
  }

  function ProjectAll(s: Snapshot, es: seq<Event>): Snapshot {
    if es == [] then s else Project(ProjectAll(s, es[..|es| - 1]), es[|es| - 1])
  }

  lemma {:induction false} ProjectSplit(s: Snapshot, a: seq<Event>, b: seq<Event>)
    ensures ProjectAll(s, a + b) == ProjectAll(ProjectAll(s, a), b)
  {
    if b == [] {
      assert a + b == a;
    } else {
      assert (a + b)[..|a + b| - 1] == a + b[..|b| - 1];
      ProjectSplit(s, a, b[..|b| - 1]);
    }
  }

  /** A log as it arrives after encoding and decoding. */
  function Sent(log: seq<Event>): (es: seq<Event>)
    ensures |es| == |log| && forall i | 0 <= i < |log| :: es[i] == CloneEvent(log[i])
  {
    seq(|log|, i requires 0 <= i < |log| => CloneEvent(log[i]))
  }

  lemma SentConcat(a: seq<Event>, b: seq<Event>)
    ensures Sent(a + b) == Sent(a) + Sent(b)
  {
  }

  lemma SentPrefix(log: seq<Event>, n: nat)
    requires n <= |log|
    ensures Sent(log)[..n] == Sent(log[..n])
  {
  }

  lemma EventProjects(f: Fold, e: Event)
    requires Sound(f.snap) && ApplyEvent(f, e).Some?
    ensures ApplyEvent(f, e).value.snap == Project(f.snap, CloneEvent(e))
  {
    EventShares(e);
    var i := Find(f.snap.jobs, e.jobId);
    if i >= 0 {
      assert Readable(f.snap.jobs[i]);
      assert LegibleJob(f.snap.jobs[i]);
    }
    if e.kind.JobOutput? {
      assert OutputOk(f.snap.jobs[i], e.output.value);
    }
  }

  lemma {:induction false} EventsProject(f: Fold, es: seq<Event>)
    requires Sound(f.snap) && ApplyEvents(f, es).Some?
    ensures ApplyEvents(f, es).value.snap == ProjectAll(f.snap, Sent(es))
  {
    if es != [] {
      var init := es[..|es| - 1];
      EventsProject(f, init);
      EventsKeep(f, init);
      EventProjects(ApplyEvents(f, init).value, es[|es| - 1]);
      SentPrefix(es, |init|);
    }
  }

  /** A run's state is the plain projection of its events as they arrive at a client. */
  lemma {:induction false} RunProjects(storeId: Id, cs: seq<Commit>)
    requires Replay(EmptySnapshot(storeId), cs).Some?
    ensures Replay(EmptySnapshot(storeId), cs).value == ProjectAll(EmptySnapshot(storeId), Sent(Log(cs)))
  {
    if cs != [] {
      var init, c := cs[..|cs| - 1], cs[|cs| - 1];
      RunProjects(storeId, init);
      RunsStaySteady(storeId, init);
      EventsProject(Fold(Replay(EmptySnapshot(storeId), init).value, []), c.events);
      SentConcat(Log(init), c.events);
      ProjectSplit(EmptySnapshot(storeId), Sent(Log(init)), Sent(c.events));
    }
  }

  /** Events of a log are numbered consecutively from `from` in one store. */
  ghost predicate Numbered(log: seq<Event>, storeId: Id, from: nat) {
    forall i | 0 <= i < |log| :: log[i].cursor == Cursor(storeId, from + i + 1)
  }

  lemma {:induction false} SentNumbered(log: seq<Event>, storeId: Id)
    requires Numbered(log, storeId, 0)
    ensures Numbered(Sent(log), storeId, 0)
  {
    forall i | 0 <= i < |log| ensures Sent(log)[i].cursor == log[i].cursor {
      EventShares(log[i]);
    }
  }

  lemma NumberedConcat(a: seq<Event>, b: seq<Event>, storeId: Id, from: nat)
    requires Numbered(a, storeId, from) && Numbered(b, storeId, from + |a|)
    ensures Numbered(a + b, storeId, from)
  {
    forall i | 0 <= i < |a + b| ensures (a + b)[i].cursor == Cursor(storeId, from + i + 1) {
      if i >= |a| {
        assert (a + b)[i] == b[i - |a|];
      }
    }
  }

  lemma EventCursor(f: Fold, e: Event)
    requires ApplyEvent(f, e).Some?
    ensures e.cursor == Cursor(f.snap.cursor.storeId, f.snap.cursor.sequence + 1)
    ensures ApplyEvent(f, e).value.snap.cursor == e.cursor
  {
  }

  lemma {:induction false} EventsNumbered(f: Fold, es: seq<Event>)
    requires ApplyEvents(f, es).Some?
    ensures Numbered(es, f.snap.cursor.storeId, f.snap.cursor.sequence)
    ensures ApplyEvents(f, es).value.snap.cursor == Cursor(f.snap.cursor.storeId, f.snap.cursor.sequence + |es|)
  {
    if es != [] {
      var init, e := es[..|es| - 1], es[|es| - 1];
      EventsNumbered(f, init);
      EventCursor(ApplyEvents(f, init).value, e);
      NumberedConcat(init, [e], f.snap.cursor.storeId, f.snap.cursor.sequence);
      assert es == init + [e];
    }
  }

  /** Sequences are contiguous from 1 in every run, and the cursor counts the events. */
  lemma {:induction false} RunNumbered(storeId: Id, cs: seq<Commit>)
    requires Replay(EmptySnapshot(storeId), cs).Some?
    ensures Numbered(Log(cs), storeId, 0)
    ensures Replay(EmptySnapshot(storeId), cs).value.cursor == Cursor(storeId, |Log(cs)|)
  {
    if cs != [] {
      var init, c := cs[..|cs| - 1], cs[|cs| - 1];
      RunNumbered(storeId, init);
      EventsNumbered(Fold(Replay(EmptySnapshot(storeId), init).value, []), c.events);
      NumberedConcat(Log(init), c.events, storeId, 0);
    }
  }

  // ---- output is the concatenation of its deltas ----

  function Delta(e: Event, id: Id): Text {
    if e.kind.JobOutput? && e.jobId == id && e.output.Some? then e.output.value.text else []
  }

  function Deltas(log: seq<Event>, id: Id): Text {
    if log == [] then [] else Deltas(log[..|log| - 1], id) + Delta(log[|log| - 1], id)
  }

  /** Each job's text is what the log delivered for it. */
  ghost predicate TextFromLog(jobs: seq<Job>, log: seq<Event>) {
    forall i | 0 <= i < |jobs| :: jobs[i].result.text == Deltas(log, jobs[i].id)
  }

  /** Every logged output names a retained job. */
  ghost predicate OutputsKnown(jobs: seq<Job>, log: seq<Event>) {
    forall k | 0 <= k < |log| && log[k].kind.JobOutput? :: Find(jobs, log[k].jobId) >= 0
  }

  lemma {:induction false} UnknownSilent(jobs: seq<Job>, log: seq<Event>, id: Id)
    requires OutputsKnown(jobs, log) && Find(jobs, id) < 0
    ensures Deltas(log, id) == []
  {
    if log != [] {
      UnknownSilent(jobs, log[..|log| - 1], id);
    }
  }

  lemma DeltasExtended(log: seq<Event>, e: Event, id: Id)
    ensures Deltas(log + [e], id) == Deltas(log, id) + Delta(e, id)
  {
    assert (log + [e])[..|log|] == log;
  }

  lemma FindKept(a: seq<Job>, b: seq<Job>, id: Id)
    requires |a| <= |b| && forall i | 0 <= i < |a| :: b[i].id == a[i].id
    requires Find(a, id) >= 0
    ensures Find(b, id) >= 0
  {
    assert b[Find(a, id)].id == id;
  }

  lemma AcceptText(f: Fold, e: Event, log: seq<Event>)
    requires e.kind.JobAccepted? && ApplyEvent(f, e).Some? && FreshId(f.snap.jobs, e)
    requires TextFromLog(f.snap.jobs, log) && OutputsKnown(f.snap.jobs, log)
    ensures TextFromLog(ApplyEvent(f, e).value.snap.jobs, log + [e])
  {
    var a, j := f.snap.jobs, CloneJob(e.job.value);
    assert AcceptOk(a, f.accepted, j);
    UnknownSilent(a, log, j.id);
    forall i | 0 <= i < |a| + 1 ensures (a + [j])[i].result.text == Deltas(log + [e], (a + [j])[i].id) {
      DeltasExtended(log, e, (a + [j])[i].id);
    }
  }

  lemma ReplaceText(a: seq<Job>, k: nat, j: Job, e: Event, log: seq<Event>)
    requires UniqueIds(a) && TextFromLog(a, log) && k < |a| && a[k].id == j.id
    requires j.result.text == a[k].result.text + Delta(e, j.id)
    requires forall i | 0 <= i < |a| && i != k :: Delta(e, a[i].id) == []
    ensures TextFromLog(a[k := j], log + [e])
  {
    var b := a[k := j];
    forall i | 0 <= i < |b| ensures b[i].result.text == Deltas(log + [e], b[i].id) {
      DeltasExtended(log, e, a[i].id);
    }
  }

  lemma QuietText(a: seq<Job>, e: Event, log: seq<Event>)
    requires TextFromLog(a, log) && !e.kind.JobOutput?
    ensures TextFromLog(a, log + [e])
  {
    forall i | 0 <= i < |a| ensures a[i].result.text == Deltas(log + [e], a[i].id) {
      DeltasExtended(log, e, a[i].id);
    }
  }

  lemma EventTextFromLog(f: Fold, e: Event, log: seq<Event>)
    requires Sound(f.snap) && UniqueIds(f.snap.jobs) && ApplyEvent(f, e).Some? && FreshId(f.snap.jobs, e)
    requires TextFromLog(f.snap.jobs, log) && OutputsKnown(f.snap.jobs, log)
    ensures TextFromLog(ApplyEvent(f, e).value.snap.jobs, log + [e])
  {
    var a, i := f.snap.jobs, Find(f.snap.jobs, e.jobId);
    match e.kind {
      case JobAccepted => AcceptText(f, e, log);
      case JobStateChanged =>
        ChangeKeeps(f.snap, i, e.job.value, e.kind);
        assert ChangeOk(f.snap.queue, a[i], CloneJob(e.job.value), e.kind);
        ReplaceText(a, i, CloneJob(e.job.value), e, log);
      case JobResult =>
        ChangeKeeps(f.snap, i, e.job.value, e.kind);
        assert ChangeOk(f.snap.queue, a[i], CloneJob(e.job.value), e.kind);
        ReplaceText(a, i, CloneJob(e.job.value), e, log);
      case JobOutput => ReplaceText(a, i, Extended(a[i], e.output.value.text), e, log);
      case QueueChanged => QuietText(a, e, log);
      case OtherKind(_) =>
    }
  }

  lemma EventOutputsKnown(f: Fold, e: Event, log: seq<Event>)
    requires Sound(f.snap) && ApplyEvent(f, e).Some? && OutputsKnown(f.snap.jobs, log)
    ensures OutputsKnown(ApplyEvent(f, e).value.snap.jobs, log + [e])
  {
    EventKeeps(f, e);
    var a, b := f.snap.jobs, ApplyEvent(f, e).value.snap.jobs;
    assert forall i | 0 <= i < |a| :: Evolves(a[i], b[i]);
    forall k | 0 <= k < |log + [e]| && (log + [e])[k].kind.JobOutput?
      ensures Find(b, (log + [e])[k].jobId) >= 0
    {
      FindKept(a, b, (log + [e])[k].jobId);
    }
  }

  /** The texts of `jobs` are those of `log`, and all its outputs name one of them. */
  ghost predicate Told(jobs: seq<Job>, log: seq<Event>) {
    forall x {:trigger TextFromLog(jobs, x)} {:trigger OutputsKnown(jobs, x)} | x == log ::
      TextFromLog(jobs, x) && OutputsKnown(jobs, x)
  }

  lemma EventTold(f: Fold, e: Event, log: seq<Event>)
    requires Sound(f.snap) && ApplyEvent(f, e).Some? && UniqueIds(ApplyEvent(f, e).value.snap.jobs)
    requires Told(f.snap.jobs, log)
    ensures Told(ApplyEvent(f, e).value.snap.jobs, log + [e])
  {
    UniqueBefore(f, e);
    assert TextFromLog(f.snap.jobs, log);
    EventTextFromLog(f, e, log);
    EventOutputsKnown(f, e, log);
  }

  lemma {:induction false} EventsTold(f: Fold, es: seq<Event>, log: seq<Event>)
    requires Sound(f.snap) && ApplyEvents(f, es).Some? && UniqueIds(ApplyEvents(f, es).value.snap.jobs)
    requires Told(f.snap.jobs, log)
    ensures Told(ApplyEvents(f, es).value.snap.jobs, log + es)
  {
    if es == [] {
      assert log + es == log;
    } else {
      var init, e := es[..|es| - 1], es[|es| - 1];
      EventsKeep(f, init);
      UniqueBefore(ApplyEvents(f, init).value, e);
      EventsTold(f, init, log);
      EventTold(ApplyEvents(f, init).value, e, log + init);
      assert log + es == log + init + [e];
    }
  }

  /** In every run that retains each identity once, each job's retained text is exactly the
      concatenation of the output deltas logged for it. */
  lemma {:induction false} RunTextFromLog(storeId: Id, cs: seq<Commit>)
    requires Replay(EmptySnapshot(storeId), cs).Some? && UniqueIds(Replay(EmptySnapshot(storeId), cs).value.jobs)
    ensures Told(Replay(EmptySnapshot(storeId), cs).value.jobs, Log(cs))
  {
    if cs == [] {
      var none: seq<Job> := [];
      assert Told(none, []);
    } else {
      var init, c := cs[..|cs| - 1], cs[|cs| - 1];
      RunsGrow(storeId, cs, |init|);
      UniqueGrows(Replay(EmptySnapshot(storeId), init).value.jobs, Replay(EmptySnapshot(storeId), cs).value.jobs);
      RunTextFromLog(storeId, init);
      RunsStaySteady(storeId, init);
      EventsTold(Fold(Replay(EmptySnapshot(storeId), init).value, []), c.events, Log(init));
    }
  }

  // ---- receipts and jobs correspond ----

  function Receipts(cs: seq<Commit>): seq<Receipt> {
    if cs == [] then []
    else Receipts(cs[..|cs| - 1]) + (if cs[|cs| - 1].receipt.Some? then [cs[|cs| - 1].receipt.value] else [])
  }

  lemma ReceiptsExtended(cs: seq<Commit>, c: Commit)
    ensures Receipts(cs + [c]) == Receipts(cs) + (if c.receipt.Some? then [c.receipt.value] else [])
  {
    assert (cs + [c])[..|cs|] == cs;
  }

  ghost function Ids(jobs: seq<Job>): seq<Id> { seq(|jobs|, i requires 0 <= i < |jobs| => jobs[i].id) }

  lemma EventAccepts(f: Fold, e: Event)
    requires Sound(f.snap) && ApplyEvent(f, e).Some?
    ensures var g := ApplyEvent(f, e).value;
            if e.kind.JobAccepted?
            then f.accepted == [] && g.accepted != [] && Ids(g.snap.jobs) == Ids(f.snap.jobs) + [g.accepted]
            else g.accepted == f.accepted && Ids(g.snap.jobs) == Ids(f.snap.jobs)
  {
    if e.kind.JobAccepted? {
      CloneShares(e.job.value);
      assert AcceptOk(f.snap.jobs, f.accepted, CloneJob(e.job.value));
    } else {
      EventKeeps(f, e);
      var a, b := f.snap.jobs, ApplyEvent(f, e).value.snap.jobs;
      assert forall i | 0 <= i < |a| :: Evolves(a[i], b[i]);
    }
  }

  lemma {:induction false} EventsAccept(f: Fold, es: seq<Event>)
    requires Sound(f.snap) && f.accepted == [] && ApplyEvents(f, es).Some?
    ensures var g := ApplyEvents(f, es).value;
            Ids(g.snap.jobs) == Ids(f.snap.jobs) + (if g.accepted == [] then [] else [g.accepted])
  {
    if es != [] {
      EventsAccept(f, es[..|es| - 1]);
      EventsKeep(f, es[..|es| - 1]);
      EventAccepts(ApplyEvents(f, es[..|es| - 1]).value, es[|es| - 1]);
    }
  }

  /** In every run the k-th receipt belongs to the k-th job: each accepted job has
      exactly one receipt and each receipt's job is retained. */
  lemma {:induction false} ReceiptsMatchJobs(storeId: Id, cs: seq<Commit>)
    requires Replay(EmptySnapshot(storeId), cs).Some?
    ensures var jobs := Replay(EmptySnapshot(storeId), cs).value.jobs;
            |Receipts(cs)| == |jobs| && forall i | 0 <= i < |jobs| :: Receipts(cs)[i].jobId == jobs[i].id
  {
    if cs != [] {
      var init, c := cs[..|cs| - 1], cs[|cs| - 1];
      ReceiptsMatchJobs(storeId, init);
      RunsStaySteady(storeId, init);
      var s, t := Replay(EmptySnapshot(storeId), init).value, Replay(EmptySnapshot(storeId), cs).value;
      EventsAccept(Fold(s, []), c.events);
      forall i | 0 <= i < |t.jobs| ensures |Receipts(cs)| == |t.jobs| && Receipts(cs)[i].jobId == t.jobs[i].id {
        assert Ids(t.jobs)[i] == t.jobs[i].id;
        if i < |s.jobs| {
          assert Ids(s.jobs)[i] == s.jobs[i].id;
        }
      }
      assert |Ids(t.jobs)| == |t.jobs| && |Ids(s.jobs)| == |s.jobs|;
    }
  }

  // ---- what accepted transactions look like ----

  /** An event carries exactly what its kind says, with a time. */
  predicate EventShaped(e: Event) {
    && e.at.At?
    && match e.kind
       case JobOutput =>
         && e.output.Some? && e.job.None? && e.queue.None?
         && 1 <= |e.output.value.text| <= MAX_CHUNK_BYTES && Wellformed(e.output.value.text)
       case QueueChanged => e.queue.Some? && e.job.None? && e.output.None? && e.jobId == [] && e.queue.value.maxPending == MAX_PENDING
       case OtherKind(_) => false
       case _ => e.job.Some? && e.output.None? && e.queue.None? && e.jobId == e.job.value.id != []
  }

  predicate ReceiptShaped(r: Receipt) {
    && 1 <= |r.key| <= 128 && Wellformed(r.key)
    && |r.digest| == 64 && forall k | 0 <= k < |r.digest| :: HexByte(r.digest[k])
  }

  predicate CommitShaped(c: Commit) {
    && c.version == 1 && c.events != [] && (forall k | 0 <= k < |c.events| :: EventShaped(c.events[k]))
    && (c.receipt.Some? ==> ReceiptShaped(c.receipt.value))
  }

  lemma EventIsShaped(f: Fold, e: Event)
    requires ApplyEvent(f, e).Some?
    ensures EventShaped(e)
  {
    if e.kind.JobOutput? {
      assert OutputOk(f.snap.jobs[Find(f.snap.jobs, e.jobId)], e.output.value);
    }
  }

  lemma {:induction false} EventsAreShaped(f: Fold, es: seq<Event>)
    requires ApplyEvents(f, es).Some?
    ensures forall k | 0 <= k < |es| :: EventShaped(es[k])
  {
    if es != [] {
      var init := es[..|es| - 1];
      EventsAreShaped(f, init);
      EventIsShaped(ApplyEvents(f, init).value, es[|es| - 1]);
      assert forall k | 0 <= k < |init| :: es[k] == init[k];
    }
  }

  /** EVERY ACCEPTED TRANSACTION IS WELL FORMED, in every run. */
  lemma {:induction false} RunShaped(storeId: Id, cs: seq<Commit>, i: nat)
    requires Replay(EmptySnapshot(storeId), cs).Some? && i < |cs|
    ensures CommitShaped(cs[i])
    decreases |cs|
  {
    var init := cs[..|cs| - 1];
    if i < |init| {
      RunShaped(storeId, init, i);
    } else {
      EventsAreShaped(Fold(Replay(EmptySnapshot(storeId), init).value, []), cs[i].events);
    }
  }
}
