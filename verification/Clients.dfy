/** Client views of the service: the Python `Mirror`
    (clients/python/src/taskworker_client/mirror.py) and the browser's `Projection`
    (internal/adapters/webui/state.js). Both fold frames into a local copy that must equal
    the server's snapshot. */
module Clients {
  import opened Utf8
  import opened Contract
  import opened Legible
  import opened Reducer
  import opened History
  import opened Commits
  import opened Reserve
  import opened Codecs
  import opened Conversation

  /** What a client keeps. */
  datatype View = View(cursor: Option<Cursor>, queue: Option<QueueState>, jobs: map<Id, Job>, sizes: map<Id, nat>)

  /** The view is the snapshot: same jobs, texts, byte sizes, queue and cursor. */
  ghost predicate Shows(v: View, s: Snapshot) {
    && v.cursor == Some(s.cursor) && v.queue == Some(s.queue)
    && Indexed(v.jobs, s.jobs) && Sized(v.jobs, v.sizes)
  }

  ghost predicate Sized(jobs: map<Id, Job>, sizes: map<Id, nat>) {
    sizes.Keys == jobs.Keys && forall id | id in jobs :: sizes[id] == |jobs[id].result.text|
  }

  predicate CarriesJob(kind: EventKind) { kind.JobAccepted? || kind.JobStateChanged? || kind.JobResult? }

  /** The event's effect on a view, once a client decided to apply it. */
  function Stepped(v: View, e: Event): View
    requires CarriesJob(e.kind) ==> e.job.Some?
    requires e.kind.JobOutput? ==> e.output.Some? && e.jobId in v.jobs && e.jobId in v.sizes
    requires e.kind.QueueChanged? ==> e.queue.Some?
  {
    var w := v.(cursor := Some(e.cursor));
    if CarriesJob(e.kind) then
      w.(jobs := v.jobs[e.job.value.id := e.job.value], sizes := v.sizes[e.job.value.id := |e.job.value.result.text|])
    else if e.kind.JobOutput? then
      w.(jobs := v.jobs[e.jobId := Extended(v.jobs[e.jobId], e.output.value.text)],
         sizes := v.sizes[e.jobId := v.sizes[e.jobId] + |e.output.value.text|])
    else if e.kind.QueueChanged? then w.(queue := e.queue)
    else w
  }

  // ---- what the service sends ----

  /** The events of a run as clients receive them. */
  function Arrived(cs: seq<Commit>): (es: seq<Event>)
    ensures |es| == |Log(cs)|
  {
    Sent(Log(cs))
  }

  lemma {:induction false} ArrivedExtended(cs: seq<Commit>, c: Commit)
    ensures Arrived(cs + [c]) == Arrived(cs) + Sent(c.events)
  {
    LogExtended(cs, c);
    SentConcat(Log(cs), c.events);
  }

  lemma {:induction false} ArrivedPrefix(cs: seq<Commit>, m: nat)
    requires m <= |cs|
    ensures |Arrived(cs[..m])| <= |Arrived(cs)| && Arrived(cs)[..|Arrived(cs[..m])|] == Arrived(cs[..m])
  {
    LogPrefix(cs, m);
    SentPrefix(Log(cs), |Log(cs[..m])|);
    assert Log(cs)[..|Log(cs[..m])|] == Log(cs[..m]);
  }


  predicate JobFitsNext(jobs: seq<Job>, e: Event) {
    && e.job.Some? && e.jobId == e.job.value.id && (e.kind.JobAccepted? <==> Find(jobs, e.jobId) < 0)
    && !e.job.value.state.OtherState? && |e.job.value.result.text| <= MAX_OUTPUT_BYTES
  }

  /** What every event of an accepted run satisfies where it is applied. */
  predicate FitsNext(s: Snapshot, e: Event) {
    var i := Find(s.jobs, e.jobId);
    && e.cursor == Cursor(s.cursor.storeId, s.cursor.sequence + 1) && e.cursor.sequence <= MAX_UINT64
    && OnePayload(e) && !e.kind.OtherKind?
    && (CarriesJob(e.kind) ==> JobFitsNext(s.jobs, e))
    && (e.kind.JobOutput? ==>
          && e.output.Some? && i >= 0 && e.output.value.offsetBytes == |s.jobs[i].result.text|
          && |s.jobs[i].result.text| + |e.output.value.text| <= MAX_OUTPUT_BYTES)
    && (e.kind.QueueChanged? ==> e.queue.Some? && e.jobId == [] && e.queue.value.maxPending == MAX_PENDING)
  }

  /** The copy of an accepted event fits, if its job is stored under an identity of its own. */
  lemma EventFits(f: Fold, e: Event)
    requires Sound(f.snap) && ApplyEvent(f, e).Some? && FreshId(f.snap.jobs, e)
    ensures FitsNext(f.snap, CloneEvent(e))
  {
    var s := f.snap;
    var i := Find(s.jobs, e.jobId);
    EventShares(e);
    match e.kind {
      case JobAccepted => AcceptFits(s.jobs, f.accepted, e);
      case JobStateChanged => ChangeFits(s, i, e);
      case JobResult => ChangeFits(s, i, e);
      case JobOutput =>
        ReadableId(s.jobs, i);
        OutputFits(s.jobs[i], e.output.value);
      case QueueChanged =>
        QueueCopied(e.queue.value);
        EmptyWellformed();
      case OtherKind(_) =>
    }
  }

  lemma RecordFits(j: Job)
    requires RecordChecked(j)
    ensures |j.result.text| <= MAX_OUTPUT_BYTES
  {
    assert JobRecordOk(j);
  }

  /** An event of a job record keeps its identity and its job's in step when it is copied. */
  lemma {:induction false} CopyNamed(e: Event)
    requires e.job.Some? && e.jobId == e.job.value.id
    ensures CloneEvent(e).job == Some(CloneJob(e.job.value)) && CloneEvent(e).jobId == CloneJob(e.job.value).id
  {
    EventShares(e);
    CloneShares(e.job.value);
    var d := CopiedEvent(e);
  }

  lemma AcceptFits(jobs: seq<Job>, accepted: Id, e: Event)
    requires e.kind.JobAccepted? && e.job.Some? && e.jobId == e.job.value.id && FreshId(jobs, e)
    requires RecordChecked(CloneJob(e.job.value)) && AcceptChecked(jobs, accepted, CloneJob(e.job.value))
    ensures JobFitsNext(jobs, CloneEvent(e))
  {
    var j := CloneJob(e.job.value);
    CopyNamed(e);
    EventShares(e);
    RecordFits(j);
    assert AcceptOk(jobs, accepted, j);
  }

  lemma ChangeFits(s: Snapshot, i: nat, e: Event)
    requires ReadableJobs(s.jobs) && i < |s.jobs| && i == Find(s.jobs, e.jobId)
    requires (e.kind.JobStateChanged? || e.kind.JobResult?) && e.job.Some? && e.jobId == e.job.value.id
    requires RecordChecked(CloneJob(e.job.value)) && ChangeChecked(s.queue, s.jobs[i], CloneJob(e.job.value), e.kind)
    ensures JobFitsNext(s.jobs, CloneEvent(e))
  {
    var j := CloneJob(e.job.value);
    CopyNamed(e);
    EventShares(e);
    ReadableId(s.jobs, i);
    RecordFits(j);
    assert ChangeOk(s.queue, s.jobs[i], j, e.kind);
  }

  lemma OutputFits(j: Job, o: OutputDelta)
    requires OutputChecked(j, o)
    ensures o.offsetBytes == |j.result.text| && |j.result.text| + |o.text| <= MAX_OUTPUT_BYTES && ValidUtf8(o.text)
  {
    assert OutputOk(j, o);
  }

  /** The server's state after the first `n` events. */
  ghost function ServerAt(storeId: Id, log: seq<Event>, n: nat): Snapshot
    requires n <= |log|
  {
    ProjectAll(EmptySnapshot(storeId), log[..n])
  }

  lemma {:induction false} EventsPrefix(f: Fold, es: seq<Event>, n: nat)
    requires n < |es| && ApplyEvents(f, es).Some?
    ensures ApplyEvents(f, es[..n]).Some? && ApplyEvent(ApplyEvents(f, es[..n]).value, es[n]).Some?
  {
    if ApplyEvents(f, es[..n + 1]).None? {
      FailureSticks(f, es, n + 1);
    }
    assert es[..n + 1][..n] == es[..n];
  }

  /** The event meets `FitsNext` in `s`, which lists each job once. */
  ghost predicate Fits(s: Snapshot, e: Event) {
    forall x {:trigger FitsNext(s, x)} | x == e :: FitsNext(s, x) && UniqueIds(s.jobs)
  }

  lemma {:induction false} UniqueAt(f: Fold, es: seq<Event>, n: nat)
    requires n <= |es| && Sound(f.snap) && ApplyEvents(f, es).Some? && UniqueIds(ApplyEvents(f, es).value.snap.jobs)
    ensures ApplyEvents(f, es[..n]).Some? && UniqueIds(ApplyEvents(f, es[..n]).value.snap.jobs)
    decreases |es|
  {
    if n < |es| {
      var init, e := es[..|es| - 1], es[|es| - 1];
      EventsKeep(f, init);
      UniqueBefore(ApplyEvents(f, init).value, e);
      assert init[..n] == es[..n];
      UniqueAt(f, init, n);
    } else {
      assert es[..n] == es;
    }
  }

  /** Inside one transaction. */
  lemma {:induction false} CommitFits(s: Snapshot, c: Commit, m: nat)
    requires Sound(s) && ApplyCommit(s, c).Some? && UniqueIds(ApplyCommit(s, c).value.jobs) && m < |c.events|
    ensures Fits(ProjectAll(s, Sent(c.events)[..m]), Sent(c.events)[m])
  {
    var f := Fold(s, []);
    var es, e := c.events[..m], c.events[m];
    EventsPrefix(f, c.events, m);
    var g := ApplyEvents(f, es).value;
    UniqueAt(f, c.events, m + 1);
    assert c.events[..m + 1][..m] == es;
    EventsKeep(f, es);
    UniqueBefore(g, e);
    EventFits(g, e);
    EventsProject(f, es);
    SentPrefix(c.events, m);
  }

  lemma {:induction false} ServerSteps(storeId: Id, log: seq<Event>, n: nat)
    requires n < |log|
    ensures ServerAt(storeId, log, n + 1) == Project(ServerAt(storeId, log, n), log[n])
  {
    assert log[..n + 1][..n] == log[..n];
  }

  /** Every transaction of the run was accepted, and each identity is retained once. */
  ghost predicate Runs(storeId: Id, cs: seq<Commit>) {
    forall x {:trigger Replay(EmptySnapshot(storeId), x)} | x == cs ::
      Replay(EmptySnapshot(storeId), x).Some? && UniqueIds(Replay(EmptySnapshot(storeId), x).value.jobs)
  }

  lemma {:induction false} RunsPrefix(storeId: Id, cs: seq<Commit>, n: nat)
    requires Runs(storeId, cs) && n <= |cs|
    ensures Runs(storeId, cs[..n]) && Replay(EmptySnapshot(storeId), cs[..n]).Some?
    ensures Steady(Replay(EmptySnapshot(storeId), cs[..n]).value)
    ensures UniqueIds(Replay(EmptySnapshot(storeId), cs[..n]).value.jobs)
  {
    assert Replay(EmptySnapshot(storeId), cs).Some?;
    RunsGrow(storeId, cs, n);
    RunsStaySteady(storeId, cs[..n]);
    UniqueGrows(Replay(EmptySnapshot(storeId), cs[..n]).value.jobs, Replay(EmptySnapshot(storeId), cs).value.jobs);
  }

  lemma {:induction false} LastFits(storeId: Id, init: seq<Commit>, c: Commit, m: nat)
    requires Runs(storeId, init + [c]) && m < |c.events|
    ensures Fits(ProjectAll(EmptySnapshot(storeId), Arrived(init) + Sent(c.events)[..m]), Sent(c.events)[m])
  {
    var all := init + [c];
    assert Replay(EmptySnapshot(storeId), all).Some?;
    assert all[..|init|] == init;
    RunsPrefix(storeId, all, |init|);
    CommitFits(Replay(EmptySnapshot(storeId), init).value, c, m);
    RunProjects(storeId, init);
    ProjectSplit(EmptySnapshot(storeId), Arrived(init), Sent(c.events)[..m]);
  }

  /** Each event, as it arrives, fits the server's state just before it. */
  lemma {:induction false} LoggedFits(storeId: Id, cs: seq<Commit>, n: nat)
    requires Runs(storeId, cs) && n < |Arrived(cs)|
    ensures Fits(ServerAt(storeId, Arrived(cs), n), Arrived(cs)[n])
  {
    var init, c := cs[..|cs| - 1], cs[|cs| - 1];
    assert cs == init + [c];
    ArrivedExtended(init, c);
    RunsPrefix(storeId, cs, |init|);
    var before := Arrived(init);
    if n < |before| {
      LoggedFits(storeId, init, n);
      assert Arrived(cs)[..n] == before[..n];
    } else {
      LastFits(storeId, init, c, n - |before|);
      assert Arrived(cs)[..n] == before + Sent(c.events)[..n - |before|];
    }
  }

  /** At a commit boundary the projected state is the committed snapshot. */
  lemma {:induction false} BoundaryState(storeId: Id, cs: seq<Commit>, m: nat)
    requires Runs(storeId, cs) && m <= |cs|
    ensures Replay(EmptySnapshot(storeId), cs[..m]).Some? && |Arrived(cs[..m])| <= |Arrived(cs)|
    ensures Replay(EmptySnapshot(storeId), cs[..m]).value == ServerAt(storeId, Arrived(cs), |Arrived(cs[..m])|)
    ensures UniqueIds(Replay(EmptySnapshot(storeId), cs[..m]).value.jobs)
  {
    RunsPrefix(storeId, cs, m);
    RunProjects(storeId, cs[..m]);
    ArrivedPrefix(cs, m);
  }

  // ---- one event keeps the view equal ----

  lemma {:induction false} UniqueAdd(jobs: seq<Job>, j: Job)
    requires UniqueIds(jobs) && Find(jobs, j.id) < 0
    ensures UniqueIds(jobs + [j])
  {
  }

  lemma {:induction false} FindAdded(jobs: seq<Job>, j: Job, id: Id)
    requires Find(jobs, id) >= 0 || id == j.id
    ensures Find(jobs + [j], id) >= 0
  {
    var all := jobs + [j];
    assert all[|jobs|] == j;
    FindExtended(jobs, j, id);
  }

  lemma {:induction false} IndexedAdd(m: map<Id, Job>, jobs: seq<Job>, j: Job)
    requires Indexed(m, jobs) && Find(jobs, j.id) < 0
    ensures Indexed(m[j.id := j], jobs + [j])
  {
    var all, n := jobs + [j], m[j.id := j];
    UniqueAdd(jobs, j);
    forall id | id in n ensures Find(all, id) >= 0 {
      FindAdded(jobs, j, id);
    }
    forall i | 0 <= i < |all| ensures all[i].id in n && n[all[i].id] == all[i] {
      assert i < |jobs| ==> all[i] == jobs[i];
    }
  }

  lemma IndexedReplace(m: map<Id, Job>, jobs: seq<Job>, i: nat, j: Job)
    requires Indexed(m, jobs) && i < |jobs| && jobs[i].id == j.id
    ensures Indexed(m[j.id := j], jobs[i := j])
  {
    var all := jobs[i := j];
    forall id | id in m[j.id := j] ensures Find(all, id) >= 0 {
      FindSameIds(jobs, all, id);
    }
  }

  /** The refinement step: a view that shows the server's state shows the next one after the
      next event. */
  lemma ShowsNext(v: View, s: Snapshot, e: Event)
    requires Shows(v, s) && FitsNext(s, e)
    ensures e.kind.JobOutput? ==> e.jobId in v.jobs && v.sizes[e.jobId] == e.output.value.offsetBytes
    ensures Shows(Stepped(v, e), Project(s, e))
  {
    var i := Find(s.jobs, e.jobId);
    if e.kind.JobAccepted? {
      IndexedAdd(v.jobs, s.jobs, e.job.value);
    } else if CarriesJob(e.kind) {
      IndexedReplace(v.jobs, s.jobs, i, e.job.value);
    } else if e.kind.JobOutput? {
      assert s.jobs[i].id in v.jobs && v.jobs[s.jobs[i].id] == s.jobs[i];
      IndexedReplace(v.jobs, s.jobs, i, Extended(s.jobs[i], e.output.value.text));
    }
  }

  // ---- building a view from a snapshot ----

  function IndexJobs(jobs: seq<Job>): map<Id, Job> {
    if jobs == [] then map[] else IndexJobs(jobs[..|jobs| - 1])[jobs[|jobs| - 1].id := jobs[|jobs| - 1]]
  }

  lemma {:induction false} IndexJobsIndexes(jobs: seq<Job>)
    requires UniqueIds(jobs)
    ensures Indexed(IndexJobs(jobs), jobs)
  {
    if jobs != [] {
      var init := jobs[..|jobs| - 1];
      IndexJobsIndexes(init);
      IndexedAdd(IndexJobs(init), init, jobs[|jobs| - 1]);
      assert jobs == init + [jobs[|jobs| - 1]];
    }
  }

  function SizesOf(jobs: map<Id, Job>): (sizes: map<Id, nat>)
    ensures Sized(jobs, sizes)
  {
    map id | id in jobs :: |jobs[id].result.text|
  }

  /** A frame of the event stream. A payload field that is absent or not of its JSON type is None;
      the mirror treats both alike. */
  datatype Frame = SnapshotFrame(snapshot: Snapshot) | EventFrame(event: Event) | OtherFrame(kind: Text)

  datatype Outcome = Applied | Duplicate | CursorError

  // ---- the Python mirror ----

  /** The event's payload can be applied to the view. */
  predicate Applicable(v: View, e: Event) {
    match e.kind
    case JobAccepted => e.job.Some? && e.job.value.id == e.jobId
    case JobStateChanged => e.job.Some? && e.job.value.id == e.jobId
    case JobResult => e.job.Some? && e.job.value.id == e.jobId
    case JobOutput =>
      && e.jobId in v.jobs && e.output.Some? && e.jobId in v.sizes
      && e.output.value.offsetBytes == v.sizes[e.jobId]
    case QueueChanged => e.queue.Some?
    case OtherKind(_) => false
  }

  /** What the mirror answers to a frame. */
  function Verdict(v: View, f: Frame): Outcome {
    match f
    case SnapshotFrame(_) => Applied
    case OtherFrame(_) => CursorError
    case EventFrame(e) =>
      if v.cursor.None? || e.cursor.storeId != v.cursor.value.storeId then CursorError
      else if e.cursor.sequence <= v.cursor.value.sequence then Duplicate
      else if e.cursor.sequence == v.cursor.value.sequence + 1 && Applicable(v, e) then Applied
      else CursorError
  }

  class Mirror {
    var cursor: Option<Cursor>
    var queue: Option<QueueState>
    var jobs: map<Id, Job>
    var sizes: map<Id, nat>

    function Now(): View
      reads this
    {
      View(cursor, queue, jobs, sizes)
    }

    ghost predicate Valid()
      reads this
    {
      Sized(jobs, sizes)
    }

    constructor ()
      ensures Valid() && Now() == View(None, None, map[], map[])
    {
      cursor, queue, jobs, sizes := None, None, map[], map[];
    }

    /** Replace everything from a snapshot. */
    method Replace(s: Snapshot)
      modifies this
      ensures Valid() && cursor == Some(s.cursor) && queue == Some(s.queue) && jobs == IndexJobs(s.jobs)
      ensures UniqueIds(s.jobs) ==> Shows(Now(), s)
    {
      jobs := map[];
      for i := 0 to |s.jobs|
        invariant jobs == IndexJobs(s.jobs[..i])
      {
        assert s.jobs[..i + 1][..i] == s.jobs[..i];
        jobs := jobs[s.jobs[i].id := s.jobs[i]];
      }
      assert s.jobs[..|s.jobs|] == s.jobs;
      sizes := SizesOf(jobs);
      queue, cursor := Some(s.queue), Some(s.cursor);
      if UniqueIds(s.jobs) {
        IndexJobsIndexes(s.jobs);
      }
    }

    /** One frame: a snapshot replaces the view; the next event of the same store is applied;
        earlier ones are ignored; anything else is refused. Only an applied frame changes
        anything. */
    method Apply(f: Frame) returns (r: Outcome)
      requires Valid()
      modifies this
      ensures Valid() && r == Verdict(old(Now()), f)
      ensures !r.Applied? ==> Now() == old(Now())
      ensures r.Applied? && f.EventFrame? ==> Now() == Stepped(old(Now()), f.event)
      ensures f.SnapshotFrame? && UniqueIds(f.snapshot.jobs) ==> Shows(Now(), f.snapshot)
    {
      if f.SnapshotFrame? {
        Replace(f.snapshot);
        return Applied;
      }
      if !f.EventFrame? || cursor.None? || f.event.cursor.storeId != cursor.value.storeId {
        return CursorError;
      }
      var e := f.event;
      if e.cursor.sequence <= cursor.value.sequence {
        return Duplicate;
      }
      if e.cursor.sequence != cursor.value.sequence + 1 {
        return CursorError;
      }
      match e.kind {
        case JobOutput =>
          if e.jobId !in jobs || e.output.None? || e.output.value.offsetBytes != sizes[e.jobId] {
            return CursorError;
          }
          jobs := jobs[e.jobId := Extended(jobs[e.jobId], e.output.value.text)];
          sizes := sizes[e.jobId := sizes[e.jobId] + |e.output.value.text|];
        case QueueChanged =>
          if e.queue.None? {
            return CursorError;
          }
          queue := e.queue;
        case OtherKind(_) => return CursorError;
        case _ =>
          if e.job.None? || e.job.value.id != e.jobId {
            return CursorError;
          }
          jobs := jobs[e.jobId := e.job.value];
          sizes := sizes[e.jobId := |e.job.value.result.text|];
      }
      cursor := Some(e.cursor);
      return Applied;
    }
  }

  // ---- the browser's projection ----

  predicate CursorShown(c: Cursor, frameId: Text) { CursorOk(c) && CursorId(c) == frameId }

  predicate JobShaped(j: Job) {
    HexId(j.id) && !j.state.OtherState? && |j.result.text| <= MAX_OUTPUT_BYTES
  }

  const MAX_SAFE_INTEGER: int := 9007199254740991

  predicate QueueShaped(q: QueueState) {
    && (forall k | 0 <= k < |q.pending| :: HexId(q.pending[k]))
    && (q.active.Some? && q.active.value != [] ==> HexId(q.active.value))
    && -MAX_SAFE_INTEGER <= q.maxPending <= MAX_SAFE_INTEGER
  }

  ghost predicate SnapshotShaped(s: Snapshot, frameId: Text) {
    && CursorShown(s.cursor, frameId) && QueueShaped(s.queue)
    && UniqueIds(s.jobs) && forall i | 0 <= i < |s.jobs| :: JobShaped(s.jobs[i])
  }

  /** The payload checks of an event, in the view it would be applied to. */
  predicate Admissible(v: View, e: Event) {
    if CarriesJob(e.kind) then
      && e.job.Some? && JobShaped(e.job.value) && e.jobId == e.job.value.id && e.output.None? && e.queue.None?
      && (e.kind.JobAccepted? <==> e.jobId !in v.jobs)
    else match e.kind
      case JobOutput =>
        && e.jobId in v.jobs && e.jobId in v.sizes && e.output.Some? && e.job.None? && e.queue.None?
        && -MAX_SAFE_INTEGER <= e.output.value.offsetBytes <= MAX_SAFE_INTEGER
        && v.sizes[e.jobId] == e.output.value.offsetBytes
        && e.output.value.offsetBytes + |e.output.value.text| <= MAX_OUTPUT_BYTES
      case QueueChanged => e.job.None? && e.output.None? && e.jobId == [] && e.queue.Some? && QueueShaped(e.queue.value)
      case _ => false
  }

  /** What the projection answers to an event. `stray` says that a payload field was set to a JSON
      value of another type, which no kind of event tolerates. */
  function BrowserVerdict(v: View, e: Event, stray: bool, frameId: Text): Outcome {
    if !CursorShown(e.cursor, frameId) || v.cursor.None? || e.cursor.storeId != v.cursor.value.storeId then CursorError
    else if e.cursor.sequence <= v.cursor.value.sequence then Duplicate
    else if e.cursor.sequence == v.cursor.value.sequence + 1 && !stray && Admissible(v, e) then Applied
    else CursorError
  }

  /** The identities in an event are drawn ones. */
  predicate WireIds(e: Event) {
    && HexId(e.cursor.storeId) && (e.job.Some? ==> HexId(e.job.value.id))
    && (e.queue.Some? ==>
          && (forall k | 0 <= k < |e.queue.value.pending| :: HexId(e.queue.value.pending[k]))
          && (e.queue.value.active.Some? ==> HexId(e.queue.value.active.value)))
  }

  /** Both maps of a client hold exactly these jobs. */
  ghost predicate Listed(js: map<Id, Job>, bs: map<Id, nat>, jobs: seq<Job>) {
    forall x {:trigger Indexed(js, x)} | x == jobs :: Indexed(js, x) && Sized(js, bs)
  }

  lemma ListedAdd(js: map<Id, Job>, bs: map<Id, nat>, jobs: seq<Job>, i: nat)
    requires i < |jobs| && Listed(js, bs, jobs[..i])
    ensures jobs[i].id in js ==> !UniqueIds(jobs)
    ensures var j := jobs[i];
            j.id !in js ==> Listed(js[j.id := j], bs[j.id := |j.result.text|], jobs[..i + 1])
  {
    var j, init := jobs[i], jobs[..i];
    assert Indexed(js, init);
    if j.id in js {
      Repeated(js, jobs, i);
    } else {
      IndexedAdd(js, init, j);
      assert jobs[..i + 1] == init + [j];
      SizedAdd(js, bs, j);
    }
  }

  lemma SizedAdd(js: map<Id, Job>, bs: map<Id, nat>, j: Job)
    requires Sized(js, bs)
    ensures Sized(js[j.id := j], bs[j.id := |j.result.text|])
  {
  }

  /** The job map of a snapshot, if its jobs are well shaped and distinct. */
  method CheckJobs(jobs: seq<Job>) returns (ok: bool, js: map<Id, Job>, bs: map<Id, nat>)
    ensures ok <==> UniqueIds(jobs) && forall i | 0 <= i < |jobs| :: JobShaped(jobs[i])
    ensures ok ==> Listed(js, bs, jobs)
  {
    js, bs := map[], map[];
    assert jobs[..0] == [] && Indexed(js, []);
    for i := 0 to |jobs|
      invariant Listed(js, bs, jobs[..i])
      invariant forall k | 0 <= k < i :: JobShaped(jobs[k])
    {
      var j := jobs[i];
      ListedAdd(js, bs, jobs, i);
      if !JobShaped(j) || j.id in js {
        return false, js, bs;
      }
      js, bs := js[j.id := j], bs[j.id := |j.result.text|];
    }
    assert jobs[..|jobs|] == jobs;
    assert Indexed(js, jobs);
    ok := true;
  }

  /** What a page may rely on, whatever was received: drawn identities, each job under its own, known
      states, texts within the limit, numbers a page can hold, and a cursor of the wire's form. */
  ghost predicate SafeView(v: View) {
    && (forall id | id in v.jobs :: HexId(id) && SafeJob(v.jobs[id], id))
    && (v.cursor.Some? ==> HexId(v.cursor.value.storeId) && v.cursor.value.sequence <= MAX_UINT64)
    && (v.queue.Some? ==>
          && (forall k | 0 <= k < |v.queue.value.pending| :: HexId(v.queue.value.pending[k]))
          && (v.queue.value.active.Some? ==> v.queue.value.active.value == [] || HexId(v.queue.value.active.value))
          && -0x1F_FFFF_FFFF_FFFF <= v.queue.value.maxPending <= 0x1F_FFFF_FFFF_FFFF)
  }

  /** SafeView as a one-point quantifier, so that callers do not unfold it. */
  ghost predicate Safe(v: View) { forall x {:trigger SafeView(x)} | x == v :: SafeView(x) }

  predicate SafeJob(j: Job, id: Id) {
    && j.id == id && |j.result.text| <= MAX_OUTPUT_BYTES
    && (j.state.Queued? || Executing(j.state) || Terminal(j.state))
  }

  lemma {:induction false} ShapedSafe(v: View, s: Snapshot, frameId: Text)
    requires Shows(v, s) && SnapshotShaped(s, frameId)
    ensures Safe(v)
  {
    forall id | id in v.jobs ensures HexId(id) && SafeJob(v.jobs[id], id) {
      var i := Find(s.jobs, id);
      assert v.jobs[s.jobs[i].id] == s.jobs[i] && JobShaped(s.jobs[i]);
    }
    assert SafeView(v);
  }

  lemma {:induction false} AdmissibleSafe(v: View, e: Event)
    requires Safe(v) && Sized(v.jobs, v.sizes) && Admissible(v, e) && CursorOk(e.cursor)
    ensures Safe(Stepped(v, e))
  {
    var w := Stepped(v, e);
    assert SafeView(v);
    if e.kind.JobOutput? {
      assert SafeJob(v.jobs[e.jobId], e.jobId) && v.sizes[e.jobId] == |v.jobs[e.jobId].result.text|;
    }
    forall id | id in w.jobs ensures HexId(id) && SafeJob(w.jobs[id], id) {
      assert id in v.jobs ==> SafeJob(v.jobs[id], id);
    }
    assert SafeView(w);
  }

  class Projection {
    var cursor: Option<Cursor>
    var queue: Option<QueueState>
    var jobs: map<Id, Job>
    var bytes: map<Id, nat>

    function Now(): View
      reads this
    {
      View(cursor, queue, jobs, bytes)
    }

    ghost predicate Valid()
      reads this
    {
      Sized(jobs, bytes) && Safe(Now())
    }

    constructor ()
      ensures Valid() && Now() == View(None, None, map[], map[])
    {
      cursor, queue, jobs, bytes := None, None, map[], map[];
    }

    /** A snapshot frame is checked as a whole before it replaces the view. */
    method Reset(s: Snapshot, stray: bool, frameId: Text) returns (ok: bool)
      requires Valid()
      modifies this
      ensures Valid() && (ok <==> !stray && SnapshotShaped(s, frameId))
      ensures ok ==> Shows(Now(), s)
      ensures !ok ==> Now() == old(Now())
    {
      if stray || !CursorShown(s.cursor, frameId) {
        return false;
      }
      var fine, js, bs := CheckJobs(s.jobs);
      if !fine {
        return false;
      }
      if !QueueShaped(s.queue) {
        return false;
      }
      assert Indexed(js, s.jobs);
      jobs, bytes, queue, cursor := js, bs, Some(s.queue), Some(s.cursor);
      ShapedSafe(Now(), s, frameId);
      return true;
    }

    /** One event: the same rules as the mirror, with stricter checks on its shape. */
    method Event(e: Event, stray: bool, frameId: Text) returns (r: Outcome)
      requires Valid()
      modifies this
      ensures Valid() && r == BrowserVerdict(old(Now()), e, stray, frameId)
      ensures !r.Applied? ==> Now() == old(Now())
      ensures r.Applied? ==> Now() == Stepped(old(Now()), e)
    {
      if !CursorShown(e.cursor, frameId) || cursor.None? || e.cursor.storeId != cursor.value.storeId {
        return CursorError;
      }
      if e.cursor.sequence <= cursor.value.sequence {
        return Duplicate;
      }
      if e.cursor.sequence != cursor.value.sequence + 1 || stray || !Admissible(Now(), e) {
        return CursorError;
      }
      AdmissibleSafe(Now(), e);
      if CarriesJob(e.kind) {
        jobs, bytes := jobs[e.jobId := e.job.value], bytes[e.jobId := |e.job.value.result.text|];
      } else if e.kind.JobOutput? {
        jobs := jobs[e.jobId := Extended(jobs[e.jobId], e.output.value.text)];
        bytes := bytes[e.jobId := bytes[e.jobId] + |e.output.value.text|];
      } else {
        queue := e.queue;
      }
      cursor := Some(e.cursor);
      return Applied;
    }
  }

  /** A listed id that is met again. */
  lemma Repeated(m: map<Id, Job>, jobs: seq<Job>, i: nat)
    requires i < |jobs| && Indexed(m, jobs[..i]) && jobs[i].id in m
    ensures !UniqueIds(jobs)
  {
    var k := Find(jobs[..i], jobs[i].id);
    assert jobs[k].id == jobs[i].id;
  }

  // ---- clients never lose the server ----

  /** A frame on its way to a client: the snapshot after some commits, or some event of the
      log, possibly again. */
  datatype Delivery = Snap(commits: nat) | Ev(index: nat)

  /** What a stream resumed at the last applied cursor can deliver next, repeats included. */
  predicate Due(cs: seq<Commit>, at: nat, d: Delivery) {
    match d
    case Snap(m) => m <= |cs|
    case Ev(i) => i <= at && i < |Arrived(cs)|
  }

  function Reached(cs: seq<Commit>, at: nat, d: Delivery): nat
    requires Due(cs, at, d)
  {
    match d
    case Snap(m) => |Arrived(cs[..m])|
    case Ev(i) => if i == at then at + 1 else at
  }

  predicate Schedule(cs: seq<Commit>, at: nat, ds: seq<Delivery>)
    decreases |ds|
  {
    ds == [] || (Due(cs, at, ds[0]) && Schedule(cs, Reached(cs, at, ds[0]), ds[1..]))
  }

  /** The view is the server's state after `at` events. */
  ghost predicate Synced(v: View, storeId: Id, cs: seq<Commit>, at: nat) {
    at <= |Arrived(cs)| && forall x {:trigger ServerAt(storeId, Arrived(cs), x)} | x == at :: Shows(v, ServerAt(storeId, Arrived(cs), x))
  }

  lemma {:induction false} LogCursors(storeId: Id, cs: seq<Commit>)
    requires Runs(storeId, cs)
    ensures |Arrived(cs)| <= MAX_UINT64
    ensures Numbered(Arrived(cs), storeId, 0)
  {
    assert Replay(EmptySnapshot(storeId), cs).Some?;
    RunsStaySteady(storeId, cs);
    RunNumbered(storeId, cs);
    SentNumbered(Log(cs), storeId);
  }

  lemma {:induction false} ServerCursor(storeId: Id, cs: seq<Commit>, at: nat)
    requires Runs(storeId, cs) && at <= |Arrived(cs)|
    ensures ServerAt(storeId, Arrived(cs), at).cursor == Cursor(storeId, at)
    ensures Numbered(Arrived(cs), storeId, 0) && |Arrived(cs)| <= MAX_UINT64
  {
    LogCursors(storeId, cs);
    if at > 0 {
      ServerSteps(storeId, Arrived(cs), at - 1);
    } else {
      assert Arrived(cs)[..0] == [];
    }
  }

  /** The view knows exactly the jobs the server retains. */
  lemma {:induction false} KnownIff(v: View, s: Snapshot, id: Id)
    requires Shows(v, s)
    ensures id in v.jobs <==> Find(s.jobs, id) >= 0
    ensures id in v.jobs ==> id in v.sizes && v.sizes[id] == |s.jobs[Find(s.jobs, id)].result.text|
  {
    var i := Find(s.jobs, id);
    if i >= 0 {
      assert s.jobs[i].id in v.jobs;
    }
  }

  /** Both clients can apply the payload of the next event of the service. */
  lemma {:induction false} NextPayload(v: View, s: Snapshot, e: Event)
    requires Shows(v, s) && FitsNext(s, e)
    ensures Applicable(v, e) && (WireIds(e) ==> Admissible(v, e))
  {
    KnownIff(v, s, e.jobId);
  }

  /** Both clients apply it. */
  lemma {:induction false} NextVerdict(v: View, s: Snapshot, e: Event)
    requires Shows(v, s) && FitsNext(s, e)
    ensures Verdict(v, EventFrame(e)) == Applied
    ensures WireIds(e) ==> BrowserVerdict(v, e, false, CursorId(e.cursor)) == Applied
  {
    NextPayload(v, s, e);
  }

  /** The next event of the log, at a view in sync with the server. */
  lemma {:induction false} NextEvent(v: View, storeId: Id, cs: seq<Commit>, at: nat)
    requires Runs(storeId, cs) && Synced(v, storeId, cs, at) && at < |Arrived(cs)|
    ensures var e := Arrived(cs)[at];
            && Verdict(v, EventFrame(e)) == Applied && Synced(Stepped(v, e), storeId, cs, at + 1)
            && (WireIds(e) ==> BrowserVerdict(v, e, false, CursorId(e.cursor)) == Applied)
  {
    var e, s := Arrived(cs)[at], ServerAt(storeId, Arrived(cs), at);
    LoggedFits(storeId, cs, at);
    assert FitsNext(s, e) && Shows(v, s);
    NextVerdict(v, s, e);
    ShowsNext(v, s, e);
    ServerSteps(storeId, Arrived(cs), at);
  }

  /** An event the view already includes. */
  lemma OldEvent(v: View, storeId: Id, cs: seq<Commit>, at: nat, i: nat)
    requires Runs(storeId, cs) && Synced(v, storeId, cs, at) && i < at <= |Arrived(cs)|
    ensures var e := Arrived(cs)[i];
            && Verdict(v, EventFrame(e)) == Duplicate
            && (WireIds(e) ==> BrowserVerdict(v, e, false, CursorId(e.cursor)) == Duplicate)
  {
    ServerCursor(storeId, cs, at);
  }

  /** LOST EVENTS ARE NOTICED. A view in sync with the server applies exactly the next event of the
      run, ignores the earlier ones and refuses all that come too soon; so does the browser. */
  lemma {:induction false} DeliveryVerdict(v: View, storeId: Id, cs: seq<Commit>, at: nat, i: nat)
    requires Runs(storeId, cs) && Synced(v, storeId, cs, at) && i < |Arrived(cs)|
    ensures var e := Arrived(cs)[i];
            var answer := if i == at then Applied else if i < at then Duplicate else CursorError;
            && Verdict(v, EventFrame(e)) == answer
            && (WireIds(e) ==> BrowserVerdict(v, e, false, CursorId(e.cursor)) == answer)
  {
    if i == at {
      NextEvent(v, storeId, cs, at);
    } else if i < at {
      OldEvent(v, storeId, cs, at, i);
    } else {
      ServerCursor(storeId, cs, at);
      assert Shows(v, ServerAt(storeId, Arrived(cs), at));
    }
  }

  /** Events of another store are refused, whatever they carry. */
  lemma {:induction false} ForeignRefused(v: View, storeId: Id, cs: seq<Commit>, at: nat, e: Event, stray: bool, frameId: Text)
    requires Runs(storeId, cs) && Synced(v, storeId, cs, at) && e.cursor.storeId != storeId
    ensures Verdict(v, EventFrame(e)) == CursorError && BrowserVerdict(v, e, stray, frameId) == CursorError
  {
    ServerCursor(storeId, cs, at);
    assert Shows(v, ServerAt(storeId, Arrived(cs), at));
  }

  /** A view in sync at a commit boundary is the committed snapshot. */
  lemma SyncedBoundary(v: View, storeId: Id, cs: seq<Commit>, m: nat)
    requires Runs(storeId, cs) && m <= |cs|
    ensures Replay(EmptySnapshot(storeId), cs[..m]).Some?
    ensures UniqueIds(Replay(EmptySnapshot(storeId), cs[..m]).value.jobs)
    ensures Synced(v, storeId, cs, |Arrived(cs[..m])|) <==> Shows(v, Replay(EmptySnapshot(storeId), cs[..m]).value)
  {
    BoundaryState(storeId, cs, m);
  }

  /** One delivery. */
  method ReceiveMirror(m: Mirror, storeId: Id, cs: seq<Commit>, at: nat, d: Delivery) returns (r: Outcome)
    requires Runs(storeId, cs) && m.Valid() && Synced(m.Now(), storeId, cs, at) && Due(cs, at, d)
    modifies m
    ensures m.Valid() && Synced(m.Now(), storeId, cs, Reached(cs, at, d)) && !r.CursorError?
  {
    match d {
      case Snap(n) =>
        SyncedBoundary(m.Now(), storeId, cs, n);
        r := m.Apply(SnapshotFrame(Replay(EmptySnapshot(storeId), cs[..n]).value));
        SyncedBoundary(m.Now(), storeId, cs, n);
      case Ev(i) =>
        if i == at {
          NextEvent(m.Now(), storeId, cs, at);
        } else {
          OldEvent(m.Now(), storeId, cs, at, i);
        }
        r := m.Apply(EventFrame(Arrived(cs)[i]));
    }
  }

  /** MIRROR REFINES SERVER. From any snapshot, under any delivery with repeats, reconnects and
      fresh snapshots, no frame is refused and the mirror is always the server's state at its
      cursor; at a commit boundary that is the committed snapshot. */
  method FollowMirror(m: Mirror, storeId: Id, cs: seq<Commit>, first: nat, ds: seq<Delivery>) returns (ok: bool, at: nat)
    requires Runs(storeId, cs) && m.Valid() && first <= |cs| && Schedule(cs, |Arrived(cs[..first])|, ds)
    modifies m
    ensures ok && Synced(m.Now(), storeId, cs, at)
    ensures forall n {:trigger cs[..n]} | 0 <= n <= |cs| && at == |Arrived(cs[..n])| ::
              Replay(EmptySnapshot(storeId), cs[..n]).Some? && Shows(m.Now(), Replay(EmptySnapshot(storeId), cs[..n]).value)
  {
    SyncedBoundary(m.Now(), storeId, cs, first);
    m.Replace(Replay(EmptySnapshot(storeId), cs[..first]).value);
    SyncedBoundary(m.Now(), storeId, cs, first);
    ok, at := true, |Arrived(cs[..first])|;
    for i := 0 to |ds|
      invariant m.Valid() && Synced(m.Now(), storeId, cs, at) && Schedule(cs, at, ds[i..]) && ok
    {
      assert ds[i..][0] == ds[i] && ds[i..][1..] == ds[i + 1..];
      var r := ReceiveMirror(m, storeId, cs, at, ds[i]);
      ok, at := ok && !r.CursorError?, Reached(cs, at, ds[i]);
    }
    AtBoundaries(m.Now(), storeId, cs, at);
  }

  lemma AtBoundaries(v: View, storeId: Id, cs: seq<Commit>, at: nat)
    requires Runs(storeId, cs) && Synced(v, storeId, cs, at)
    ensures forall n {:trigger cs[..n]} | 0 <= n <= |cs| && at == |Arrived(cs[..n])| ::
              Replay(EmptySnapshot(storeId), cs[..n]).Some? && Shows(v, Replay(EmptySnapshot(storeId), cs[..n]).value)
  {
    forall n {:trigger cs[..n]} | 0 <= n <= |cs| && at == |Arrived(cs[..n])|
      ensures Replay(EmptySnapshot(storeId), cs[..n]).Some? && Shows(v, Replay(EmptySnapshot(storeId), cs[..n]).value)
    {
      SyncedBoundary(v, storeId, cs, n);
    }
  }

  /** What the browser demands of a run beyond the reducer's checks: drawn identities. */
  ghost predicate WireRun(storeId: Id, cs: seq<Commit>) {
    && Runs(storeId, cs) && HexId(storeId)
    && (forall i | 0 <= i < |Arrived(cs)| :: WireIds(Arrived(cs)[i]))
  }

  /** Replaced and accepted jobs are listed, and a queue stated once is the queue. */
  lemma {:induction false} PayloadsKept(f: Fold, es: seq<Event>, i: nat)
    requires Sound(f.snap) && ApplyEvents(f, es).Some? && i < |es| && OneQueue(es)
    ensures Carried(ApplyEvents(f, es).value.snap, CloneEvent(es[i]))
  {
    var init, e := es[..|es| - 1], es[|es| - 1];
    var g := ApplyEvents(f, init).value;
    EventsKeep(f, init);
    EventKeeps(g, e);
    PayloadKept(g, e);
    if i < |init| {
      PayloadsKept(f, init, i);
      EventShares(es[i]);
      if es[i].job.Some? {
        PresentGrows(g.snap.jobs, ApplyEvent(g, e).value.snap.jobs, CloneJob(es[i].job.value).id);
      }
      assert es[i].queue.None? || es[|es| - 1].queue.None?;
    }
  }

  /** The job an event carries is listed, and the queue it carries is the queue. */
  ghost predicate Carried(s: Snapshot, e: Event) {
    (e.job.Some? ==> Present(s.jobs, e.job.value.id)) && (e.queue.Some? ==> s.queue == e.queue.value)
  }

  ghost predicate Present(jobs: seq<Job>, id: Id) { exists k :: 0 <= k < |jobs| && jobs[k].id == id }

  lemma PresentGrows(a: seq<Job>, b: seq<Job>, id: Id)
    requires Grows(a, b) && Present(a, id)
    ensures Present(b, id)
  {
    var k :| 0 <= k < |a| && a[k].id == id;
    assert Evolves(a[k], b[k]);
  }

  lemma PayloadKept(f: Fold, e: Event)
    requires Sound(f.snap) && ApplyEvent(f, e).Some?
    ensures Carried(ApplyEvent(f, e).value.snap, CloneEvent(e))
    ensures e.queue.None? ==> ApplyEvent(f, e).value.snap.queue == f.snap.queue
  {
    var t := ApplyEvent(f, e).value.snap;
    EventShares(e);
    if e.kind.JobAccepted? {
      assert t.jobs[|f.snap.jobs|] == CloneJob(e.job.value);
    } else if e.job.Some? {
      assert t.jobs[Find(f.snap.jobs, e.jobId)] == CloneJob(e.job.value);
    }
  }

  /** The events of the last transaction carry drawn identities if all retained jobs have one. */
  lemma {:induction false} LastWire(storeId: Id, init: seq<Commit>, c: Commit, i: nat)
    requires DrawnRun(storeId, init + [c]) && HexId(storeId) && OneQueue(c.events) && i < |c.events|
    ensures WireIds(CloneEvent(c.events[i]))
  {
    var all := init + [c];
    assert Replay(EmptySnapshot(storeId), all).Some?;
    assert all[..|init|] == init && all[..|all|] == all;
    var s, t := Replay(EmptySnapshot(storeId), init).value, Replay(EmptySnapshot(storeId), all).value;
    RunsPrefix(storeId, all, |init|);
    RunsPrefix(storeId, all, |all|);
    RunNumbered(storeId, init);
    EventsNumbered(Fold(s, []), c.events);
    PayloadsKept(Fold(s, []), c.events, i);
    EventShares(c.events[i]);
    PendingHex(t.jobs);
    ActiveIndex(t);
  }

  /** The run was accepted and all its jobs have drawn identities, each its own. */
  ghost predicate DrawnRun(storeId: Id, cs: seq<Commit>) {
    && Runs(storeId, cs)
    && forall x {:trigger Replay(EmptySnapshot(storeId), x)} | x == cs ::
         Replay(EmptySnapshot(storeId), x).Some? && HexIds(Replay(EmptySnapshot(storeId), x).value.jobs)
  }

  lemma {:induction false} DrawnInit(storeId: Id, init: seq<Commit>, c: Commit)
    requires DrawnRun(storeId, init + [c])
    ensures DrawnRun(storeId, init)
  {
    assert Replay(EmptySnapshot(storeId), init + [c]).Some?;
    assert (init + [c])[..|init|] == init;
    RunsPrefix(storeId, init + [c], |init|);
    RunsGrow(storeId, init + [c], |init|);
    var a, b := Replay(EmptySnapshot(storeId), init).value.jobs, Replay(EmptySnapshot(storeId), init + [c]).value.jobs;
    forall i | 0 <= i < |a| ensures HexId(a[i].id) {
      assert Evolves(a[i], b[i]);
    }
  }

  /** The browser's demand holds in every run of transactions that state the queue at most
      once and whose jobs have drawn identities. */
  lemma {:induction false} RunsWire(storeId: Id, cs: seq<Commit>)
    requires DrawnRun(storeId, cs) && HexId(storeId) && (forall c | c in cs :: OneQueue(c.events))
    ensures WireRun(storeId, cs)
  {
    if cs != [] {
      var init, c := cs[..|cs| - 1], cs[|cs| - 1];
      assert cs == init + [c];
      DrawnInit(storeId, init, c);
      RunsWire(storeId, init);
      ArrivedExtended(init, c);
      forall i | 0 <= i < |Arrived(cs)| ensures WireIds(Arrived(cs)[i]) {
        if i < |Arrived(init)| {
          assert Arrived(cs)[i] == Arrived(init)[i];
        } else {
          LastWire(storeId, init, c, i - |Arrived(init)|);
        }
      }
    }
  }

  /** The state's jobs and queue pass the browser's checks. */
  ghost predicate StateShaped(s: Snapshot) {
    QueueShaped(s.queue) && forall i | 0 <= i < |s.jobs| :: JobShaped(s.jobs[i])
  }

  lemma ShapedNext(s: Snapshot, e: Event)
    requires StateShaped(s) && FitsNext(s, e) && WireIds(e)
    ensures StateShaped(Project(s, e))
  {
  }

  lemma {:induction false} ServerShaped(storeId: Id, cs: seq<Commit>, at: nat)
    requires WireRun(storeId, cs) && at <= |Arrived(cs)|
    ensures StateShaped(ServerAt(storeId, Arrived(cs), at))
  {
    if at > 0 {
      var s := ServerAt(storeId, Arrived(cs), at - 1);
      ServerShaped(storeId, cs, at - 1);
      LoggedFits(storeId, cs, at - 1);
      assert FitsNext(s, Arrived(cs)[at - 1]);
      ServerSteps(storeId, Arrived(cs), at - 1);
      ShapedNext(s, Arrived(cs)[at - 1]);
    } else {
      assert Arrived(cs)[..0] == [];
    }
  }

  /** The browser accepts every committed snapshot. */
  lemma {:induction false} SnapshotsShaped(storeId: Id, cs: seq<Commit>, n: nat)
    requires WireRun(storeId, cs) && n <= |cs|
    ensures Replay(EmptySnapshot(storeId), cs[..n]).Some?
    ensures var s := Replay(EmptySnapshot(storeId), cs[..n]).value;
            SnapshotShaped(s, CursorId(s.cursor))
  {
    BoundaryState(storeId, cs, n);
    ServerShaped(storeId, cs, |Arrived(cs[..n])|);
    ServerCursor(storeId, cs, |Arrived(cs[..n])|);
  }

  /** One delivery to the browser, with the frame id the server gives it. */
  method ReceiveProjection(p: Projection, storeId: Id, cs: seq<Commit>, at: nat, d: Delivery) returns (ok: bool)
    requires WireRun(storeId, cs) && p.Valid() && Synced(p.Now(), storeId, cs, at) && Due(cs, at, d)
    modifies p
    ensures p.Valid() && Synced(p.Now(), storeId, cs, Reached(cs, at, d)) && ok
  {
    match d {
      case Snap(n) =>
        SyncedBoundary(p.Now(), storeId, cs, n);
        SnapshotsShaped(storeId, cs, n);
        var s := Replay(EmptySnapshot(storeId), cs[..n]).value;
        ok := p.Reset(s, false, CursorId(s.cursor));
        SyncedBoundary(p.Now(), storeId, cs, n);
      case Ev(i) =>
        if i == at {
          NextEvent(p.Now(), storeId, cs, at);
        } else {
          OldEvent(p.Now(), storeId, cs, at, i);
        }
        var r := p.Event(Arrived(cs)[i], false, CursorId(Arrived(cs)[i].cursor));
        ok := !r.CursorError?;
    }
  }

  /** PROJECTION REFINES SERVER. The same theorem for the browser, for runs whose identities
      are drawn ones. */
  method FollowProjection(p: Projection, storeId: Id, cs: seq<Commit>, first: nat, ds: seq<Delivery>) returns (ok: bool, at: nat)
    requires WireRun(storeId, cs) && p.Valid() && first <= |cs| && Schedule(cs, |Arrived(cs[..first])|, ds)
    modifies p
    ensures ok && Synced(p.Now(), storeId, cs, at)
    ensures forall n {:trigger cs[..n]} | 0 <= n <= |cs| && at == |Arrived(cs[..n])| ::
              Replay(EmptySnapshot(storeId), cs[..n]).Some? && Shows(p.Now(), Replay(EmptySnapshot(storeId), cs[..n]).value)
  {
    SnapshotsShaped(storeId, cs, first);
    var s := Replay(EmptySnapshot(storeId), cs[..first]).value;
    ok := p.Reset(s, false, CursorId(s.cursor));
    SyncedBoundary(p.Now(), storeId, cs, first);
    at := |Arrived(cs[..first])|;
    for i := 0 to |ds|
      invariant p.Valid() && Synced(p.Now(), storeId, cs, at) && Schedule(cs, at, ds[i..]) && ok
    {
      assert ds[i..][0] == ds[i] && ds[i..][1..] == ds[i + 1..];
      var next := Reached(cs, at, ds[i]);
      ok := ReceiveProjection(p, storeId, cs, at, ds[i]);
      at := next;
    }
    AtBoundaries(p.Now(), storeId, cs, at);
  }
}
