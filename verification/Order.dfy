/** Acceptance order and the reducer (internal/core/state.go): which transactions keep first in,
    first out. */
module Order {
  import opened Utf8
  import opened Contract
  import opened Legible
  import opened Reducer
  import opened History
  import opened Commits

  /** A lifecycle event. */
  predicate Moves(e: Event) { (e.kind.JobStateChanged? || e.kind.JobResult?) && e.job.Some? }

  /** A lifecycle event whose record has a start time. */
  predicate Starts(e: Event) { Moves(e) && e.job.value.startedAt.Some? }

  /** The event gives no job a start time while an earlier one waits. */
  predicate InOrder(jobs: seq<Job>, e: Event) {
    Starts(e) ==>
      var i := Find(jobs, e.jobId);
      i < 0 || jobs[i].startedAt.Some? || forall k | 0 <= k < i :: !jobs[k].state.Queued?
  }

  lemma {:induction false} ReplacedFifo(jobs: seq<Job>, i: nat, j: Job)
    requires Fifo(jobs) && i < |jobs| && !j.state.Queued?
    requires jobs[i].startedAt.Some? ==> j.startedAt.Some?
    ensures Fifo(jobs[i := j]) <==>
              j.startedAt.None? || jobs[i].startedAt.Some? || forall k | 0 <= k < i :: !jobs[k].state.Queued?
  {
    var after := jobs[i := j];
    if Fifo(after) && j.startedAt.Some? && jobs[i].startedAt.None? {
      forall k | 0 <= k < i ensures !jobs[k].state.Queued? {
        assert after[k] == jobs[k] && after[i].startedAt.Some?;
      }
    }
  }

  lemma ChangeMoves(q: QueueState, was: Job, j: Job, kind: EventKind)
    requires ChangeChecked(q, was, j, kind)
    ensures !j.state.Queued? && (was.startedAt.Some? ==> j.startedAt.Some?)
    ensures was.state.Queued? || !j.state.Queued?
  {
    assert ChangeOk(q, was, j, kind);
  }

  lemma AcceptQueues(jobs: seq<Job>, accepted: Id, j: Job)
    requires AcceptChecked(jobs, accepted, j)
    ensures j.state.Queued? && j.startedAt.None?
  {
    assert AcceptOk(jobs, accepted, j);
  }

  /** AN ACCEPTED EVENT KEEPS ACCEPTANCE ORDER EXACTLY IF IT IS IN ORDER: it starts no job, or one
      that had started, or one that no waiting job precedes. */
  lemma {:induction false} EventOrder(f: Fold, e: Event)
    requires Fifo(f.snap.jobs) && ApplyEvent(f, e).Some?
    ensures Fifo(ApplyEvent(f, e).value.snap.jobs) <==> InOrder(f.snap.jobs, e)
  {
    var jobs := f.snap.jobs;
    var i := Find(jobs, e.jobId);
    if e.job.Some? {
      CloneShares(e.job.value);
    }
    match e.kind {
      case JobAccepted => AcceptQueues(jobs, f.accepted, CloneJob(e.job.value));
      case JobStateChanged =>
        ChangeMoves(f.snap.queue, jobs[i], CloneJob(e.job.value), e.kind);
        ReplacedFifo(jobs, i, CloneJob(e.job.value));
      case JobResult =>
        ChangeMoves(f.snap.queue, jobs[i], CloneJob(e.job.value), e.kind);
        ReplacedFifo(jobs, i, CloneJob(e.job.value));
      case JobOutput =>
      case QueueChanged =>
      case OtherKind(_) =>
    }
  }

  // ---- transactions ----

  /** Some event moves this job on. */
  ghost predicate Moved(es: seq<Event>, id: Id) { exists m :: 0 <= m < |es| && Moves(es[m]) && es[m].jobId == id }

  /** Some event's record of this job has a start time. */
  ghost predicate Launched(es: seq<Event>, id: Id) { exists m :: 0 <= m < |es| && Starts(es[m]) && es[m].jobId == id }

  /** What a caller can check before: no event starts a job that stands behind one which waits and
      which the transaction does not move on. */
  ghost predicate KeepsOrder(jobs: seq<Job>, es: seq<Event>) {
    forall k, m | 0 <= k < |jobs| && jobs[k].state.Queued? && !Moved(es, jobs[k].id) && 0 <= m < |es| && Starts(es[m]) ::
      0 <= Find(jobs, es[m].jobId) <= k
  }

  /** How the jobs after some events of a transaction relate to those before it. */
  ghost predicate Tracks(a: seq<Job>, es: seq<Event>, b: seq<Job>) {
    && |a| <= |b| && UniqueIds(b)
    && (forall k | 0 <= k < |a| ::
          b[k].id == a[k].id && (b[k].state.Queued? <==> a[k].state.Queued? && !Moved(es, a[k].id)))
    && (forall i | 0 <= i < |b| :: b[i].startedAt.Some? <==> (i < |a| && a[i].startedAt.Some?) || Launched(es, b[i].id))
    && (forall m | 0 <= m < |es| && Moves(es[m]) :: Find(b, es[m].jobId) >= 0)
  }

  lemma {:induction false} MovedMore(es: seq<Event>, e: Event, id: Id)
    ensures Moved(es + [e], id) <==> Moved(es, id) || (Moves(e) && e.jobId == id)
    ensures Launched(es + [e], id) <==> Launched(es, id) || (Starts(e) && e.jobId == id)
  {
    var all := es + [e];
    assert all[|es|] == e && forall m | 0 <= m < |es| :: all[m] == es[m];
    if Moved(es, id) {
      var m :| 0 <= m < |es| && Moves(es[m]) && es[m].jobId == id;
      assert Moves(all[m]) && all[m].jobId == id;
    }
    if Launched(es, id) {
      var m :| 0 <= m < |es| && Starts(es[m]) && es[m].jobId == id;
      assert Starts(all[m]) && all[m].jobId == id;
    }
  }

  /** Events that leave every job's identity, waiting and start alone. */
  lemma {:induction false} QuietTracks(a: seq<Job>, es: seq<Event>, b: seq<Job>, e: Event, c: seq<Job>)
    requires Tracks(a, es, b) && !Moves(e) && |c| == |b|
    requires forall i | 0 <= i < |b| :: c[i].id == b[i].id && c[i].state == b[i].state && c[i].startedAt == b[i].startedAt
    ensures Tracks(a, es + [e], c)
  {
    forall id ensures Moved(es + [e], id) == Moved(es, id) && Launched(es + [e], id) == Launched(es, id) {
      MovedMore(es, e, id);
    }
    forall m | 0 <= m < |es + [e]| && Moves((es + [e])[m]) ensures Find(c, (es + [e])[m].jobId) >= 0 {
      assert (es + [e])[m] == es[m];
      FindSameIds(b, c, es[m].jobId);
    }
  }

  /** Accepting a queued job. */
  lemma {:induction false} AcceptTracks(a: seq<Job>, es: seq<Event>, b: seq<Job>, e: Event, j: Job)
    requires Tracks(a, es, b) && !Moves(e) && Find(b, j.id) < 0 && j.startedAt.None?
    ensures Tracks(a, es + [e], b + [j])
  {
    forall id ensures Moved(es + [e], id) == Moved(es, id) && Launched(es + [e], id) == Launched(es, id) {
      MovedMore(es, e, id);
    }
    forall m | 0 <= m < |es + [e]| && Moves((es + [e])[m]) ensures Find(b + [j], (es + [e])[m].jobId) >= 0 {
      assert (es + [e])[m] == es[m];
      FindExtended(b, j, es[m].jobId);
    }
  }

  /** Moving a job on. */
  lemma {:induction false} MoveTracks(a: seq<Job>, es: seq<Event>, b: seq<Job>, e: Event, i: nat, j: Job)
    requires Tracks(a, es, b) && Moves(e) && i < |b| && b[i].id == e.jobId == j.id && j.startedAt == e.job.value.startedAt
    requires !j.state.Queued? && (b[i].startedAt.Some? ==> j.startedAt.Some?)
    ensures Tracks(a, es + [e], b[i := j])
  {
    var c := b[i := j];
    forall id
      ensures Moved(es + [e], id) == (Moved(es, id) || e.jobId == id)
      ensures Launched(es + [e], id) == (Launched(es, id) || (Starts(e) && e.jobId == id))
    {
      MovedMore(es, e, id);
    }
    forall m | 0 <= m < |es + [e]| && Moves((es + [e])[m]) ensures Find(c, (es + [e])[m].jobId) >= 0 {
      assert m < |es| ==> (es + [e])[m] == es[m];
      FindSameIds(b, c, (es + [e])[m].jobId);
      assert m == |es| ==> c[i].id == e.jobId;
    }
  }

  lemma {:induction false} EventTracks(a: seq<Job>, es: seq<Event>, f: Fold, e: Event)
    requires Sound(f.snap) && Tracks(a, es, f.snap.jobs) && ApplyEvent(f, e).Some? && FreshId(f.snap.jobs, e)
    ensures Tracks(a, es + [e], ApplyEvent(f, e).value.snap.jobs)
  {
    var b, c := f.snap.jobs, ApplyEvent(f, e).value.snap.jobs;
    var i := Find(b, e.jobId);
    if e.job.Some? {
      CloneShares(e.job.value);
    }
    if i >= 0 {
      ReadableId(b, i);
    }
    match e.kind {
      case JobAccepted =>
        AcceptQueues(b, f.accepted, CloneJob(e.job.value));
        AcceptTracks(a, es, b, e, CloneJob(e.job.value));
      case JobStateChanged =>
        ChangeMoves(f.snap.queue, b[i], CloneJob(e.job.value), e.kind);
        MoveTracks(a, es, b, e, i, CloneJob(e.job.value));
      case JobResult =>
        ChangeMoves(f.snap.queue, b[i], CloneJob(e.job.value), e.kind);
        MoveTracks(a, es, b, e, i, CloneJob(e.job.value));
      case JobOutput => QuietTracks(a, es, b, e, c);
      case QueueChanged => QuietTracks(a, es, b, e, c);
      case OtherKind(_) =>
    }
  }

  lemma {:induction false} EventsTrack(f: Fold, es: seq<Event>)
    requires Sound(f.snap) && ApplyEvents(f, es).Some? && UniqueIds(ApplyEvents(f, es).value.snap.jobs)
    ensures Tracks(f.snap.jobs, es, ApplyEvents(f, es).value.snap.jobs)
  {
    if es != [] {
      var init := es[..|es| - 1];
      EventsKeep(f, init);
      UniqueBefore(ApplyEvents(f, init).value, es[|es| - 1]);
      EventsTrack(f, init);
      EventTracks(f.snap.jobs, init, ApplyEvents(f, init).value, es[|es| - 1]);
      assert es == init + [es[|es| - 1]];
    }
  }

  lemma {:induction false} TrackedOrder(a: seq<Job>, es: seq<Event>, b: seq<Job>)
    requires Fifo(a) && UniqueIds(a) && Tracks(a, es, b) && |b| <= |a| + 1
    ensures Fifo(b) <==> KeepsOrder(a, es)
  {
    if Fifo(b) {
      forall k, m | 0 <= k < |a| && a[k].state.Queued? && !Moved(es, a[k].id) && 0 <= m < |es| && Starts(es[m])
        ensures 0 <= Find(a, es[m].jobId) <= k
      {
        var p := Find(b, es[m].jobId);
        assert Moves(es[m]) && Launched(es, es[m].jobId);
        assert b[k].state.Queued? && b[p].startedAt.Some?;
        assert p <= k;
        assert a[p].id == es[m].jobId;
      }
    }
    if KeepsOrder(a, es) {
      forall i, k | 0 <= i < k < |b| && b[i].state.Queued? ensures b[k].startedAt.None? {
        assert i < |a| && a[i].state.Queued? && !Moved(es, a[i].id);
      }
    }
  }

  /** WHICH TRANSACTIONS KEEP FIRST IN, FIRST OUT. The reducer accepts others too; an accepted one
      keeps acceptance order if and only if it starts no job behind one it leaves waiting. (Identities
      are retained once.) */
  lemma {:induction false} CommitOrder(s: Snapshot, c: Commit)
    requires Steady(s) && Fifo(s.jobs) && ApplyCommit(s, c).Some? && UniqueIds(ApplyCommit(s, c).value.jobs)
    ensures Fifo(ApplyCommit(s, c).value.jobs) <==> KeepsOrder(s.jobs, c.events)
  {
    var f := Fold(s, []);
    EventsKeep(f, c.events);
    UniqueGrows(s.jobs, ApplyCommit(s, c).value.jobs);
    EventsTrack(f, c.events);
    EventsAccept(f, c.events);
    var t := ApplyEvents(f, c.events).value;
    assert |Ids(t.snap.jobs)| == |t.snap.jobs| && |Ids(s.jobs)| == |s.jobs|;
    TrackedOrder(s.jobs, c.events, t.snap.jobs);
  }

  /** A second way around acceptance order, beside starting a later job: recording a start time on
      a later job that is cancelled while it waits. */
  function StampedCancel(j: Job, error: Fault, now: Time): Job {
    CancelledJob(j, error, now).(startedAt := Some(now))
  }

  lemma StampedCancelAccepted(s: Snapshot, i: nat, k: nat, error: Fault, now: Time, at: Time)
    requires Consistent(s) && i < k < |s.jobs| && s.jobs[i].state.Queued? && s.jobs[k].state.Queued?
    requires !error.code.NoCode? && LegibleFault(error) && s.cursor.sequence + 2 <= MAX_UINT64 && Ticks(at)
    ensures var c := Lifecycle(s, s.jobs[k], StampedCancel(s.jobs[k], error, now), at);
            ApplyCommit(s, c).Some? && !Fifo(ApplyCommit(s, c).value.jobs)
  {
    var j := StampedCancel(s.jobs[k], error, now);
    CancelAllowed(s, k, error, now);
    assert Allowed(s, k, j);
    assert Readable(s.jobs[k]);
    assert LegibleJob(s.jobs[k]);
    assert LegibleJob(j);
    LifecycleAccepted(s, k, j, at);
    assert s.jobs[k := j][i].state.Queued? && s.jobs[k := j][k].startedAt.Some?;
  }
}
