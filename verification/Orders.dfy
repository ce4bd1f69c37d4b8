/** What a create command asks for, and when it must be refused (`create`, internal/core/worker.go),
    independently of how the worker decides it. */
module Orders {
  import opened Utf8
  import opened Contract
  import opened Encoding
  import opened Reducer
  import opened History
  import opened Requests
  import opened Steps

  datatype Command = Command(op: Operation, parent: Id, origin: Text, request: Request)

  /** Key and origin are short UTF-8 texts, and the key is not empty. */
  predicate WellMarked(cmd: Command, key: Text) {
    1 <= |key| <= 128 && Wellformed(key) && |cmd.origin| <= 1024 && Wellformed(cmd.origin)
  }

  /** Job `p` is the one the command names as its parent. */
  predicate ParentAt(jobs: seq<Job>, cmd: Command, p: int) {
    0 <= p < |jobs| && cmd.parent != [] && jobs[p].id == cmd.parent
  }

  /** A retry or branch names no job. */
  predicate ParentMissing(cmd: Command) { !cmd.op.Submit? && cmd.parent == [] }

  ghost predicate ParentUnknown(jobs: seq<Job>, cmd: Command) { cmd.parent != [] && forall p :: !ParentAt(jobs, cmd, p) }

  ghost predicate ParentUnfinished(jobs: seq<Job>, cmd: Command) {
    exists p :: ParentAt(jobs, cmd, p) && !Terminal(jobs[p].state)
  }

  /** The job continues job `p`: a retry with its request, a branch with the command's own. */
  predicate Continues(jobs: seq<Job>, cmd: Command, j: Job, p: int) {
    && ParentAt(jobs, cmd, p) && Terminal(jobs[p].state)
    && j.lineage == Some(Lineage(cmd.parent, if cmd.op.RetryOf? then Retry else Branch))
    && j.request == (if cmd.op.RetryOf? then jobs[p].request else cmd.request)
  }

  /** The job a command asks for: new, with the request and lineage it describes, and with the
      instructions every reader of the journal will expect. */
  ghost predicate Asked(jobs: seq<Job>, cmd: Command, id: Id, now: Time, j: Job) {
    && j.id == id && j.state.Queued? && j.origin == cmd.origin && j.createdAt == now
    && j.startedAt.None? && j.finishedAt.None? && j.result == EMPTY_RESULT && j.error.None?
    && InstructionsChecked(jobs, j)
    && if cmd.parent == [] then cmd.op.Submit? && j.lineage.None? && j.request == cmd.request
       else exists p :: Continues(jobs, cmd, j, p)
  }

  /** The record leaves room for a terminal replacement in one commit. */
  predicate Compact(j: Job) { forall k {:trigger JobLen(k)} | k == j :: JobLen(k) <= MAX_COMMIT_BYTES - METADATA_RESERVE - 8192 }

  /** Why the asked job cannot be admitted, if it cannot. */
  ghost predicate Hindered(s: Snapshot, j: Job, code: ErrorCode) {
    if !Meaningful(j.request, j.instructions) then code == InvalidRequest
    else if !Short(j.request, j.instructions) then code == LimitExceeded
    else if |s.queue.pending| >= MAX_PENDING then code == QueueFull
    else (|s.jobs| >= MAX_JOBS || !Compact(j)) && code == LimitExceeded
  }

  /** The command must be refused with this code. */
  ghost predicate MustRefuse(s: Snapshot, cmd: Command, id: Id, now: Time, code: ErrorCode) {
    || (code == InvalidRequest && ParentMissing(cmd))
    || (code == NotFound && ParentUnknown(s.jobs, cmd))
    || (code == Conflict && ParentUnfinished(s.jobs, cmd))
    || exists j :: Asked(s.jobs, cmd, id, now, j) && Hindered(s, j, code)
  }

  /** The command asks for job `j`, and there is room for it. */
  ghost predicate Admitted(s: Snapshot, cmd: Command, id: Id, now: Time, j: Job) {
    && Asked(s.jobs, cmd, id, now, j)
    && Meaningful(j.request, j.instructions) && Short(j.request, j.instructions)
    && |s.queue.pending| < MAX_PENDING && |s.jobs| < MAX_JOBS && Compact(j)
  }

  /** The command itself must be refused with this code, before its key is looked up. */
  ghost predicate Unsound(cmd: Command, key: Text, code: ErrorCode) {
    if !WellMarked(cmd, key) then code == InvalidRequest
    else if cmd.op.RetryOf? then false
    else if !Meaningful(cmd.request, Compose(cmd.request)) then code == InvalidRequest
    else !Short(cmd.request, Compose(cmd.request)) && code == LimitExceeded
  }

  // The same as one-point quantifiers, so that callers do not unfold them.

  ghost predicate Refuses(s: Snapshot, cmd: Command, id: Id, now: Time, code: ErrorCode) {
    forall x {:trigger MustRefuse(s, x, id, now, code)} | x == cmd :: MustRefuse(s, x, id, now, code)
  }

  ghost predicate Admits(s: Snapshot, cmd: Command, id: Id, now: Time, j: Job) {
    forall x {:trigger Admitted(s, x, id, now, j)} | x == cmd :: Admitted(s, x, id, now, j)
  }

  ghost predicate Barred(cmd: Command, key: Text, code: ErrorCode) {
    forall x {:trigger Unsound(x, key, code)} | x == cmd :: Unsound(x, key, code)
  }

  // ---- what the worker prepares is what was asked for ----

  lemma {:induction false} FoundParent(jobs: seq<Job>, cmd: Command)
    requires UniqueIds(jobs)
    ensures var p := Find(jobs, cmd.parent);
            && (cmd.parent != [] && p >= 0 ==> ParentAt(jobs, cmd, p))
            && forall q | ParentAt(jobs, cmd, q) :: q == p
  {
  }

  lemma {:induction false} PreparedAsked(jobs: seq<Job>, cmd: Command, id: Id, now: Time)
    requires UniqueIds(jobs) && (cmd.op.Submit? ==> cmd.parent == [])
    requires Prepare(jobs, cmd.op, cmd.parent, cmd.request).Draft?
    ensures Asked(jobs, cmd, id, now, NewJob(id, Prepare(jobs, cmd.op, cmd.parent, cmd.request), cmd.origin, now))
    ensures !ParentMissing(cmd) && !ParentUnknown(jobs, cmd) && !ParentUnfinished(jobs, cmd)
  {
    var j := NewJob(id, Prepare(jobs, cmd.op, cmd.parent, cmd.request), cmd.origin, now);
    FoundParent(jobs, cmd);
    PreparedExpected(jobs, cmd.op, cmd.parent, cmd.request, id, cmd.origin, now);
    if cmd.parent != [] {
      assert Continues(jobs, cmd, j, Find(jobs, cmd.parent));
    }
  }

  lemma {:induction false} Expected(jobs: seq<Job>, j: Job, k: Job)
    requires InstructionsChecked(jobs, j) && InstructionsChecked(jobs, k) && j.request == k.request && j.lineage == k.lineage
    ensures j.instructions == k.instructions
  {
    assert ExpectedInstructions(jobs, j) == Some(j.instructions);
    assert ExpectedInstructions(jobs, k) == Some(k.instructions);
  }

  /** Only one job is asked for. */
  lemma {:induction false} AskedOnce(jobs: seq<Job>, cmd: Command, id: Id, now: Time, j: Job, k: Job)
    requires UniqueIds(jobs) && Asked(jobs, cmd, id, now, j) && Asked(jobs, cmd, id, now, k)
    ensures j == k
  {
    FoundParent(jobs, cmd);
    Expected(jobs, j, k);
  }

  lemma {:induction false} AskedPrepared(jobs: seq<Job>, cmd: Command, id: Id, now: Time, j: Job)
    requires UniqueIds(jobs) && (cmd.op.Submit? ==> cmd.parent == []) && Asked(jobs, cmd, id, now, j)
    ensures Prepare(jobs, cmd.op, cmd.parent, cmd.request).Draft?
    ensures j == NewJob(id, Prepare(jobs, cmd.op, cmd.parent, cmd.request), cmd.origin, now)
  {
    FoundParent(jobs, cmd);
    if cmd.parent != [] {
      var p :| Continues(jobs, cmd, j, p);
      assert p == Find(jobs, cmd.parent);
    }
    PreparedAsked(jobs, cmd, id, now);
    AskedOnce(jobs, cmd, id, now, j, NewJob(id, Prepare(jobs, cmd.op, cmd.parent, cmd.request), cmd.origin, now));
  }

  lemma {:induction false} CompactFits(j: Job)
    ensures Compact(j) <==> JobFits(j)
  {
  }
}
