/** The worker (internal/core/worker.go): one object whose lock regions are the methods below.
    Wall clock, random identities, disk outcomes and backend replies are parameters. */
module Worker {
  import opened Utf8
  import opened Contract
  import opened Encoding
  import opened Reducer
  import opened History
  import opened Frames
  import opened Recovery
  import opened Commits
  import opened Legible
  import opened Reserve
  import opened Storage
  import opened Steps
  import opened Requests
  import opened Orders
  import opened Journal
  import opened Output

  // ---- faults ----

  function MakeFault(code: ErrorCode, message: string): (f: Fault)
    ensures Wellformed(f.message)
  {
    AsciiWellformed(Ascii(message));
    Fault(code, Ascii(message), false)
  }

  const CANCELLED_FAULT: Fault := MakeFault(JobCancelledCode, "job cancelled")

  const OUTPUT_LIMIT: Fault := MakeFault(LimitExceeded, "output limit exceeded")

  const RECORD_LIMIT: Fault := MakeFault(LimitExceeded, "encoded job exceeds terminal record budget")

  const BUDGET_LIMIT: Fault := MakeFault(LimitExceeded, "journal budget exhausted")

  const ENCODING_FAULT: Fault := MakeFault(BackendFailure, "backend output is not UTF-8")

  const STORAGE_FAULT: Fault := MakeFault(StorageFailure, "transaction not stored")

  lemma FaultCodes()
    ensures CANCELLED_FAULT.code == JobCancelledCode && !CANCELLED_FAULT.retryable
    ensures OUTPUT_LIMIT.code == RECORD_LIMIT.code == BUDGET_LIMIT.code == LimitExceeded
  {
  }

  /** What a backend call can fail with: a classified fault or anything else. */
  datatype BackendError = Unclassified | Classified(code: ErrorCode, retryable: bool)

  /** The five classifications that reach clients do so as they are, all else as a failure, and
      retry advice only with two of them. */
  predicate Published(e: BackendError, f: Fault) {
    && f.code == (if e.Classified? && e.code in {InvalidRequest, Unsupported, LimitExceeded, BackendUnavailable} then e.code
                  else BackendFailure)
    && (f.retryable <==> e.Classified? && e.retryable && e.code in {BackendUnavailable, BackendFailure})
  }

  /** Only classifications cross the boundary, never backend text. */
  function PublicError(e: BackendError): (f: Fault)
    ensures FaultOk(f)
    ensures f.code in {InvalidRequest, Unsupported, LimitExceeded, BackendUnavailable, BackendFailure}
    ensures Published(e, f)
  {
    if e.Classified? then
      match e.code
      case InvalidRequest => MakeFault(InvalidRequest, "backend rejected the request")
      case Unsupported => MakeFault(Unsupported, "backend does not support the requested operation or option")
      case LimitExceeded => MakeFault(LimitExceeded, "backend or worker resource limit exceeded")
      case BackendUnavailable => MakeFault(BackendUnavailable, "backend is unavailable").(retryable := e.retryable)
      case BackendFailure => MakeFault(BackendFailure, "backend operation failed").(retryable := e.retryable)
      case _ => MakeFault(BackendFailure, "backend operation failed")
    else MakeFault(BackendFailure, "backend operation failed")
  }

  datatype CommitResult = Committed | LimitRefused | CommitFailed

  datatype Reply = Accepted(job: Job) | Error(code: ErrorCode)

  /** The receipt map holds exactly the stored receipts. */
  ghost predicate ReceiptsAgree(m: map<Text, Receipt>, rs: seq<Receipt>) {
    && (forall i | 0 <= i < |rs| :: rs[i].key in m && m[rs[i].key] == rs[i])
    && (forall key | key in m :: KeyUsed(rs, key))
  }

  lemma ReceiptsAgreeExtended(m: map<Text, Receipt>, rs: seq<Receipt>, r: Receipt)
    requires ReceiptsAgree(m, rs) && r.key !in m
    ensures !KeyUsed(rs, r.key) && ReceiptsAgree(m[r.key := r], rs + [r])
  {
    var all := rs + [r];
    assert all[|rs|] == r;
    forall key | key in m[r.key := r] ensures KeyUsed(all, key) {
      if key != r.key {
        var i :| 0 <= i < |rs| && rs[i].key == key;
        assert all[i].key == key;
      }
    }
  }

  /** Budget exhaustion cannot refuse what the reserve paid for. */
  lemma WithinBudget(store: Journal, c: Commit, t: Snapshot)
    requires store.Valid() && c.receipt.None? && Payable(store.state, c, t)
    ensures |store.k.marshal(c)| <= MAX_COMMIT_BYTES
    ensures InBudget(store.k, store.size, store.admission, store.hard, c, t)
  {
    store.Meaning();
    assert CommitLen(c) <= MAX_COMMIT_BYTES;
  }

  /** The receipt map mirrors the stored receipts, and each names a retained job. */
  ghost predicate Ledger(m: map<Text, Receipt>, rs: seq<Receipt>, jobs: seq<Job>) {
    forall x {:trigger ReceiptsAgree(m, x)} | x == rs ::
      ReceiptsAgree(m, x) && forall key | key in m :: Retains(jobs, m[key].jobId)
  }

  lemma LedgerGrew(m: map<Text, Receipt>, rs: seq<Receipt>, a: seq<Job>, b: seq<Job>)
    requires Ledger(m, rs, a) && Grew(a, b)
    ensures Ledger(m, rs, b)
  {
    assert ReceiptsAgree(m, rs);
    forall key | key in m ensures Retains(b, m[key].jobId) {
      RetainsGrew(a, b, m[key].jobId);
    }
  }

  lemma LedgerAdds(m: map<Text, Receipt>, rs: seq<Receipt>, a: seq<Job>, b: seq<Job>, r: Receipt)
    requires Ledger(m, rs, a) && Grew(a, b) && r.key !in m && Retains(b, r.jobId)
    ensures !KeyUsed(rs, r.key) && Ledger(m[r.key := r], rs + [r], b)
  {
    LedgerGrew(m, rs, a, b);
    assert ReceiptsAgree(m, rs);
    ReceiptsAgreeExtended(m, rs, r);
  }

  /** A used key leads to its job. */
  lemma LedgerFinds(m: map<Text, Receipt>, rs: seq<Receipt>, jobs: seq<Job>, key: Text)
    requires Ledger(m, rs, jobs) && key in m
    ensures Find(jobs, m[key].jobId) >= 0
  {
    assert ReceiptsAgree(m, rs);
    assert Retains(jobs, m[key].jobId);
  }

  function IndexReceipts(rs: seq<Receipt>): map<Text, Receipt> {
    if rs == [] then map[] else IndexReceipts(rs[..|rs| - 1])[rs[|rs| - 1].key := rs[|rs| - 1]]
  }

  lemma {:induction false} IndexAgrees(rs: seq<Receipt>)
    requires UniqueKeys(rs)
    ensures ReceiptsAgree(IndexReceipts(rs), rs)
  {
    if rs != [] {
      var init, r := rs[..|rs| - 1], rs[|rs| - 1];
      IndexAgrees(init);
      assert !KeyUsed(init, r.key);
      ReceiptsAgreeExtended(IndexReceipts(init), init, r);
      assert init + [r] == rs;
    }
  }

  /** The receipts of a recovered journal index its jobs. */
  lemma StoreReceipts(store: Journal)
    requires store.Valid()
    ensures Ledger(IndexReceipts(store.receipts), store.receipts, store.state.jobs)
  {
    store.Meaning();
    IndexAgrees(store.receipts);
    ReceiptsMatchJobs(Hex(store.seed), store.commits);
    var m, jobs := IndexReceipts(store.receipts), store.state.jobs;
    forall key | key in m ensures Retains(jobs, m[key].jobId) {
      var i :| 0 <= i < |store.receipts| && store.receipts[i].key == key;
      assert jobs[i].id == m[key].jobId;
    }
  }

  lemma StoreGood(store: Journal)
    requires store.Valid() && Sane(Hex(store.seed), store.commits, store.attempt)
    ensures Good(store.state)
  {
    store.Meaning();
    SaneState(Hex(store.seed), store.commits, store.attempt);
  }

  /** An append keeps every snapshot of the run good, whether it is stored or fails. */
  lemma StoreSane(store: Journal, c: Commit, t: Snapshot)
    requires store.Valid() && Sane(Hex(store.seed), store.commits, store.attempt) && Accepts(store.state, c, t) && Good(t) && Tame(c)
    ensures store.attempt == [] ==>
              Sane(Hex(store.seed), store.commits + [c], []) && Sane(Hex(store.seed), store.commits, [c])
  {
    store.Meaning();
    if store.attempt == [] {
      SaneExtended(Hex(store.seed), store.commits, c, store.state, t);
    }
  }

  class Worker {
    const store: Journal
    /** SHA-256 of the canonical command, in hex. */
    const digest: Command -> Text
    var state: Snapshot
    var receipts: map<Text, Receipt>
    /** Whether a cancel function is set, and whether it was called. */
    var cancel: bool
    var cancelRequested: bool
    var outputErr: Option<Fault>
    var fatal: Option<Fault>
    var stopping: bool
    var closed: bool
    /** The Generate calls that were launched and have not returned, by job. */
    var calls: multiset<Id>
    /** How often the store was closed. */
    ghost var closures: nat

    /** What holds whenever the lock is free. */
    ghost predicate Valid()
      reads this, store
    {
      Live() && Settled()
    }

    /** What holds throughout a lock region. */
    ghost predicate Live()
      reads this, store
    {
      InSync() && Execution()
    }

    /** NO WORK IS LEFT STANDING: while the worker runs, an unpaused queue without an active job is
        empty. */
    predicate Settled()
      reads this
    {
      fatal.None? && !stopping ==> state.queue.paused || state.queue.active.Some? || state.queue.pending == []
    }

    /** This job is the active one, its call is the one that runs, and it is recorded as running
        since `now`. */
    predicate Began(id: Id, now: Time)
      reads this
    {
      calls == multiset{id} && state.queue.active == Some(id) && RunsSince(state.jobs, id, now)
    }

    /** The worker's view is the journal's: same snapshot, same receipts. */
    ghost predicate InSync()
      reads this, store
    {
      && store.Valid() && Digests(digest)
      && state == store.state && Good(state) && Sane(Hex(store.seed), store.commits, store.attempt)
      && Ledger(receipts, store.receipts, state.jobs)
      && store.closed == closed
    }

    /** One inference at most, the cancel function set exactly while it runs, and the store
        closed once, only when none runs. */
    ghost predicate Execution()
      reads this, store
    {
      && calls == Running(cancel, state.queue.active) && (cancel ==> state.queue.active.Some?)
      && (fatal.None? ==> (state.queue.active.Some? <==> cancel))
      && closures == (if closed then 1 else 0)
      && (closed ==> stopping && !cancel)
      && (stopping && !closed ==> cancel)
    }

    /** The active job's call, while there is a cancel function for it. */
    static function Running(cancel: bool, active: Option<Id>): multiset<Id> {
      if cancel && active.Some? then multiset{active.value} else multiset{}
    }

    /** At most one call runs: the active job's, with a cancel function for it. */
    lemma OneCall()
      requires Valid()
      ensures |calls| <= 1 && (cancel <==> |calls| == 1)
      ensures forall id | id in calls :: calls == multiset{id} && state.queue.active == Some(id)
    {
    }

    static ghost predicate Digests(digest: Command -> Text) {
      forall c: Command :: |digest(c)| == 64 && forall i | 0 <= i < 64 :: HexByte(digest(c)[i])
    }

    function Available(): Option<ErrorCode>
      reads this
    {
      if fatal.Some? then Some(fatal.value.code) else if stopping then Some(Unavailable) else None
    }

    /** NewWorker over a recovered journal: a job left executing is interrupted first, then
        dispatch resumes. Construction has failed when `fatal` is set. */
    constructor (store: Journal, digest: Command -> Text, now: Time, at: Time, io0: Io, io1: Io)
      requires store.Valid() && !store.closed && Digests(digest) && ClockOk(now) && ClockOk(at)
      requires Sane(Hex(store.seed), store.commits, store.attempt)
      modifies store
      ensures this.store == store && this.digest == digest && Valid() && !stopping
      ensures old(store.commits) <= store.commits && Grew(old(store.state.jobs), state.jobs)
      ensures fatal.None? && old(store.state.queue.active).Some? ==>
                GivenUp(state.jobs, old(store.state.queue.active.value), now)
      ensures io0.Smooth? && io1.Smooth? && old(Room(store.state, 4) && !store.poisoned) ==> fatal.None?
    {
      this.store, this.digest, this.state := store, digest, store.state;
      this.receipts := IndexReceipts(store.receipts);
      this.cancel, this.cancelRequested, this.outputErr, this.fatal := false, false, None, None;
      this.stopping, this.closed, this.calls, this.closures := false, false, multiset{}, 0;
      new;
      StoreReceipts(store);
      StoreGood(store);
      GrewReflexive(state.jobs);
      if state.queue.active.Some? {
        Interrupt(now, at, io0);
      }
      ghost var before := state.jobs;
      Dispatch(now, at, io1);
      GrewTransitive(old(store.state.jobs), before, state.jobs);
      if fatal.None? && old(store.state.queue.active).Some? {
        GivenUpStays(before, state, old(store.state.queue.active.value), now);
      }
    }

    /** A record closed because its process ended. */
    static predicate Abandoned(j: Job, now: Time) {
      j.state.Interrupted? && j.finishedAt == Some(now) && j.error.Some? && j.error.value.code == InterruptedCode
    }

    static predicate GivenUp(jobs: seq<Job>, id: Id, now: Time) {
      forall x: seq<Job> {:trigger Find(x, id)} | x == jobs :: Find(x, id) >= 0 && Abandoned(x[Find(x, id)], now)
    }

    static lemma GivenUpStays(a: seq<Job>, s: Snapshot, id: Id, now: Time)
      requires GivenUp(a, id, now) && Grew(a, s.jobs) && Good(s)
      ensures GivenUp(s.jobs, id, now)
    {
      IdsUnique(s);
      assert Find(a, id) >= 0;
      FinishedStays(a, s.jobs, id, a[Find(a, id)]);
      assert RecordedAs(s.jobs, id, a[Find(a, id)]) ==> Find(s.jobs, id) >= 0;
    }

    /** The job a previous process left executing becomes interrupted. */
    method Interrupt(now: Time, at: Time, io: Io)
      requires InSync() && fatal.None? && !closed && !stopping && state.queue.active.Some? && ClockOk(now) && ClockOk(at)
      requires calls == multiset{} && !cancel && closures == 0
      modifies this`state, this`receipts, this`fatal, this`cancelRequested, store
      ensures Live() && old(store.commits) <= store.commits && Grew(old(state.jobs), state.jobs)
      ensures io.Smooth? && old(Room(state, 2) && !store.poisoned) ==> fatal.None? && !store.poisoned
      ensures fatal.None? ==>
                && state.cursor.sequence == old(state.cursor.sequence) + 2
                && state.queue == old(state.queue).(active := None)
                && GivenUp(state.jobs, old(state.queue.active.value), now)
    {
      GrewReflexive(state.jobs);
      var i, j := InterruptedOf(state, now, at);
      var q := state.queue.(active := None);
      var r := Commit([JobEvent(JobResult, j), QueueEvent(q)], None, at, io, After(state, 2, q, state.jobs[i := j]));
      if !r.Committed? {
        Poison(STORAGE_FAULT);
      }
    }

    /** The record an abandoned job is closed with. */
    static method InterruptedOf(s: Snapshot, now: Time, ghost at: Time) returns (i: nat, j: Job)
      requires Good(s) && s.queue.active.Some? && ClockOk(now) && ClockOk(at)
      ensures i < |s.jobs| && i == Find(s.jobs, s.queue.active.value) && j.id == s.queue.active.value
      ensures GivenUp(s.jobs[i := j], s.queue.active.value, now) && j.result == s.jobs[i].result
      ensures Room(s, 2) ==>
                var q := s.queue.(active := None);
                var es, t := [JobEvent(JobResult, j), QueueEvent(q)], After(s, 2, q, s.jobs[i := j]);
                Ready(s, es, None, at, t) && Paid(s, es, at, t)
    {
      ActiveExecutes(s);
      ActiveReadable(s);
      i := Find(s.jobs, s.queue.active.value);
      var error := MakeFault(InterruptedCode, "service stopped during inference");
      FinishReady(s, Interrupted, Some(error), s.jobs[i].result, now, at);
      j := Finished(s.jobs[i], Interrupted, Some(error), s.jobs[i].result, now);
      FindSameIds(s.jobs, s.jobs[i := j], s.queue.active.value);
    }

    /** The worker stops mutating; a running backend call is asked to stop. */
    method Poison(f: Fault)
      modifies this`fatal, this`cancelRequested
      ensures fatal == Some(f) && (cancel ==> cancelRequested)
    {
      fatal := Some(f);
      if cancel {
        cancelRequested := true;
      }
    }

    /** The journal has room for the transaction. */
    ghost predicate Covered(es: seq<Event>, receipt: Option<Receipt>, at: Time, next: Snapshot)
      reads this, store
    {
      forall x {:trigger Build(state, x, receipt, at)} | x == es ::
        InBudget(store.k, store.size, store.admission, store.hard, Build(state, x, receipt, at), next)
    }

    /** Build, check, append, publish. `next` is the snapshot the step lemma promised. */
    method Commit(es: seq<Event>, receipt: Option<Receipt>, at: Time, io: Io, ghost next: Snapshot) returns (r: CommitResult)
      requires InSync() && fatal.None? && !closed
      requires Room(state, |es|) ==> Ready(state, es, receipt, at, next)
      requires receipt.Some? ==> receipt.value.key !in receipts && (Room(state, |es|) ==> Retains(next.jobs, receipt.value.jobId))
      modifies this`state, this`receipts, this`fatal, this`cancelRequested, store
      ensures InSync()
      ensures r.Committed? ==>
                && state == next && Good(next) && Grew(old(state.jobs), next.jobs) && Room(old(state), |es|) && fatal == old(fatal) && cancelRequested == old(cancelRequested)
                && store.commits == old(store.commits) + [Build(old(state), es, receipt, at)]
                && store.size == old(store.size) + FRAME_SIZE + |store.k.marshal(Build(old(state), es, receipt, at))|
                && receipts == (if receipt.Some? then old(receipts)[receipt.value.key := receipt.value] else old(receipts))
      ensures !r.Committed? ==> state == old(state) && receipts == old(receipts) && store.commits == old(store.commits)
      ensures r.LimitRefused? ==> fatal.None? && cancelRequested == old(cancelRequested) && store.poisoned == old(store.poisoned)
      ensures r.CommitFailed? ==> fatal.Some? && (cancel ==> cancelRequested)
      ensures receipt.None? && Room(old(state), |es|) && Paid(old(state), es, at, next) ==> !r.LimitRefused?
      ensures r.LimitRefused? ==> Room(old(state), |es|) && !old(Covered(es, receipt, at, next))
      ensures io.Smooth? && Room(old(state), |es|) && !old(store.poisoned) ==> !r.CommitFailed? && !store.poisoned
    {
      if state.cursor.sequence + |es| > MAX_UINT64 {
        Poison(STORAGE_FAULT);
        return CommitFailed;
      }
      var c := Build(state, es, receipt, at);
      var applied := Check(state, c);
      AcceptsOrRejects(state, c, next);
      AcceptsOne(state, c, next, applied.value);
      if receipt.Some? {
        LedgerAdds(receipts, store.receipts, state.jobs, next.jobs, receipt.value);
      } else if Paid(state, es, at, next) {
        WithinBudget(store, c, next);
      }
      LedgerGrew(receipts, store.receipts, state.jobs, next.jobs);
      assert store.receipts + [] == store.receipts;
      StoreSane(store, c, next);
      var a := store.Append(c, io);
      if !a.Appended? {
        if !a.Refused? {
          Poison(STORAGE_FAULT);
          return CommitFailed;
        }
        return LimitRefused;
      }
      state := applied.value;
      if receipt.Some? {
        receipts := receipts[receipt.value.key := receipt.value];
      }
      return Committed;
    }

    /** What every step guarantees about the past: commits, jobs and receipts are only added to,
        faults and shutdown are final, and nothing is appended once the store is closed. */
    twostate predicate Progress()
      reads this, store
    {
      && old(store.commits) <= store.commits && Grew(old(state.jobs), state.jobs)
      && (forall key | key in old(receipts) :: key in receipts && receipts[key] == old(receipts[key]))
      && (old(fatal).Some? ==> fatal.Some?) && (old(stopping) ==> stopping) && old(closures) <= closures
      && (old(closed) ==> store.commits == old(store.commits))
    }

    /** Start the first pending job if the queue allows it. */
    method Dispatch(now: Time, at: Time, io: Io)
      requires Live() && ClockOk(now) && ClockOk(at)
      modifies this, store
      ensures Valid() && Progress()
      ensures stopping == old(stopping) && receipts == old(receipts) && state.queue.paused == old(state.queue.paused)
      ensures old(stopping || fatal.Some? || !CanDispatch(state)) ==>
                state == old(state) && fatal == old(fatal) && store.commits == old(store.commits) && store.poisoned == old(store.poisoned)
      ensures old(!stopping && fatal.None? && CanDispatch(state)) && fatal.None? ==>
                var id := old(state.queue.pending[0]);
                var i := Find(old(state.jobs), id);
                && Began(id, now) && !cancelRequested && outputErr.None?
                && state.queue == old(state.queue).(pending := old(state.queue.pending)[1..], active := Some(id))
                && i >= 0 && state.jobs == old(state.jobs)[i := Started(old(state.jobs)[i], now)]
      ensures old(fatal.None?) && io.Smooth? && old(Room(state, 2) && !store.poisoned) ==> fatal.None? && !store.poisoned
    {
      if stopping || fatal.Some? || !CanDispatch(state) {
        return;
      }
      var ok, id := StoreStart(now, at, io);
      if ok {
        StartGenerate(id);
      }
    }

    /** The first half of a start: the first pending job is recorded as running and active. */
    method StoreStart(now: Time, at: Time, io: Io) returns (ok: bool, id: Id)
      requires InSync() && fatal.None? && !closed && CanDispatch(state) && ClockOk(now) && ClockOk(at)
      modifies this`state, this`receipts, this`fatal, this`cancelRequested, store
      ensures InSync() && Grew(old(state.jobs), state.jobs) && receipts == old(receipts) && old(store.commits) <= store.commits
      ensures ok ==>
                && fatal.None? && id == old(state.queue.pending[0])
                && state.queue == old(state.queue).(pending := old(state.queue.pending)[1..], active := Some(id))
                && var i := Find(old(state.jobs), id);
                   && i >= 0 && state.jobs == old(state.jobs)[i := Started(old(state.jobs)[i], now)]
                   && RunsSince(state.jobs, id, now)
      ensures !ok ==> fatal.Some? && (cancel ==> cancelRequested) && state == old(state)
      ensures io.Smooth? && old(Room(state, 2) && !store.poisoned) ==> ok && !store.poisoned
    {
      DispatchReady(state, now, at);
      GrewReflexive(state.jobs);
      id := state.queue.pending[0];
      var i := Find(state.jobs, id);
      var j := Started(state.jobs[i], now);
      StartRecorded(state.jobs, id, now);
      var q := state.queue.(pending := state.queue.pending[1..], active := Some(id));
      var r := Commit([JobEvent(JobStateChanged, j), QueueEvent(q)], None, at, io, After(state, 2, q, state.jobs[i := j]));
      ok := r.Committed?;
      if !ok {
        Poison(STORAGE_FAULT);
      }
    }

    /** The backend call is launched with a fresh cancel function. No other may run. */
    method StartGenerate(id: Id)
      requires InSync() && fatal.None? && !stopping && !closed && closures == 0
      requires calls == multiset{} && !cancel && state.queue.active == Some(id)
      modifies this`cancel, this`cancelRequested, this`outputErr, this`calls
      ensures Valid() && cancel && !cancelRequested && outputErr.None? && calls == multiset{id}
    {
      cancel, cancelRequested, outputErr, calls := true, false, None, calls + multiset{id};
    }

    /** The store is closed once, after the last backend call returned. An error from closing
        it becomes the worker's fault if there is none yet. */
    method CloseStore(closing: Option<Fault>)
      requires InSync() && calls == multiset{} && !cancel && stopping && closures == (if closed then 1 else 0)
      requires fatal.None? ==> state.queue.active.None?
      modifies this`closed, this`closures, this`fatal, store`closed
      ensures Valid() && closed
      ensures fatal == if !old(closed) && old(fatal).None? then closing else old(fatal)
    {
      if closed {
        return;
      }
      store.Close();
      if fatal.None? {
        fatal := closing;
      }
      closed, closures := true, closures + 1;
    }

    /** Stop dispatching; close now if nothing runs, otherwise when it returns. */
    method Shutdown(closing: Option<Fault>)
      requires Valid()
      modifies this`stopping, this`cancelRequested, this`closed, this`closures, this`fatal, store`closed
      ensures Valid() && Progress() && stopping && (closed <==> calls == multiset{})
      ensures old(!stopping && cancel) ==> cancelRequested
      ensures closing.None? || old(stopping) || old(cancel) ==> fatal == old(fatal)
      ensures old(fatal).Some? ==> fatal == old(fatal)
    {
      GrewReflexive(state.jobs);
      if !stopping {
        stopping := true;
        if cancel {
          cancelRequested := true;
        } else {
          CloseStore(closing);
        }
      }
    }

    /** A replay read failed for an observer. */
    method ReplayFailed(f: Fault)
      requires Valid()
      modifies this`fatal, this`cancelRequested
      ensures Valid() && Progress() && (stopping ==> fatal == old(fatal)) && (!stopping ==> fatal == Some(f))
      ensures !stopping && cancel ==> cancelRequested
    {
      GrewReflexive(state.jobs);
      if !stopping {
        Poison(f);
      }
    }

    // ---- create ----

    /** Checks on a create command that need no state. */
    static function Screen(cmd: Command, key: Text): Option<ErrorCode> {
      if !KeyOk(key) || !OriginOk(cmd.origin) then Some(InvalidRequest)
      else if !cmd.op.RetryOf? then ValidateRequest(cmd.request, Compose(cmd.request))
      else None
    }

    /** The job a create command would add, or why it is refused. */
    static function Plan(s: Snapshot, cmd: Command, id: Id, now: Time): (r: Reply)
      ensures r.Accepted? ==> r.job.id == id
    {
      var d := Prepare(s.jobs, cmd.op, cmd.parent, cmd.request);
      if d.DraftError? then Error(d.code)
      else if ValidateRequest(d.request, d.instructions).Some? then Error(ValidateRequest(d.request, d.instructions).value)
      else if |s.queue.pending| >= MAX_PENDING then Error(QueueFull)
      else if |s.jobs| >= MAX_JOBS then Error(LimitExceeded)
      else if !JobFits(NewJob(id, d, cmd.origin, now)) then Error(LimitExceeded)
      else Accepted(NewJob(id, d, cmd.origin, now))
    }

    /** The command passed the state-free checks. */
    static predicate Screened(cmd: Command, key: Text) {
      forall x {:trigger Screen(x, key)} | x == cmd :: Screen(x, key).None?
    }

    /** The command would add job `j`. */
    static predicate Planned(s: Snapshot, cmd: Command, id: Id, now: Time, j: Job) {
      forall x {:trigger Plan(s, x, id, now)} | x == cmd :: Plan(s, x, id, now) == Accepted(j)
    }

    static predicate Unplanned(s: Snapshot, cmd: Command, id: Id, now: Time, code: ErrorCode) {
      forall x {:trigger Plan(s, x, id, now)} | x == cmd :: Plan(s, x, id, now) == Error(code)
    }

    static method MakePlan(s: Snapshot, cmd: Command, id: Id, now: Time) returns (r: Reply)
      requires Good(s) && (cmd.op.Submit? ==> cmd.parent == [])
      ensures r.Accepted? ==> Planned(s, cmd, id, now, r.job) && r.job.id == id
      ensures forall j :: r == Accepted(j) <==> Admits(s, cmd, id, now, j)
      ensures forall code :: r == Error(code) <==> Refuses(s, cmd, id, now, code)
    {
      r := Plan(s, cmd, id, now);
      PlanMeans(s, cmd, id, now);
      assert r.Accepted? ==> Planned(s, cmd, id, now, r.job);
      assert r.Error? ==> Unplanned(s, cmd, id, now, r.code);
    }

    /** The worker's two decisions are the ones the command calls for. */
    static lemma ScreenExact(cmd: Command, key: Text)
      ensures forall code :: Screen(cmd, key) == Some(code) <==> Unsound(cmd, key, code)
      ensures Screened(cmd, key) <==> Screen(cmd, key).None?
    {
      ValidateExact(cmd.request, Compose(cmd.request));
    }

    /** PLANNING IS EXACT. The plan adds job `j` if and only if the command asks for `j` and there is
        room, and refuses with a code if and only if that refusal is due. */
    static lemma {:induction false} PlanExact(s: Snapshot, cmd: Command, id: Id, now: Time)
      requires UniqueIds(s.jobs) && (cmd.op.Submit? ==> cmd.parent == [])
      ensures forall j :: Plan(s, cmd, id, now) == Accepted(j) <==> Admitted(s, cmd, id, now, j)
      ensures forall code :: Plan(s, cmd, id, now) == Error(code) <==> MustRefuse(s, cmd, id, now, code)
    {
      var d := Prepare(s.jobs, cmd.op, cmd.parent, cmd.request);
      if d.Draft? {
        DraftPlanned(s, cmd, id, now, NewJob(id, d, cmd.origin, now));
      } else {
        NoDraft(s, cmd, id, now);
      }
    }

    static lemma {:induction false} DraftPlanned(s: Snapshot, cmd: Command, id: Id, now: Time, j: Job)
      requires UniqueIds(s.jobs) && (cmd.op.Submit? ==> cmd.parent == [])
      requires Prepare(s.jobs, cmd.op, cmd.parent, cmd.request).Draft?
      requires j == NewJob(id, Prepare(s.jobs, cmd.op, cmd.parent, cmd.request), cmd.origin, now)
      ensures forall k :: Plan(s, cmd, id, now) == Accepted(k) <==> Admitted(s, cmd, id, now, k)
      ensures forall code :: Plan(s, cmd, id, now) == Error(code) <==> MustRefuse(s, cmd, id, now, code)
    {
      PreparedAsked(s.jobs, cmd, id, now);
      ValidateExact(j.request, j.instructions);
      forall k ensures AskedFor(s.jobs, cmd, id, now, k) <==> k == j {
        assert AskedFor(s.jobs, cmd, id, now, k) <==> Asked(s.jobs, cmd, id, now, k);
        if Asked(s.jobs, cmd, id, now, k) {
          AskedOnce(s.jobs, cmd, id, now, j, k);
        }
      }
      CompactFits(j);
      AskedAnswer(s, cmd, id, now, j, Plan(s, cmd, id, now));
    }

    /** Asked as a one-point quantifier. */
    static ghost predicate AskedFor(jobs: seq<Job>, cmd: Command, id: Id, now: Time, j: Job) {
      forall x {:trigger Asked(jobs, x, id, now, j)} | x == cmd :: Asked(jobs, x, id, now, j)
    }

    /** The answer when one job is asked for. */
    static lemma {:induction false} AskedAnswer(s: Snapshot, cmd: Command, id: Id, now: Time, j: Job, r: Reply)
      requires forall k :: AskedFor(s.jobs, cmd, id, now, k) <==> k == j
      requires !ParentMissing(cmd) && !ParentUnknown(s.jobs, cmd) && !ParentUnfinished(s.jobs, cmd)
      requires r == if !Meaningful(j.request, j.instructions) then Error(InvalidRequest)
                    else if !Short(j.request, j.instructions) then Error(LimitExceeded)
                    else if |s.queue.pending| >= MAX_PENDING then Error(QueueFull)
                    else if |s.jobs| >= MAX_JOBS || !Compact(j) then Error(LimitExceeded)
                    else Accepted(j)
      ensures forall k :: r == Accepted(k) <==> Admitted(s, cmd, id, now, k)
      ensures forall code :: r == Error(code) <==> MustRefuse(s, cmd, id, now, code)
    {
      forall k ensures Asked(s.jobs, cmd, id, now, k) <==> k == j {
        assert AskedFor(s.jobs, cmd, id, now, k) <==> Asked(s.jobs, cmd, id, now, k);
      }
      forall code ensures r == Error(code) <==> MustRefuse(s, cmd, id, now, code) {
        assert (exists k :: Asked(s.jobs, cmd, id, now, k) && Hindered(s, k, code)) <==> Hindered(s, j, code);
      }
    }

    static lemma {:induction false} NoDraft(s: Snapshot, cmd: Command, id: Id, now: Time)
      requires UniqueIds(s.jobs) && (cmd.op.Submit? ==> cmd.parent == [])
      requires Prepare(s.jobs, cmd.op, cmd.parent, cmd.request).DraftError?
      ensures forall k :: Plan(s, cmd, id, now) != Accepted(k) && !Admitted(s, cmd, id, now, k)
      ensures forall code :: Plan(s, cmd, id, now) == Error(code) <==> MustRefuse(s, cmd, id, now, code)
    {
      forall k ensures !Asked(s.jobs, cmd, id, now, k) {
        if Asked(s.jobs, cmd, id, now, k) {
          AskedPrepared(s.jobs, cmd, id, now, k);
        }
      }
      FoundParent(s.jobs, cmd);
    }

    /** The same in the form the methods use. */
    static lemma {:induction false} PlanMeans(s: Snapshot, cmd: Command, id: Id, now: Time)
      requires Good(s) && (cmd.op.Submit? ==> cmd.parent == [])
      ensures forall j :: Planned(s, cmd, id, now, j) <==> Admits(s, cmd, id, now, j)
      ensures forall code :: Unplanned(s, cmd, id, now, code) <==> Refuses(s, cmd, id, now, code)
    {
      IdsUnique(s);
      PlanExact(s, cmd, id, now);
      var plan := Plan(s, cmd, id, now);
    }

    /** What a create command under a fresh key stores: the job it asks for, the queue with that job
        behind it, and the receipt. */
    static ghost predicate Enrolled(s: Snapshot, c: Commit, cmd: Command, key: Text, d: Text, id: Id, now: Time, at: Time) {
      exists j | Admits(s, cmd, id, now, j) :: c == EnrollCommit(s, j, Receipt(key, d, id), at)
    }

    static function EnrollCommit(s: Snapshot, j: Job, receipt: Receipt, at: Time): Commit {
      Build(s, [JobEvent(JobAccepted, j), QueueEvent(s.queue.(pending := s.queue.pending + [j.id]))], Some(receipt), at)
    }

    /** The journal has room for the job the command asks for. */
    ghost predicate Affords(cmd: Command, key: Text, id: Id, now: Time, at: Time)
      reads this, store
    {
      forall j | Admits(state, cmd, id, now, j) ::
        InBudget(store.k, store.size, store.admission, store.hard, EnrollCommit(state, j, Receipt(key, digest(cmd), id), at),
                 After(state, 2, state.queue.(pending := state.queue.pending + [id]), state.jobs + [j]))
    }

    /** Submit, retry and branch. The identity `id` is drawn when the key is new, and then fresh. */
    method Create(cmd: Command, key: Text, id: Id, now: Time, at: Time, io0: Io, io1: Io) returns (r: Reply)
      requires Valid() && HexId(id) && (key !in receipts ==> !Retains(state.jobs, id)) && ClockOk(now) && ClockOk(at)
      requires cmd.op.Submit? ==> cmd.parent == []
      modifies this, store
      ensures Valid() && Progress()
      ensures old(Available()).Some? ==> r == Error(old(Available()).value) && store.commits == old(store.commits)
      ensures forall code | old(Available()).None? && Barred(cmd, key, code) :: r == Error(code) && store.commits == old(store.commits)
      ensures old(Available()).None? && !Screened(cmd, key) ==> exists code :: Barred(cmd, key, code)
      ensures old(Available()).None? && Screened(cmd, key) && key in old(receipts) ==>
                && store.commits == old(store.commits) && state == old(state)
                && receipts == old(receipts) && fatal == old(fatal) && stopping == old(stopping)
                && (if old(receipts)[key].digest == digest(cmd)
                    then r.Accepted? && r.job.id == old(receipts)[key].jobId
                    else r == Error(Conflict))
      ensures forall code | old(Available()).None? && Screened(cmd, key) && key !in old(receipts) && Refuses(old(state), cmd, id, now, code) ::
                r == Error(code) && store.commits == old(store.commits)
      ensures old(Available()).None? && Screened(cmd, key) && key !in old(receipts) ==>
                (exists j :: Admits(old(state), cmd, id, now, j)) || (exists code :: Refuses(old(state), cmd, id, now, code))
      ensures r.Accepted? ==> Screened(cmd, key)
      ensures r.Accepted? && key !in old(receipts) ==>
                && |old(store.commits)| < |store.commits|
                && Enrolled(old(state), store.commits[|old(store.commits)|], cmd, key, digest(cmd), id, now, at)
                && (fatal.None? && old(CanStart(state)) ==> Began(id, now))
      ensures forall j | old(Available()).None? && Screened(cmd, key) && key !in old(receipts) && Admits(old(state), cmd, id, now, j) ::
                && (r.Error? ==> (fatal.Some? && r == Error(StorageFailure)) || (r == Error(LimitExceeded) && !old(Affords(cmd, key, id, now, at))))
                && (io0.Smooth? && old(Room(state, 2) && !store.poisoned && Affords(cmd, key, id, now, at)) ==> r.Accepted?)
      ensures r.Accepted? ==> key in receipts && receipts[key].digest == digest(cmd) && receipts[key].jobId == r.job.id
      ensures r.Accepted? ==> RecordedAs(state.jobs, r.job.id, r.job)
      ensures r.Error? && fatal.None? ==> store.commits == old(store.commits)
      ensures io0.Smooth? && io1.Smooth? && old(fatal.None? && Room(state, 4) && !store.poisoned) ==> fatal.None?
    {
      GrewReflexive(state.jobs);
      var unavailable := Available();
      if unavailable.Some? {
        return Error(unavailable.value);
      }
      var bad := MakeScreen(cmd, key);
      if bad.Some? {
        return Error(bad.value);
      }
      r := CreateScreened(cmd, key, id, now, at, io0, io1);
    }

    static method MakeScreen(cmd: Command, key: Text) returns (r: Option<ErrorCode>)
      ensures r.None? <==> Screened(cmd, key)
      ensures forall code :: r == Some(code) <==> Barred(cmd, key, code)
    {
      r := Screen(cmd, key);
      ScreenExact(cmd, key);
    }

    /** Nothing is active and nothing waits, so that a new job starts at once. */
    static predicate CanStart(s: Snapshot) { !s.queue.paused && s.queue.active.None? && s.queue.pending == [] }

    /** A used key resolves to its job or to a conflict; otherwise the job is planned and enrolled. */
    method CreateScreened(cmd: Command, key: Text, id: Id, now: Time, at: Time, io0: Io, io1: Io) returns (r: Reply)
      requires Valid() && Available().None? && HexId(id) && (key !in receipts ==> !Retains(state.jobs, id)) && ClockOk(now) && ClockOk(at)
      requires (cmd.op.Submit? ==> cmd.parent == []) && Screened(cmd, key)
      modifies this, store
      ensures Valid() && Progress()
      ensures key in old(receipts) ==>
                && store.commits == old(store.commits) && state == old(state)
                && receipts == old(receipts) && fatal == old(fatal) && stopping == old(stopping)
                && (if old(receipts)[key].digest == digest(cmd)
                    then r.Accepted? && r.job.id == old(receipts)[key].jobId
                    else r == Error(Conflict))
      ensures forall code | key !in old(receipts) && Refuses(old(state), cmd, id, now, code) ::
                r == Error(code) && store.commits == old(store.commits)
      ensures key !in old(receipts) ==>
                (exists j :: Admits(old(state), cmd, id, now, j)) || (exists code :: Refuses(old(state), cmd, id, now, code))
      ensures r.Accepted? && key !in old(receipts) ==>
                && |old(store.commits)| < |store.commits|
                && Enrolled(old(state), store.commits[|old(store.commits)|], cmd, key, digest(cmd), id, now, at)
                && (fatal.None? && old(CanStart(state)) ==> Began(id, now))
      ensures forall j | key !in old(receipts) && Admits(old(state), cmd, id, now, j) ::
                && (r.Error? ==> (fatal.Some? && r == Error(StorageFailure)) || (r == Error(LimitExceeded) && !old(Affords(cmd, key, id, now, at))))
                && (io0.Smooth? && old(Room(state, 2) && !store.poisoned && Affords(cmd, key, id, now, at)) ==> r.Accepted?)
      ensures r.Accepted? ==> key in receipts && receipts[key].digest == digest(cmd) && receipts[key].jobId == r.job.id
      ensures r.Accepted? ==> RecordedAs(state.jobs, r.job.id, r.job)
      ensures r.Error? && fatal.None? ==> store.commits == old(store.commits)
      ensures io0.Smooth? && io1.Smooth? && old(Room(state, 4) && !store.poisoned) ==> fatal.None?
    {
      GrewReflexive(state.jobs);
      if key in receipts {
        r := Replayed(key, digest(cmd));
        return;
      }
      var plan := MakePlan(state, cmd, id, now);
      if plan.Error? {
        return plan;
      }
      r := Enroll(cmd, plan.job, Receipt(key, digest(cmd), id), now, at, io0, io1);
    }

    /** The answer under a used key. */
    method Replayed(key: Text, d: Text) returns (r: Reply)
      requires Valid() && key in receipts
      ensures if receipts[key].digest == d then r.Accepted? && r.job.id == receipts[key].jobId && RecordedAs(state.jobs, r.job.id, r.job)
              else r == Error(Conflict)
    {
      if receipts[key].digest != d {
        return Error(Conflict);
      }
      LedgerFinds(receipts, store.receipts, state.jobs, key);
      return Accepted(state.jobs[Find(state.jobs, receipts[key].jobId)]);
    }

    /** The planned job can be stored with its receipt. */
    lemma PlannedReady(s: Snapshot, cmd: Command, j: Job, receipt: Receipt, now: Time, at: Time)
      requires Good(s) && ClockOk(now) && ClockOk(at) && HexId(j.id) && !Retains(s.jobs, j.id) && Digests(digest)
      requires (cmd.op.Submit? ==> cmd.parent == []) && Screened(cmd, receipt.key) && Planned(s, cmd, j.id, now, j)
      requires receipt.digest == digest(cmd) && receipt.jobId == j.id
      ensures var q := Enqueued(s.queue, j.id);
              var t := After(s, 2, q, s.jobs + [j]);
              && Retains(t.jobs, j.id)
              && (Room(s, 2) ==> Ready(s, [JobEvent(JobAccepted, j), QueueEvent(q)], Some(receipt), at, t))
    {
      assert Plan(s, cmd, j.id, now) == Accepted(j);
      assert Screen(cmd, receipt.key).None?;
      assert Find(s.jobs, j.id) < 0;
      CreateReady(s, cmd.op, cmd.parent, cmd.request, j.id, cmd.origin, now, at, receipt);
    }

    /** The planned job and its receipt are stored in one transaction. */
    method Enroll(cmd: Command, j: Job, receipt: Receipt, now: Time, at: Time, io0: Io, io1: Io) returns (r: Reply)
      requires Valid() && fatal.None? && !stopping && HexId(j.id) && !Retains(state.jobs, j.id) && ClockOk(now) && ClockOk(at)
      requires (cmd.op.Submit? ==> cmd.parent == []) && Screened(cmd, receipt.key) && Planned(state, cmd, j.id, now, j)
      requires receipt.key !in receipts && receipt.digest == digest(cmd) && receipt.jobId == j.id
      modifies this, store
      ensures Valid() && Progress()
      ensures r.Accepted? ==> receipt.key in receipts && receipts[receipt.key] == receipt && r.job.id == j.id
      ensures r.Accepted? ==> RecordedAs(state.jobs, j.id, r.job)
      ensures r.Accepted? ==>
                && |old(store.commits)| < |store.commits|
                && store.commits[|old(store.commits)|] == EnrollCommit(old(state), j, receipt, at)
                && (fatal.None? && old(CanStart(state)) ==> Began(j.id, now))
      ensures r.Error? ==> (fatal.Some? && r == Error(StorageFailure)) || (r == Error(LimitExceeded) && !old(Enough(j, receipt, at)))
      ensures io0.Smooth? && old(Room(state, 2) && !store.poisoned && Enough(j, receipt, at)) ==> r.Accepted?
      ensures r.Error? && fatal.None? ==> store.commits == old(store.commits)
      ensures io0.Smooth? && io1.Smooth? && old(Room(state, 4) && !store.poisoned) ==> fatal.None?
    {
      r := StoreNew(cmd, j, receipt, now, at, io0);
      if r.Error? {
        return;
      }
      ghost var before := state.jobs;
      Dispatch(now, at, io1);
      GrewTransitive(old(state.jobs), before, state.jobs);
      LedgerFinds(receipts, store.receipts, state.jobs, receipt.key);
      return Accepted(state.jobs[Find(state.jobs, j.id)]);
    }

    /** The journal has room for this job. */
    ghost predicate Enough(j: Job, receipt: Receipt, at: Time)
      reads this, store
    {
      forall x {:trigger EnrollCommit(state, x, receipt, at)} | x == j ::
        InBudget(store.k, store.size, store.admission, store.hard, EnrollCommit(state, x, receipt, at),
                 After(state, 2, state.queue.(pending := state.queue.pending + [x.id]), state.jobs + [x]))
    }

    lemma EnoughCovers(j: Job, receipt: Receipt, at: Time)
      ensures var q := Enqueued(state.queue, j.id);
              Enough(j, receipt, at) <==>
              Covered([JobEvent(JobAccepted, j), QueueEvent(q)], Some(receipt), at, After(state, 2, q, state.jobs + [j]))
    {
      var c := EnrollCommit(state, j, receipt, at);
    }

    method StoreNew(cmd: Command, j: Job, receipt: Receipt, now: Time, at: Time, io: Io) returns (r: Reply)
      requires Valid() && fatal.None? && !stopping && HexId(j.id) && !Retains(state.jobs, j.id) && ClockOk(now) && ClockOk(at)
      requires (cmd.op.Submit? ==> cmd.parent == []) && Screened(cmd, receipt.key) && Planned(state, cmd, j.id, now, j)
      requires receipt.key !in receipts && receipt.digest == digest(cmd) && receipt.jobId == j.id
      modifies this`state, this`receipts, this`fatal, this`cancelRequested, store
      ensures Live() && Grew(old(state.jobs), state.jobs)
      ensures r.Accepted? ==>
                && r.job == j && fatal.None? && receipts == old(receipts)[receipt.key := receipt]
                && state.cursor.sequence == old(state.cursor.sequence) + 2
                && state.queue == old(state.queue).(pending := old(state.queue).pending + [j.id])
                && store.commits == old(store.commits) + [EnrollCommit(old(state), j, receipt, at)]
      ensures r.Error? ==> state == old(state) && store.commits == old(store.commits) && receipts == old(receipts)
      ensures r.Error? ==> (fatal.Some? && r == Error(StorageFailure)) || (r == Error(LimitExceeded) && !old(Enough(j, receipt, at)))
      ensures io.Smooth? && old(Room(state, 2) && !store.poisoned && Enough(j, receipt, at)) ==> r.Accepted?
      ensures io.Smooth? && old(Room(state, 2) && !store.poisoned) ==> fatal.None? && !store.poisoned
    {
      var q := Enqueued(state.queue, j.id);
      PlannedReady(state, cmd, j, receipt, now, at);
      GrewReflexive(state.jobs);
      var es := [JobEvent(JobAccepted, j), QueueEvent(q)];
      ghost var next := After(state, 2, q, state.jobs + [j]);
      EnoughCovers(j, receipt, at);
      assert Build(state, es, Some(receipt), at) == EnrollCommit(state, j, receipt, at);
      var c := Commit(es, Some(receipt), at, io, next);
      if !c.Committed? {
        return Error(if c.LimitRefused? then LimitExceeded else StorageFailure);
      }
      return Accepted(j);
    }

    // ---- cancel and pause ----

    /** A waiting job is recorded as cancelled, and nothing else about it changes. */
    static predicate Withdrawn(was: Job, j: Job, now: Time) {
      && j == was.(state := Cancelled, finishedAt := Some(now), error := j.error)
      && j.error.Some? && j.error.value.code == JobCancelledCode && !j.error.value.retryable
    }

    static lemma CancelRecords(was: Job, now: Time)
      requires was.state.Queued? || was.state.Running?
      ensures var j := CancelledJob(was, CANCELLED_FAULT, now);
              if was.state.Queued? then Withdrawn(was, j, now) else j == was.(state := Cancelling)
    {
      FaultCodes();
    }

    /** Cancel a job: queued work ends at once, running work is asked to stop. */
    method CancelJob(id: Id, now: Time, at: Time, io: Io) returns (r: Reply)
      requires Valid() && ClockOk(now) && ClockOk(at)
      modifies this, store
      ensures Valid() && Progress() && calls == old(calls)
      ensures old(Available()).Some? ==> r == Error(old(Available()).value)
      ensures old(Available()).None? && Find(old(state.jobs), id) < 0 ==> r == Error(NotFound)
      ensures r.Accepted? ==> Find(old(state.jobs), id) >= 0 && (Terminal(r.job.state) || r.job.state.Cancelling?)
      ensures r.Accepted? ==>
                var i := Find(old(state.jobs), id);
                var was := old(state.jobs)[i];
                && state.jobs == old(state.jobs)[i := r.job]
                && (if was.state.Queued? then Withdrawn(was, r.job, now)
                    else if was.state.Running? then r.job == was.(state := Cancelling)
                    else r.job == was && store.commits == old(store.commits))
      ensures r.Accepted? && r.job.state.Cancelling? && old(state.jobs)[Find(old(state.jobs), id)].state.Running? ==>
                calls == multiset{id} && cancelRequested
      ensures old(Available()).None? && Find(old(state.jobs), id) >= 0 && r.Error? ==> fatal.Some? && r == Error(StorageFailure)
      ensures io.Smooth? && old(fatal.None? && Room(state, 2) && !store.poisoned) ==> fatal.None?
      ensures io.Smooth? && old(Available().None? && Room(state, 2) && !store.poisoned) && Find(old(state.jobs), id) >= 0 ==> r.Accepted?
    {
      GrewReflexive(state.jobs);
      var unavailable := Available();
      if unavailable.Some? {
        return Error(unavailable.value);
      }
      var i := Find(state.jobs, id);
      if i < 0 {
        return Error(NotFound);
      }
      if Terminal(state.jobs[i].state) || state.jobs[i].state.Cancelling? {
        return Accepted(state.jobs[i]);
      }
      KnownState(state, i);
      r := StoreCancel(i, now, at, io);
    }

    lemma KnownState(s: Snapshot, i: nat)
      requires Good(s) && i < |s.jobs|
      ensures JobOk(s.jobs[i]) && !s.jobs[i].state.OtherState?
    {
      assert Consistent(s);
    }

    method StoreCancel(i: nat, now: Time, at: Time, io: Io) returns (r: Reply)
      requires Valid() && fatal.None? && !stopping && i < |state.jobs| && ClockOk(now) && ClockOk(at)
      requires state.jobs[i].state.Queued? || state.jobs[i].state.Running?
      modifies this`state, this`receipts, this`fatal, this`cancelRequested, store
      ensures Valid() && Progress()
      ensures r.Accepted? ==>
                && state.jobs == old(state.jobs)[i := r.job]
                && (if old(state.jobs)[i].state.Queued? then Withdrawn(old(state.jobs)[i], r.job, now)
                    else r.job == old(state.jobs)[i].(state := Cancelling) && calls == multiset{old(state.jobs)[i].id} && cancelRequested)
      ensures r.Error? ==> fatal.Some? && r == Error(StorageFailure)
      ensures io.Smooth? && old(Room(state, 2) && !store.poisoned) ==> fatal.None? && r.Accepted?
    {
      var was := state.jobs[i];
      var error := CANCELLED_FAULT;
      var j := CancelledJob(was, error, now);
      CancelRecords(was, now);
      var q := if was.state.Queued? then state.queue.(pending := RemoveFirst(state.queue.pending, j.id)) else state.queue;
      CancelReady(state, i, error, now, at);
      GrewReflexive(state.jobs);
      var c := Commit([JobEvent(if was.state.Queued? then JobResult else JobStateChanged, j), QueueEvent(q)], None, at, io,
                      After(state, 2, q, state.jobs[i := j]));
      if !c.Committed? {
        return Error(if c.LimitRefused? then LimitExceeded else StorageFailure);
      }
      if j.state.Cancelling? {
        assert cancel;
        cancelRequested := true;
      }
      return Accepted(j);
    }

    /** Persist the pause flag if it changes, then dispatch if allowed. */
    method SetQueuePaused(paused: bool, now: Time, at: Time, io0: Io, io1: Io) returns (r: Option<ErrorCode>)
      requires Valid() && ClockOk(now) && ClockOk(at)
      modifies this, store
      ensures Valid() && Progress()
      ensures old(Available()).Some? ==> r == old(Available()) && store.commits == old(store.commits)
      ensures r.None? ==> state.queue.paused == paused
      ensures old(Available()).None? && r.Some? ==>
                state == old(state) && r == Some(if fatal.Some? then StorageFailure else LimitExceeded)
      ensures r.None? && paused ==> calls == old(calls)
      ensures r.None? && !paused && fatal.None? && old(state.queue.active.None? && state.queue.pending != []) ==>
                Began(old(state.queue.pending[0]), now)
      ensures io0.Smooth? && io1.Smooth? && old(fatal.None? && Room(state, 3) && !store.poisoned) ==> fatal.None?
    {
      GrewReflexive(state.jobs);
      var unavailable := Available();
      if unavailable.Some? {
        return unavailable;
      }
      if state.queue.paused != paused {
        r := StorePause(paused, at, io0);
        if r.Some? {
          return;
        }
      }
      ghost var before := state.jobs;
      Dispatch(now, at, io1);
      GrewTransitive(old(state.jobs), before, state.jobs);
      return None;
    }

    method StorePause(paused: bool, at: Time, io: Io) returns (r: Option<ErrorCode>)
      requires Valid() && fatal.None? && !stopping && ClockOk(at)
      modifies this`state, this`receipts, this`fatal, this`cancelRequested, store
      ensures Live() && Progress() && receipts == old(receipts)
      ensures r.None? ==> fatal.None? && state.queue == old(state.queue).(paused := paused)
                          && state.cursor.sequence == old(state.cursor.sequence) + 1
      ensures r.Some? ==> state == old(state) && r == Some(if fatal.Some? then StorageFailure else LimitExceeded)
      ensures io.Smooth? && old(Room(state, 1) && !store.poisoned) ==> fatal.None? && !store.poisoned
    {
      PauseReady(state, paused, at);
      GrewReflexive(state.jobs);
      var q := state.queue.(paused := paused);
      var c := Commit([QueueEvent(q)], None, at, io, After(state, 1, q, state.jobs));
      if !c.Committed? {
        return Some(if c.LimitRefused? then LimitExceeded else StorageFailure);
      }
      return None;
    }

    // ---- output ----

    /** Nothing failed so far, and sequence and journal have room for `n` bytes of output. */
    ghost predicate Healthy(n: nat)
      reads this, store
    {
      !store.poisoned && Room(state, n) && (n > 0 ==> Ample(store.size, state, n, store.hard))
    }

    /** Output was refused at the first chunk that would make the text too long or the record too
        large, with the fault for that. */
    static ghost predicate Overflowed(jobs: seq<Job>, id: Id, text: Text, kept: nat, f: Fault) {
      exists chunk | Overflows(jobs, id, text, kept, chunk) :: f == Overflow(jobs, id, text[..kept] + chunk)
    }

    static function Overflow(jobs: seq<Job>, id: Id, more: Text): Fault {
      if TooLong(jobs, id, more) then OUTPUT_LIMIT else RECORD_LIMIT
    }

    /** The backend's output callback. Valid text is stored in chunks; the first failure is
        remembered, asks the backend to stop and refuses all further output. What is retained is
        always a prefix of the text that ends at a character boundary. */
    method Emit(id: Id, text: Text, at: Time, disk: nat -> Io) returns (err: Option<Fault>, ghost kept: nat)
      requires Valid() && id in calls && ClockOk(at)
      modifies this, store
      ensures Valid() && Progress() && calls == old(calls)
      ensures kept <= |text| && Gained(old(state.jobs), state.jobs, id, text[..kept])
      ensures Wellformed(text[..kept])
      ensures err.None? ==> kept == |text| && fatal.None? && outputErr.None? && old(outputErr).None? && Wellformed(text)
      ensures err.Some? ==> fatal.Some? || outputErr.Some?
      ensures err.Some? && old(fatal.None? && outputErr.None?) ==> cancelRequested && outputErr == err
      ensures old(fatal).Some? ==> err == old(fatal)
      ensures old(fatal.None? && outputErr.Some?) ==> err == old(outputErr)
      ensures old(fatal.None? && outputErr.None?) && !Wellformed(text) ==> err.value.code == BackendFailure
      ensures old(outputErr).Some? || !Wellformed(text) ==> err.Some? && kept == 0
      ensures old(fatal.None? && outputErr.None?) && Wellformed(text) && err.Some? && fatal.None? ==>
                err == Some(BUDGET_LIMIT) || Overflowed(old(state.jobs), id, text, kept, err.value)
      ensures Wellformed(text) && old(fatal.None? && outputErr.None? && Healthy(|text|)) && (forall n :: disk(n).Smooth?) ==>
                && fatal.None? && (err.None? <==> Taken(old(state.jobs), id, text))
                && (err.Some? ==> Overflowed(old(state.jobs), id, text, kept, err.value))
    {
      GrewReflexive(state.jobs);
      NothingSent(id);
      assert text[..0] == [];
      kept := 0;
      if fatal.Some? {
        return fatal, 0;
      }
      if outputErr.Some? {
        return outputErr, 0;
      }
      if !ValidUtf8(text) {
        Reject(ENCODING_FAULT);
        return outputErr, 0;
      }
      err, kept := EmitAll(id, text, at, disk);
      if err.Some? {
        Reject(err.value);
      }
    }

    /** The call's job is retained. */
    lemma NothingSent(id: Id)
      requires Valid() && id in calls
      ensures calls == multiset{id} && cancel && Gained(state.jobs, state.jobs, id, [])
    {
      CallRuns(id);
      GainedNothing(state.jobs, id);
      EmptyWellformed();
    }

    /** The loop over chunks, up to the first failure. */
    method EmitAll(id: Id, text: Text, at: Time, disk: nat -> Io) returns (err: Option<Fault>, ghost kept: nat)
      requires Valid() && fatal.None? && calls == multiset{id} && ClockOk(at) && Wellformed(text)
      modifies this`state, this`receipts, this`fatal, this`cancelRequested, store
      ensures Valid() && Progress()
      ensures kept <= |text| && Gained(old(state.jobs), state.jobs, id, text[..kept]) && Wellformed(text[..kept])
      ensures err.None? ==> kept == |text| && fatal.None? && Taken(old(state.jobs), id, text)
      ensures err.Some? && fatal.None? ==> err == Some(BUDGET_LIMIT) || Overflowed(old(state.jobs), id, text, kept, err.value)
      ensures err.Some? && old(Healthy(|text|)) && (forall n :: disk(n).Smooth?) ==>
                fatal.None? && Overflowed(old(state.jobs), id, text, kept, err.value) && !Taken(old(state.jobs), id, text)
    {
      GrewReflexive(state.jobs);
      SendingFirst(id, text);
      var rest, n := text, 0;
      ghost var healthy, first := Healthy(|text|) && forall n :: disk(n).Smooth?, state;
      kept := 0;
      while rest != []
        invariant Valid() && Progress() && fatal.None?
        invariant Sending(first.jobs, state.jobs, id, text, kept, rest)
        invariant healthy ==> Healthy(|rest|)
        decreases |rest|
      {
        ghost var before := state.jobs;
        var chunk;
        err, chunk, rest := EmitNext(first, id, text, kept, rest, at, disk(n));
        GrewTransitive(first.jobs, before, state.jobs);
        if err.Some? {
          SendingText(first.jobs, state.jobs, id, text, kept, rest);
          return;
        }
        kept, n := kept + |chunk|, n + 1;
      }
      SendingText(first.jobs, state.jobs, id, text, kept, rest);
      return None, kept;
    }

    /** One turn of the loop. */
    method EmitNext(ghost first: Snapshot, id: Id, ghost text: Text, ghost kept: nat, rest: Text, at: Time, io: Io)
      returns (err: Option<Fault>, chunk: Text, more: Text)
      requires Valid() && fatal.None? && calls == multiset{id} && ClockOk(at) && rest != [] && Good(first) && Wellformed(text)
      requires Sending(first.jobs, state.jobs, id, text, kept, rest)
      modifies this`state, this`receipts, this`fatal, this`cancelRequested, store
      ensures Valid() && Progress()
      ensures err.None? ==> fatal.None? && |more| < |rest| && Sending(first.jobs, state.jobs, id, text, kept + |chunk|, more)
      ensures err.Some? ==>
                && state == old(state) && more == rest
                && (fatal.Some? || err == Some(BUDGET_LIMIT)
                    || (Overflowed(first.jobs, id, text, kept, err.value) && !Taken(first.jobs, id, text)))
      ensures io.Smooth? && old(Healthy(|rest|)) ==>
                if err.None? then Healthy(|more|)
                else fatal.None? && Overflowed(first.jobs, id, text, kept, err.value) && !Taken(first.jobs, id, text)
    {
      SendingText(first.jobs, state.jobs, id, text, kept, rest);
      chunk, more := NextChunk(rest);
      ghost var before := state.jobs;
      err := EmitChunk(id, chunk, |more|, at, io);
      if err.Some? {
        Refusal(first, before, id, text, kept, rest, chunk, err.value);
        more := rest;
      } else {
        SendingMore(first.jobs, before, state.jobs, id, text, kept, rest, chunk, more);
      }
    }

    lemma SendingFirst(id: Id, text: Text)
      requires Valid() && calls == multiset{id} && Wellformed(text)
      ensures Sending(state.jobs, state.jobs, id, text, 0, text)
    {
      CallRuns(id);
      SendingStarts(state.jobs, id, text);
    }

    /** All of the text so far was within the limits. */
    static predicate Taken(jobs: seq<Job>, id: Id, text: Text) { text == [] || Roomy(jobs, id, text) }

    /** A chunk refused for a limit, in terms of the whole text. */
    static lemma {:induction false} Refusal(s: Snapshot, b: seq<Job>, id: Id, text: Text, kept: nat, rest: Text, chunk: Text, f: Fault)
      requires Good(s) && Sending(s.jobs, b, id, text, kept, rest) && FirstChunk(rest, chunk) && Wellformed(text)
      ensures Refused(b, id, chunk, f) ==> Overflowed(s.jobs, id, text, kept, f) && !Taken(s.jobs, id, text)
    {
      SendingText(s.jobs, b, id, text, kept, rest);
      RoomyGained(s.jobs, b, id, text[..kept], chunk);
      assert rest == text[kept..];
      if Refused(b, id, chunk, f) {
        assert Overflows(s.jobs, id, text, kept, chunk);
        assert Find(s.jobs, id) >= 0;
        OverflowFinal(s, id, text, kept, chunk);
      }
    }

    /** The chunk was refused for a limit, with the fault for it. */
    static predicate Refused(jobs: seq<Job>, id: Id, chunk: Text, f: Fault) { !Roomy(jobs, id, chunk) && f == Overflow(jobs, id, chunk) }

    /** The job gained the first `kept` bytes of the text, and `rest` remains. (A one-point
        quantifier, so that the loop does not unfold it.) */
    static ghost predicate Sending(a: seq<Job>, b: seq<Job>, id: Id, text: Text, kept: nat, rest: Text) {
      && kept <= |text| && |rest| == |text| - kept
      && forall n {:trigger text[..n]} | n == kept ::
           rest == text[n..] && Wellformed(rest) && Wellformed(text[..n]) && Gained(a, b, id, text[..n]) && Taken(a, id, text[..n])
    }

    static lemma {:induction false} SendingText(a: seq<Job>, b: seq<Job>, id: Id, text: Text, kept: nat, rest: Text)
      requires Sending(a, b, id, text, kept, rest)
      ensures kept <= |text| && |rest| == |text| - kept && Wellformed(rest) && Wellformed(text[..kept])
      ensures Gained(a, b, id, text[..kept]) && Taken(a, id, text[..kept])
      ensures rest == [] ==> text[..kept] == text
    {
      var sent := text[..kept];
    }

    static lemma {:induction false} SendingStarts(jobs: seq<Job>, id: Id, text: Text)
      requires Wellformed(text) && Find(jobs, id) >= 0
      ensures Sending(jobs, jobs, id, text, 0, text)
    {
      assert text[..0] == [] && text[0..] == text;
      GainedNothing(jobs, id);
      EmptyWellformed();
    }

    static lemma {:induction false} SendingMore(a: seq<Job>, b: seq<Job>, c: seq<Job>, id: Id, text: Text, kept: nat, rest: Text, chunk: Text, more: Text)
      requires Sending(a, b, id, text, kept, rest) && Gained(b, c, id, chunk) && Roomy(b, id, chunk)
      requires rest == chunk + more && ChunkOk(chunk) && Wellformed(more)
      ensures Sending(a, c, id, text, kept + |chunk|, more)
    {
      SendingText(a, b, id, text, kept, rest);
      var sent := text[..kept];
      assert rest == text[kept..];
      assert text == text[..kept] + (chunk + more);
      assert text[..kept] + chunk == text[..kept + |chunk|];
      assert more == text[kept + |chunk|..];
      WellformedConcat(text[..kept], chunk);
      GainedBoth(a, b, c, id, text[..kept], chunk);
      RoomyGained(a, b, id, text[..kept], chunk);
    }

    /** A failed output is remembered and the backend asked to stop. */
    method Reject(f: Fault)
      requires cancel
      modifies this`outputErr, this`cancelRequested
      ensures outputErr == Some(f) && cancelRequested
    {
      outputErr, cancelRequested := Some(f), true;
    }

    /** One durable chunk, with `left` bytes to follow. */
    method EmitChunk(id: Id, chunk: Text, ghost left: nat, at: Time, io: Io) returns (err: Option<Fault>)
      requires Valid() && fatal.None? && calls == multiset{id} && ClockOk(at)
      requires ChunkOk(chunk) && (left == 0 || |chunk| >= MAX_CHUNK_BYTES - 3)
      modifies this`state, this`receipts, this`fatal, this`cancelRequested, store
      ensures Valid() && Progress()
      ensures err.None? ==> fatal.None? && Gained(old(state.jobs), state.jobs, id, chunk) && Roomy(old(state.jobs), id, chunk)
      ensures err.Some? ==> state == old(state) && (fatal.Some? || err == Some(BUDGET_LIMIT) || Refused(old(state.jobs), id, chunk, err.value))
      ensures io.Smooth? && old(Healthy(|chunk| + left)) ==>
                if err.None? then Healthy(left) else fatal.None? && Refused(old(state.jobs), id, chunk, err.value)
    {
      GrewReflexive(state.jobs);
      var i;
      i, err := CheckChunk(id, chunk);
      if err.None? {
        err := StoreChunk(id, i, chunk, left, at, io);
      }
    }

    /** Whether the job can take the chunk. */
    method CheckChunk(id: Id, chunk: Text) returns (i: nat, err: Option<Fault>)
      requires Valid() && calls == multiset{id}
      ensures err.None? ==> Roomy(state.jobs, id, chunk) && ChunkFits(state, i, chunk) && i == Find(state.jobs, id)
      ensures err.Some? ==> Refused(state.jobs, id, chunk, err.value)
    {
      CallRuns(id);
      i := Find(state.jobs, id);
      LimitsExact(state.jobs, id, chunk);
      if |state.jobs[i].result.text| + |chunk| > MAX_OUTPUT_BYTES {
        return i, Some(OUTPUT_LIMIT);
      }
      if !FitChecked(Extended(state.jobs[i], chunk)) {
        return i, Some(RECORD_LIMIT);
      }
      return i, None;
    }

    /** The job whose call runs is recorded as executing. */
    lemma CallRuns(id: Id)
      requires Valid() && id in calls
      ensures var i := Find(state.jobs, id);
              i >= 0 && Executing(state.jobs[i].state) && state.queue.active == Some(id) && cancel && calls == multiset{id}
    {
      ActiveExecutes(state);
    }

    static lemma {:induction false} LimitsExact(jobs: seq<Job>, id: Id, chunk: Text)
      requires Find(jobs, id) >= 0
      ensures TooLong(jobs, id, chunk) <==> |jobs[Find(jobs, id)].result.text| + |chunk| > MAX_OUTPUT_BYTES
      ensures TooLarge(jobs, id, chunk) <==> !FitChecked(Extended(jobs[Find(jobs, id)], chunk))
    {
      var j := Extended(jobs[Find(jobs, id)], chunk);
      CompactFits(j);
      assert FitChecked(j) <==> JobFits(j);
    }

    /** A healthy worker can pay for the chunk and stays healthy. */
    lemma ChunkCovered(i: nat, chunk: Text, left: nat, at: Time)
      requires Valid() && i < |state.jobs| && Executing(state.jobs[i].state) && ChunkOk(chunk) && ClockOk(at)
      requires (left == 0 || |chunk| >= MAX_CHUNK_BYTES - 3) && Healthy(|chunk| + left)
      ensures var es := [OutputEvent(state.jobs[i].id, |state.jobs[i].result.text|, chunk)];
              var t := AfterOutput(state, i, chunk);
              && Covered(es, None, at, t)
              && (left > 0 ==> Ample(store.size + FRAME_SIZE + |store.k.marshal(Build(state, es, None, at))|, t, left, store.hard))
    {
      store.Meaning();
      AmpleChunk(store.k, store.size, store.admission, store.hard, state, i, chunk, left, at);
    }

    method StoreChunk(id: Id, i: nat, chunk: Text, ghost left: nat, at: Time, io: Io) returns (err: Option<Fault>)
      requires Valid() && fatal.None? && calls == multiset{id} && ClockOk(at) && ChunkOk(chunk)
      requires i == Find(state.jobs, id) && ChunkFits(state, i, chunk) && (left == 0 || |chunk| >= MAX_CHUNK_BYTES - 3)
      modifies this`state, this`receipts, this`fatal, this`cancelRequested, store
      ensures Valid() && Progress()
      ensures err.None? ==> fatal.None? && Gained(old(state.jobs), state.jobs, id, chunk)
      ensures err.Some? ==> state == old(state) && (fatal.Some? || err == Some(BUDGET_LIMIT))
      ensures io.Smooth? && old(Healthy(|chunk| + left)) ==> err.None? && Healthy(left)
    {
      GrewReflexive(state.jobs);
      CallRuns(id);
      OutputReady(state, chunk, at);
      ghost var t := AfterOutput(state, i, chunk);
      ghost var healthy := Healthy(|chunk| + left);
      if healthy {
        ChunkCovered(i, chunk, left, at);
      }
      var es := [OutputEvent(state.jobs[i].id, |state.jobs[i].result.text|, chunk)];
      var c := Commit(es, None, at, io, t);
      if c.Committed? {
        return None;
      }
      return if c.LimitRefused? then Some(BUDGET_LIMIT) else fatal;
    }

    // ---- completion ----

    /** Reported metadata that may be stored: it can be encoded, is small enough, and its names are
        UTF-8. */
    static predicate Acceptable(result: Option<Result>) {
      && result.Some? && MetadataLen(result.value) <= METADATA_RESERVE / 2
      && ValidUtf8(result.value.finishReason) && ValidUtf8(result.value.effectiveModel)
    }

    /** Anything else fails the job. */
    static function Metadata(result: Option<Result>): Option<Result> {
      if result.None? || MetadataLen(result.value) > METADATA_RESERVE / 2
         || !ValidUtf8(result.value.finishReason) || !ValidUtf8(result.value.effectiveModel) then None
      else result
    }

    /** How a returned backend call ends its job: shutdown wins over cancellation, that over an
        output failure, that over a backend failure. */
    static function Verdict(stopping: bool, from: JobState, outputErr: Option<Fault>, backendErr: Option<BackendError>): (v: (JobState, Option<Fault>))
      ensures Executing(from) ==> Outcome(from, v.0, v.1)
      ensures v.0.Interrupted? <==> stopping
      ensures v.0.Cancelled? <==> !stopping && from.Cancelling?
      ensures v.0.Failed? <==> !stopping && !from.Cancelling? && (outputErr.Some? || backendErr.Some?)
      ensures v.0.Succeeded? <==> !stopping && !from.Cancelling? && outputErr.None? && backendErr.None?
      ensures v.1.Some? ==> FaultOk(v.1.value)
      ensures Reported(stopping, from, Failure(outputErr, backendErr), v.1)
    {
      FaultCodes();

      if stopping then (Interrupted, Some(MakeFault(InterruptedCode, "service shutdown interrupted inference")))
      else if from.Cancelling? then (Cancelled, Some(CANCELLED_FAULT))
      else if outputErr.Some? then (Failed, Some(PublicError(Classified(outputErr.value.code, outputErr.value.retryable))))
      else if backendErr.Some? then (Failed, Some(PublicError(backendErr.value)))
      else (Succeeded, None)
    }

    /** What the call failed with: its output first. */
    static function Failure(outputErr: Option<Fault>, backendErr: Option<BackendError>): Option<BackendError> {
      if outputErr.Some? then Some(Classified(outputErr.value.code, outputErr.value.retryable)) else backendErr
    }

    /** The fault a job is closed with. */
    static predicate Reported(stopping: bool, from: JobState, failure: Option<BackendError>, f: Option<Fault>) {
      if stopping then f.Some? && f.value.code == InterruptedCode && !f.value.retryable
      else if from.Cancelling? then f.Some? && f.value.code == JobCancelledCode && !f.value.retryable
      else if failure.Some? then f.Some? && Published(failure.value, f.value)
      else f.None?
    }

    /** How the record of a returned call follows from the one before: only state, end, fault and
        metadata are new. */
    static predicate Closes(was: Job, j: Job, stopping: bool, outputErr: Option<Fault>, result: Option<Result>,
                            backendErr: Option<BackendError>, now: Time) {
      var failure := Failure(outputErr, if Acceptable(result) then backendErr else Some(Classified(BackendFailure, false)));
      && j == was.(state := j.state, finishedAt := Some(now), result := j.result, error := j.error)
      && j.result.text == was.result.text
      && (if Acceptable(result)
          then && j.result.finishReason == result.value.finishReason && j.result.effectiveModel == result.value.effectiveModel
               && j.result.details == CloneResult(result.value).details
          else j.result == EMPTY_RESULT.(text := was.result.text))
      && Terminal(j.state)
      && (j.state.Interrupted? <==> stopping) && (j.state.Cancelled? <==> !stopping && was.state.Cancelling?)
      && (j.state.Failed? <==> !stopping && !was.state.Cancelling? && failure.Some?)
      && Reported(stopping, was.state, failure, j.error)
    }

    static lemma {:induction false} FinalCloses(was: Job, stopping: bool, outputErr: Option<Fault>, result: Option<Result>,
                                                backendErr: Option<BackendError>, now: Time)
      requires Executing(was.state)
      ensures Closes(was, FinalRecord(was, stopping, outputErr, result, backendErr, now), stopping, outputErr, result, backendErr, now)
    {
      if Acceptable(result) {
        CloneLegible(result.value);
      }
    }

    /** The record a returned backend call leaves: its verdict, its metadata if acceptable, and
        the text that was committed. The metadata is copied by encoding and decoding it. */
    static function FinalRecord(j: Job, stopping: bool, outputErr: Option<Fault>, result: Option<Result>, backendErr: Option<BackendError>, now: Time): Job {
      var m := Metadata(result);
      var v := Verdict(stopping, j.state, outputErr, if m.None? then Some(Classified(BackendFailure, false)) else backendErr);
      Finished(j, v.0, v.1, if m.None? then EMPTY_RESULT else CloneResult(m.value), now)
    }

    /** In `b` the job is recorded as a returned call closes its record in `a`. */
    static ghost predicate Concluded(a: seq<Job>, b: seq<Job>, id: Id, stopping: bool, outputErr: Option<Fault>,
                                     result: Option<Result>, backendErr: Option<BackendError>, now: Time) {
      forall x: seq<Job> {:trigger Find(x, id)} | x == a ::
        && Find(x, id) >= 0
        && exists j | Closes(x[Find(x, id)], j, stopping, outputErr, result, backendErr, now) :: RecordedAs(b, id, j)
    }

    static lemma ConcludedStays(a: seq<Job>, b: seq<Job>, s: Snapshot, id: Id, stopping: bool, outputErr: Option<Fault>,
                                result: Option<Result>, backendErr: Option<BackendError>, now: Time)
      requires Concluded(a, b, id, stopping, outputErr, result, backendErr, now) && Grew(b, s.jobs) && Good(s)
      ensures Concluded(a, s.jobs, id, stopping, outputErr, result, backendErr, now)
    {
      IdsUnique(s);
      assert Find(a, id) >= 0;
      var j :| Closes(a[Find(a, id)], j, stopping, outputErr, result, backendErr, now) && RecordedAs(b, id, j);
      FinishedStays(b, s.jobs, id, j);
    }

    /** The backend call has returned: the job is finished, and either the store is closed or the
        next job starts. `result` is None when the metadata does not marshal. */
    method Complete(id: Id, result: Option<Result>, backendErr: Option<BackendError>, now: Time, at: Time, io0: Io, io1: Io, closing: Option<Fault>)
      requires Valid() && id in calls && ClockOk(now) && ClockOk(at)
      modifies this, store
      ensures Valid() && Progress()
      ensures fatal.None? ==>
                Concluded(old(state.jobs), state.jobs, id, stopping, old(outputErr), result, backendErr, now)
      ensures stopping == old(stopping) && (stopping ==> closed)
      ensures fatal.None? && !stopping && old(!state.queue.paused && state.queue.pending != []) ==>
                Began(old(state.queue.pending[0]), now) && state.queue.pending == old(state.queue.pending[1..])
      ensures io0.Smooth? && io1.Smooth? && closing.None? && old(fatal.None? && Room(state, 4) && !store.poisoned) ==> fatal.None?
    {
      Conclude(id, result, backendErr, now, at, io0);
      ghost var last := state.jobs;
      if stopping {
        CloseStore(closing);
      } else {
        Dispatch(now, at, io1);
        GrewTransitive(old(state.jobs), last, state.jobs);
        if fatal.None? {
          ConcludedStays(old(state.jobs), last, state, id, stopping, old(outputErr), result, backendErr, now);
        }
      }
    }

    /** The first half of a completion: the call is over and its outcome stored. */
    method Conclude(id: Id, result: Option<Result>, backendErr: Option<BackendError>, now: Time, at: Time, io: Io)
      requires Valid() && id in calls && ClockOk(now) && ClockOk(at)
      modifies this, store
      ensures InSync() && Progress() && receipts == old(receipts)
      ensures calls == multiset{} && !cancel && stopping == old(stopping) && closed == old(closed) && closures == old(closures)
      ensures fatal.None? ==>
                && state.queue == old(state.queue).(active := None) && state.cursor.sequence == old(state.cursor.sequence) + 2
                && Concluded(old(state.jobs), state.jobs, id, stopping, old(outputErr), result, backendErr, now)
      ensures io.Smooth? && old(fatal.None? && Room(state, 2) && !store.poisoned) ==> fatal.None? && !store.poisoned
    {
      GrewReflexive(state.jobs);
      EndGenerate(id);
      if fatal.None? {
        StoreOutcome(id, result, backendErr, now, at, io);
      }
    }

    /** The call returned: its cancel function is called and forgotten. */
    method EndGenerate(id: Id)
      modifies this`cancel, this`cancelRequested, this`calls
      ensures !cancel && calls == old(calls) - multiset{id}
    {
      cancel, cancelRequested, calls := false, false, calls - multiset{id};
    }

    /** The final record of the active job, and where it goes. */
    method FinalOf(id: Id, result: Option<Result>, backendErr: Option<BackendError>, now: Time, ghost at: Time)
      returns (i: nat, j: Job)
      requires Good(state) && state.queue.active == Some(id) && ClockOk(now) && ClockOk(at)
      ensures i < |state.jobs|
      ensures Concluded(state.jobs, state.jobs[i := j], id, stopping, outputErr, result, backendErr, now)
      ensures Room(state, 2) ==>
                var q := state.queue.(active := None);
                var es, t := [JobEvent(JobResult, j), QueueEvent(q)], After(state, 2, q, state.jobs[i := j]);
                Ready(state, es, None, at, t) && Paid(state, es, at, t)
    {
      ActiveExecutes(state);
      i := Find(state.jobs, id);
      j := FinalRecord(state.jobs[i], stopping, outputErr, result, backendErr, now);
      FinalReady(state, stopping, outputErr, result, backendErr, now, at);
      FinalCloses(state.jobs[i], stopping, outputErr, result, backendErr, now);
      ReplacedRecord(state.jobs, id, j);
      assert RecordedAs(state.jobs[i := j], id, j);
    }

    method StoreOutcome(id: Id, result: Option<Result>, backendErr: Option<BackendError>, now: Time, at: Time, io: Io)
      requires InSync() && fatal.None? && !closed && state.queue.active == Some(id) && ClockOk(now) && ClockOk(at)
      requires calls == multiset{} && !cancel
      modifies this`state, this`receipts, this`fatal, this`cancelRequested, store
      ensures InSync() && Grew(old(state.jobs), state.jobs) && receipts == old(receipts) && old(store.commits) <= store.commits
      ensures fatal.None? ==>
                && state.queue == old(state.queue).(active := None) && state.cursor.sequence == old(state.cursor.sequence) + 2
                && Concluded(old(state.jobs), state.jobs, id, stopping, outputErr, result, backendErr, now)
      ensures fatal.Some? ==> state == old(state)
      ensures io.Smooth? && old(Room(state, 2) && !store.poisoned) ==> fatal.None? && !store.poisoned
    {
      GrewReflexive(state.jobs);
      var i, j := FinalOf(id, result, backendErr, now, at);
      var q := state.queue.(active := None);
      var c := Commit([JobEvent(JobResult, j), QueueEvent(q)], None, at, io, After(state, 2, q, state.jobs[i := j]));
      if !c.Committed? {
        Poison(STORAGE_FAULT);
      }
    }

    lemma FinalReady(s: Snapshot, stopping: bool, outputErr: Option<Fault>, result: Option<Result>, backendErr: Option<BackendError>, now: Time, at: Time)
      requires Good(s) && s.queue.active.Some? && ClockOk(now) && ClockOk(at)
      ensures var i := Find(s.jobs, s.queue.active.value);
              && i >= 0
              && var j, q := FinalRecord(s.jobs[i], stopping, outputErr, result, backendErr, now), s.queue.(active := None);
                 && Terminal(j.state)
                 && (Room(s, 2) ==>
                       var es, t := [JobEvent(JobResult, j), QueueEvent(q)], After(s, 2, q, s.jobs[i := j]);
                       Ready(s, es, None, at, t) && Paid(s, es, at, t))
    {
      ActiveExecutes(s);
      var i := Find(s.jobs, s.queue.active.value);
      var m := Metadata(result);
      var v := Verdict(stopping, s.jobs[i].state, outputErr, if m.None? then Some(Classified(BackendFailure, false)) else backendErr);
      EmptyWellformed();
      if m.Some? {
        CloneLegible(m.value);
      }
      FinishReady(s, v.0, v.1, if m.None? then EMPTY_RESULT else CloneResult(m.value), now, at);
    }
  }

  // ---- whole runs ----

  /** One thing that can happen to a worker. */
  datatype Action =
    | OnCreate(cmd: Command, key: Text, id: Id)
    | OnCancel(id: Id)
    | OnPause(paused: bool)
    | OnEmit(id: Id, text: Text)
    | OnComplete(id: Id, result: Option<Result>, backendErr: Option<BackendError>, closing: Option<Fault>)
    | OnShutdown(closing: Option<Fault>)
    | OnReplayFailure(fault: Fault)

  /** Any sequence of actions, with any disk outcomes, from any valid worker: the invariant holds
      throughout, and commits, jobs and receipts are only ever added to. Actions that cannot
      occur (a backend callback without a running call, a repeated random identity) are skipped. */
  method Run(w: Worker, script: seq<Action>, clock: nat -> Time, disk: (nat, nat) -> Io)
    requires w.Valid() && (forall n :: ClockOk(clock(n)))
    modifies w, w.store
    ensures w.Valid() && w.Progress() && |w.calls| <= 1
  {
    GrewReflexive(w.state.jobs);
    for n := 0 to |script|
      invariant w.Valid() && w.Progress()
    {
      ghost var before := w.state.jobs;
      Act(w, script[n], clock(n), (k: nat) => disk(n, k));
      GrewTransitive(old(w.state.jobs), before, w.state.jobs);
    }
  }

  method Act(w: Worker, a: Action, t: Time, disk: nat -> Io)
    requires w.Valid() && ClockOk(t)
    modifies w, w.store
    ensures w.Valid() && w.Progress()
  {
    GrewReflexive(w.state.jobs);
    match a {
      case OnCreate(cmd, key, id) =>
        if HexId(id) && (key in w.receipts || !Retains(w.state.jobs, id)) && (cmd.op.Submit? ==> cmd.parent == []) {
          var r := w.Create(cmd, key, id, t, t, disk(0), disk(1));
        }
      case OnCancel(id) =>
        var r := w.CancelJob(id, t, t, disk(0));
      case OnPause(paused) =>
        var r := w.SetQueuePaused(paused, t, t, disk(0), disk(1));
      case _ => ActBackend(w, a, t, disk);
    }
  }

  method ActBackend(w: Worker, a: Action, t: Time, disk: nat -> Io)
    requires w.Valid() && ClockOk(t)
    modifies w, w.store
    ensures w.Valid() && w.Progress()
  {
    GrewReflexive(w.state.jobs);
    match a {
      case OnEmit(id, text) =>
        if id in w.calls {
          var err, kept := w.Emit(id, text, t, disk);
        }
      case OnComplete(id, result, backendErr, closing) =>
        if id in w.calls {
          w.Complete(id, result, backendErr, t, t, disk(0), disk(1), closing);
        }
      case _ => ActControl(w, a);
    }
  }

  method ActControl(w: Worker, a: Action)
    requires w.Valid()
    modifies w, w.store
    ensures w.Valid() && w.Progress()
  {
    match a {
      case OnShutdown(closing) => w.Shutdown(closing);
      case OnReplayFailure(f) => w.ReplayFailed(f);
      case _ => GrewReflexive(w.state.jobs);
    }
  }
}
