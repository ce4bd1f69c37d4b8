/** The validating reducer over event transactions (internal/core/state.go). The live
    worker and crash recovery both run it. */
module Reducer {
  import opened Utf8
  import opened Contract
  import opened Encoding
  import opened Legible

  // ---- requests ----

  /** Length of the white space character at the front of `s` (Unicode White_Space), or 0. */
  function SpaceLen(s: Text): (n: nat)
    ensures n <= |s|
  {
    if |s| >= 1 && (9 <= s[0] <= 13 || s[0] == 32) then 1
    else if |s| >= 2 && s[0] == 0xC2 && (s[1] == 0x85 || s[1] == 0xA0) then 2
    else if |s| >= 3 && WideSpace(s[0], s[1], s[2]) then 3
    else 0
  }

  predicate WideSpace(a: Byte, b: Byte, c: Byte) {
    || (a == 0xE1 && b == 0x9A && c == 0x80)
    || (a == 0xE2 && b == 0x80 && (0x80 <= c <= 0x8A || c == 0xA8 || c == 0xA9 || c == 0xAF))
    || (a == 0xE2 && b == 0x81 && c == 0x9F)
    || (a == 0xE3 && b == 0x80 && c == 0x80)
  }

  function TrimLeft(s: Text): Text
    decreases |s|
  {
    if SpaceLen(s) == 0 then s else TrimLeft(s[SpaceLen(s)..])
  }

  /** Length of the white space character at the end of `s`, or 0. */
  function SpaceBefore(s: Text): (n: nat)
    ensures n <= |s|
  {
    var n := |s|;
    if n >= 1 && SpaceLen(s[n - 1..]) == 1 then 1
    else if n >= 2 && SpaceLen(s[n - 2..]) == 2 then 2
    else if n >= 3 && SpaceLen(s[n - 3..]) == 3 then 3
    else 0
  }

  function TrimRight(s: Text): Text
    decreases |s|
  {
    if SpaceBefore(s) == 0 then s else TrimRight(s[..|s| - SpaceBefore(s)])
  }

  function TrimSpace(s: Text): Text { TrimRight(TrimLeft(s)) }

  /** Role first, then system prompt, each trimmed; two newlines between them if both remain. */
  function Compose(r: Request): Instructions {
    var role, system := TrimSpace(r.role), TrimSpace(r.systemPrompt);
    Instructions(if role == [] then system else if system == [] then role else role + [10, 10] + system,
                 [], r.prompt)
  }

  predicate OptionsOk(o: GenerationOptions) {
    && o.maxOutputTokens > 0
    && (o.contextTokens.Some? ==> o.contextTokens.value > 0 && o.contextTokens.value > o.maxOutputTokens)
    && (o.temperature.Some? ==> o.temperature.value.Number? && !Negative(o.temperature.value.json))
  }

  predicate HistoryOk(h: seq<Message>) {
    forall k | 0 <= k < |h| :: (h[k].role.User? || h[k].role.Assistant?) && ValidUtf8(h[k].content)
  }

  function HistoryBytes(h: seq<Message>): nat {
    if h == [] then 0 else HistoryBytes(h[..|h| - 1]) + |h[|h| - 1].content|
  }

  /** Why a request and its materialised instructions are refused, if they are. */
  function ValidateRequest(r: Request, i: Instructions): Option<ErrorCode> {
    if TrimSpace(r.model) == [] || TrimSpace(r.prompt) == [] then Some(InvalidRequest)
    else if !(ValidUtf8(r.model) && ValidUtf8(r.role) && ValidUtf8(r.systemPrompt) && ValidUtf8(r.prompt)
              && ValidUtf8(i.system) && ValidUtf8(i.prompt)) then Some(InvalidRequest)
    else if !OptionsOk(r.options) then Some(InvalidRequest)
    else if !HistoryOk(i.history) then Some(InvalidRequest)
    else if |i.system| + |i.prompt| + HistoryBytes(i.history) > MAX_INPUT_BYTES
            || |r.model| + |r.role| + |r.systemPrompt| + |r.prompt| > MAX_INPUT_BYTES then Some(LimitExceeded)
    else None
  }

  // ---- limits on encoded jobs ----

  /** A terminal replacement of the job still fits one commit. */
  predicate JobFits(j: Job) { JobLen(j) + METADATA_RESERVE + 8192 <= MAX_COMMIT_BYTES }

  /** Room for the replacements an unfinished job may still need (running,
      cancelling and terminal) and for bounded backend metadata. */
  function JobReserve(j: Job): nat {
    if Terminal(j.state) then 0
    else (if j.state.Queued? then 3 * (JobLen(j) + 4096)
          else if j.state.Running? then 2 * (JobLen(j) + 4096)
          else JobLen(j) + 4096) + METADATA_RESERVE
  }

  function ReserveSum(jobs: seq<Job>): nat {
    if jobs == [] then 0 else ReserveSum(jobs[..|jobs| - 1]) + JobReserve(jobs[|jobs| - 1])
  }

  function TerminalReserve(s: Snapshot): nat { 8192 + ReserveSum(s.jobs) }

  // ---- one event ----

  predicate Transition(a: JobState, b: JobState) {
    match a
    case Queued => b.Running? || b.Cancelled?
    case Running => b.Cancelling? || b.Succeeded? || b.Failed? || b.Interrupted?
    case Cancelling => b.Cancelled? || b.Interrupted?
    case _ => false
  }

  /** The first job with this id, or -1. */
  function Find(jobs: seq<Job>, id: Id): (i: int)
    ensures -1 <= i < |jobs|
    ensures i >= 0 ==> jobs[i].id == id && forall k | 0 <= k < i :: jobs[k].id != id
    ensures i < 0 ==> forall k | 0 <= k < |jobs| :: jobs[k].id != id
  {
    if jobs == [] then -1
    else
      var i := Find(jobs[..|jobs| - 1], id);
      if i >= 0 then i else if jobs[|jobs| - 1].id == id then |jobs| - 1 else -1
  }

  function Bit(b: bool): nat { if b then 1 else 0 }

  predicate OnePayload(e: Event) { Bit(e.job.Some?) + Bit(e.output.Some?) + Bit(e.queue.Some?) == 1 }

  predicate NextCursor(at: Cursor, e: Event) {
    at.sequence != MAX_UINT64 && e.cursor == Cursor(at.storeId, at.sequence + 1) && !e.at.ZeroTime?
  }

  /** What every job record in an event must satisfy on its own. */
  predicate JobRecordOk(j: Job) {
    && ValidateRequest(j.request, j.instructions).None?
    && !j.createdAt.ZeroTime?
    && ValidUtf8(j.result.text) && |j.result.text| <= MAX_OUTPUT_BYTES
    && ValidUtf8(j.origin) && |j.origin| <= 1024
  }

  // The checks named ...Checked are the reducer's large leaves. Writing each as a one-point
  // quantifier keeps the verifier from unfolding it in proofs that do not name it.

  predicate RecordChecked(j: Job) {
    forall k {:trigger JobRecordOk(k)} | k == j :: JobRecordOk(k)
  }

  predicate FitChecked(j: Job) {
    forall k {:trigger JobFits(k)} | k == j :: JobFits(k)
  }

  predicate InstructionsChecked(jobs: seq<Job>, j: Job) {
    forall k {:trigger ExpectedInstructions(jobs, k)} | k == j :: ExpectedInstructions(jobs, k) == Some(k.instructions)
  }

  /** The messages a finished turn contributes to a branch. */
  function TurnMessages(j: Job): seq<Message> {
    [Message(User, j.instructions.prompt)]
    + (if j.result.text != [] then [Message(Assistant, j.result.text)] else [])
  }

  /** The instructions an accepted job must carry, given the jobs before it. */
  function ExpectedInstructions(jobs: seq<Job>, j: Job): Option<Instructions> {
    if j.lineage.None? then Some(Compose(j.request))
    else
      var p := Find(jobs, j.lineage.value.parentId);
      if p < 0 || !Terminal(jobs[p].state) then None
      else match j.lineage.value.relation
        case Retry => if j.request == jobs[p].request then Some(jobs[p].instructions) else None
        case Branch => Some(Compose(j.request).(history := jobs[p].instructions.history + TurnMessages(jobs[p])))
        case OtherRelation(_) => None
  }

  predicate AcceptOk(jobs: seq<Job>, accepted: Id, j: Job) {
    && FitChecked(j)
    && accepted == [] && |jobs| < MAX_JOBS
    && j.state.Queued? && j.startedAt.None? && j.finishedAt.None? && j.result == EMPTY_RESULT && j.error.None?
    && InstructionsChecked(jobs, j)
  }

  /** The fields a lifecycle replacement must leave alone. */
  predicate SameIdentity(was: Job, j: Job) {
    && was.request == j.request && was.instructions == j.instructions && was.lineage == j.lineage
    && was.origin == j.origin && was.createdAt == j.createdAt && was.result.text == j.result.text
  }

  predicate ChangeOk(q: QueueState, was: Job, j: Job, kind: EventKind) {
    && Transition(was.state, j.state)
    && (j.state.Running? ==> !q.paused && q.active.None? && q.pending != [] && q.pending[0] == j.id)
    && SameIdentity(was, j)
    && (Terminal(j.state) <==> kind.JobResult?)
    && (Terminal(j.state) <==> j.finishedAt.Some?)
    && (Executing(j.state) || was.startedAt.Some? ==> j.startedAt.Some?)
    && (was.startedAt.Some? ==> was.startedAt == j.startedAt)
    && (!Terminal(j.state) ==> was.result == j.result && j.error.None?)
    && (j.state.Succeeded? ==> j.error.None?)
    && (Terminal(j.state) && !j.state.Succeeded? ==> j.error.Some? && !j.error.value.code.NoCode?)
  }

  function Extended(j: Job, text: Text): Job { j.(result := j.result.(text := j.result.text + text)) }

  predicate OutputOk(j: Job, o: OutputDelta) {
    && Executing(j.state) && o.offsetBytes == |j.result.text|
    && 0 < |o.text| <= MAX_CHUNK_BYTES && ValidUtf8(o.text)
    && |j.result.text| + |o.text| <= MAX_OUTPUT_BYTES
    && FitChecked(Extended(j, o.text))
  }

  predicate AcceptChecked(jobs: seq<Job>, accepted: Id, j: Job) {
    forall k {:trigger AcceptOk(jobs, accepted, k)} | k == j :: AcceptOk(jobs, accepted, k)
  }

  predicate ChangeChecked(q: QueueState, was: Job, j: Job, kind: EventKind) {
    forall k {:trigger ChangeOk(q, was, k, kind)} | k == j :: ChangeOk(q, was, k, kind)
  }

  predicate OutputChecked(j: Job, o: OutputDelta) {
    forall k {:trigger OutputOk(k, o)} | k == j :: OutputOk(k, o)
  }

  /** A transaction in progress: the snapshot so far and the job it accepted, if any. */
  datatype Fold = Fold(snap: Snapshot, accepted: Id)

  /** One event. Identities are compared as they come; the job record or queue is copied, which
      replaces bytes that are not UTF-8, before it is checked any further and stored. */
  function ApplyEvent(f: Fold, e: Event): Option<Fold> {
    var s := f.snap;
    if !NextCursor(s.cursor, e) || !OnePayload(e) then None
    else
      var i := Find(s.jobs, e.jobId);
      match e.kind
      case JobAccepted =>
        if e.job.Some? && e.job.value.id != [] && e.jobId == e.job.value.id && i < 0
           && RecordChecked(CloneJob(e.job.value)) && AcceptChecked(s.jobs, f.accepted, CloneJob(e.job.value))
        then
          var j := CloneJob(e.job.value);
          Some(Fold(s.(jobs := s.jobs + [j], cursor := e.cursor), j.id))
        else None
      case JobStateChanged => ApplyReplacement(f, e, i)
      case JobResult => ApplyReplacement(f, e, i)
      case JobOutput =>
        if e.output.Some? && i >= 0 && OutputChecked(s.jobs[i], e.output.value)
        then Some(f.(snap := s.(jobs := s.jobs[i := Extended(s.jobs[i], e.output.value.text)], cursor := e.cursor)))
        else None
      case QueueChanged =>
        if e.queue.Some? && e.jobId == [] && e.queue.value.maxPending == MAX_PENDING
        then Some(f.(snap := s.(queue := CloneQueue(e.queue.value), cursor := e.cursor)))
        else None
      case OtherKind(_) => None
  }

  function ApplyReplacement(f: Fold, e: Event, i: int): Option<Fold>
    requires i == Find(f.snap.jobs, e.jobId)
  {
    var s := f.snap;
    if e.job.Some? && e.job.value.id != [] && e.jobId == e.job.value.id && i >= 0
       && RecordChecked(CloneJob(e.job.value)) && ChangeChecked(s.queue, s.jobs[i], CloneJob(e.job.value), e.kind)
    then Some(f.(snap := s.(jobs := s.jobs[i := CloneJob(e.job.value)], cursor := e.cursor)))
    else None
  }

  function ApplyEvents(f: Fold, es: seq<Event>): Option<Fold> {
    if es == [] then Some(f)
    else
      var g := ApplyEvents(f, es[..|es| - 1]);
      if g.None? then None else ApplyEvent(g.value, es[|es| - 1])
  }

  // ---- commit edges ----

  function QueuedIds(jobs: seq<Job>): seq<Id> {
    if jobs == [] then []
    else QueuedIds(jobs[..|jobs| - 1]) + (if jobs[|jobs| - 1].state.Queued? then [jobs[|jobs| - 1].id] else [])
  }

  /** The id of the one executing job, [] for none, None when a second is met. */
  function ScanActive(jobs: seq<Job>): Option<Id> {
    if jobs == [] then Some([])
    else
      var a, j := ScanActive(jobs[..|jobs| - 1]), jobs[|jobs| - 1];
      if a.None? || !Executing(j.state) then a else if a.value != [] then None else Some(j.id)
  }

  predicate QueueMatchesJobs(s: Snapshot) {
    && |s.queue.pending| <= MAX_PENDING && s.queue.pending == QueuedIds(s.jobs)
    && var a := ScanActive(s.jobs);
       a.Some? && (a.value == [] <==> s.queue.active.None?) && (s.queue.active.Some? ==> s.queue.active.value == a.value)
  }

  predicate ReceiptOk(r: Option<Receipt>, accepted: Id) {
    && (accepted != [] <==> r.Some?)
    && (r.Some? ==>
          && r.value.jobId == accepted && 0 < |r.value.key| <= 128 && ValidUtf8(r.value.key)
          && |r.value.digest| == 64 && forall k | 0 <= k < 64 :: HexByte(r.value.digest[k]))
  }

  /** The snapshot after a transaction, or None when the transaction is invalid. (The copy of the
      queue made first is left out: see `Commits.QueueOwn`.) */
  function ApplyCommit(s: Snapshot, c: Commit): Option<Snapshot> {
    if c.version != 1 || c.events == [] then None
    else
      var f := ApplyEvents(Fold(s, []), c.events);
      if f.Some? && ReceiptOk(c.receipt, f.value.accepted) && QueueMatchesJobs(f.value.snap)
      then Some(f.value.snap)
      else None
  }

  /** The reducer accepts `c` in `s` and leads to `t` (as a one-point quantifier, like the checks above). */
  predicate Accepts(s: Snapshot, c: Commit, t: Snapshot) {
    forall x {:trigger ApplyCommit(s, x)} | x == c :: ApplyCommit(s, x) == Some(t)
  }

  predicate Rejects(s: Snapshot, c: Commit) {
    forall x {:trigger ApplyCommit(s, x)} | x == c :: ApplyCommit(s, x).None?
  }

  lemma AcceptsOne(s: Snapshot, c: Commit, t: Snapshot, u: Snapshot)
    requires Accepts(s, c, t) && Accepts(s, c, u)
    ensures t == u
  {
    assert ApplyCommit(s, c) == Some(t);
  }

  lemma AcceptsOrRejects(s: Snapshot, c: Commit, t: Snapshot)
    ensures !(Accepts(s, c, t) && Rejects(s, c))
  {
    assert ApplyCommit(s, c).Some? || ApplyCommit(s, c).None?;
  }

  // ---- the loops of the reducer ----

  method ReduceEvents(s: Snapshot, es: seq<Event>) returns (r: Option<Fold>)
    ensures r == ApplyEvents(Fold(s, []), es)
  {
    var f := Fold(s, []);
    for i := 0 to |es|
      invariant ApplyEvents(Fold(s, []), es[..i]) == Some(f)
    {
      var next := ApplyEvent(f, es[i]);
      assert es[..i + 1][..i] == es[..i];
      if next.None? {
        FailureSticks(Fold(s, []), es, i + 1);
        return None;
      }
      f := next.value;
    }
    assert es[..|es|] == es;
    return Some(f);
  }

  lemma {:induction false} FailureSticks(f: Fold, es: seq<Event>, n: nat)
    requires n <= |es| && ApplyEvents(f, es[..n]).None?
    ensures ApplyEvents(f, es).None?
    decreases |es|
  {
    if n < |es| {
      assert es[..|es| - 1][..n] == es[..n];
      FailureSticks(f, es[..|es| - 1], n);
    } else {
      assert es[..n] == es;
    }
  }

  lemma {:induction false} SecondActiveSticks(jobs: seq<Job>, n: nat)
    requires n <= |jobs| && ScanActive(jobs[..n]).None?
    ensures ScanActive(jobs).None?
    decreases |jobs|
  {
    if n < |jobs| {
      assert jobs[..|jobs| - 1][..n] == jobs[..n];
      SecondActiveSticks(jobs[..|jobs| - 1], n);
    } else {
      assert jobs[..n] == jobs;
    }
  }

  method CheckQueue(s: Snapshot) returns (ok: bool)
    ensures ok <==> QueueMatchesJobs(s)
  {
    var pending: seq<Id> := [];
    var active: Id := [];
    for i := 0 to |s.jobs|
      invariant pending == QueuedIds(s.jobs[..i]) && ScanActive(s.jobs[..i]) == Some(active)
    {
      var j := s.jobs[i];
      assert s.jobs[..i + 1][..i] == s.jobs[..i];
      if j.state.Queued? {
        pending := pending + [j.id];
      }
      if Executing(j.state) {
        if active != [] {
          SecondActiveSticks(s.jobs, i + 1);
          return false;
        }
        active := j.id;
      }
    }
    assert s.jobs[..|s.jobs|] == s.jobs;
    if |pending| > MAX_PENDING || |pending| != |s.queue.pending| {
      return false;
    }
    for i := 0 to |pending|
      invariant pending[..i] == s.queue.pending[..i]
    {
      if pending[i] != s.queue.pending[i] {
        return false;
      }
    }
    assert pending == pending[..|pending|] && s.queue.pending == s.queue.pending[..|pending|];
    ok := (active == [] <==> s.queue.active.None?) && (s.queue.active.Some? ==> s.queue.active.value == active);
  }

  /** The reducer as it runs: events in order, then the receipt, then the queue. */
  method Reduce(s: Snapshot, c: Commit) returns (r: Option<Snapshot>)
    ensures r == ApplyCommit(s, c)
  {
    if c.version != 1 || c.events == [] {
      return None;
    }
    var f := ReduceEvents(s, c.events);
    if f.None? || !ReceiptOk(c.receipt, f.value.accepted) {
      return None;
    }
    var ok := CheckQueue(f.value.snap);
    return if ok then Some(f.value.snap) else None;
  }

  /** The same answer in the form callers use. */
  method Check(s: Snapshot, c: Commit) returns (r: Option<Snapshot>)
    ensures r.Some? ==> Accepts(s, c, r.value)
    ensures r.None? ==> Rejects(s, c)
  {
    r := Reduce(s, c);
  }

  /** The reserve as it is accumulated on every append. */
  method ComputeReserve(s: Snapshot) returns (n: nat)
    ensures n == TerminalReserve(s)
  {
    n := 8192;
    for i := 0 to |s.jobs|
      invariant n == 8192 + ReserveSum(s.jobs[..i])
    {
      assert s.jobs[..i + 1][..i] == s.jobs[..i];
      var j := s.jobs[i];
      if !Terminal(j.state) {
        var each := JobLen(j) + 4096;
        var replacements := each;
        if j.state.Running? { replacements := 2 * each; }
        if j.state.Queued? { replacements := 3 * each; }
        n := n + replacements + METADATA_RESERVE;
      }
    }
    assert s.jobs[..|s.jobs|] == s.jobs;
  }
}
