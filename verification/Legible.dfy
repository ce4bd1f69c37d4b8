/** Which values survive JSON: Go's encoder replaces bytes that are not UTF-8, and cannot
    encode numbers that are not finite. Also the deep copy by encoding and decoding
    (`Clone`, internal/core/state.go). */
module Legible {
  import opened Utf8
  import opened Contract
  import opened Encoding

  // ---- values ----

  predicate LegibleState(s: JobState) { s.OtherState? ==> Wellformed(s.name) }
  predicate LegibleKind(k: EventKind) { k.OtherKind? ==> Wellformed(k.name) }
  predicate LegibleCode(c: ErrorCode) { c.OtherCode? ==> Wellformed(c.name) }

  predicate LegibleRequest(r: Request) {
    && Wellformed(r.model) && Wellformed(r.role) && Wellformed(r.systemPrompt) && Wellformed(r.prompt)
    && (r.options.temperature.Some? ==> r.options.temperature.value.Number?)
  }

  predicate LegibleMessage(m: Message) { Wellformed(m.content) && (m.role.OtherRole? ==> Wellformed(m.role.name)) }

  predicate LegibleInstructions(i: Instructions) {
    && Wellformed(i.system) && Wellformed(i.prompt)
    && forall k | 0 <= k < |i.history| :: LegibleMessage(i.history[k])
  }

  predicate LegibleMetadata(r: Result) {
    && Wellformed(r.finishReason) && Wellformed(r.effectiveModel)
    && forall k | 0 <= k < |r.details.texts| :: Wellformed(r.details.texts[k])
  }

  predicate LegibleFault(f: Fault) { LegibleCode(f.code) && Wellformed(f.message) }

  predicate LegibleLineage(l: Lineage) {
    Wellformed(l.parentId) && (l.relation.OtherRelation? ==> Wellformed(l.relation.name))
  }

  predicate LegibleJob(j: Job) {
    && Wellformed(j.id) && LegibleState(j.state) && LegibleRequest(j.request) && LegibleInstructions(j.instructions)
    && Wellformed(j.origin) && (j.lineage.Some? ==> LegibleLineage(j.lineage.value))
    && Wellformed(j.result.text) && LegibleMetadata(j.result)
    && (j.error.Some? ==> LegibleFault(j.error.value))
  }

  predicate LegibleQueue(q: QueueState) {
    && (forall k | 0 <= k < |q.pending| :: Wellformed(q.pending[k]))
    && (q.active.Some? ==> Wellformed(q.active.value))
  }

  predicate LegibleEvent(e: Event) {
    && Wellformed(e.cursor.storeId) && LegibleKind(e.kind) && Wellformed(e.jobId)
    && (e.job.Some? ==> LegibleJob(e.job.value))
    && (e.output.Some? ==> Wellformed(e.output.value.text))
    && (e.queue.Some? ==> LegibleQueue(e.queue.value))
  }

  predicate LegibleReceipt(r: Receipt) { Wellformed(r.key) && Wellformed(r.digest) && Wellformed(r.jobId) }

  /** Every text in the commit is UTF-8 and every number finite. */
  predicate LegibleCommit(c: Commit) {
    (forall i | 0 <= i < |c.events| :: LegibleEvent(c.events[i])) && (c.receipt.Some? ==> LegibleReceipt(c.receipt.value))
  }

  /** LegibleJob as a one-point quantifier, so that callers do not unfold it. */
  predicate Readable(j: Job) { forall k {:trigger LegibleJob(k)} | k == j :: LegibleJob(k) }

  ghost predicate ReadableJobs(jobs: seq<Job>) { forall i | 0 <= i < |jobs| :: Readable(jobs[i]) }

  lemma {:induction false} AsciiWellformed(s: Text)
    requires forall i | 0 <= i < |s| :: s[i] < 128
    ensures Wellformed(s)
  {
    if s != [] {
      assert RuneLen(s) == 1;
      AsciiWellformed(s[1..]);
      assert ValidUtf8(s[1..]);
    }
  }

  lemma HexWellformed(id: Text)
    requires forall k | 0 <= k < |id| :: HexByte(id[k])
    ensures Wellformed(id)
  {
    AsciiWellformed(id);
  }

  lemma EmptyWellformed()
    ensures Wellformed([])
  {
    assert ValidUtf8([]);
  }

  // ---- cloning ----

  /** The replacement character, U+FFFD. */
  const REPLACEMENT: Text := [0xEF, 0xBF, 0xBD]

  /** What a text becomes by being encoded and decoded. */
  function Sanitized(s: Text): Text
    decreases |s|
  {
    if s == [] then []
    else if RuneLen(s) == 0 then REPLACEMENT + Sanitized(s[1..])
    else s[..RuneLen(s)] + Sanitized(s[RuneLen(s)..])
  }

  /** A character in front of a text. */
  lemma {:induction false} RunePrefixed(r: Text, rest: Text)
    requires RuneLen(r) == |r| > 0
    ensures ValidUtf8(r + rest) <==> ValidUtf8(rest)
    ensures EscapedLen(r + rest) == RuneCost(r) + EscapedLen(rest)
  {
    RuneLenPrefix(r, rest);
    assert (r + rest)[..|r|] == r && (r + rest)[|r|..] == rest;
  }

  lemma ReplacementRune()
    ensures RuneLen(REPLACEMENT) == 3 && RuneCost(REPLACEMENT) == 3
  {
  }

  /** The copy is UTF-8, costs no more, and is the text itself if that was UTF-8. */
  predicate CopyOk(s: Text) {
    && ValidUtf8(Sanitized(s)) && EscapedLen(Sanitized(s)) <= EscapedLen(s)
    && (ValidUtf8(s) ==> Sanitized(s) == s)
  }

  lemma {:induction false} SanitizedLegible(s: Text)
    ensures CopyOk(s)
    decreases |s|
  {
    if s != [] {
      if RuneLen(s) == 0 {
        SanitizedLegible(s[1..]);
        BadByteCopied(s);
      } else {
        SanitizedLegible(s[RuneLen(s)..]);
        RuneCopied(s, RuneLen(s));
      }
    }
  }

  lemma {:induction false} BadByteCopied(s: Text)
    requires s != [] && RuneLen(s) == 0 && CopyOk(s[1..])
    ensures CopyOk(s)
  {
    ReplacementRune();
    RunePrefixed(REPLACEMENT, Sanitized(s[1..]));
  }

  lemma {:induction false} RuneCopied(s: Text, n: nat)
    requires 0 < n == RuneLen(s) && CopyOk(s[n..])
    ensures CopyOk(s)
  {
    RuneAlone(s);
    assert s == s[..n] + s[n..];
    PrefixCopied(s[..n], s[n..]);
  }

  lemma {:induction false} PrefixCopied(r: Text, rest: Text)
    requires RuneLen(r) == |r| > 0 && CopyOk(rest)
    ensures CopyOk(r + rest)
  {
    var s := r + rest;
    RuneLenPrefix(r, rest);
    assert s[..|r|] == r && s[|r|..] == rest;
    RunePrefixed(r, rest);
    RunePrefixed(r, Sanitized(rest));
  }

  lemma {:induction false} RuneAlone(s: Text)
    requires RuneLen(s) > 0
    ensures RuneLen(s[..RuneLen(s)]) == RuneLen(s)
  {
  }

  /** A copy of a text that was not UTF-8 is no ASCII text. */
  lemma {:induction false} ForeignCopied(s: Text)
    requires !ValidUtf8(s)
    ensures !IsAscii(Sanitized(s))
    decreases |s|
  {
    var n := RuneLen(s);
    if n == 0 {
      assert Sanitized(s)[0] == 0xEF;
    } else {
      ForeignCopied(s[n..]);
      var t := Sanitized(s[n..]);
      var i :| 0 <= i < |t| && t[i] >= 128;
      assert Sanitized(s)[n + i] == t[i];
    }
  }

  lemma {:induction false} StateNamesAscii()
    ensures forall n | n in STATE_NAMES :: IsAscii(n)
  {
  }

  lemma {:induction false} CodeNamesAscii()
    ensures forall n | n in CODE_NAMES :: IsAscii(n)
  {
  }

  lemma {:induction false} RoleNamesAscii()
    ensures forall n | n in ROLE_NAMES :: IsAscii(n)
  {
  }

  lemma {:induction false} RelationNamesAscii()
    ensures forall n | n in RELATION_NAMES :: IsAscii(n)
  {
  }

  lemma {:induction false} KindNamesAscii()
    ensures forall n | n in KIND_NAMES :: IsAscii(n)
  {
  }

  /** A name that is not declared copies to one that is not declared. */
  lemma NameCopied(s: Text, names: set<Text>)
    requires s !in names && forall n | n in names :: IsAscii(n)
    ensures Sanitized(s) !in names
  {
    SanitizedLegible(s);
    if !ValidUtf8(s) {
      ForeignCopied(s);
    }
  }

  lemma {:induction false} SanitizedNonempty(s: Text)
    requires s != []
    ensures Sanitized(s) != []
  {
  }

  function SanitizedAll(ts: seq<Text>): (us: seq<Text>)
    ensures |us| == |ts| && forall k | 0 <= k < |ts| :: us[k] == Sanitized(ts[k])
  {
    if ts == [] then [] else SanitizedAll(ts[..|ts| - 1]) + [Sanitized(ts[|ts| - 1])]
  }

  function CopiedState(s: JobState): JobState {
    if s.OtherState? then StateNamesAscii(); NameCopied(s.name, STATE_NAMES); OtherState(Sanitized(s.name)) else s
  }

  function CopiedCode(c: ErrorCode): ErrorCode {
    if c.OtherCode? then CodeNamesAscii(); NameCopied(c.name, CODE_NAMES); OtherCode(Sanitized(c.name)) else c
  }

  function CopiedRole(r: MessageRole): MessageRole {
    if r.OtherRole? then RoleNamesAscii(); NameCopied(r.name, ROLE_NAMES); OtherRole(Sanitized(r.name)) else r
  }

  function CopiedRelation(r: Relation): Relation {
    if r.OtherRelation? then RelationNamesAscii(); NameCopied(r.name, RELATION_NAMES); OtherRelation(Sanitized(r.name)) else r
  }

  function CopiedKind(k: EventKind): EventKind {
    if k.OtherKind? then KindNamesAscii(); NameCopied(k.name, KIND_NAMES); OtherKind(Sanitized(k.name)) else k
  }

  function CopiedRequest(r: Request): Request {
    Request(Sanitized(r.model), Sanitized(r.role), Sanitized(r.systemPrompt), Sanitized(r.prompt), r.options)
  }

  function CopiedHistory(h: seq<Message>): (g: seq<Message>)
    ensures |g| == |h| && forall k | 0 <= k < |h| :: g[k] == Message(CopiedRole(h[k].role), Sanitized(h[k].content))
  {
    if h == [] then []
    else
      var m := h[|h| - 1];
      CopiedHistory(h[..|h| - 1]) + [Message(CopiedRole(m.role), Sanitized(m.content))]
  }

  function CopiedInstructions(i: Instructions): Instructions {
    Instructions(Sanitized(i.system), CopiedHistory(i.history), Sanitized(i.prompt))
  }

  /** A deep copy of a backend result. */
  function CloneResult(r: Result): Result {
    Result(Sanitized(r.text), Sanitized(r.finishReason), Sanitized(r.effectiveModel),
           Details(r.details.shape, SanitizedAll(r.details.texts)))
  }

  function CopiedFault(f: Option<Fault>): Option<Fault> {
    if f.None? then None else Some(Fault(CopiedCode(f.value.code), Sanitized(f.value.message), f.value.retryable))
  }

  function CopiedLineage(l: Option<Lineage>): Option<Lineage> {
    if l.None? then None else Some(Lineage(Sanitized(l.value.parentId), CopiedRelation(l.value.relation)))
  }

  /** A deep copy of a job record, field by field. */
  function CopiedJob(j: Job): Job {
    Job(Sanitized(j.id), CopiedState(j.state), CopiedRequest(j.request), CopiedInstructions(j.instructions),
        Sanitized(j.origin), CopiedLineage(j.lineage), j.createdAt, j.startedAt, j.finishedAt,
        CloneResult(j.result), CopiedFault(j.error))
  }

  function CopiedId(id: Option<Id>): Option<Id> { if id.None? then None else Some(Sanitized(id.value)) }

  function CopiedQueue(q: QueueState): QueueState {
    QueueState(q.paused, SanitizedAll(q.pending), CopiedId(q.active), q.maxPending)
  }

  function CopiedOutput(o: Option<OutputDelta>): Option<OutputDelta> {
    if o.None? then None else Some(OutputDelta(o.value.offsetBytes, Sanitized(o.value.text)))
  }

  // `CloneJob`, `CloneQueue` and `CloneEvent` are chosen by their property, which is a one-point
  // quantifier, so that proofs which do not name the copy do not unfold it.

  predicate CopyOfJob(j: Job, k: Job) { forall x {:trigger CopiedJob(x)} | x == j :: k == CopiedJob(x) }

  function CloneJob(j: Job): (k: Job)
    ensures CopyOfJob(j, k)
  {
    assert CopyOfJob(j, CopiedJob(j));
    assert forall k, l | CopyOfJob(j, k) && CopyOfJob(j, l) :: k == l by {
      var copy := CopiedJob(j);
    }
    var k :| CopyOfJob(j, k);
    k
  }

  predicate CopyOfQueue(q: QueueState, p: QueueState) { forall x {:trigger CopiedQueue(x)} | x == q :: p == CopiedQueue(x) }

  function CloneQueue(q: QueueState): (p: QueueState)
    ensures CopyOfQueue(q, p)
  {
    assert CopyOfQueue(q, CopiedQueue(q));
    assert forall p, o | CopyOfQueue(q, p) && CopyOfQueue(q, o) :: p == o by {
      var copy := CopiedQueue(q);
    }
    var p :| CopyOfQueue(q, p);
    p
  }

  /** An event as it arrives after encoding and decoding. Store identities are drawn and copy to
      themselves. */
  function CopiedEvent(e: Event): Event {
    Event(e.cursor, e.at, CopiedKind(e.kind), Sanitized(e.jobId),
          if e.job.None? then None else Some(CloneJob(e.job.value)), CopiedOutput(e.output),
          if e.queue.None? then None else Some(CloneQueue(e.queue.value)))
  }

  predicate CopyOfEvent(e: Event, d: Event) { forall x {:trigger CopiedEvent(x)} | x == e :: d == CopiedEvent(x) }

  function CloneEvent(e: Event): (d: Event)
    ensures CopyOfEvent(e, d)
  {
    assert CopyOfEvent(e, CopiedEvent(e));
    assert forall d, c | CopyOfEvent(e, d) && CopyOfEvent(e, c) :: d == c by {
      var copy := CopiedEvent(e);
    }
    var d :| CopyOfEvent(e, d);
    d
  }

  // ---- what copies are ----

  lemma {:induction false} SanitizedSame(s: Text)
    requires Wellformed(s)
    ensures Sanitized(s) == s
  {
    assert ValidUtf8(s);
    SanitizedLegible(s);
  }

  lemma {:induction false} SanitizedWellformed(s: Text)
    ensures Wellformed(Sanitized(s))
  {
    SanitizedLegible(s);
  }

  lemma {:induction false} SanitizedAllSame(ts: seq<Text>)
    requires forall k | 0 <= k < |ts| :: Wellformed(ts[k])
    ensures SanitizedAll(ts) == ts
  {
    forall k | 0 <= k < |ts| ensures SanitizedAll(ts)[k] == ts[k] {
      SanitizedSame(ts[k]);
    }
  }

  lemma {:induction false} RequestSame(r: Request)
    requires LegibleRequest(r)
    ensures CopiedRequest(r) == r
  {
    SanitizedSame(r.model);
    SanitizedSame(r.role);
    SanitizedSame(r.systemPrompt);
    SanitizedSame(r.prompt);
  }

  lemma {:induction false} MessageSame(m: Message)
    requires LegibleMessage(m)
    ensures Message(CopiedRole(m.role), Sanitized(m.content)) == m
  {
    SanitizedSame(m.content);
    if m.role.OtherRole? {
      SanitizedSame(m.role.name);
    }
  }

  lemma {:induction false} InstructionsSame(i: Instructions)
    requires LegibleInstructions(i)
    ensures CopiedInstructions(i) == i
  {
    SanitizedSame(i.system);
    SanitizedSame(i.prompt);
    var g := CopiedHistory(i.history);
    forall k | 0 <= k < |g| ensures g[k] == i.history[k] {
      MessageSame(i.history[k]);
    }
  }

  lemma {:induction false} ResultSame(r: Result)
    requires Wellformed(r.text) && LegibleMetadata(r)
    ensures CloneResult(r) == r
  {
    SanitizedSame(r.text);
    SanitizedSame(r.finishReason);
    SanitizedSame(r.effectiveModel);
    SanitizedAllSame(r.details.texts);
  }

  lemma {:induction false} FaultSame(f: Option<Fault>)
    requires f.Some? ==> LegibleFault(f.value)
    ensures CopiedFault(f) == f
  {
    if f.Some? {
      SanitizedSame(f.value.message);
      if f.value.code.OtherCode? {
        SanitizedSame(f.value.code.name);
      }
    }
  }

  lemma {:induction false} LineageSame(l: Option<Lineage>)
    requires l.Some? ==> LegibleLineage(l.value)
    ensures CopiedLineage(l) == l
  {
    if l.Some? {
      SanitizedSame(l.value.parentId);
      if l.value.relation.OtherRelation? {
        SanitizedSame(l.value.relation.name);
      }
    }
  }

  /** Copying a record whose texts are UTF-8 changes nothing. */
  lemma {:induction false} CloneSame(j: Job)
    requires Readable(j)
    ensures CloneJob(j) == j
  {
    assert LegibleJob(j);
    SanitizedSame(j.id);
    if j.state.OtherState? {
      SanitizedSame(j.state.name);
    }
    RequestSame(j.request);
    InstructionsSame(j.instructions);
    SanitizedSame(j.origin);
    LineageSame(j.lineage);
    ResultSame(j.result);
    FaultSame(j.error);
    assert CopiedJob(j) == j;
  }

  lemma {:induction false} RequestCopied(r: Request)
    requires r.options.temperature.Some? ==> r.options.temperature.value.Number?
    ensures LegibleRequest(CopiedRequest(r))
  {
    SanitizedWellformed(r.model);
    SanitizedWellformed(r.role);
    SanitizedWellformed(r.systemPrompt);
    SanitizedWellformed(r.prompt);
  }

  lemma {:induction false} InstructionsCopied(i: Instructions)
    ensures LegibleInstructions(CopiedInstructions(i))
  {
    SanitizedWellformed(i.system);
    SanitizedWellformed(i.prompt);
    var h, g := i.history, CopiedHistory(i.history);
    forall k | 0 <= k < |g| ensures LegibleMessage(g[k]) {
      SanitizedWellformed(h[k].content);
      if h[k].role.OtherRole? {
        SanitizedWellformed(h[k].role.name);
      }
    }
  }

  lemma {:induction false} FaultCopied(f: Option<Fault>)
    ensures CopiedFault(f).Some? <==> f.Some?
    ensures f.Some? ==> LegibleFault(CopiedFault(f).value)
  {
    if f.Some? {
      SanitizedWellformed(f.value.message);
      if f.value.code.OtherCode? {
        SanitizedWellformed(f.value.code.name);
      }
    }
  }

  lemma {:induction false} LineageCopied(l: Option<Lineage>)
    ensures CopiedLineage(l).Some? ==> LegibleLineage(CopiedLineage(l).value)
  {
    if l.Some? {
      SanitizedWellformed(l.value.parentId);
      if l.value.relation.OtherRelation? {
        SanitizedWellformed(l.value.relation.name);
      }
    }
  }

  /** A copied record holds only UTF-8 texts. */
  lemma {:induction false} CloneReadable(j: Job)
    requires CloneJob(j).request.options.temperature.Some? ==> CloneJob(j).request.options.temperature.value.Number?
    ensures Readable(CloneJob(j))
  {
    var k := CopiedJob(j);
    SanitizedWellformed(j.id);
    if j.state.OtherState? {
      SanitizedWellformed(j.state.name);
    }
    RequestCopied(j.request);
    InstructionsCopied(j.instructions);
    SanitizedWellformed(j.origin);
    LineageCopied(j.lineage);
    CloneLegible(j.result);
    FaultCopied(j.error);
    assert LegibleJob(k);
  }

  /** What a copy shares with its record. */
  lemma {:induction false} CloneShares(j: Job)
    ensures var k := CloneJob(j);
            && k.id == Sanitized(j.id) && (Wellformed(j.id) ==> k.id == j.id) && (j.id != [] ==> k.id != [])
            && (k.state == j.state || (k.state.OtherState? && j.state.OtherState?))
            && k.startedAt == j.startedAt && k.finishedAt == j.finishedAt && k.createdAt == j.createdAt
  {
    var k := CopiedJob(j);
    if Wellformed(j.id) {
      SanitizedSame(j.id);
    }
    if j.id != [] {
      SanitizedNonempty(j.id);
    }
  }

  lemma {:induction false} QueueSame(q: QueueState)
    requires LegibleQueue(q)
    ensures CloneQueue(q) == q
  {
    SanitizedAllSame(q.pending);
    if q.active.Some? {
      SanitizedSame(q.active.value);
    }
    assert CopiedQueue(q) == q;
  }

  lemma {:induction false} QueueCopied(q: QueueState)
    ensures var p := CloneQueue(q);
            p.paused == q.paused && p.maxPending == q.maxPending && |p.pending| == |q.pending| && LegibleQueue(p)
  {
    var p := CopiedQueue(q);
    forall k | 0 <= k < |p.pending| ensures Wellformed(p.pending[k]) {
      SanitizedWellformed(q.pending[k]);
    }
    if q.active.Some? {
      SanitizedWellformed(q.active.value);
    }
  }

  /** What an event carries after encoding and decoding. */
  lemma {:induction false} EventShares(e: Event)
    ensures var d := CloneEvent(e);
            && d.cursor == e.cursor && d.at == e.at
            && (if e.kind.OtherKind? then d.kind.OtherKind? else d.kind == e.kind)
            && (Wellformed(e.jobId) ==> d.jobId == e.jobId)
            && d.job == (if e.job.None? then None else Some(CloneJob(e.job.value)))
            && d.queue == (if e.queue.None? then None else Some(CloneQueue(e.queue.value)))
            && (e.output.None? <==> d.output.None?)
            && (e.output.Some? && ValidUtf8(e.output.value.text) ==> d.output == e.output)
  {
    var d := CopiedEvent(e);
    if Wellformed(e.jobId) {
      SanitizedSame(e.jobId);
    }
    if e.output.Some? && ValidUtf8(e.output.value.text) {
      SanitizedSame(e.output.value.text);
    }
  }

  /** Copying an event whose texts are UTF-8 changes nothing. */
  lemma {:induction false} EventSame(e: Event)
    requires LegibleEvent(e)
    ensures CloneEvent(e) == e
  {
    SanitizedSame(e.jobId);
    if e.kind.OtherKind? {
      SanitizedSame(e.kind.name);
    }
    if e.job.Some? {
      CloneSame(e.job.value);
    }
    if e.output.Some? {
      SanitizedSame(e.output.value.text);
    }
    if e.queue.Some? {
      QueueSame(e.queue.value);
    }
    assert CopiedEvent(e) == e;
  }

  lemma {:induction false} SanitizedAllLen(ts: seq<Text>)
    ensures TextsLen(SanitizedAll(ts)) <= TextsLen(ts)
    ensures forall k | 0 <= k < |ts| :: Wellformed(SanitizedAll(ts)[k])
  {
    if ts != [] {
      SanitizedAllLen(ts[..|ts| - 1]);
      SanitizedLegible(ts[|ts| - 1]);
      var us := SanitizedAll(ts);
      assert us[..|us| - 1] == SanitizedAll(ts[..|ts| - 1]);
      forall k | 0 <= k < |ts| ensures Wellformed(us[k]) {
        assert k < |ts| - 1 ==> us[k] == SanitizedAll(ts[..|ts| - 1])[k];
      }
    }
  }

  /** A copied result is legible, no larger, and keeps texts that were UTF-8. */
  lemma CloneLegible(r: Result)
    ensures Wellformed(CloneResult(r).text) && LegibleMetadata(CloneResult(r))
    ensures ValidUtf8(r.finishReason) && ValidUtf8(r.effectiveModel) ==>
              && CloneResult(r).finishReason == r.finishReason && CloneResult(r).effectiveModel == r.effectiveModel
              && MetadataLen(CloneResult(r)) <= MetadataLen(r)
    ensures ValidUtf8(r.text) ==> CloneResult(r).text == r.text
  {
    SanitizedLegible(r.text);
    SanitizedLegible(r.finishReason);
    SanitizedLegible(r.effectiveModel);
    SanitizedAllLen(r.details.texts);
  }

  /** The commit survives being encoded and decoded. (LegibleCommit as a one-point quantifier.) */
  predicate Decodable(c: Commit) { forall x {:trigger LegibleCommit(x)} | x == c :: LegibleCommit(x) }

  ghost predicate AllDecodable(cs: seq<Commit>) { forall i | 0 <= i < |cs| :: Decodable(cs[i]) }

  lemma {:induction false} DecodablePrefix(cs: seq<Commit>, m: nat)
    requires AllDecodable(cs) && m <= |cs|
    ensures AllDecodable(cs[..m])
  {
  }

  /** Every event is its own copy: it is exactly what arrives. */
  ghost predicate Own(es: seq<Event>) { forall i | 0 <= i < |es| :: CloneEvent(es[i]) == es[i] }

  lemma {:induction false} DecodableOwn(c: Commit)
    requires Decodable(c)
    ensures Own(c.events)
  {
    assert LegibleCommit(c);
    forall i | 0 <= i < |c.events| ensures CloneEvent(c.events[i]) == c.events[i] {
      EventSame(c.events[i]);
    }
  }
}
