/** A codec that meets everything assumed of the library functions, so that the theorems about the
    journal hold of something. Its encoding ends texts with a byte that UTF-8 never uses instead
    of quoting them, and is otherwise as compact as JSON or more. */
module Witness {
  import opened Utf8
  import opened Contract
  import opened Encoding
  import opened Legible
  import opened Codecs
  import opened Frames

  // Every code is a value's encoding followed by the rest of the message. No two values have the
  // same code (the lemmas named ...Apart), and none is longer than its JSON.

  // ---- texts ----

  const END: Byte := 255

  lemma {:induction false} AtLeastItself(s: Text)
    ensures |s| <= EscapedLen(s)
    decreases |s|
  {
    if s != [] {
      AtLeastItself(s[if RuneLen(s) == 0 then 1 else RuneLen(s)..]);
    }
  }

  function TextCode(s: Text, rest: Text): (b: Text)
    ensures |b| <= |rest| + StringLen(s) - 1
  {
    AtLeastItself(s);
    s + [END] + rest
  }

  lemma {:induction false} NoEnd(s: Text)
    requires ValidUtf8(s)
    ensures END !in s
    decreases |s|
  {
    if s != [] {
      NoEnd(s[RuneLen(s)..]);
      assert s == s[..RuneLen(s)] + s[RuneLen(s)..];
    }
  }

  lemma {:induction false} TextApart(a: Text, r: Text, b: Text, s: Text)
    requires Wellformed(a) && Wellformed(b) && TextCode(a, r) == TextCode(b, s)
    ensures a == b && r == s
  {
    NoEnd(a);
    NoEnd(b);
    var x := TextCode(a, r);
    assert x[|a|] == END && x[|b|] == END;
    assert forall i | 0 <= i < |a| :: x[i] == a[i];
    assert forall i | 0 <= i < |b| :: x[i] == b[i];
    assert x[|a| + 1..] == r && x[|b| + 1..] == s;
  }

  lemma {:induction false} TextsApart()
    ensures forall a, r, b, s {:trigger TextCode(a, r), TextCode(b, s)} |
              Wellformed(a) && Wellformed(b) && TextCode(a, r) == TextCode(b, s) :: a == b && r == s
  {
    forall a, r, b, s | Wellformed(a) && Wellformed(b) && TextCode(a, r) == TextCode(b, s) ensures a == b && r == s {
      TextApart(a, r, b, s);
    }
  }

  // ---- numbers ----

  function Number10(n: int): (t: Text)
    ensures |t| == IntLen(n) && t != []
    ensures forall i | 0 <= i < |t| :: t[i] < 128
  {
    DecimalLen(if n < 0 then -n else n);
    if n < 0 then [45] + Decimal(-n) else Decimal(n)
  }

  lemma {:induction false} DecimalLen(n: nat)
    ensures |Decimal(n)| == Digits(n)
  {
    if n >= 10 {
      DecimalLen(n / 10);
    }
  }

  function IntCode(n: int, rest: Text): (b: Text)
    ensures |b| == |rest| + IntLen(n) + 1
  {
    Number10(n) + [END] + rest
  }

  lemma {:induction false} IntApart(n: int, r: Text, m: int, s: Text)
    requires IntCode(n, r) == IntCode(m, s)
    ensures n == m && r == s
  {
    AsciiWellformed(Number10(n));
    AsciiWellformed(Number10(m));
    TextApart(Number10(n), r, Number10(m), s);
    var t := Number10(n);
    if n < 0 {
      assert t[0] == 45 && t[1..] == Decimal(-n) == Decimal(-m);
      ValueOfDecimal(-n);
      ValueOfDecimal(-m);
    } else {
      assert t[0] != 45;
      ValueOfDecimal(n);
      ValueOfDecimal(m);
    }
  }

  lemma {:induction false} IntsApart()
    ensures forall n, r, m, s {:trigger IntCode(n, r), IntCode(m, s)} | IntCode(n, r) == IntCode(m, s) :: n == m && r == s
  {
    forall n, r, m, s | IntCode(n, r) == IntCode(m, s) ensures n == m && r == s {
      IntApart(n, r, m, s);
    }
  }

  // ---- choices ----

  function Tag(t: Byte, rest: Text): (b: Text)
    ensures |b| == |rest| + 1 && b[0] == t && b[1..] == rest
  {
    [t] + rest
  }

  function BoolCode(b: bool, rest: Text): (c: Text)
    ensures |c| == |rest| + 1
  {
    Tag(if b then 1 else 0, rest)
  }

  function TimeCode(t: Time, rest: Text): (b: Text)
    ensures |b| <= |rest| + TimeLen(t)
  {
    if t.ZeroTime? then Tag(0, rest) else Tag(1, t.stamp + [END] + rest)
  }

  lemma {:induction false} TimesApart()
    ensures forall t, r, u, s {:trigger TimeCode(t, r), TimeCode(u, s)} | TimeCode(t, r) == TimeCode(u, s) :: t == u && r == s
  {
    forall t, r, u, s | TimeCode(t, r) == TimeCode(u, s) ensures t == u && r == s {
      if t.At? {
        AsciiWellformed(t.stamp);
        AsciiWellformed(u.stamp);
        TextApart(t.stamp, r, u.stamp, s);
      }
    }
  }

  function OptTimeCode(t: Option<Time>, rest: Text): (b: Text)
    ensures |b| <= |rest| + 1 + OptTimeLen(t, 0)
  {
    if t.None? then Tag(0, rest) else Tag(1, TimeCode(t.value, rest))
  }

  function OptIntCode(n: Option<int>, rest: Text): (b: Text)
    ensures |b| <= |rest| + 1 + if n.None? then 0 else IntLen(n.value) + 1
  {
    if n.None? then Tag(0, rest) else Tag(1, IntCode(n.value, rest))
  }

  // ---- names ----

  function StateCode(x: JobState, rest: Text): (b: Text)
    ensures |b| <= |rest| + StateLen(x)
  {
    match x
    case Queued => Tag(0, rest)
    case Running => Tag(1, rest)
    case Cancelling => Tag(2, rest)
    case Succeeded => Tag(3, rest)
    case Failed => Tag(4, rest)
    case Cancelled => Tag(5, rest)
    case Interrupted => Tag(6, rest)
    case OtherState(name) => Tag(7, TextCode(name, rest))
  }

  function KindCode(x: EventKind, rest: Text): (b: Text)
    ensures |b| <= |rest| + KindLen(x)
  {
    match x
    case JobAccepted => Tag(0, rest)
    case JobStateChanged => Tag(1, rest)
    case JobOutput => Tag(2, rest)
    case JobResult => Tag(3, rest)
    case QueueChanged => Tag(4, rest)
    case OtherKind(name) => Tag(5, TextCode(name, rest))
  }

  function ErrorTag(x: ErrorCode): Byte {
    match x
    case NoCode => 0
    case InvalidRequest => 1
    case NotFound => 2
    case Conflict => 3
    case QueueFull => 4
    case LimitExceeded => 5
    case Unsupported => 6
    case BackendUnavailable => 7
    case BackendFailure => 8
    case JobCancelledCode => 9
    case InterruptedCode => 10
    case CursorInvalid => 11
    case SlowConsumer => 12
    case StorageFailure => 13
    case Unavailable => 14
    case OtherCode(_) => 15
  }

  function ErrorCodeCode(x: ErrorCode, rest: Text): (b: Text)
    ensures |b| <= |rest| + CodeLen(x)
  {
    Tag(ErrorTag(x), if x.OtherCode? then TextCode(x.name, rest) else rest)
  }

  function RoleCode(x: MessageRole, rest: Text): (b: Text)
    ensures |b| <= |rest| + RoleLen(x)
  {
    match x
    case User => Tag(0, rest)
    case Assistant => Tag(1, rest)
    case OtherRole(name) => Tag(2, TextCode(name, rest))
  }

  function RelationCode(x: Relation, rest: Text): (b: Text)
    ensures |b| <= |rest| + RelationLen(x)
  {
    match x
    case Retry => Tag(0, rest)
    case Branch => Tag(1, rest)
    case OtherRelation(name) => Tag(2, TextCode(name, rest))
  }

  lemma {:induction false} StateApart(x: JobState, r: Text, y: JobState, s: Text)
    requires LegibleState(x) && LegibleState(y) && StateCode(x, r) == StateCode(y, s)
    ensures x == y && r == s
  {
    TextsApart();
  }

  lemma {:induction false} KindApart(x: EventKind, r: Text, y: EventKind, s: Text)
    requires LegibleKind(x) && LegibleKind(y) && KindCode(x, r) == KindCode(y, s)
    ensures x == y && r == s
  {
    TextsApart();
  }

  lemma {:induction false} ErrorCodeApart(x: ErrorCode, r: Text, y: ErrorCode, s: Text)
    requires LegibleCode(x) && LegibleCode(y) && ErrorCodeCode(x, r) == ErrorCodeCode(y, s)
    ensures x == y && r == s
  {
    TextsApart();
  }

  // ---- requests and instructions ----

  function FloatCode(x: Option<Float>, rest: Text): (b: Text)
    ensures |b| <= |rest| + 1 + if x.Some? && x.value.Number? then |x.value.json| + 1 else 0
  {
    if x.Some? && x.value.Number? then Tag(1, x.value.json + [END] + rest) else Tag(0, rest)
  }

  lemma {:induction false} FloatApart(x: Option<Float>, r: Text, y: Option<Float>, s: Text)
    requires (x.Some? ==> x.value.Number?) && (y.Some? ==> y.value.Number?) && FloatCode(x, r) == FloatCode(y, s)
    ensures x == y && r == s
  {
    if x.Some? {
      AsciiWellformed(x.value.json);
      AsciiWellformed(y.value.json);
      TextApart(x.value.json, r, y.value.json, s);
    }
  }

  function OptionsCode(o: GenerationOptions, rest: Text): (b: Text)
    ensures |b| <= |rest| + OptionsLen(o)
  {
    OptIntCode(o.contextTokens, IntCode(o.maxOutputTokens, OptIntCode(o.seed, FloatCode(o.temperature, rest))))
  }

  function RequestCode(x: Request, rest: Text): (b: Text)
    ensures |b| <= |rest| + RequestLen(x)
  {
    TextCode(x.model, TextCode(x.role, TextCode(x.systemPrompt, TextCode(x.prompt, OptionsCode(x.options, rest)))))
  }

  lemma {:induction false} OptionsApart(x: GenerationOptions, r: Text, y: GenerationOptions, s: Text)
    requires (x.temperature.Some? ==> x.temperature.value.Number?) && (y.temperature.Some? ==> y.temperature.value.Number?)
    requires OptionsCode(x, r) == OptionsCode(y, s)
    ensures x == y && r == s
  {
    IntsApart();
    FloatApart(x.temperature, r, y.temperature, s);
  }

  lemma {:induction false} RequestApart(x: Request, r: Text, y: Request, s: Text)
    requires LegibleRequest(x) && LegibleRequest(y) && RequestCode(x, r) == RequestCode(y, s)
    ensures x == y && r == s
  {
    TextsApart();
    OptionsApart(x.options, r, y.options, s);
  }

  function MessageCode(m: Message, rest: Text): (b: Text)
    ensures |b| <= |rest| + RoleLen(m.role) + StringLen(m.content)
  {
    RoleCode(m.role, TextCode(m.content, rest))
  }

  lemma {:induction false} MessageApart(x: Message, r: Text, y: Message, s: Text)
    requires LegibleMessage(x) && LegibleMessage(y) && MessageCode(x, r) == MessageCode(y, s)
    ensures x == y && r == s
  {
    TextsApart();
  }

  function HistoryCode(h: seq<Message>, rest: Text): (b: Text)
    ensures |b| <= |rest| + 1 + HistoryLen(h)
  {
    if h == [] then Tag(0, rest) else Tag(1, MessageCode(h[|h| - 1], HistoryCode(h[..|h| - 1], rest)))
  }

  lemma {:induction false} HistoryApart(g: seq<Message>, r: Text, h: seq<Message>, s: Text)
    requires (forall k | 0 <= k < |g| :: LegibleMessage(g[k])) && (forall k | 0 <= k < |h| :: LegibleMessage(h[k]))
    requires HistoryCode(g, r) == HistoryCode(h, s)
    ensures g == h && r == s
  {
    if g != [] {
      var a, b := g[..|g| - 1], h[..|h| - 1];
      MessageApart(g[|g| - 1], HistoryCode(a, r), h[|h| - 1], HistoryCode(b, s));
      HistoryApart(a, r, b, s);
      assert g == a + [g[|g| - 1]] && h == b + [h[|h| - 1]];
    }
  }

  function InstructionsCode(x: Instructions, rest: Text): (b: Text)
    ensures |b| <= |rest| + InstructionsLen(x)
  {
    TextCode(x.system, HistoryCode(x.history, TextCode(x.prompt, rest)))
  }

  lemma {:induction false} InstructionsApart(x: Instructions, r: Text, y: Instructions, s: Text)
    requires LegibleInstructions(x) && LegibleInstructions(y) && InstructionsCode(x, r) == InstructionsCode(y, s)
    ensures x == y && r == s
  {
    TextsApart();
    HistoryApart(x.history, TextCode(x.prompt, r), y.history, TextCode(y.prompt, s));
  }

  // ---- results ----

  /** A list of texts, as used for observations and for waiting identities. */
  function ListCode(ts: seq<Text>, rest: Text): (b: Text)
    ensures |b| <= |rest| + 1 + TextsLen(ts)
  {
    if ts == [] then Tag(0, rest) else Tag(1, TextCode(ts[|ts| - 1], ListCode(ts[..|ts| - 1], rest)))
  }

  lemma {:induction false} ListApart(g: seq<Text>, r: Text, h: seq<Text>, s: Text)
    requires (forall k | 0 <= k < |g| :: Wellformed(g[k])) && (forall k | 0 <= k < |h| :: Wellformed(h[k]))
    requires ListCode(g, r) == ListCode(h, s)
    ensures g == h && r == s
  {
    if g != [] {
      var a, b := g[..|g| - 1], h[..|h| - 1];
      TextApart(g[|g| - 1], ListCode(a, r), h[|h| - 1], ListCode(b, s));
      ListApart(a, r, b, s);
      assert g == a + [g[|g| - 1]] && h == b + [h[|h| - 1]];
    }
  }

  function ResultCode(x: Result, rest: Text): (b: Text)
    ensures |b| <= |rest| + ResultLen(x)
  {
    TextCode(x.text, TextCode(x.finishReason, TextCode(x.effectiveModel,
      x.details.shape + [END] + ListCode(x.details.texts, rest))))
  }

  lemma {:induction false} ResultApart(x: Result, r: Text, y: Result, s: Text)
    requires Wellformed(x.text) && Wellformed(y.text) && LegibleMetadata(x) && LegibleMetadata(y)
    requires ResultCode(x, r) == ResultCode(y, s)
    ensures x == y && r == s
  {
    TextsApart();
    AsciiWellformed(x.details.shape);
    AsciiWellformed(y.details.shape);
    TextApart(x.details.shape, ListCode(x.details.texts, r), y.details.shape, ListCode(y.details.texts, s));
    ListApart(x.details.texts, r, y.details.texts, s);
  }

  function FaultCode(x: Option<Fault>, rest: Text): (b: Text)
    ensures |b| <= |rest| + 1 + FaultLen(x)
  {
    if x.None? then Tag(0, rest)
    else Tag(1, ErrorCodeCode(x.value.code, TextCode(x.value.message, BoolCode(x.value.retryable, rest))))
  }

  lemma {:induction false} FaultApart(x: Option<Fault>, r: Text, y: Option<Fault>, s: Text)
    requires (x.Some? ==> LegibleFault(x.value)) && (y.Some? ==> LegibleFault(y.value)) && FaultCode(x, r) == FaultCode(y, s)
    ensures x == y && r == s
  {
    if x.Some? {
      var a, b := x.value, y.value;
      ErrorCodeApart(a.code, TextCode(a.message, BoolCode(a.retryable, r)), b.code, TextCode(b.message, BoolCode(b.retryable, s)));
      TextsApart();
    }
  }

  // ---- jobs ----

  function LineageCode(x: Option<Lineage>, rest: Text): (b: Text)
    ensures |b| <= |rest| + 1 + LineageLen(x)
  {
    if x.None? then Tag(0, rest) else Tag(1, TextCode(x.value.parentId, RelationCode(x.value.relation, rest)))
  }

  lemma {:induction false} LineageApart(x: Option<Lineage>, r: Text, y: Option<Lineage>, s: Text)
    requires (x.Some? ==> LegibleLineage(x.value)) && (y.Some? ==> LegibleLineage(y.value)) && LineageCode(x, r) == LineageCode(y, s)
    ensures x == y && r == s
  {
    if x.Some? {
      var a, b := x.value, y.value;
      TextApart(a.parentId, RelationCode(a.relation, r), b.parentId, RelationCode(b.relation, s));
      RelationApart(a.relation, r, b.relation, s);
    }
  }

  lemma {:induction false} RelationApart(x: Relation, r: Text, y: Relation, s: Text)
    requires (x.OtherRelation? ==> Wellformed(x.name)) && (y.OtherRelation? ==> Wellformed(y.name)) && RelationCode(x, r) == RelationCode(y, s)
    ensures x == y && r == s
  {
    TextsApart();
  }

  /** The part of a record that lifecycle changes rewrite. */
  function ProgressCode(j: Job, rest: Text): (b: Text)
    ensures |b| <= |rest| + 3 + StateLen(j.state) + OptTimeLen(j.startedAt, 10) + OptTimeLen(j.finishedAt, 11)
                   + ResultLen(j.result) + FaultLen(j.error)
  {
    StateCode(j.state, OptTimeCode(j.startedAt, OptTimeCode(j.finishedAt, ResultCode(j.result, FaultCode(j.error, rest)))))
  }

  function JobCode(j: Job, rest: Text): (b: Text)
    ensures |b| <= |rest| + JobLen(j)
  {
    TextCode(j.id, RequestCode(j.request, InstructionsCode(j.instructions, TextCode(j.origin,
      LineageCode(j.lineage, TimeCode(j.createdAt, ProgressCode(j, rest)))))))
  }

  lemma {:induction false} OptTimesApart()
    ensures forall t, r, u, s {:trigger OptTimeCode(t, r), OptTimeCode(u, s)} |
              OptTimeCode(t, r) == OptTimeCode(u, s) :: t == u && r == s
  {
    TimesApart();
  }

  lemma {:induction false} ProgressApart(j: Job, r: Text, k: Job, s: Text)
    requires LegibleJob(j) && LegibleJob(k) && ProgressCode(j, r) == ProgressCode(k, s)
    ensures j.state == k.state && j.startedAt == k.startedAt && j.finishedAt == k.finishedAt
    ensures j.result == k.result && j.error == k.error && r == s
  {
    var a, b := ResultCode(j.result, FaultCode(j.error, r)), ResultCode(k.result, FaultCode(k.error, s));
    StateApart(j.state, OptTimeCode(j.startedAt, OptTimeCode(j.finishedAt, a)),
               k.state, OptTimeCode(k.startedAt, OptTimeCode(k.finishedAt, b)));
    OptTimesApart();
    ResultApart(j.result, FaultCode(j.error, r), k.result, FaultCode(k.error, s));
    FaultApart(j.error, r, k.error, s);
  }

  lemma {:induction false} JobApart(j: Job, r: Text, k: Job, s: Text)
    requires LegibleJob(j) && LegibleJob(k) && JobCode(j, r) == JobCode(k, s)
    ensures j == k && r == s
  {
    var a, b := TimeCode(j.createdAt, ProgressCode(j, r)), TimeCode(k.createdAt, ProgressCode(k, s));
    var c, d := TextCode(j.origin, LineageCode(j.lineage, a)), TextCode(k.origin, LineageCode(k.lineage, b));
    TextApart(j.id, RequestCode(j.request, InstructionsCode(j.instructions, c)),
              k.id, RequestCode(k.request, InstructionsCode(k.instructions, d)));
    RequestApart(j.request, InstructionsCode(j.instructions, c), k.request, InstructionsCode(k.instructions, d));
    InstructionsApart(j.instructions, c, k.instructions, d);
    TextApart(j.origin, LineageCode(j.lineage, a), k.origin, LineageCode(k.lineage, b));
    LineageApart(j.lineage, a, k.lineage, b);
    TimesApart();
    ProgressApart(j, r, k, s);
  }

  // ---- events ----

  function CursorCode(c: Cursor, rest: Text): (b: Text)
    ensures |b| <= |rest| + CursorLen(c)
  {
    TextCode(c.storeId, IntCode(c.sequence, rest))
  }

  lemma {:induction false} PendingIsTexts(ids: seq<Id>)
    ensures TextsLen(ids) <= PendingLen(ids) - 4
  {
    if ids != [] {
      PendingIsTexts(ids[..|ids| - 1]);
    }
  }

  function ActiveCode(id: Option<Id>, rest: Text): (b: Text)
    ensures |b| <= |rest| + 1 + if id.None? then 0 else StringLen(id.value)
  {
    if id.None? then Tag(0, rest) else Tag(1, TextCode(id.value, rest))
  }

  function QueueCode(q: QueueState, rest: Text): (b: Text)
    ensures |b| <= |rest| + QueueLen(q)
  {
    PendingIsTexts(q.pending);
    BoolCode(q.paused, ListCode(q.pending, ActiveCode(q.active, IntCode(q.maxPending, rest))))
  }

  lemma {:induction false} QueueApart(q: QueueState, r: Text, p: QueueState, s: Text)
    requires LegibleQueue(q) && LegibleQueue(p) && QueueCode(q, r) == QueueCode(p, s)
    ensures q == p && r == s
  {
    ListApart(q.pending, ActiveCode(q.active, IntCode(q.maxPending, r)), p.pending, ActiveCode(p.active, IntCode(p.maxPending, s)));
    TextsApart();
    IntsApart();
  }

  function OutputCode(o: OutputDelta, rest: Text): (b: Text)
    ensures |b| <= |rest| + 1 + IntLen(o.offsetBytes) + StringLen(o.text)
  {
    IntCode(o.offsetBytes, TextCode(o.text, rest))
  }

  /** What an event carries. */
  function PayloadCode(e: Event, rest: Text): (b: Text)
    ensures |b| <= |rest| + 3 + (if e.job.None? then 0 else JobLen(e.job.value))
              + (if e.output.None? then 0 else 1 + IntLen(e.output.value.offsetBytes) + StringLen(e.output.value.text))
              + (if e.queue.None? then 0 else QueueLen(e.queue.value))
  {
    var c := if e.queue.None? then Tag(0, rest) else Tag(1, QueueCode(e.queue.value, rest));
    var b := if e.output.None? then Tag(0, c) else Tag(1, OutputCode(e.output.value, c));
    if e.job.None? then Tag(0, b) else Tag(1, JobCode(e.job.value, b))
  }

  lemma {:induction false} PayloadApart(e: Event, r: Text, f: Event, s: Text)
    requires LegibleEvent(e) && LegibleEvent(f) && PayloadCode(e, r) == PayloadCode(f, s)
    ensures e.job == f.job && e.output == f.output && e.queue == f.queue && r == s
  {
    var c := if e.queue.None? then Tag(0, r) else Tag(1, QueueCode(e.queue.value, r));
    var d := if f.queue.None? then Tag(0, s) else Tag(1, QueueCode(f.queue.value, s));
    var a := if e.output.None? then Tag(0, c) else Tag(1, OutputCode(e.output.value, c));
    var b := if f.output.None? then Tag(0, d) else Tag(1, OutputCode(f.output.value, d));
    if e.job.Some? {
      JobApart(e.job.value, a, f.job.value, b);
    }
    if e.output.Some? {
      IntsApart();
      TextApart(e.output.value.text, c, f.output.value.text, d);
    }
    if e.queue.Some? {
      QueueApart(e.queue.value, r, f.queue.value, s);
    }
  }

  function EventCode(e: Event, rest: Text): (b: Text)
    ensures |b| <= |rest| + EventLen(e)
  {
    CursorCode(e.cursor, TimeCode(e.at, KindCode(e.kind, TextCode(e.jobId, PayloadCode(e, rest)))))
  }

  lemma {:induction false} EventApart(e: Event, r: Text, f: Event, s: Text)
    requires ReadableEvent(e) && ReadableEvent(f) && EventCode(e, r) == EventCode(f, s)
    ensures e == f && r == s
  {
    assert LegibleEvent(e) && LegibleEvent(f);
    var a, b := TextCode(e.jobId, PayloadCode(e, r)), TextCode(f.jobId, PayloadCode(f, s));
    var c, d := TimeCode(e.at, KindCode(e.kind, a)), TimeCode(f.at, KindCode(f.kind, b));
    TextApart(e.cursor.storeId, IntCode(e.cursor.sequence, c), f.cursor.storeId, IntCode(f.cursor.sequence, d));
    IntsApart();
    TimesApart();
    KindApart(e.kind, a, f.kind, b);
    TextApart(e.jobId, PayloadCode(e, r), f.jobId, PayloadCode(f, s));
    PayloadApart(e, r, f, s);
  }

  /** LegibleEvent as a one-point quantifier, so that callers do not unfold it. */
  predicate ReadableEvent(e: Event) { forall x {:trigger LegibleEvent(x)} | x == e :: LegibleEvent(x) }

  predicate IsEventCode(e: Event, rest: Text, b: Text) { forall x {:trigger EventCode(x, rest)} | x == e :: b == EventCode(x, rest) }

  /** The code of an event, chosen by its property, so that lists of events do not unfold it. */
  ghost function Packed(e: Event, rest: Text): (b: Text)
    ensures IsEventCode(e, rest, b)
  {
    assert IsEventCode(e, rest, EventCode(e, rest));
    var b :| IsEventCode(e, rest, b);
    b
  }

  lemma {:induction false} PackedLen(e: Event, rest: Text)
    ensures |Packed(e, rest)| <= |rest| + EventLen(e)
  {
    assert Packed(e, rest) == EventCode(e, rest);
  }

  lemma {:induction false} PackedApart(e: Event, r: Text, f: Event, s: Text)
    requires ReadableEvent(e) && ReadableEvent(f) && Packed(e, r) == Packed(f, s)
    ensures e == f && r == s
  {
    assert EventCode(e, r) == EventCode(f, s);
    EventApart(e, r, f, s);
  }

  ghost function EventsCode(es: seq<Event>, rest: Text): Text {
    if es == [] then Tag(0, rest) else Tag(1, Packed(es[|es| - 1], EventsCode(es[..|es| - 1], rest)))
  }

  lemma {:induction false} EventsCodeLen(es: seq<Event>, rest: Text)
    ensures |EventsCode(es, rest)| <= |rest| + EventsLen(es)
  {
    if es != [] {
      EventsCodeLen(es[..|es| - 1], rest);
      PackedLen(es[|es| - 1], EventsCode(es[..|es| - 1], rest));
    }
  }

  lemma {:induction false} EventsApart(g: seq<Event>, r: Text, h: seq<Event>, s: Text)
    requires (forall k | 0 <= k < |g| :: ReadableEvent(g[k])) && (forall k | 0 <= k < |h| :: ReadableEvent(h[k]))
    requires EventsCode(g, r) == EventsCode(h, s)
    ensures g == h && r == s
  {
    if g != [] {
      var a, b := g[..|g| - 1], h[..|h| - 1];
      assert ReadableEvent(g[|g| - 1]) && ReadableEvent(h[|h| - 1]);
      PackedApart(g[|g| - 1], EventsCode(a, r), h[|h| - 1], EventsCode(b, s));
      EventsApart(a, r, b, s);
      assert g == a + [g[|g| - 1]] && h == b + [h[|h| - 1]];
    }
  }

  // ---- commits ----

  function ReceiptCode(x: Option<Receipt>, rest: Text): (b: Text)
    ensures |b| <= |rest| + 1 + ReceiptLen(x)
  {
    if x.None? then Tag(0, rest) else Tag(1, TextCode(x.value.key, TextCode(x.value.digest, TextCode(x.value.jobId, rest))))
  }

  ghost function CommitCode(c: Commit): (b: Text)
    ensures 2 <= |b| <= CommitLen(c)
  {
    EventsCodeLen(c.events, ReceiptCode(c.receipt, []));
    IntCode(c.version, EventsCode(c.events, ReceiptCode(c.receipt, [])))
  }

  /** Different commits of UTF-8 texts have different codes. */
  lemma {:induction false} CommitApart(c: Commit, d: Commit)
    requires LegibleCommit(c) && LegibleCommit(d) && CommitCode(c) == CommitCode(d)
    ensures c == d
  {
    IntsApart();
    EventsApart(c.events, ReceiptCode(c.receipt, []), d.events, ReceiptCode(d.receipt, []));
    TextsApart();
  }

  // ---- the codec ----

  /** A commit with a text that is not UTF-8 gets bytes that decode to nothing. */
  ghost function Marshalled(c: Commit): Text { if LegibleCommit(c) then CommitCode(c) else [END] }

  ghost predicate Coded(c: Commit, b: Text) { LegibleCommit(c) && CommitCode(c) == b }

  ghost function Unmarshalled(b: Text): (r: Option<Commit>)
    ensures r.Some? ==> Coded(r.value, b)
    ensures r.None? ==> forall c :: !Coded(c, b)
  {
    if exists c :: Coded(c, b) then
      var c :| Coded(c, b);
      Some(c)
    else None
  }

  ghost function Sample(): Codec {
    Codec((c: Commit) => Marshalled(c), (b: Text) => Unmarshalled(b), (e: Event) => 0,
          (b: Text) => seq(32, i requires 0 <= i < 32 => 0))
  }

  lemma {:induction false} SampleDecodes(c: Commit)
    ensures Decode(Sample(), Sample().marshal(c)) == if LegibleCommit(c) then Some(c) else None
  {
    var b := Marshalled(c);
    var r := Unmarshalled(b);
    if LegibleCommit(c) {
      assert Coded(c, b);
      CommitApart(r.value, c);
    } else if r.Some? {
      assert CommitCode(r.value) == b;
    }
  }

  /** THE ASSUMPTIONS CAN BE MET: some codec has every property assumed of the library functions. */
  lemma {:induction false} LawfulCodecExists()
    ensures exists k :: Lawful(k)
  {
    forall c: Commit ensures Decode(Sample(), Sample().marshal(c)) == if LegibleCommit(c) then Some(c) else None {
      SampleDecodes(c);
    }
    assert Lawful(Sample());
  }
}
