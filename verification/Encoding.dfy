/** Lengths of the canonical JSON the journal stores. A field costs its name, two
    quotes, a colon and the brace or comma before it; an object one closing brace. */
module Encoding {
  import opened Utf8
  import opened Contract

  /** Bytes a text costs inside a JSON string: HTML characters, control characters and the two
      Unicode line separators are escaped, and so is each byte that is not UTF-8. */
  function EscapedLen(s: Text): (n: nat)
    ensures n <= 6 * |s|
    decreases |s|
  {
    if s == [] then 0
    else if RuneLen(s) == 0 then 6 + EscapedLen(s[1..])
    else RuneCost(s[..RuneLen(s)]) + EscapedLen(s[RuneLen(s)..])
  }

  /** Bytes one well-formed character costs. */
  function RuneCost(r: Text): (n: nat)
    ensures n <= 6 * |r|
  {
    if |r| == 1 then ByteCost(r[0])
    else if r == [0xE2, 0x80, 0xA8] || r == [0xE2, 0x80, 0xA9] then 6
    else |r|
  }

  function ByteCost(b: Byte): (n: nat)
    ensures 1 <= n <= 6
  {
    if b == 0x22 || b == 0x5C then 2
    else if b == 8 || b == 9 || b == 10 || b == 12 || b == 13 then 2
    else if b < 0x20 || b == 0x3C || b == 0x3E || b == 0x26 then 6
    else 1
  }

  lemma {:induction false} HexCostsItself(s: Text)
    requires forall k | 0 <= k < |s| :: HexByte(s[k])
    ensures EscapedLen(s) == |s|
  {
    if s != [] {
      assert RuneLen(s) == 1;
      HexCostsItself(s[1..]);
    }
  }

  /** A text behind one that is UTF-8. */
  lemma {:induction false} EscapedConcat(a: Text, b: Text)
    requires ValidUtf8(a)
    ensures EscapedLen(a + b) == EscapedLen(a) + EscapedLen(b)
    decreases |a|
  {
    if a == [] {
      assert a + b == b;
    } else {
      var n := RuneLen(a);
      RuneLenPrefix(a, b);
      assert (a + b)[..n] == a[..n] && (a + b)[n..] == a[n..] + b;
      EscapedConcat(a[n..], b);
    }
  }

  function StringLen(s: Text): nat { 2 + EscapedLen(s) }

  function Digits(n: nat): (d: nat)
    ensures d >= 1
  {
    if n < 10 then 1 else 1 + Digits(n / 10)
  }

  function IntLen(n: int): nat { if n < 0 then 1 + Digits(-n) else Digits(n) }

  function TimeLen(t: Time): nat { if t.ZeroTime? then 22 else 2 + |t.stamp| }

  function OptTimeLen(t: Option<Time>, name: nat): nat { if t.None? then 0 else name + 4 + TimeLen(t.value) }

  function OptStringLen(s: Text, name: nat): nat { if s == [] then 0 else name + 4 + StringLen(s) }

  function StateLen(s: JobState): nat {
    match s
    case Queued => 8
    case Running => 9
    case Cancelling => 12
    case Succeeded => 11
    case Failed => 8
    case Cancelled => 11
    case Interrupted => 13
    case OtherState(name) => StringLen(name)
  }

  function OptionsLen(o: GenerationOptions): nat {
    (if o.contextTokens.None? then 0 else 18 + IntLen(o.contextTokens.value))
    + 21 + IntLen(o.maxOutputTokens)
    + (if o.temperature.Some? && o.temperature.value.Number? then 15 + |o.temperature.value.json| else 0)
    + (if o.seed.None? then 0 else 8 + IntLen(o.seed.value)) + 1
  }

  function RequestLen(r: Request): nat {
    9 + StringLen(r.model) + OptStringLen(r.role, 4) + OptStringLen(r.systemPrompt, 13)
    + 10 + StringLen(r.prompt) + 11 + OptionsLen(r.options) + 1
  }

  function RoleLen(r: MessageRole): nat {
    match r case User => 6 case Assistant => 11 case OtherRole(name) => StringLen(name)
  }

  function HistoryLen(h: seq<Message>): nat {
    if h == [] then 0
    else var m := h[|h| - 1];
      HistoryLen(h[..|h| - 1]) + 8 + RoleLen(m.role) + 11 + StringLen(m.content) + 2
  }

  function InstructionsLen(i: Instructions): nat {
    10 + StringLen(i.system) + (if i.history == [] then 0 else 12 + HistoryLen(i.history))
    + 10 + StringLen(i.prompt) + 1
  }

  function RelationLen(r: Relation): nat {
    match r case Retry => 7 case Branch => 8 case OtherRelation(name) => StringLen(name)
  }

  function LineageLen(l: Option<Lineage>): nat {
    if l.None? then 0 else 11 + 13 + StringLen(l.value.parentId) + 12 + RelationLen(l.value.relation) + 1
  }

  function TextsLen(ts: seq<Text>): nat {
    if ts == [] then 0 else TextsLen(ts[..|ts| - 1]) + StringLen(ts[|ts| - 1])
  }

  function DetailsLen(d: Details): nat { |d.shape| + TextsLen(d.texts) }

  /** A result without the characters of its text. */
  function MetadataLen(r: Result): nat {
    10 + OptStringLen(r.finishReason, 13) + OptStringLen(r.effectiveModel, 15) + DetailsLen(r.details) + 1
  }

  function ResultLen(r: Result): nat { MetadataLen(r) + EscapedLen(r.text) }

  function CodeLen(c: ErrorCode): nat {
    match c
    case NoCode => 2
    case InvalidRequest => 17
    case NotFound => 11
    case Conflict => 10
    case QueueFull => 12
    case LimitExceeded => 16
    case Unsupported => 13
    case BackendUnavailable => 21
    case BackendFailure => 17
    case JobCancelledCode => 11
    case InterruptedCode => 13
    case CursorInvalid => 16
    case SlowConsumer => 15
    case StorageFailure => 17
    case Unavailable => 13
    case OtherCode(name) => StringLen(name)
  }

  function FaultLen(f: Option<Fault>): nat {
    if f.None? then 0
    else 9 + 8 + CodeLen(f.value.code) + 11 + StringLen(f.value.message) + 13
         + (if f.value.retryable then 4 else 5) + 1
  }

  /** The part of an encoded job that never changes after acceptance. */
  function FixedLen(j: Job): nat {
    6 + StringLen(j.id) + 9 + 11 + RequestLen(j.request) + 16 + InstructionsLen(j.instructions)
    + OptStringLen(j.origin, 6) + LineageLen(j.lineage) + 14 + TimeLen(j.createdAt) + 10 + 1
  }

  function JobLen(j: Job): nat {
    FixedLen(j) + StateLen(j.state) + OptTimeLen(j.startedAt, 10) + OptTimeLen(j.finishedAt, 11)
    + ResultLen(j.result) + FaultLen(j.error)
  }

  function CursorLen(c: Cursor): nat { 12 + StringLen(c.storeId) + 14 + Digits(c.sequence) + 1 }

  function KindLen(k: EventKind): nat {
    match k
    case JobAccepted => 14
    case JobStateChanged => 11
    case JobOutput => 12
    case JobResult => 12
    case QueueChanged => 13
    case OtherKind(name) => StringLen(name)
  }

  function PendingLen(ids: seq<Id>): nat {
    if ids == [] then 4 else PendingLen(ids[..|ids| - 1]) + StringLen(ids[|ids| - 1]) + 1
  }

  function QueueLen(q: QueueState): nat {
    10 + 5 + 11 + PendingLen(q.pending) + (if q.active.None? then 0 else 10 + StringLen(q.active.value))
    + 15 + IntLen(q.maxPending) + 1
  }

  /** An upper bound: a queue without pending jobs may be stored as null or as an empty list. */
  function EventLen(e: Event): nat {
    10 + CursorLen(e.cursor) + 6 + TimeLen(e.at) + 8 + KindLen(e.kind) + OptStringLen(e.jobId, 6)
    + (if e.job.None? then 0 else 7 + JobLen(e.job.value))
    + (if e.output.None? then 0 else 10 + 16 + IntLen(e.output.value.offsetBytes) + 8 + StringLen(e.output.value.text) + 1)
    + (if e.queue.None? then 0 else 9 + QueueLen(e.queue.value)) + 1
  }

  function EventsLen(es: seq<Event>): nat {
    if es == [] then 1 else EventsLen(es[..|es| - 1]) + EventLen(es[|es| - 1]) + 1
  }

  function ReceiptLen(r: Option<Receipt>): nat {
    if r.None? then 0
    else 11 + 7 + StringLen(r.value.key) + 10 + StringLen(r.value.digest) + 10 + StringLen(r.value.jobId) + 1
  }

  function CommitLen(c: Commit): nat {
    11 + IntLen(c.version) + 10 + EventsLen(c.events) + ReceiptLen(c.receipt) + 1
  }

  lemma IdLen(id: Id)
    requires HexId(id)
    ensures StringLen(id) == 34
  {
    HexCostsItself(id);
  }

  lemma {:induction false} PendingLenBound(ids: seq<Id>)
    requires forall k | 0 <= k < |ids| :: HexId(ids[k])
    ensures PendingLen(ids) == 4 + 35 * |ids|
  {
    if ids != [] {
      IdLen(ids[|ids| - 1]);
      PendingLenBound(ids[..|ids| - 1]);
    }
  }

  function Pow10(k: nat): nat { if k == 0 then 1 else 10 * Pow10(k - 1) }

  lemma {:induction false} DigitsBound(n: nat, k: nat)
    requires k >= 1 && n < Pow10(k)
    ensures Digits(n) <= k
  {
    if n >= 10 {
      assert Pow10(0) == 1;
      assert n / 10 < Pow10(k - 1);
      DigitsBound(n / 10, k - 1);
    }
  }

  lemma SequenceDigits(n: nat)
    requires n <= MAX_UINT64
    ensures Digits(n) <= 20
  {
    assert Pow10(4) == 10000 by { assert Pow10(2) == 100; }
    assert Pow10(8) == 100000000 by { assert Pow10(6) == 1000000; }
    assert Pow10(12) == 1000000000000 by { assert Pow10(10) == 10000000000; }
    assert Pow10(16) == 10000000000000000 by { assert Pow10(14) == 100000000000000; }
    assert Pow10(20) == 100000000000000000000 by { assert Pow10(18) == 1000000000000000000; }
    DigitsBound(n, 20);
  }
}
