/** The values the core exchanges with its store, backend and clients
    (internal/core/jobs.go, events.go, ports.go, errors.go), and its limits. */
module Contract {
  import opened Utf8

  const MAX_PENDING: nat := 64
  const MAX_JOBS: nat := 1000
  const MAX_INPUT_BYTES: nat := 1048576
  const MAX_OUTPUT_BYTES: nat := 8388608
  const MAX_COMMIT_BYTES: nat := 16777216
  const MAX_OBSERVER_EVENTS: nat := 256
  const MAX_OBSERVER_BYTES: nat := 33554432
  const METADATA_RESERVE: nat := 65536
  const MAX_UINT64: nat := 18446744073709551615

  datatype Option<+T> = None | Some(value: T)

  type Id = Text

  /** A UTC time as the text it is recorded with. */
  datatype Time = ZeroTime | At(stamp: TimeText)

  predicate IsAscii(s: Text) { forall i | 0 <= i < |s| :: s[i] < 128 }

  /** RFC 3339 with nanoseconds, and not the zero time. */
  type TimeText = s: Text | |s| <= 35 && IsAscii(s) && s != Ascii("0001-01-01T00:00:00Z") witness []

  /** Encoded numbers and punctuation. */
  type JsonText = s: Text | IsAscii(s) witness []

  // The strings Go declares as enumerations may hold any text; `Other...` values are the texts
  // outside the declared ones.
  const STATE_NAMES: set<Text> := set s: string | s in
      {"queued", "running", "cancelling", "succeeded", "failed", "cancelled", "interrupted"} :: Ascii(s)
  const CODE_NAMES: set<Text> := set s: string | s in
      {"", "invalid_request", "not_found", "conflict", "queue_full", "limit_exceeded", "unsupported",
       "backend_unavailable", "backend_failure", "cancelled", "interrupted", "cursor_invalid",
       "slow_consumer", "storage_failure", "unavailable"} :: Ascii(s)
  const ROLE_NAMES: set<Text> := set s: string | s in {"user", "assistant"} :: Ascii(s)
  const RELATION_NAMES: set<Text> := set s: string | s in {"retry", "branch"} :: Ascii(s)
  const KIND_NAMES: set<Text> := set s: string | s in
      {"job.accepted", "job.state", "job.output", "job.result", "queue.state"} :: Ascii(s)

  type StateName = s: Text | s !in STATE_NAMES witness [63]
  type CodeName = s: Text | s !in CODE_NAMES witness [63]
  type RoleName = s: Text | s !in ROLE_NAMES witness [63]
  type RelationName = s: Text | s !in RELATION_NAMES witness [63]
  type KindName = s: Text | s !in KIND_NAMES witness [63]

  datatype JobState =
    | Queued | Running | Cancelling | Succeeded | Failed | Cancelled | Interrupted
    | OtherState(name: StateName)

  datatype ErrorCode =
    | NoCode | InvalidRequest | NotFound | Conflict | QueueFull | LimitExceeded | Unsupported
    | BackendUnavailable | BackendFailure | JobCancelledCode | InterruptedCode
    | CursorInvalid | SlowConsumer | StorageFailure | Unavailable | OtherCode(name: CodeName)

  datatype Fault = Fault(code: ErrorCode, message: Text, retryable: bool)

  /** A float64 option: not a finite number, or the decimal text it encodes to. */
  datatype Float = NotFinite | Number(json: JsonText)

  /** Less than zero; negative zero is not. */
  predicate Negative(json: Text) { json != [] && json[0] == 45 && json != [45, 48] }

  datatype GenerationOptions = GenerationOptions(
    contextTokens: Option<int>, maxOutputTokens: int, temperature: Option<Float>, seed: Option<int>)

  datatype Request = Request(
    model: Text, role: Text, systemPrompt: Text, prompt: Text, options: GenerationOptions)

  datatype MessageRole = User | Assistant | OtherRole(name: RoleName)
  datatype Message = Message(role: MessageRole, content: Text)
  datatype Instructions = Instructions(system: Text, history: seq<Message>, prompt: Text)

  datatype Relation = Retry | Branch | OtherRelation(name: RelationName)
  datatype Lineage = Lineage(parentId: Id, relation: Relation)

  /** Backend observations other than the text and the two names: the encoded fields for effective
      options, context and usage without their strings, and those strings. */
  datatype Details = Details(shape: JsonText, texts: seq<Text>)
  datatype Result = Result(text: Text, finishReason: Text, effectiveModel: Text, details: Details)

  /** No observations at all. */
  const NO_DETAILS: Details := Details(Ascii("\"context\":{\"reserved_output_tokens\":0},\"usage\":{},"), [])

  const EMPTY_RESULT: Result := Result([], [], [], NO_DETAILS)

  datatype Job = Job(
    id: Id, state: JobState, request: Request, instructions: Instructions, origin: Text,
    lineage: Option<Lineage>, createdAt: Time, startedAt: Option<Time>, finishedAt: Option<Time>,
    result: Result, error: Option<Fault>)

  datatype Cursor = Cursor(storeId: Id, sequence: nat)

  datatype QueueState = QueueState(paused: bool, pending: seq<Id>, active: Option<Id>, maxPending: int)

  datatype EventKind = JobAccepted | JobStateChanged | JobOutput | JobResult | QueueChanged | OtherKind(name: KindName)
  datatype OutputDelta = OutputDelta(offsetBytes: int, text: Text)
  datatype Event = Event(
    cursor: Cursor, at: Time, kind: EventKind, jobId: Id,
    job: Option<Job>, output: Option<OutputDelta>, queue: Option<QueueState>)

  datatype Snapshot = Snapshot(cursor: Cursor, queue: QueueState, jobs: seq<Job>)

  datatype Receipt = Receipt(key: Text, digest: Text, jobId: Id)
  datatype Commit = Commit(version: int, events: seq<Event>, receipt: Option<Receipt>)

  /** The state of a store nothing was ever written to. */
  function EmptySnapshot(storeId: Id): Snapshot {
    Snapshot(Cursor(storeId, 0), QueueState(false, [], None, MAX_PENDING), [])
  }

  predicate Terminal(s: JobState) {
    s.Succeeded? || s.Failed? || s.Cancelled? || s.Interrupted?
  }

  predicate Executing(s: JobState) { s.Running? || s.Cancelling? }

  predicate HexByte(b: Byte) { 48 <= b <= 57 || 97 <= b <= 102 }

  /** The identities the worker and the journal draw: 16 random bytes in lower-case hex. */
  predicate HexId(id: Id) { |id| == 32 && forall k | 0 <= k < |id| :: HexByte(id[k]) }
}
