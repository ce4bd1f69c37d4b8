# TaskWorker: a Dafny model

TaskWorker is a durable, event-sourced job worker. Commands become transactions of numbered
events; a validating reducer (`internal/core/state.go`) folds them into a snapshot; one worker
(`internal/core/worker.go`) builds them under a lock; a journal
(`internal/adapters/journal/journal.go`) frames, budgets, recovers and pages them; streams and
client projections observe them. This project models that core and a few text machines around it,
and proves what they promise over all inputs, all runs and all crash points.

| module | models |
|---|---|
| `Utf8` | byte strings, UTF-8 (section 4 of RFC 3629), output chunking and output paging |
| `Contract`, `Encoding`, `Legible` | the exchanged values, the byte length of their JSON encoding, which of them survive it, and copies made by it |
| `Reducer` | `ApplyCommit` and its checks, as functions and as the loops that compute them |
| `History` | invariants of every run: consistency, monotone history, the flat log, receipts |
| `Conversation` | lineage, recorded histories and `conversationTurns` |
| `Requests` | trimming, composed instructions and request validation, each against an independent description |
| `Commits`, `Order` | the worker's transactions, all accepted by the reducer; which transactions keep acceptance order |
| `Reserve`, `Storage`, `Steps` | the terminal reserve pays for them, everything stored reads back, and each keeps a worker's invariant |
| `Orders`, `Output` | when a create command must be admitted or refused; when output must be accepted, and what it costs |
| `Frames`, `Recovery`, `Paging`, `Journal` | the file format, the recovery scan, paging, the live journal object |
| `Witness` | a codec with every property assumed of the library functions |
| `Worker` | the worker object, one method per lock region, and whole scripts of actions |
| `Restart`, `Service` | crash at any byte, reopen, new worker; whole lives of alternating scripts and crashes; idempotent creates over them |
| `Illegible` | what texts that are not UTF-8 do: two jobs under one identity, and a journal that cannot be opened again |
| `Watch` | a stream's replay and live delivery under every interleaving |
| `Clients` | the Python `Mirror` and the browser's `Projection` |
| `Modelfile` | the gate on generated Modelfiles |
| `Framing` | the bridge's line filter and cancellation tracker |
| `Codecs` | cursor texts and surrogate escapes |

Conventions.

- Go strings are sequences of bytes (`Text`). Integers are unbounded; the 64-bit event sequence and
  every size limit are explicit.
- Wall clock, random identities, disk outcomes (`Io`, `broken`) and backend replies are parameters.
  A time is an ASCII stamp of at most 35 bytes. A new job identity is 32 hex digits not yet in use.
- JSON text and SHA-256 are abstract: a `Codec` with `marshal`, `unmarshal`, `eventLen` and `sha256`.
  `Frames.Lawful` says what is assumed of it: `Encoding` bounds the encoded length of every commit
  field by field, escapes and bytes that are not UTF-8 included, and decoding inverts encoding exactly
  for commits whose texts are UTF-8. In any other, Go writes a six-byte escape that decodes to a
  three-byte character, so the canonical check of `decode` fails. `Witness.LawfulCodecExists` constructs
  a codec with all these properties, so what is proved from them is not empty. Frame headers and
  big-endian lengths are real bytes.
- `Clone`, the deep copy by encoding and decoding, replaces each byte that is not part of a UTF-8
  character by U+FFFD. The reducer copies the job record or queue of an event before it checks and stores
  it, while identities are compared as they come; streams copy every event they queue
  (`Legible.CloneJob`, `CloneQueue`, `CloneEvent`).
- Enumerated strings have a constructor per declared text and one for all others, so that no value has
  two representations.
- Several predicates are written as one-point quantifiers
  (`forall x {:trigger P(x)} | x == y :: P(x)`), which mean `P(y)` and keep the verifier from unfolding
  `P` where it is not needed.

Where the code does less than its documentation suggests, the model follows the code:

- The reducer alone does not enforce first in, first out. A transaction that rewrites the queue before
  it starts a job may start any waiting job (`Commits.OvertakingAccepted`), and a later job may be
  cancelled with a start time on its record (`Order.StampedCancelAccepted`). An accepted transaction
  keeps acceptance order if and only if it starts no job behind one it leaves waiting
  (`Order.CommitOrder`); the worker's own transactions always do, which is part of its invariant.
- The reducer alone does not keep identities unique. It looks a new identity up as it comes and stores a
  copy; two different identities that are not UTF-8 can be stored under the same one
  (`Illegible.TwinsAccepted`). An accepted event keeps identities unique if and only if the copied
  identity is not retained yet (`History.EventUnique`); a UTF-8 identity never repeats one. Drawn
  identities are hexadecimal. Results about unique identities say so in their premises; the others hold of
  every run.
- `Append` does not check that a commit reads back, while `Open` does. No commit of a worker is
  affected: every text is validated, drawn, constant or replaced by copying (`Service.ServiceReadable`).
  For other callers of `Append`, a file cut at any byte opens if and only if every text in its complete
  frames was UTF-8 (`Recovery.RecoveryExact`). `Illegible.AppendStray` is a transaction that is accepted
  and closes the journal for good: its job's identity is the byte FF, and its receipt names U+FFFD, the
  identity the job is stored under.
- The browser checks job identities that the reducer does not check. Its demands hold in every run of a
  worker (`Service.ServiceWire`).

## Model

| member | source | states |
|---|---|---|
| `Utf8.ChunkEnd` | internal/core/worker.go:311-315 | the cut of a nonempty valid text is the last character boundary within 16 KiB, is positive, and leaves two valid texts |
| `Utf8.CutValid` | internal/core/worker.go:311-317 | cutting valid UTF-8 at a character start leaves valid UTF-8 on both sides |
| `Utf8.StartNearby` | internal/core/worker.go:313-315 | every position of valid text has a character start at most three bytes before it, so backing up terminates |
| `Utf8.PageOutput` | internal/adapters/mcpbridge/view.go:127-142 | the offset is refused exactly off a boundary; a page is the longest one that ends at a boundary; with four bytes or more it never fails and moves forward |
| `Utf8.ReadAllPages` | internal/adapters/mcpbridge/view.go:127-142 | pages of any sizes of at least four, chained from offset 0, are nonempty, valid and concatenate to exactly the text |
| `Reducer.Reduce` | internal/core/state.go:93-261 | the loop over a transaction's events, each with its record or queue copied, its receipt check and queue check compute the reducer function all other results are about |
| `Reducer.CheckQueue` | internal/core/state.go:236-259 | the commit-edge loop accepts exactly when pending is the queued jobs in acceptance order and active is the one executing job |
| `Reducer.ComputeReserve` | internal/core/state.go:263-283 | the accumulator equals the sum of the per-job reserves plus the fixed part |
| `History.EventKeeps` | internal/core/state.go:111-221 | each accepted event keeps lineage, per-state record shape, limits and UTF-8 texts in every retained record, and only grows the job list |
| `History.StartsInTurn` | internal/core/state.go:176-203 | an accepted lifecycle event starts a job only with the queue not paused, nothing active and that job in front; a result is finished and a state change is not; each is a step of the lifecycle |
| `History.EventUnique` | internal/core/state.go:111-121 | an accepted event keeps identities unique if and only if the copy of a new one is not retained yet, which holds for every UTF-8 identity |
| `History.CommitKeeps` | internal/core/state.go:93-261 | each accepted transaction keeps the whole invariant, including queue and active job, and unique identities if the accepted one is UTF-8 |
| `History.RunsStaySteady` | internal/core/state.go:93-261 | every snapshot any sequence of accepted transactions leads to has the queue and active job its jobs say, within all limits |
| `History.RunsStayConsistent` | internal/core/state.go:93-261 | ... and retains each identity once, if the identities accepted on the way were UTF-8 |
| `History.RunsGrow` | internal/core/state.go:141-211 | between any two points of any run the job list only grows, identity fields never change, text only extends, starts stay, states only move forward and finished jobs are frozen |
| `History.RunProjects` | internal/core/state.go:111-221 | a run's state is the unvalidated projection of its flat event log as copied for clients, so a client that only projects sees the same state |
| `History.RunNumbered` | internal/core/state.go:111-120 | events are numbered 1, 2, 3, ... in one store and the cursor counts them |
| `History.RunTextFromLog` | internal/core/state.go:204-211 | in every run that retains each identity once, each job's text is the concatenation of its output deltas |
| `History.ReceiptsMatchJobs` | internal/core/state.go:222-235 | in every run the k-th receipt belongs to the k-th job, so jobs and receipts are one to one and every receipt's job is retained |
| `Conversation.ParentPrecedes` | internal/core/state.go:148-175 | a job's parent precedes it in the job list and is terminal |
| `Conversation.HistoryIsTranscript` | internal/core/state.go:148-175 | a job's recorded history is the user prompt and nonempty assistant text of every turn before its own, oldest first; retries add none, fresh jobs have none |
| `Conversation.RunHistories` | internal/core/worker.go:222-245 | that holds, with the prompt verbatim, in every snapshot of every run |
| `Conversation.ConversationTurns` | internal/adapters/webui/state.js:24-37 | for any map of retained jobs the walk terminates, because parents precede children, and returns the turns back to the first ancestor not held |
| `Conversation.KeptIsSuffix` | internal/adapters/webui/state.js:20-37 | those turns are the end of the conversation, and all of it while every earlier job is held: shorter, never wrong |
| `Conversation.WholeConversation` | internal/adapters/webui/state.js:24-37 | with every job held, the walk returns exactly the turns the recorded history describes |
| `History.RunShaped` | internal/core/state.go:93-235 | every transaction of every run has version 1 and events, each with a time and exactly the payload of its kind within its limits, and a receipt with a short UTF-8 key and 64 hex digits |
| `Requests.SpaceExact` | internal/core/state.go:44-44 | a text begins with white space exactly if its first character is one of Unicode's white space characters |
| `Requests.TrimSpaceExact` | internal/core/state.go:72-72 | a text is white space, its trimmed text and white space, and the trimmed text neither begins nor ends with white space |
| `Requests.ComposeLoop` | internal/core/state.go:69-77 | the loop over role and system prompt joins the trimmed parts that are not blank, role first, with an empty line between them |
| `Requests.ValidateExact` | internal/core/state.go:43-67 | a request is invalid exactly if it is blank, not UTF-8 or has senseless options or history, and otherwise over the limit exactly if it or its instructions are longer than 1 MiB |
| `Requests.RunRequests` | internal/core/state.go:135-175 | in every snapshot of every run each job was asked for by a valid request of a known origin and time, its text is within the limit, and its system text is the trimmed role, an empty line and the trimmed system prompt, or whichever is not blank |
| `Requests.RetryRepeats` | internal/core/state.go:156-160 | a retry has the request and the instructions of its parent |
| `Commits.LifecycleAccepted` | internal/core/state.go:176-259 | every replacement the worker may make, with the queue it writes beside it, is accepted and leads to the expected snapshot |
| `Commits.DispatchAllowed` | internal/core/worker.go:273-286 | whenever dispatch may run, the first pending job exists, is queued and may be started |
| `Commits.CancelAllowed` | internal/core/worker.go:412-445 | a queued or running job may be cancelled, with the queue the loop leaves |
| `Commits.FinishAllowed` | internal/core/worker.go:339-378 | the active job may be brought to any outcome its state permits |
| `Commits.CreateAccepted` | internal/core/worker.go:253-269 | a screened new job and its receipt are accepted in one transaction |
| `Commits.OutputAccepted` | internal/core/worker.go:311-335 | a chunk at the current byte offset is accepted and appended |
| `Commits.PauseAccepted` | internal/core/worker.go:456-474 | a changed pause flag is accepted and changes nothing else |
| `Commits.LifecycleKeepsFifo` | internal/core/worker.go:273-286 | no started job was accepted after a job that still waits, across every lifecycle transaction |
| `Order.EventOrder` | internal/core/state.go:176-203 | an accepted event keeps acceptance order if and only if it starts no job, one that had started, or one that no waiting job precedes |
| `Order.CommitOrder` | internal/core/state.go:93-261 | with each identity retained once, an accepted transaction keeps acceptance order if and only if it starts no job behind one it leaves waiting, a guard on the snapshot and the events alone |
| `Order.StampedCancelAccepted` | internal/core/state.go:176-203 | the reducer accepts the cancellation of a later waiting job with a start time on its record, which breaks acceptance order |
| `Commits.OvertakingAccepted` | internal/core/state.go:176-221 | the reducer accepts an overtaking start once the queue was rewritten earlier in the same transaction |
| `Reserve.LifecycleLen` | internal/core/state.go:263-291 | a lifecycle transaction encodes to one job record plus at most 2800 bytes, from 64 pending ids of 32 digits, fixed-width times and 20-digit sequences |
| `Reserve.LifecycleAffordable` | internal/core/state.go:263-291 | dispatch, cancel, completion and interruption fit one commit and cost no more than the reserve they release |
| `Steps.DispatchStep` | internal/core/worker.go:273-286 | from every good snapshot the built dispatch is accepted, affordable and leads to a good snapshot |
| `Steps.CancelStep` | internal/core/worker.go:412-445 | the same for cancelling a queued or running job |
| `Steps.FinishStep` | internal/core/worker.go:339-378 | the same for completion and interruption with any metadata within the bound |
| `Steps.CreateStep` | internal/core/worker.go:222-269 | a prepared, validated job with a fresh identity is accepted and leads to a good snapshot |
| `Steps.OutputStep` | internal/core/worker.go:311-335 | a chunk within the limits is accepted, extends that job's text only and leads to a good snapshot |
| `Steps.PauseStep` | internal/core/worker.go:456-474 | pause and resume are accepted and lead to a good snapshot |
| `Steps.PreparedExpected` | internal/core/worker.go:222-245 | the instructions and lineage the worker prepares are the ones the reducer recomputes |
| `Steps.SaneExtended` | internal/core/worker.go:99-127 | a commit that reads back and leads to a good snapshot keeps the whole stored run so, stored or merely tried |
| `Legible.CloneSame` | internal/core/state.go:27-37 | copying a job record of UTF-8 texts changes nothing |
| `Legible.CloneReadable` | internal/core/state.go:134-140 | the copy of any record holds only UTF-8 texts, once its numbers can be encoded |
| `Legible.EventSame` | internal/core/watch.go:79-79 | copying an event of UTF-8 texts changes nothing |
| `Commits.QueueOwn` | internal/core/state.go:101-101 | the queue of every reachable snapshot is its own copy |
| `Legible.CloneLegible` | internal/core/state.go:27-37 | a result copied by encoding and decoding is UTF-8, no larger, and keeps the names and text that were |
| `Storage.NewReadable` | internal/core/worker.go:194-245 | a validated new job holds only UTF-8 texts |
| `Storage.FinishedReadable` | internal/core/worker.go:346-373 | a finished record holds only UTF-8 texts, its metadata having been copied |
| `Storage.LifecycleTame` | internal/core/worker.go:99-113 | every lifecycle transaction reads back after storage and states the queue once |
| `Storage.CreateTame` | internal/core/worker.go:253-269 | so does every create, its receipt included |
| `Frames.WholeRead` | internal/adapters/journal/journal.go:143-176 | a complete frame of a commit that reads back is read as that commit |
| `Frames.TornRead` | internal/adapters/journal/journal.go:143-160 | every proper prefix of a frame is read as a torn tail, never as corruption |
| `Frames.OnlyFramesRead` | internal/adapters/journal/journal.go:143-176 | whatever a file holds, bytes that are read as a commit are exactly the frame of that commit: version, length, both checksums and canonical encoding |
| `Recovery.Open` | internal/adapters/journal/journal.go:129-203 | the scanning loop computes the recovery function, truncates to the end of the last complete frame and reports the tail's length |
| `Recovery.CrashRecovery` | internal/adapters/journal/journal.go:142-198 | every byte prefix of at least the header whose complete frames hold only UTF-8 texts recovers exactly their state, receipts and index |
| `Recovery.RecoveryStable` | internal/adapters/journal/journal.go:188-198 | reopening what such a recovery left gives the same state with no tail |
| `Recovery.UnreadableFails` | internal/adapters/journal/journal.go:205-220 | a complete frame with a text that was not UTF-8 makes every longer prefix unopenable |
| `Recovery.RecoveryExact` | internal/adapters/journal/journal.go:142-220 | a file cut at any byte opens if and only if every text in its complete frames was UTF-8, and then to the run of those frames |
| `Recovery.OpenSound` | internal/adapters/journal/journal.go:129-203 | any bytes that open as a journal are the file of some run of accepted, readable commits with distinct keys, possibly with a torn frame behind it, and exactly that run is recovered |
| `Illegible.TwinsAccepted` | internal/core/state.go:121-176 | two transactions accepted in a row, with different identities that are not UTF-8, leave two jobs under one identity |
| `Illegible.AppendStray` | internal/adapters/journal/journal.go:259-311 | on an empty journal `Append` accepts a transaction whose job identity is not UTF-8 and whose receipt names the stored copy of it, and the file cannot be opened again |
| `Witness.LawfulCodecExists` | internal/adapters/journal/journal.go:205-220 | some codec has every property assumed of marshalling, decoding and SHA-256 |
| `Witness.CommitApart` | internal/adapters/journal/journal.go:205-220 | that codec gives different commits of UTF-8 texts different codes, none longer than the bound on its JSON |
| `Paging.FirstAfter` | internal/adapters/journal/journal.go:329-329 | binary search finds the first record with an event after the cursor |
| `Paging.ReadPage` | internal/adapters/journal/journal.go:325-363 | whatever page is read back from the file is the longest run of events after the cursor within count and byte bounds; its events are their own copies; it fails only for an unreadable or undecodable record |
| `Paging.PageProgress` | internal/adapters/journal/journal.go:348-361 | a page is nonempty whenever history remains |
| `Paging.PagesCoverLog` | internal/adapters/journal/journal.go:312-364 | chained pages hold every event once, in order, and reach the end of the log |
| `Journal.WriteFull` | internal/adapters/journal/journal.go:221-233 | for every device reply, success means all bytes were taken and failure leaves some prefix |
| `Journal.Journal.Open` | internal/adapters/journal/journal.go:125-203 | any prefix of a run's file behind the header opens exactly if the texts in its complete frames were UTF-8, and then gives a valid, unpoisoned journal of those frames |
| `Journal.Journal.Create` | internal/adapters/journal/journal.go:104-124 | a fresh file with a synced header is a valid journal of the empty run |
| `Journal.CursorKnownExact` | internal/core/state.go:293-298 | the known cursors are exactly the one in front of a run and those of its events |
| `Journal.Journal.Append` | internal/adapters/journal/journal.go:259-311 | appended, refused, invalid and failed appends, each with its exact condition: a refusal is due exactly if the record exceeds 16 MiB, a create would pass the admission limit, or record and reserve would pass the hard limit; a refusal changes nothing, a failed write poisons, and size plus reserve stays within the hard limit |
| `Journal.Journal.ReadEvents` | internal/adapters/journal/journal.go:312-364 | exact error conditions; any page returned is the page of the flat log; an unreadable record poisons |
| `Journal.AcknowledgedSurvives` | internal/adapters/journal/journal.go:142-198 | the file of a live journal, failed writes included, cut at any byte, opens exactly if the texts in its complete frames were UTF-8, and then to a prefix of the appended commits and the failed one; with no synced byte lost every appended commit is in it |
| `Worker.PublicError` | internal/core/worker.go:387-408 | exactly the four other classifications reach clients as they are, everything else as a backend failure, and retry advice exactly with availability and failure |
| `Worker.WithinBudget` | internal/adapters/journal/journal.go:286-289 | a transaction the reserve pays for is never refused for size or budget |
| `Worker.Worker.constructor` | internal/core/worker.go:35-66 | from every journal whose run is good the new worker is valid and without disk failure not fatal; a job left executing is recorded as interrupted, and an unpaused queue with waiting work is started |
| `Worker.Worker.Commit` | internal/core/worker.go:99-137 | a built transaction is accepted by worker and journal alike; both states stay equal; only what the reserve does not cover can be refused; other failures poison |
| `Worker.Worker.ScreenExact` | internal/core/worker.go:195-203 | a command is refused before its key is looked up exactly if key, origin or request are unsound |
| `Worker.Worker.PlanExact` | internal/core/worker.go:222-262 | a new command is planned exactly as the one job it asks for if there is room, and refused with each code exactly if that refusal is due: parent missing, unknown or unfinished, request invalid or too long, 64 jobs waiting, 1000 retained, or the record too large |
| `Worker.Worker.Create` | internal/core/worker.go:186-271 | a used key returns its job for an equal digest and a conflict otherwise, commits nothing and does so even with a full queue; a new key gets exactly the refusal that is due, and otherwise, with disk, sequence and budget, the job asked for; every refusal commits nothing |
| `Worker.Worker.CreateScreened` | internal/core/worker.go:213-271 | a fresh key stores exactly the job asked for, the queue with it at the end and its receipt in one transaction; an idle, unpaused worker starts it at once |
| `Worker.Worker.Dispatch` | internal/core/worker.go:273-296 | when allowed, exactly the first pending job is recorded as running since now and active and its call is the one that runs; otherwise nothing changes; afterwards no work is left standing; never stranded without disk failure |
| `Worker.Worker.Emit` | internal/core/worker.go:297-337 | exactly that job's text grows, by a prefix ending at a character boundary; without disk failure and with room, the whole text is kept exactly if text and record stay within their limits, and else output stops at the first chunk that would pass one, with the fault for it; the first failure asks the backend to stop and refuses all later output |
| `Output.AmpleChunk` | internal/core/worker.go:311-335 | room for twenty bytes per byte of text and a thousand more pays for every chunk, however it is escaped, and for the reserve that grows with it |
| `Output.RoomyPrefix` | internal/core/worker.go:318-327 | a job that can take a text can take every beginning of it |
| `Worker.Worker.Complete` | internal/core/worker.go:339-385 | the record differs from the one before only in state, end, fault and metadata, each as the outcome says; a stopping worker then closes its store; any other starts the next waiting job of an unpaused queue |
| `Worker.Worker.Verdict` | internal/core/worker.go:358-373 | interrupted exactly at shutdown, else cancelled exactly when cancelling, else failed exactly after an output or backend failure, the output's first; always an outcome the lifecycle permits |
| `Worker.Worker.CancelJob` | internal/core/worker.go:412-452 | exactly that job becomes cancelled now with the cancellation fault, or cancelling with nothing else changed, finished ones are returned unchanged, a running one has its call asked to stop; always succeeds without disk failure |
| `Worker.Worker.SetQueuePaused` | internal/core/worker.go:456-474 | the flag is set, pausing starts nothing, and resuming starts the first waiting job |
| `Worker.Worker.Shutdown` | internal/core/worker.go:517-552 | the store is closed now exactly when no call runs |
| `Worker.Worker.CloseStore` | internal/core/worker.go:539-552 | the store is closed at most once and only with no call running; a closing error becomes the fault if there is none |
| `Worker.Worker.OneCall` | internal/core/worker.go:273-296 | of the calls launched and not returned there is at most one, the active job's, and the cancel function is set exactly while it runs |
| `Worker.Run` | internal/core/worker.go:186-552 | over every script of actions and every disk outcome of every write: worker and journal agree, no work is left standing, at most one call runs, commits, jobs and receipts are only added to, nothing is appended after closing |
| `Restart.Restart` | internal/core/worker.go:35-66 | the file of any valid worker, cut at any byte behind the header, reopens into a valid worker; with no synced byte lost, no acknowledged commit, job or receipt is lost |
| `Service.Begin` | internal/core/worker.go:35-66 | a fresh journal and a worker over it: the first state of every life, valid and without disk failure not fatal |
| `Service.Life` | internal/core/worker.go:35-552 | any alternation of scripts, crashes at any byte and restarts ends in a valid worker; if the crashes lose only bytes of appends that were not synced, everything acknowledged is still there |
| `Service.PlannedLegible` | internal/core/worker.go:191-248 | a create command that is accepted for a new key holds only UTF-8 texts |
| `Service.Resend` | internal/core/worker.go:204-221 | under a used key the same command gets the same job, any other whose digest does not collide is a conflict, and nothing is committed |
| `Service.CreateOnce` | internal/core/worker.go:186-271 | that holds for every accepted create after any scripts, crashes that lose no synced bytes, restarts and a last script |
| `Service.ServiceReadable` | internal/adapters/journal/journal.go:205-220 | everything a worker stores, or tried to, reads back |
| `Service.ServiceWire` | internal/adapters/webui/state.js:129-142 | every worker's run meets what the browser demands beyond the reducer |
| `Restart.Continues` | internal/core/worker.go:45-47 | a worker over a longer run of the same store retains the earlier one's jobs and receipts |
| `Watch.Stream.constructor` | internal/core/watch.go:30-46 | opened at a known cursor, everything committed so far is to be replayed |
| `Watch.Stream.Push` | internal/core/watch.go:65-83 | a copy is kept exactly if open, below 256 events and within 32 MiB; otherwise closed as a slow consumer |
| `Watch.Stream.Next` | internal/core/watch.go:84-146 | delivers the next log event, ends exactly when closed, and waits only when everything published was delivered |
| `Watch.Stream.EndReplay` | internal/core/watch.go:107-134 | a replayed event is the next one although commits, overflow or closing may have intervened |
| `Watch.Stream.Finish` | internal/core/watch.go:53-64 | the first reason is kept and the backlog dropped |
| `Watch.Interleave` | internal/core/watch.go:30-146 | for every interleaving of commits, publication, reads, read failures, overflow and closing, the delivered events are copies of the log's events after the cursor with no gap, duplicate or reorder, and the backlog stays bounded |
| `Clients.ShowsNext` | clients/python/src/taskworker_client/mirror.py:71-101 | a view equal to the server's state equals the next state after the next event: jobs, texts, byte sizes, queue, cursor |
| `Clients.LoggedFits` | internal/core/state.go:111-221 | in every run that retains each identity once, the copy of every logged event fits the server's state just before it |
| `Clients.DeliveryVerdict` | clients/python/src/taskworker_client/mirror.py:61-70 | a view in sync applies exactly the next event of the run, ignores earlier ones and refuses later ones, and so does the browser |
| `Clients.ForeignRefused` | clients/python/src/taskworker_client/mirror.py:65-66 | both refuse every event of another store |
| `Clients.Mirror.Replace` | clients/python/src/taskworker_client/mirror.py:42-46 | the view becomes the snapshot |
| `Clients.Mirror.Apply` | clients/python/src/taskworker_client/mirror.py:55-101 | exact verdict for every frame; duplicates and refused frames change nothing |
| `Clients.FollowMirror` | clients/python/src/taskworker_client/mirror.py:55-101 | in every run that retains each identity once: from any snapshot, under any delivery with repeats, reconnects and new snapshots, nothing is refused and the view is the server's state, at commit boundaries its snapshot |
| `Clients.CheckJobs` | internal/adapters/webui/state.js:145-149 | the job map is built exactly when all jobs are well shaped and distinct |
| `Clients.Projection.Reset` | internal/adapters/webui/state.js:145-151 | a snapshot is taken exactly when well shaped, fields of another type included, and otherwise changes nothing |
| `Clients.Projection.Event` | internal/adapters/webui/state.js:152-170 | exact verdict for every event, fields of another type included; duplicates and refused events change nothing; whatever arrives, the view stays safe: drawn identities, known states, bounded texts and numbers |
| `Clients.FollowProjection` | internal/adapters/webui/state.js:143-170 | the theorem of `FollowMirror` for the browser, in runs with drawn identities |
| `Clients.RunsWire` | internal/adapters/webui/state.js:137-142 | the browser's extra demands hold in every run whose jobs have drawn identities, each its own, and whose transactions state the queue at most once |
| `Modelfile.TemplateOnly` | internal/adapters/ollama/modelfile.go:20-113 | the loop computes the gate function |
| `Modelfile.ValueBoundary` | internal/adapters/ollama/modelfile.go:115-147 | after a value written by the quote rule, the parser reads that value exactly if it is recoverable, and then stops at the serialiser's boundary |
| `Modelfile.PrefixDecides` | internal/adapters/ollama/modelfile.go:20-113 | a generated prefix is passed exactly when every field is readable, and what follows is judged from the prefix's true end |
| `Modelfile.RendererRefused` | internal/adapters/ollama/modelfile.go:38-44 | a renderer at a command boundary is refused, whatever follows its keyword |
| `Modelfile.MessageRefused` | internal/adapters/ollama/modelfile.go:38-44 | so is a stored message |
| `Modelfile.NoHiddenRenderer` | internal/adapters/ollama/modelfile_ambiguity_test.go:16-65 | a generated Modelfile that holds a renderer is refused for every single-line path, CR-free adapters, template, system and continuation |
| `Modelfile.PlainAccepted` | internal/adapters/ollama/modelfile.go:20-113 | without a renderer the gate accepts exactly the readable prefixes free of NUL |
| `Modelfile.FileAccepted` | internal/adapters/ollama/modelfile.go:20-113 | a generated file with comments, settings and parameters of readable values behind its prefix is accepted exactly if the prefix is readable, parameters are well named and it is free of NUL |
| `Modelfile.NothingElseBehind` | internal/adapters/ollama/modelfile.go:42-93 | behind prefix and readable lines, the next command of an accepted file is LICENSE, PARSER, REQUIRES or PARAMETER |
| `Modelfile.NoSecondPrefix` | internal/adapters/ollama/modelfile_test.go:25-70 | there a message, renderer, FROM, ADAPTER, TEMPLATE or SYSTEM is refused, whatever follows |
| `Modelfile.GateInOrder` | internal/adapters/ollama/modelfile.go:45-113 | the commands of every accepted text are FROM, any adapters, TEMPLATE, SYSTEM exactly if there is a system text, and then only those four |
| `Modelfile.EmptySetting` | internal/adapters/ollama/modelfile.go:94-97 | an empty quoted setting is refused |
| `Modelfile.EmptyParameter` | internal/adapters/ollama/modelfile.go:75-97 | an empty quoted parameter is not |
| `Modelfile.UpperAscii` | internal/adapters/ollama/modelfile.go:38-38 | keywords are recognised in either case |
| `Framing.FilterInput` | internal/adapters/mcpbridge/framing.go:227-297 | for every way the reader splits its input, the handled lines are those of the whole input, oversized exactly beyond the limit; an unfinished line counts only at the end of input |
| `Framing.LinesCover` | internal/adapters/mcpbridge/framing.go:268-294 | lines and remainder make up the input and each line ends at its only break |
| `Framing.Flush` | internal/adapters/mcpbridge/framing.go:233-266 | exactly blank lines are ignored, exactly complete JSON objects and arrays with a sound envelope are forwarded, trimmed and with one break, and exactly invalid JSON is a parse error |
| `Framing.WithdrawnWaits` | internal/adapters/mcpbridge/framing.go:171-196 | only a request in flight can be withdrawn |
| `Framing.Framer.Track` | internal/adapters/mcpbridge/framing.go:171-196 | the two sets are exactly the waiting and the withdrawn ids of the whole trace |
| `Framing.Framer.Write` | internal/adapters/mcpbridge/framing.go:198-218 | a response is dropped exactly when a cancellation arrived while its id waited since its last response; every other message is written unchanged |
| `Framing.Framer.Bounded` | internal/adapters/mcpbridge/framing.go:147-156 | cancelled ids are in flight, and both sets are empty once everything is answered |
| `Codecs.ParseSequence` | internal/core/state.go:301-323 | accepts exactly the canonical decimals up to 2^64-1, with their value and without overflow |
| `Codecs.DecimalOfValue` | internal/adapters/httpapi/codec.go:126-145 | a decimal text without a leading zero is the formatted form of its value |
| `Codecs.ParseCursor` | internal/adapters/httpapi/codec.go:127-145 | accepts exactly the ids of valid cursors and returns the cursor whose id it is |
| `Codecs.CursorIdInjective` | internal/adapters/httpapi/codec.go:126-126 | different cursors have different ids, so parsing inverts formatting |
| `Codecs.ValidEscapes` | internal/adapters/httpapi/codec.go:94-124 | on every JSON text the scan stays in bounds and accepts exactly when each surrogate escape is paired (section 7 of RFC 8259) |

## Left out

- HTTP server and client, SSE transport, command line and service wiring: input and output around the core.
- Ollama discovery, model listing and streaming: a network client; only the Modelfile gate is modelled.
- Directory creation, file locks, directory sync and power loss: a write either succeeds and is synced, or some byte prefix reached the file and the handle is poisoned.
- JSON text and SHA-256: abstract, as described above; encoded lengths are concrete.
- Context cancellation of calls, and the goroutine that bounds them (`call`): the calls themselves are atomic steps.
- The set of observers: one stream is modelled, against a journal that other steps extend; the worker's `clear(observers)` is the stream's `Finish`.
- Random identity failure and the collision of 16 random bytes: a new identity is taken to be unused.
- `Models`, `GetJob` and `Snapshot` reads: they return the state unchanged.
- Job views, tool schemas and fault wording of the bridge; `jsonDepth`, `idProblem` and `messageProblem`: the envelope check is a parameter of `Framing.Flush`.
- Batched JSON-RPC messages and different spellings of one string id: not tracked by the bridge either.
- Sorting, archives, libraries and drafts of the browser state, and the Python client's sockets and deadlines: user interface and transport.
- `Fault.Details`: the worker's faults carry none, and the reducer does not look at them.
- Numbers that cannot be encoded: `Append` refuses such commits while marshalling them, and copying such a value panics; in the model the reducer refuses them.
- Copies leave the store identity of a cursor as it is; it is drawn and hexadecimal.
- Worker.Worker.Commit: one time stamp is used for all events of a transaction, where the code reads the clock once per event; only that it is set and its length matter to the results.
- Worker.Worker.Emit: that output is not refused for the journal's budget is stated for ample room, twenty bytes per byte of text and a thousand more; with less, an answer may be the budget's fault.
- Journal.Journal.Open: stated for files that are prefixes of some run's journal; `Recovery.OpenSound` shows that no other file opens, apart from what follows the last complete frame.
- Service.CreateOnce: crashes that lose synced bytes are excluded; they can lose the receipt with its job.
- Clients.Mirror.Apply: every frame has a cursor, and is a snapshot or an event, because the client hands on no others; an event's own kind that is absent or unknown is `OtherKind`, and a payload field of the wrong JSON type counts as absent, as it does in the code.
- Clients.FollowMirror: requires that the run retains each identity once; a map from identities to jobs cannot hold two of the same.
- Clients.FollowProjection: requires identities of 32 hex digits, because the browser refuses others; `Service.ServiceWire` shows that every worker's run has them.
- Modelfile.NoHiddenRenderer: paths without line breaks and adapters without carriage returns, the values the gate is designed for.
- Codecs.ValidEscapes: stated for byte strings that are JSON texts taken apart at their strings; the decoder that establishes this beforehand is not modelled.
