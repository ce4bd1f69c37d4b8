/** The service over its whole life: a first start on an empty directory, scripts of actions,
    crashes and restarts (internal/core/worker.go, internal/adapters/journal/journal.go). */
module Service {
  import opened Utf8
  import opened Contract
  import opened Reducer
  import opened History
  import opened Frames
  import opened Recovery
  import opened Commits
  import opened Legible
  import opened Reserve
  import opened Storage
  import opened Steps
  import opened Orders
  import opened Journal
  import opened Worker
  import opened Restart
  import opened Clients

  /** THE FIRST START. A fresh journal and a worker over it: the initial state of every life. */
  method Begin(k: Codec, seed: Text, digest: Command -> Text, now: Time, at: Time, header: Io, io0: Io, io1: Io)
    returns (w: Worker?)
    requires Lawful(k) && |seed| == 16
    requires Worker.Digests(digest) && ClockOk(now) && ClockOk(at)
    ensures w != null ==> fresh(w) && fresh(w.store) && w.Valid() && !w.stopping && w.digest == digest
    ensures header.Smooth? ==> w != null
    ensures header.Smooth? && io0.Smooth? && io1.Smooth? ==> w.fatal.None?
  {
    var j := Journal.Create(k, ADMISSION_BYTES, HARD_BYTES, seed, header);
    if j == null {
      return null;
    }
    EmptySane(Hex(seed));
    j.LogMeaning();
    w := new Worker(j, digest, now, at, io0, io1);
  }

  lemma EmptySane(storeId: Id)
    requires HexId(storeId)
    ensures Sane(storeId, [], [])
  {
    EmptyGood(storeId);
    var none: seq<Commit> := [];
    assert none + none == none;
    forall n | 0 <= n <= |none| ensures none[..n] == none {}
  }

  // ---- lives ----

  /** What a crash does to the file: bytes of an append that failed to sync may be lost, or, if the
      device breaks its promise, any bytes at the end. */
  datatype Loss = Unsynced(bytes: nat) | Any(bytes: nat)

  /** A script of actions, then a crash. */
  datatype Round = Round(script: seq<Action>, loss: Loss)

  /** How much of the file is left: at least the header, which was synced before anything else. */
  function Left(size: nat, synced: nat, loss: Loss): nat {
    var least := if loss.Unsynced? then synced else HEADER_SIZE;
    if size < least + loss.bytes then least else size - loss.bytes
  }

  /** Clock and disk of a life: by round, action and write. */
  datatype World = World(clock: (nat, nat) -> Time, disk: (nat, nat, nat) -> Io, boot: (nat, nat) -> Io)

  ghost predicate Ticking(world: World) { forall i, n :: ClockOk(world.clock(i, n)) }

  lemma FileHolds(w: Worker)
    requires w.Valid()
    ensures HEADER_SIZE <= w.store.size <= |w.store.file|
  {
    var j := w.store;
    assert Current(j.k, j.seed, j.commits, j.hard, Recovered(j.state, j.receipts, j.records, j.size));
    assert OnDisk(j.k, j.seed, j.commits, j.attempt, j.hard, j.file);
    ImageLen(j.k, j.seed, j.commits);
    HeaderFits(j.k, j.commits);
  }

  /** One script, one crash, one restart. */
  method Live(w: Worker, r: Round, world: World, i: nat) returns (v: Worker)
    requires w.Valid() && Ticking(world)
    modifies w, w.store
    ensures fresh(v) && fresh(v.store) && v.Valid() && v.digest == w.digest
    ensures r.loss.Unsynced? ==> Inherits(old(w.store.commits), old(w.state.jobs), old(w.receipts), v)
  {
    Run(w, r.script, (n: nat) => world.clock(i, n), (n: nat, k: nat) => world.disk(i, n, k));
    FileHolds(w);
    ghost var commits, jobs, receipts := w.store.commits, w.state.jobs, w.receipts;
    v := Restart.Restart(w, Left(|w.store.file|, w.store.size, r.loss), world.clock(i, 0), world.clock(i, 0), world.boot(i, 0), world.boot(i, 1));
    if r.loss.Unsynced? {
      GrewTransitive(old(w.state.jobs), jobs, v.state.jobs);
    }
  }

  /** A WHOLE LIFE. Any alternation of scripts, crashes at any byte and restarts ends in a valid
      worker; if the crashes lose no synced bytes, every commit, job and receipt of the beginning
      is still there at the end. */
  method Life(w: Worker, rounds: seq<Round>, world: World) returns (v: Worker)
    requires w.Valid() && Ticking(world)
    modifies w, w.store
    ensures v.Valid() && v.digest == w.digest
    ensures rounds != [] ==> fresh(v) && fresh(v.store)
    ensures rounds == [] ==> v == w
    ensures (forall i | 0 <= i < |rounds| :: rounds[i].loss.Unsynced?) ==>
              Inherits(old(w.store.commits), old(w.state.jobs), old(w.receipts), v)
  {
    v := w;
    GrewReflexive(w.state.jobs);
    for i := 0 to |rounds|
      invariant v.Valid() && v.digest == w.digest
      invariant i > 0 ==> fresh(v) && fresh(v.store)
      invariant i == 0 ==> v == w
      invariant (forall k | 0 <= k < i :: rounds[k].loss.Unsynced?) ==>
                  Inherits(old(w.store.commits), old(w.state.jobs), old(w.receipts), v)
    {
      ghost var jobs := v.state.jobs;
      v := Live(v, rounds[i], world, i);
      if forall k | 0 <= k < i + 1 :: rounds[k].loss.Unsynced? {
        GrewTransitive(old(w.state.jobs), jobs, v.state.jobs);
      }
    }
  }

  // ---- idempotent creates ----

  /** All texts of the command are UTF-8. */
  predicate LegibleCommand(c: Command) { Wellformed(c.parent) && Wellformed(c.origin) && LegibleRequest(c.request) }

  /** The SHA-256 of their canonical encodings does not collide. A command of UTF-8 texts has an
      encoding of its own (in any other the encoder writes an escape that no UTF-8 text does). */
  ghost predicate NoCollision(digest: Command -> Text, a: Command, b: Command) {
    LegibleCommand(a) && digest(a) == digest(b) ==> a == b
  }

  /** What the three entry points can pass: no parent for a new job, no request for a retry. */
  predicate Issued(c: Command) {
    && (c.op.Submit? ==> c.parent == [])
    && (c.op.RetryOf? ==> c.request == Request([], [], [], [], GenerationOptions(None, 0, None, None)))
  }

  lemma {:induction false} ScreenedLegible(c: Command, key: Text)
    requires Issued(c) && Worker.Screened(c, key)
    ensures Wellformed(c.origin) && LegibleRequest(c.request)
  {
    assert Worker.Screen(c, key).None?;
    EmptyWellformed();
    if !c.op.RetryOf? {
      ValidatedLegible(c.request, Compose(c.request));
    }
  }

  lemma {:induction false} ParentRetained(s: Snapshot, c: Command, id: Id, now: Time, j: Job)
    requires Admits(s, c, id, now, j) && c.parent != []
    ensures Find(s.jobs, c.parent) >= 0
  {
    assert Admitted(s, c, id, now, j);
    var p :| Orders.Continues(s.jobs, c, j, p);
    assert s.jobs[p].id == c.parent;
  }

  /** A command that was screened and admitted is UTF-8. */
  lemma {:induction false} PlannedLegible(s: Snapshot, c: Command, key: Text, id: Id, now: Time, j: Job)
    requires Good(s) && Issued(c) && Worker.Screened(c, key) && Admits(s, c, id, now, j)
    ensures LegibleCommand(c)
  {
    ScreenedLegible(c, key);
    EmptyWellformed();
    if c.parent != [] {
      ParentRetained(s, c, id, now, j);
      assert Consistent(s);
      assert HexId(s.jobs[Find(s.jobs, c.parent)].id);
      HexWellformed(c.parent);
    }
  }

  /** A create command resent under its key gets the same job and changes nothing, and another
      command under that key is a conflict. */
  method Resend(v: Worker, cmd: Command, other: Command, key: Text, draw: Id, t: Time, io0: Io, io1: Io)
    returns (again: Reply, clash: Reply)
    requires v.Valid() && v.Available().None? && ClockOk(t) && HexId(draw) && NoCollision(v.digest, cmd, other)
    requires Worker.Screened(cmd, key) && Worker.Screened(other, key) && LegibleCommand(cmd)
    requires (cmd.op.Submit? ==> cmd.parent == []) && (other.op.Submit? ==> other.parent == [])
    requires key in v.receipts && v.receipts[key].digest == v.digest(cmd)
    modifies v, v.store
    ensures v.Valid() && v.Available().None? && v.state == old(v.state) && v.store.commits == old(v.store.commits)
    ensures again.Accepted? && again.job.id == old(v.receipts)[key].jobId
    ensures other != cmd ==> clash == Error(Conflict)
  {
    again := v.Create(cmd, key, draw, t, t, io0, io1);
    clash := v.Create(other, key, draw, t, t, io0, io1);
  }

  /** The first use of a key: what was accepted is UTF-8. */
  method CreateFirst(w: Worker, cmd: Command, key: Text, id: Id, t: Time, io0: Io, io1: Io) returns (r: Reply)
    requires w.Valid() && ClockOk(t) && HexId(id) && (key !in w.receipts ==> !Retains(w.state.jobs, id))
    requires Issued(cmd) && (key in w.receipts ==> LegibleCommand(cmd))
    modifies w, w.store
    ensures w.Valid()
    ensures r.Accepted? ==>
              && LegibleCommand(cmd) && Worker.Screened(cmd, key)
              && key in w.receipts && w.receipts[key].digest == w.digest(cmd) && w.receipts[key].jobId == r.job.id
  {
    ghost var before := w.state;
    ghost var isNew := key !in w.receipts;
    r := w.Create(cmd, key, id, t, t, io0, io1);
    if r.Accepted? && isNew {
      var j :| Admits(before, cmd, id, t, j);
      PlannedLegible(before, cmd, key, id, t, j);
    }
  }

  /** A life without lost synced bytes, and a last script. */
  method Later(w: Worker, rounds: seq<Round>, last: seq<Action>, world: World) returns (v: Worker)
    requires w.Valid() && Ticking(world) && forall i | 0 <= i < |rounds| :: rounds[i].loss.Unsynced?
    modifies w, w.store
    ensures v.Valid() && v.digest == w.digest && (v != w ==> fresh(v)) && (v.store != w.store ==> fresh(v.store))
    ensures Inherits(old(w.store.commits), old(w.state.jobs), old(w.receipts), v)
  {
    v := Life(w, rounds, world);
    ghost var jobs := v.state.jobs;
    Run(v, last, (n: nat) => world.clock(|rounds|, n), (n: nat, k: nat) => world.disk(|rounds|, n, k));
    GrewTransitive(old(w.state.jobs), jobs, v.state.jobs);
  }

  /** IDEMPOTENT CREATES OVER A WHOLE LIFE. Once a create command is accepted, then after any
      scripts, crashes that lose no synced bytes, restarts and a last script, resending it returns the
      same job and commits nothing, and any other command under its key is a conflict, as long
      as the worker then accepts commands at all. */
  method CreateOnce(w: Worker, cmd: Command, other: Command, key: Text, id: Id, draw: Id, t: Time, io0: Io, io1: Io,
                    rounds: seq<Round>, last: seq<Action>, world: World)
    returns (first: Reply, v: Worker, asked: bool, again: Reply, clash: Reply, ghost quiet: bool)
    requires w.Valid() && ClockOk(t) && Ticking(world) && NoCollision(w.digest, cmd, other)
    requires HexId(id) && HexId(draw) && (key !in w.receipts ==> !Retains(w.state.jobs, id))
    requires Issued(cmd) && Issued(other) && (key in w.receipts ==> LegibleCommand(cmd))
    requires forall i | 0 <= i < |rounds| :: rounds[i].loss.Unsynced?
    modifies w, w.store
    ensures v.Valid()
    ensures asked <==> first.Accepted? && v.Available().None? && Worker.Screened(other, key)
    ensures asked ==> again.Accepted? && again.job.id == first.job.id && quiet
    ensures asked && other != cmd ==> clash == Error(Conflict)
  {
    first := CreateFirst(w, cmd, key, id, t, io0, io1);
    v := Later(w, rounds, last, world);
    asked, again, clash, quiet := false, first, first, true;
    if first.Accepted? && v.Available().None? && Worker.Screened(other, key) {
      ghost var commits := v.store.commits;
      asked := true;
      again, clash := Resend(v, cmd, other, key, draw, t, io0, io1);
      quiet := v.store.commits == commits;
    }
  }

  // ---- what a life's journal is to others ----

  /** THE BROWSER CAN FOLLOW EVERY SERVICE. A worker's transactions state the queue at most once
      and its jobs have drawn identities, so its whole run meets the browser's demands. */
  lemma {:induction false} ServiceWire(w: Worker)
    requires w.Valid()
    ensures WireRun(Hex(w.store.seed), w.store.commits)
  {
    var j := w.store;
    var storeId, cs := Hex(j.seed), j.commits;
    j.Meaning();
    j.LogMeaning();
    SaneTame(storeId, cs, j.attempt);
    assert Consistent(w.state);
    forall c | c in cs ensures OneQueue(c.events) {
      assert c in cs + j.attempt;
    }
    RunsWire(storeId, cs);
  }

  /** EVERYTHING A SERVICE STORES CAN BE READ BACK, including a transaction whose write failed. */
  lemma {:induction false} ServiceReadable(w: Worker)
    requires w.Valid()
    ensures AllDecodable(w.store.commits + w.store.attempt)
  {
    SaneTame(Hex(w.store.seed), w.store.commits, w.store.attempt);
  }
}
