/** Crash and restart of the whole service: the file of any live worker, cut at any byte, is
    reopened by the journal and taken over by a new worker (internal/core/worker.go,
    internal/adapters/journal/journal.go). */
module Restart {
  import opened Utf8
  import opened Contract
  import opened Reducer
  import opened History
  import opened Frames
  import opened Legible
  import opened Recovery
  import opened Reserve
  import opened Steps
  import opened Journal
  import opened Worker

  /** What reopening demands holds of every cut of a live journal's file. */
  lemma {:induction false} Reopenable(j: Journal, p: nat)
    requires j.Valid() && HEADER_SIZE <= p <= |j.file|
    ensures var all := j.commits + j.attempt;
            && Lawful(j.k) && |j.seed| == 16 && Written(j.k, Hex(j.seed), all) && Budgeted(j.k, Hex(j.seed), all, j.hard)
            && j.file[..p] <= Image(j.k, j.seed, all)
            && (j.size <= p ==> |j.commits| <= WholeFrames(j.k, all, p))
  {
    var k, seed, cs, all := j.k, j.seed, j.commits, j.commits + j.attempt;
    assert Current(k, seed, cs, j.hard, Recovered(j.state, j.receipts, j.records, j.size));
    assert OnDisk(k, seed, cs, j.attempt, j.hard, j.file);
    if j.size <= p {
      ImageLen(k, seed, cs);
      assert all[..|cs|] == cs;
      WholeFramesAtLeast(k, all, p, |cs|);
    }
  }

  /** A worker whose journal continues another's retains its jobs and receipts. */
  lemma {:induction false} Continues(w: Worker, v: Worker)
    requires w.Valid() && v.Valid() && Hex(v.store.seed) == Hex(w.store.seed) && w.store.commits <= v.store.commits
    ensures Grew(w.state.jobs, v.state.jobs)
    ensures forall key | key in w.receipts :: key in v.receipts && v.receipts[key] == w.receipts[key]
  {
    w.store.Meaning();
    v.store.Meaning();
    var cs := v.store.commits;
    assert cs[..|w.store.commits|] == w.store.commits;
    RunsGrow(Hex(v.store.seed), cs, |w.store.commits|);
    ReceiptsPrefix(cs, |w.store.commits|);
    ReceiptsKept(w.receipts, w.store.receipts, w.state.jobs, v.receipts, v.store.receipts, v.state.jobs);
  }

  lemma {:induction false} ReceiptsKept(m: map<Text, Receipt>, rs: seq<Receipt>, a: seq<Job>, n: map<Text, Receipt>, ts: seq<Receipt>, b: seq<Job>)
    requires Ledger(m, rs, a) && Ledger(n, ts, b) && rs <= ts
    ensures forall key | key in m :: key in n && n[key] == m[key]
  {
    assert ReceiptsAgree(m, rs) && ReceiptsAgree(n, ts);
    forall key | key in m ensures key in n && n[key] == m[key] {
      var i :| 0 <= i < |rs| && rs[i].key == key;
      assert ts[i] == rs[i];
    }
  }

  /** Jobs, receipts and commits of an earlier moment are all still there. */
  ghost predicate Inherits(cs: seq<Commit>, jobs: seq<Job>, receipts: map<Text, Receipt>, v: Worker)
    reads v, v.store
  {
    && cs <= v.store.commits && Grew(jobs, v.state.jobs)
    && forall key | key in receipts :: key in v.receipts && v.receipts[key] == receipts[key]
  }

  /** The journal of a worker, cut and opened again. */
  method Reopen(w: Worker, p: nat) returns (j: Journal)
    requires w.Valid() && HEADER_SIZE <= p <= |w.store.file|
    ensures fresh(j) && j.Valid() && !j.closed && !j.poisoned && j.attempt == []
    ensures j.k == w.store.k && j.seed == w.store.seed && Sane(Hex(j.seed), j.commits, [])
    ensures j.state.cursor.sequence <= |Log(w.store.commits + w.store.attempt)|
    ensures j.commits == (w.store.commits + w.store.attempt)[..WholeFrames(j.k, w.store.commits + w.store.attempt, p)]
    ensures w.store.size <= p ==> w.store.commits <= j.commits
  {
    var s := w.store;
    ghost var all := s.commits + s.attempt;
    Reopenable(s, p);
    SaneTame(Hex(s.seed), s.commits, s.attempt);
    DecodablePrefix(all, WholeFrames(s.k, all, p));
    j := Journal.Open(s.k, s.admission, s.hard, s.file[..p], s.seed, all);
    SanePrefix(Hex(s.seed), s.commits, s.attempt, |j.commits|);
    j.LogMeaning();
    LogPrefix(all, |j.commits|);
  }

  /** EVERY CRASH CAN BE RESTARTED FROM. Whatever a worker went through, its file cut at any
      byte behind the header reopens, and the new worker is valid again: the interrupted job is
      closed and dispatch resumes. If no synced byte is lost, no acknowledged commit, job or receipt
      is lost either. */
  method Restart(w: Worker, p: nat, now: Time, at: Time, io0: Io, io1: Io) returns (v: Worker)
    requires w.Valid() && HEADER_SIZE <= p <= |w.store.file| && ClockOk(now) && ClockOk(at)
    ensures fresh(v) && fresh(v.store) && v.Valid() && !v.stopping && v.digest == w.digest
    ensures var all := w.store.commits + w.store.attempt;
            all[..WholeFrames(w.store.k, all, p)] <= v.store.commits
    ensures io0.Smooth? && io1.Smooth? && |Log(w.store.commits + w.store.attempt)| + 4 <= MAX_UINT64 ==> v.fatal.None?
    ensures w.store.size <= p ==> Inherits(w.store.commits, w.state.jobs, w.receipts, v)
  {
    var j := Reopen(w, p);
    v := new Worker(j, w.digest, now, at, io0, io1);
    if w.store.size <= p {
      Continues(w, v);
    }
  }
}
