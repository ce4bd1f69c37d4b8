/** Lineage: what a job's recorded history consists of, and the walk that shows it
    (`conversationTurns` in internal/adapters/webui/state.js). */
module Conversation {
  import opened Utf8
  import opened Contract
  import opened Reducer
  import opened History

  /** The parent of job `i`, which precedes it in the job list. */
  lemma ParentPrecedes(jobs: seq<Job>, i: nat)
    requires Lineaged(jobs) && i < |jobs| && jobs[i].lineage.Some?
    ensures var p := Find(jobs[..i], jobs[i].lineage.value.parentId);
            && 0 <= p < i && jobs[p].id == jobs[i].lineage.value.parentId && Terminal(jobs[p].state)
            && !jobs[i].lineage.value.relation.OtherRelation?
  {
    assert InstructionsChecked(jobs[..i], jobs[i]);
    assert ExpectedInstructions(jobs[..i], jobs[i]).Some?;
  }

  /** The turns of a job's conversation, oldest first: itself after the turns it continues.
      A retry takes the place of the turn it repeats. */
  ghost function Turns(jobs: seq<Job>, i: nat): (ts: seq<Job>)
    requires Lineaged(jobs) && i < |jobs|
    ensures ts != [] && ts[|ts| - 1] == jobs[i]
  {
    if jobs[i].lineage.None? then [jobs[i]]
    else
      ParentPrecedes(jobs, i);
      var before := Turns(jobs, Find(jobs[..i], jobs[i].lineage.value.parentId));
      (if jobs[i].lineage.value.relation.Retry? then before[..|before| - 1] else before) + [jobs[i]]
  }

  /** The user prompt and nonempty assistant text of each turn, in order. */
  function Transcript(ts: seq<Job>): seq<Message> {
    if ts == [] then []
    else
      var init, j := Transcript(ts[..|ts| - 1]), ts[|ts| - 1];
      if j.result.text == [] then init + [Message(User, j.instructions.prompt)]
      else init + [Message(User, j.instructions.prompt), Message(Assistant, j.result.text)]
  }

  /** HISTORY IS THE CONVERSATION. A job's recorded history is exactly the transcript of the
      turns before its own: empty for a fresh job, unchanged by a retry, and one turn longer
      for a branch. */
  lemma {:induction false} HistoryIsTranscript(jobs: seq<Job>, i: nat)
    requires Lineaged(jobs) && i < |jobs|
    ensures var ts := Turns(jobs, i);
            jobs[i].instructions.history == Transcript(ts[..|ts| - 1])
  {
    assert InstructionsChecked(jobs[..i], jobs[i]);
    assert ExpectedInstructions(jobs[..i], jobs[i]) == Some(jobs[i].instructions);
    var ts := Turns(jobs, i);
    if jobs[i].lineage.Some? {
      ParentPrecedes(jobs, i);
      var p := Find(jobs[..i], jobs[i].lineage.value.parentId);
      var before := Turns(jobs, p);
      HistoryIsTranscript(jobs, p);
      if jobs[i].lineage.value.relation.Retry? {
        assert ts[..|ts| - 1] == before[..|before| - 1];
      } else {
        assert ts[..|ts| - 1] == before;
      }
    }
  }

  /** The recorded prompt is the requested one, verbatim. */
  lemma {:induction false} PromptVerbatim(jobs: seq<Job>, i: nat)
    requires Lineaged(jobs) && i < |jobs|
    ensures jobs[i].instructions.prompt == jobs[i].request.prompt
  {
    assert InstructionsChecked(jobs[..i], jobs[i]);
    assert ExpectedInstructions(jobs[..i], jobs[i]) == Some(jobs[i].instructions);
    if jobs[i].lineage.Some? {
      ParentPrecedes(jobs, i);
      PromptVerbatim(jobs, Find(jobs[..i], jobs[i].lineage.value.parentId));
    }
  }

  /** Both hold in every snapshot any run leads to. */
  lemma RunHistories(storeId: Id, cs: seq<Commit>, i: nat)
    requires Replay(EmptySnapshot(storeId), cs).Some? && i < |Replay(EmptySnapshot(storeId), cs).value.jobs|
    ensures var jobs := Replay(EmptySnapshot(storeId), cs).value.jobs;
            && Lineaged(jobs)
            && (var ts := Turns(jobs, i); jobs[i].instructions.history == Transcript(ts[..|ts| - 1]))
            && jobs[i].instructions.prompt == jobs[i].request.prompt
  {
    RunsStaySteady(storeId, cs);
    var jobs := Replay(EmptySnapshot(storeId), cs).value.jobs;
    HistoryIsTranscript(jobs, i);
    PromptVerbatim(jobs, i);
  }

  // ---- the walk ----

  /** The client's map holds exactly the listed jobs. */
  ghost predicate Indexed(m: map<Id, Job>, jobs: seq<Job>) {
    && UniqueIds(jobs)
    && (forall i | 0 <= i < |jobs| :: jobs[i].id in m && m[jobs[i].id] == jobs[i])
    && (forall id | id in m :: Find(jobs, id) >= 0)
  }

  function Reversed(ts: seq<Job>): seq<Job> {
    if ts == [] then [] else [ts[|ts| - 1]] + Reversed(ts[..|ts| - 1])
  }

  lemma ReversedPush(ts: seq<Job>, j: Job)
    ensures Reversed(ts + [j]) == [j] + Reversed(ts)
  {
    assert (ts + [j])[..|ts|] == ts;
  }

  /** The client's map holds some of the listed jobs. */
  ghost predicate Holds(m: map<Id, Job>, jobs: seq<Job>) {
    UniqueIds(jobs) && forall id | id in m :: Find(jobs, id) >= 0 && m[id] == jobs[Find(jobs, id)]
  }

  /** The parent of job `i`, if it has one that is still held. */
  ghost function HeldParent(held: set<Id>, jobs: seq<Job>, i: nat): (p: Option<nat>)
    requires Lineaged(jobs) && i < |jobs|
    ensures p.Some? ==> p.value < i && jobs[i].lineage.Some? && jobs[p.value].id == jobs[i].lineage.value.parentId
    ensures p.Some? <==> jobs[i].lineage.Some? && jobs[i].lineage.value.parentId in held
  {
    if jobs[i].lineage.None? || jobs[i].lineage.value.parentId !in held then None
    else
      ParentPrecedes(jobs, i);
      Some(Find(jobs[..i], jobs[i].lineage.value.parentId))
  }

  /** The turns of a conversation that can still be shown: back to the first ancestor that is
      not held any more. */
  ghost function Kept(held: set<Id>, jobs: seq<Job>, i: nat): (ts: seq<Job>)
    requires Lineaged(jobs) && i < |jobs|
    ensures ts != [] && ts[|ts| - 1] == jobs[i]
  {
    var p := HeldParent(held, jobs, i);
    if p.None? then [jobs[i]]
    else
      var before := Kept(held, jobs, p.value);
      (if jobs[i].lineage.value.relation.Retry? then before[..|before| - 1] else before) + [jobs[i]]
  }

  /** A turn whose parent is not held is shown alone. */
  lemma {:induction false} KeptAlone(held: set<Id>, jobs: seq<Job>, i: nat)
    requires Lineaged(jobs) && i < |jobs| && HeldParent(held, jobs, i).None?
    ensures var ts := Turns(jobs, i);
            Kept(held, jobs, i) == ts[|ts| - 1..] && (jobs[i].lineage.None? ==> |ts| == 1)
  {
    var ts := Turns(jobs, i);
    assert ts[|ts| - 1..] == [jobs[i]];
  }

  /** What a turn adds to its parent's turns. */
  function Behind(before: seq<Job>, j: Job, retry: bool): seq<Job>
    requires before != []
  {
    (if retry then before[..|before| - 1] else before) + [j]
  }

  lemma {:induction false} TurnsBehind(held: set<Id>, jobs: seq<Job>, i: nat)
    requires Lineaged(jobs) && i < |jobs| && HeldParent(held, jobs, i).Some?
    ensures var q := HeldParent(held, jobs, i).value;
            && Turns(jobs, i) == Behind(Turns(jobs, q), jobs[i], jobs[i].lineage.value.relation.Retry?)
            && Kept(held, jobs, i) == Behind(Kept(held, jobs, q), jobs[i], jobs[i].lineage.value.relation.Retry?)
  {
  }

  /** A turn whose parent is held is shown behind what is shown of its parent. */
  lemma {:induction false} KeptBehind(held: set<Id>, jobs: seq<Job>, i: nat, n: nat)
    requires Lineaged(jobs) && i < |jobs| && HeldParent(held, jobs, i).Some?
    requires var q := HeldParent(held, jobs, i).value;
             n < |Turns(jobs, q)| && Kept(held, jobs, q) == Turns(jobs, q)[n..]
    ensures n < |Turns(jobs, i)| && Kept(held, jobs, i) == Turns(jobs, i)[n..]
  {
    TurnsBehind(held, jobs, i);
    SuffixBehind(Turns(jobs, HeldParent(held, jobs, i).value), n, jobs[i], jobs[i].lineage.value.relation.Retry?);
  }

  /** SHORTER, NEVER WRONG. What can be shown is the end of the conversation, and all of it while
      every job is held. */
  lemma {:induction false} KeptIsSuffix(held: set<Id>, jobs: seq<Job>, i: nat) returns (n: nat)
    requires Lineaged(jobs) && i < |jobs|
    ensures n < |Turns(jobs, i)| && Kept(held, jobs, i) == Turns(jobs, i)[n..]
    ensures (forall k | 0 <= k < i :: jobs[k].id in held) ==> n == 0
  {
    var p := HeldParent(held, jobs, i);
    if p.Some? {
      n := KeptIsSuffix(held, jobs, p.value);
      KeptBehind(held, jobs, i, n);
    } else {
      if jobs[i].lineage.Some? {
        ParentPrecedes(jobs, i);
      }
      KeptAlone(held, jobs, i);
      n := |Turns(jobs, i)| - 1;
    }
  }

  lemma {:induction false} SuffixBehind(ts: seq<Job>, n: nat, j: Job, retry: bool)
    requires n < |ts|
    ensures n < |Behind(ts, j, retry)| && Behind(ts[n..], j, retry) == Behind(ts, j, retry)[n..]
  {
  }

  /** The walk started at job `i` has reached job `p`, with `walked` in the turns' reverse order. */
  ghost predicate Reached(held: set<Id>, jobs: seq<Job>, i: nat, p: nat, walked: seq<Job>) {
    && p < |jobs| && i < |jobs| && Lineaged(jobs)
    && Kept(held, jobs, i) == Kept(held, jobs, p)[..|Kept(held, jobs, p)| - 1] + Reversed(walked)
  }

  /** `Reached`, kept folded. */
  ghost predicate At(held: set<Id>, jobs: seq<Job>, i: nat, p: nat, walked: seq<Job>) {
    forall q {:trigger Reached(held, jobs, i, q, walked)} | q == p :: Reached(held, jobs, i, q, walked)
  }

  lemma WalkStarts(held: set<Id>, jobs: seq<Job>, i: nat)
    requires Lineaged(jobs) && i < |jobs|
    ensures At(held, jobs, i, i, [jobs[i]])
  {
    ReversedPush([], jobs[i]);
    assert [] + [jobs[i]] == [jobs[i]];
    assert Reached(held, jobs, i, i, [jobs[i]]);
  }

  /** The turns before job `p`'s own are those before its parent's and, for a branch, the
      parent's. */
  lemma StepBack(held: set<Id>, jobs: seq<Job>, p: nat)
    requires Lineaged(jobs) && p < |jobs| && HeldParent(held, jobs, p).Some?
    ensures var q := HeldParent(held, jobs, p).value;
            var a, b := Kept(held, jobs, p), Kept(held, jobs, q);
            a[..|a| - 1] == b[..|b| - 1] + (if jobs[p].lineage.value.relation.Retry? then [] else [jobs[q]])
  {
  }

  /** One step back: a retry is stepped through, a branch adds its parent's turn. */
  lemma WalkSteps(held: set<Id>, jobs: seq<Job>, i: nat, p: nat, walked: seq<Job>)
    requires At(held, jobs, i, p, walked) && Lineaged(jobs) && p < |jobs| && HeldParent(held, jobs, p).Some?
    ensures var q := HeldParent(held, jobs, p).value;
            At(held, jobs, i, q, if jobs[p].lineage.value.relation.Retry? then walked else walked + [jobs[q]])
  {
    assert Reached(held, jobs, i, p, walked);
    StepBack(held, jobs, p);
    var q := HeldParent(held, jobs, p).value;
    var b := Kept(held, jobs, q);
    Shifted(b[..|b| - 1], walked, jobs[q]);
    if jobs[p].lineage.value.relation.Retry? {
      assert Kept(held, jobs, i) == b[..|b| - 1] + [] + Reversed(walked);
      assert Reached(held, jobs, i, q, walked);
    } else {
      assert Reached(held, jobs, i, q, walked + [jobs[q]]);
    }
  }

  lemma {:induction false} Shifted(ts: seq<Job>, walked: seq<Job>, j: Job)
    ensures ts + [j] + Reversed(walked) == ts + Reversed(walked + [j])
    ensures ts + [] == ts
  {
    ReversedPush(walked, j);
  }

  lemma WalkEnds(held: set<Id>, jobs: seq<Job>, i: nat, p: nat, walked: seq<Job>)
    requires At(held, jobs, i, p, walked) && Lineaged(jobs) && p < |jobs| && i < |jobs| && HeldParent(held, jobs, p).None?
    ensures Kept(held, jobs, i) == Reversed(walked)
  {
    assert Reached(held, jobs, i, p, walked);
  }

  /** The walk terminates, because parents precede their children, and returns the turns back to
      the first ancestor the map does not hold. */
  method ConversationTurns(m: map<Id, Job>, start: Id, ghost jobs: seq<Job>) returns (turns: seq<Job>)
    requires Lineaged(jobs) && Holds(m, jobs)
    ensures start !in m ==> turns == []
    ensures start in m ==> Find(jobs, start) >= 0 && turns == Kept(m.Keys, jobs, Find(jobs, start))
  {
    if start !in m {
      return [];
    }
    var cursor, walked := m[start], [m[start]];
    ghost var i, p := Find(jobs, start), Find(jobs, start);
    WalkStarts(m.Keys, jobs, i);
    while cursor.lineage.Some?
      invariant 0 <= p < |jobs| && cursor == jobs[p]
      invariant At(m.Keys, jobs, i, p, walked)
      decreases p
    {
      if cursor.lineage.value.parentId !in m {
        break;
      }
      WalkSteps(m.Keys, jobs, i, p, walked);
      p := HeldParent(m.Keys, jobs, p).value;
      var parent := m[cursor.lineage.value.parentId];
      assert parent == jobs[p];
      if !cursor.lineage.value.relation.Retry? {
        walked := walked + [parent];
      }
      cursor := parent;
    }
    WalkEnds(m.Keys, jobs, i, p, walked);
    turns := Reversed(walked);
  }

  /** A client that holds every job shows the whole conversation the recorded history describes. */
  method WholeConversation(m: map<Id, Job>, start: Id, ghost jobs: seq<Job>) returns (turns: seq<Job>)
    requires Lineaged(jobs) && Indexed(m, jobs) && start in m
    ensures Find(jobs, start) >= 0 && turns == Turns(jobs, Find(jobs, start))
  {
    IndexedHolds(m, jobs);
    turns := ConversationTurns(m, start, jobs);
    ghost var n := KeptIsSuffix(m.Keys, jobs, Find(jobs, start));
  }

  lemma {:induction false} IndexedHolds(m: map<Id, Job>, jobs: seq<Job>)
    requires Indexed(m, jobs)
    ensures Holds(m, jobs) && forall k | 0 <= k < |jobs| :: jobs[k].id in m.Keys
  {
    forall id | id in m ensures m[id] == jobs[Find(jobs, id)] {
      assert jobs[Find(jobs, id)].id in m;
    }
  }
}
