/** Event streams (internal/core/watch.go): history is replayed from the store up to the
    boundary fixed at opening, then a bounded queue takes over that commits fill meanwhile.
    Every lock region is one method, so the methods may interleave in any order. */
module Watch {
  import opened Utf8
  import opened Contract
  import opened Legible
  import opened Reducer
  import opened History
  import opened Frames
  import opened Recovery
  import opened Paging
  import opened Journal

  datatype Backlogged = Backlogged(event: Event, size: nat)

  function Offered(q: seq<Backlogged>): (es: seq<Event>)
    ensures |es| == |q|
  {
    seq(|q|, i requires 0 <= i < |q| => q[i].event)
  }

  function Bytes(q: seq<Backlogged>): nat {
    if q == [] then 0 else q[0].size + Bytes(q[1..])
  }

  lemma {:induction false} BytesAppend(q: seq<Backlogged>, x: Backlogged)
    ensures Bytes(q + [x]) == Bytes(q) + x.size
    decreases |q|
  {
    if q == [] {
      assert q + [x] == [x];
      assert [x][1..] == [];
    } else {
      assert (q + [x])[1..] == q[1..] + [x];
      BytesAppend(q[1..], x);
    }
  }

  lemma {:induction false} OfferedAppend(q: seq<Backlogged>, x: Backlogged)
    ensures Offered(q + [x]) == Offered(q) + [x.event]
  {
  }

  lemma {:induction false} SliceMore(log: seq<Event>, a: nat, b: nat)
    requires a <= b < |log|
    ensures log[a..b] + [log[b]] == log[a..b + 1]
  {
  }

  /** What one turn of the consumer's loop decides under the stream's lock. */
  datatype Turn = Ended(err: Option<ErrorCode>) | ReadStore(after: Cursor) | Deliver(event: Event) | Wait

  /** What a replay read hands to the consumer. */
  datatype Replayed = Stored(event: Event) | Gap

  class Stream {
    const through: nat
    var cursor: Cursor
    var queue: seq<Backlogged>
    var bytes: int
    var closed: bool
    var err: Option<ErrorCode>
    ghost const start: nat
    ghost const storeId: Id
    /** Everything the consumer was given. */
    ghost var delivered: seq<Event>
    /** How many events of the log were offered to this stream or precede it. */
    ghost var published: nat
    /** The consumer is between its two lock regions, with a store read under way. */
    var reading: bool

    /** The next event to take from the queue follows both replay and what was consumed. */
    function Live(): nat
      reads this
    {
      if cursor.sequence < through then through else cursor.sequence
    }

    /** The stream relative to the committed log, as its copies read. */
    ghost predicate Valid(log: seq<Event>)
      reads this
    {
      && Numbered(log, storeId, 0)
      && cursor.storeId == storeId && start <= cursor.sequence && through <= published <= |log|
      && cursor.sequence <= published
      && delivered == log[start..cursor.sequence]
      && (closed ==> queue == [])
      && (!closed ==> err.None? && Offered(queue) == log[Live()..published])
      && (reading ==> cursor.sequence < through)
      && |queue| <= MAX_OBSERVER_EVENTS && bytes == Bytes(queue) <= MAX_OBSERVER_BYTES
    }

    /** `watch`: opened at a known cursor, with everything committed so far to be replayed. */
    constructor (after: Cursor, end: Cursor, ghost log: seq<Event>)
      requires Numbered(log, end.storeId, 0) && end.sequence == |log| && CursorKnown(after, end)
      ensures Valid(log) && storeId == end.storeId && !closed && !reading && delivered == [] && cursor == after
      ensures start == after.sequence && through == published == |log|
    {
      cursor, through, queue, bytes, closed, err := after, end.sequence, [], 0, false, None;
      start, storeId, delivered, published, reading := after.sequence, end.storeId, [], end.sequence, false;
    }

    /** A longer log changes nothing until it is published. */
    lemma LogGrows(log: seq<Event>, more: seq<Event>)
      requires Valid(log) && log <= more && Numbered(more, storeId, 0)
      ensures Valid(more)
    {
      assert log[start..cursor.sequence] == more[start..cursor.sequence];
      assert !closed ==> log[Live()..published] == more[Live()..published];
    }

    /** The commit's publisher offers the next event, which is copied; false detaches the stream. */
    method Push(e: Event, size: nat, ghost log: seq<Event>)
      returns (kept: bool)
      requires Valid(log) && published < |log| && CloneEvent(e) == log[published]
      modifies this
      ensures Valid(log) && published == old(published) + 1
      ensures cursor == old(cursor) && delivered == old(delivered) && reading == old(reading)
      ensures kept <==> !closed
      ensures kept <==> old(!closed && |queue| < MAX_OBSERVER_EVENTS && size <= MAX_OBSERVER_BYTES - bytes)
      ensures old(closed) ==> err == old(err)
      ensures !kept && !old(closed) ==> err == Some(SlowConsumer)
    {
      published := published + 1;
      if closed {
        return false;
      }
      if |queue| >= MAX_OBSERVER_EVENTS || size > MAX_OBSERVER_BYTES - bytes {
        closed, err, queue, bytes := true, Some(SlowConsumer), [], 0;
        return false;
      }
      var q := Backlogged(CloneEvent(e), size);
      BytesAppend(queue, q);
      OfferedAppend(queue, q);
      SliceMore(log, Live(), published - 1);
      queue, bytes := queue + [q], bytes + size;
      return true;
    }

    /** One turn of `Next`: an end, a store read to make, a queued event, or a wait. A waiting
        consumer has been given everything that was published. */
    method Next(ghost log: seq<Event>) returns (t: Turn)
      requires Valid(log) && !reading
      modifies this
      ensures Valid(log) && published == old(published) && closed == old(closed) && err == old(err)
      ensures t.Ended? <==> closed
      ensures t.Ended? ==> t.err == err
      ensures t.ReadStore? <==> !closed && old(cursor.sequence) < through
      ensures t.ReadStore? ==> t.after == cursor
      ensures reading <==> t.ReadStore?
      ensures t.Wait? <==> !closed && old(cursor.sequence) == published
      ensures t.Deliver? ==> old(cursor.sequence) < |log| && t.event == log[old(cursor.sequence)]
      ensures delivered == old(delivered) + (if t.Deliver? then [t.event] else [])
    {
      if closed {
        return Ended(err);
      }
      if cursor.sequence < through {
        reading := true;
        return ReadStore(cursor);
      }
      if |queue| > 0 {
        var q := queue[0];
        assert Offered(queue)[0] == log[cursor.sequence];
        assert Offered(queue[1..]) == Offered(queue)[1..];
        SliceMore(log, start, cursor.sequence);
        queue, bytes, cursor := queue[1..], bytes - q.size, q.event.cursor;
        delivered := delivered + [q.event];
        return Deliver(q.event);
      }
      return Wait;
    }

    /** The store read returned a page. Commits, overflow and closing may have happened since
        it began; the event is still the next one. A page without it is reported as a gap. */
    method EndReplay(page: seq<Event>, ghost log: seq<Event>) returns (r: Replayed)
      requires Valid(log) && reading
      requires page == [] || page[0] == log[cursor.sequence]
      modifies this
      ensures Valid(log) && !reading && published == old(published) && closed == old(closed) && err == old(err)
      ensures |page| == 1 ==> r == Stored(log[old(cursor.sequence)]) && delivered == old(delivered) + [r.event]
      ensures |page| != 1 ==> r == Gap && delivered == old(delivered) && cursor == old(cursor)
    {
      reading := false;
      if |page| != 1 || page[0].cursor.sequence > through {
        return Gap;
      }
      SliceMore(log, start, cursor.sequence);
      cursor := page[0].cursor;
      delivered := delivered + [page[0]];
      return Stored(page[0]);
    }

    /** The store read failed: the consumer gets the error and nothing else changes. */
    method AbandonReplay(ghost log: seq<Event>)
      requires Valid(log)
      modifies this`reading
      ensures Valid(log) && !reading
    {
      reading := false;
    }

    /** The worker ends the stream, or its consumer closes it. The first reason is kept. */
    method Finish(reason: Option<ErrorCode>, ghost log: seq<Event>)
      requires Valid(log)
      modifies this
      ensures Valid(log) && closed && err == (if old(closed) then old(err) else reason)
      ensures cursor == old(cursor) && delivered == old(delivered)
      ensures published == old(published) && reading == old(reading)
    {
      if closed {
        return;
      }
      closed, err, queue, bytes := true, reason, [], 0;
    }
  }

  // ---- every interleaving ----

  /** One atomic step of the worker, the consumer or the store. */
  datatype Step =
    | Append(c: Commit, io: Io)
    | Publish
    | Consume
    | Read(broken: set<nat>)
    | Finish(reason: Option<ErrorCode>)

  /** A page of one event is the next event of the log, and its own copy. */
  lemma NextPage(k: Codec, cs: seq<Commit>, after: nat, page: seq<Event>)
    requires Lawful(k) && Storable(k, cs) && after < |Log(cs)| && IsPage(k, Log(cs), after, 1, page) && Own(page)
    ensures page == [Sent(Log(cs))[after]]
  {
    PageProgress(k, cs, after, 1, page);
    assert page == [page[0]] && page[0] == Log(cs)[after];
  }

  /** What a stream of this journal may deliver: copies of the logged events. */
  ghost function Wire(j: Journal): (log: seq<Event>)
    requires j.Valid()
    reads j
    ensures Numbered(log, Hex(j.seed), 0) && |log| == |Log(j.commits)|
    ensures j.state.cursor == Cursor(Hex(j.seed), |log|)
  {
    j.LogMeaning();
    SentNumbered(Log(j.commits), Hex(j.seed));
    Sent(Log(j.commits))
  }

  /** Journal, stream and the events the current commit has still to offer. */
  ghost predicate Joint(j: Journal, s: Stream, offers: seq<Event>)
    reads j, s
  {
    && j.Valid() && s.storeId == Hex(j.seed) && s.Valid(Wire(j))
    && Sent(offers) == Wire(j)[s.published..]
  }

  /** A commit is appended once the one before it is published; both happen under one lock. */
  method Store(j: Journal, s: Stream, offers: seq<Event>, c: Commit, io: Io) returns (left: seq<Event>)
    requires Joint(j, s, offers)
    modifies j
    ensures Joint(j, s, left) && old(j.commits) <= j.commits
  {
    left := offers;
    if offers == [] {
      ghost var before, wire := j.commits, Wire(j);
      var r := j.Append(c, io);
      if r.Appended? {
        LogExtended(before, c);
        SentConcat(Log(before), c.events);
        assert Wire(j) == wire + Sent(c.events);
        s.LogGrows(wire, Wire(j));
        left := c.events;
      }
    }
  }

  /** The consumer's store read, which may fail for an unreadable record. */
  method ReadNext(j: Journal, s: Stream, broken: set<nat>)
    requires j.Valid() && s.storeId == Hex(j.seed) && s.Valid(Wire(j)) && s.reading
    modifies j`poisoned, s
    ensures j.Valid() && s.storeId == Hex(j.seed) && s.Valid(Wire(j)) && !s.reading
    ensures old(s.delivered) <= s.delivered && s.published == old(s.published)
  {
    j.LogMeaning();
    var page := j.ReadEvents(s.cursor, 1, broken);
    if page.Events? {
      NextPage(j.k, j.commits, s.cursor.sequence, page.page);
      var _ := s.EndReplay(page.page, Wire(j));
    } else {
      s.AbandonReplay(Wire(j));
    }
  }

  /** The next event of the commit is offered to the stream. */
  method PublishNext(j: Journal, s: Stream, offers: seq<Event>) returns (left: seq<Event>)
    requires Joint(j, s, offers)
    modifies s
    ensures Joint(j, s, left) && s.delivered == old(s.delivered)
  {
    left := offers;
    if offers != [] {
      assert Sent(offers)[0] == Wire(j)[s.published];
      assert Sent(offers[1..]) == Sent(offers)[1..];
      var _ := s.Push(offers[0], j.k.eventLen(offers[0]), Wire(j));
      left := offers[1..];
    }
  }

  /** One step against the live journal. */
  method Advance(j: Journal, s: Stream, offers: seq<Event>, step: Step) returns (left: seq<Event>)
    requires Joint(j, s, offers)
    modifies j, s
    ensures Joint(j, s, left) && old(s.delivered) <= s.delivered && old(j.commits) <= j.commits
  {
    left := offers;
    match step {
      case Append(c, io) => left := Store(j, s, offers, c, io);
      case Publish => left := PublishNext(j, s, offers);
      case Consume =>
        if !s.reading {
          var _ := s.Next(Wire(j));
        }
      case Read(broken) =>
        if s.reading {
          ReadNext(j, s, broken);
        }
      case Finish(reason) => s.Finish(reason, Wire(j));
    }
  }

  /** REPLAY AND LIVE DELIVERY MEET WITHOUT A SEAM. Whatever the interleaving of commits,
      publications, consumption, store reads, read failures, overflow and closing, the events
      a stream opened at `after` has returned are copies of the log's events after that cursor: no
      gap, no duplicate, in order. */
  method Interleave(j: Journal, after: Cursor, steps: seq<Step>) returns (s: Stream)
    requires j.Valid() && CursorKnown(after, j.state.cursor)
    modifies j
    ensures fresh(s) && j.Valid() && s.start == after.sequence && old(j.commits) <= j.commits
    ensures after.sequence + |s.delivered| <= |Log(j.commits)|
    ensures s.delivered == Sent(Log(j.commits))[after.sequence..after.sequence + |s.delivered|]
    ensures |s.queue| <= MAX_OBSERVER_EVENTS && s.bytes == Bytes(s.queue) <= MAX_OBSERVER_BYTES
  {
    s := new Stream(after, j.state.cursor, Wire(j));
    var offers: seq<Event> := [];
    for i := 0 to |steps|
      invariant Joint(j, s, offers) && old(j.commits) <= j.commits && s.start == after.sequence && fresh(s)
    {
      offers := Advance(j, s, offers, steps[i]);
    }
  }
}
