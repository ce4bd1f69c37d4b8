/** History paging (ReadEvents of internal/adapters/journal/journal.go): a binary search in the
    record index, then records decoded from the file, against the flat event log. */
module Paging {
  import opened Utf8
  import opened Contract
  import opened Reducer
  import opened History
  import opened Frames
  import opened Legible
  import opened Recovery

  ghost function Sizes(k: Codec, es: seq<Event>): nat {
    if es == [] then 0 else Sizes(k, es[..|es| - 1]) + k.eventLen(es[|es| - 1])
  }

  /** `page` is the longest run of events after `after` within the count and byte bounds. */
  ghost predicate IsPage(k: Codec, log: seq<Event>, after: nat, limit: nat, page: seq<Event>) {
    && after + |page| <= |log| && page == log[after..after + |page|]
    && |page| <= limit && Sizes(k, page) <= MAX_OBSERVER_BYTES
    && (|page| == limit || after + |page| == |log|
        || Sizes(k, page) + k.eventLen(log[after + |page|]) > MAX_OBSERVER_BYTES)
  }

  /** The page while it is being collected: all events after `after` among the first `upto`. */
  ghost predicate Partial(k: Codec, log: seq<Event>, after: nat, limit: nat, upto: nat, page: seq<Event>, bytes: nat) {
    && after <= |log| && upto <= |log| && |page| <= limit
    && |page| == (if upto <= after then 0 else upto - after) && page == log[after..after + |page|]
    && bytes == Sizes(k, page) && bytes <= MAX_OBSERVER_BYTES
  }

  /** Binary search for the first record that holds an event after `sequence`. */
  method FirstAfter(records: seq<Index>, sequence: nat) returns (i: nat)
    requires forall a, b | 0 <= a < b < |records| :: records[a].last <= records[b].last
    ensures i <= |records|
    ensures forall a | 0 <= a < i :: records[a].last <= sequence
    ensures forall a | i <= a < |records| :: records[a].last > sequence
  {
    i := 0;
    var hi := |records|;
    while i < hi
      invariant i <= hi <= |records|
      invariant forall a | 0 <= a < i :: records[a].last <= sequence
      invariant forall a | hi <= a < |records| :: records[a].last > sequence
    {
      var mid := (i + hi) / 2;
      if records[mid].last > sequence {
        hi := mid;
      } else {
        i := mid + 1;
      }
    }
  }

  lemma SizesExtended(k: Codec, es: seq<Event>, e: Event)
    ensures Sizes(k, es + [e]) == Sizes(k, es) + k.eventLen(e)
  {
    assert (es + [e])[..|es|] == es;
  }

  /** One more event of the log: before the page, on it, or beyond it. */
  lemma {:induction false} CollectStep(k: Codec, log: seq<Event>, after: nat, limit: nat, upto: nat, page: seq<Event>, bytes: nat)
    requires PageState(k, log, after, limit, upto, page, bytes, false) && upto < |log|
    ensures var n := k.eventLen(log[upto]);
            && (upto < after ==> PageState(k, log, after, limit, upto + 1, page, bytes, false))
            && (upto >= after && bytes + n > MAX_OBSERVER_BYTES ==> IsPage(k, log, after, limit, page))
            && (upto >= after && bytes + n <= MAX_OBSERVER_BYTES ==>
                  if |page| + 1 == limit then IsPage(k, log, after, limit, page + [log[upto]])
                  else PageState(k, log, after, limit, upto + 1, page + [log[upto]], bytes + n, false))
  {
    assert Partial(k, log, after, limit, upto, page, bytes) && |page| < limit;
    if upto >= after {
      SizesExtended(k, page, log[upto]);
      assert page + [log[upto]] == log[after..upto + 1];
    }
  }

  /** The events of one record that belong on the page. */
  method Collect(k: Codec, es: seq<Event>, after: nat, limit: nat, page0: seq<Event>, bytes0: nat,
                 ghost log: seq<Event>, ghost base: nat)
    returns (page: seq<Event>, bytes: nat, full: bool)
    requires base + |es| <= |log| && es == log[base..base + |es|]
    requires forall t | 0 <= t < |es| :: es[t].cursor.sequence == base + t + 1
    requires PageState(k, log, after, limit, base, page0, bytes0, false)
    ensures PageState(k, log, after, limit, base + |es|, page, bytes, full)
    ensures Own(page0) && Own(es) ==> Own(page)
  {
    page, bytes, full := page0, bytes0, false;
    for t := 0 to |es|
      invariant PageState(k, log, after, limit, base + t, page, bytes, false)
      invariant Own(page0) && Own(es) ==> Own(page)
    {
      assert es[t] == log[base + t];
      CollectStep(k, log, after, limit, base + t, page, bytes);
      if es[t].cursor.sequence > after {
        var n := k.eventLen(es[t]);
        if bytes + n > MAX_OBSERVER_BYTES {
          return page, bytes, true;
        }
        page, bytes := page + [es[t]], bytes + n;
        if |page| == limit {
          return page, bytes, true;
        }
      }
    }
  }

  /** A record as the page reader checks it again. */
  function ReadRecord(k: Codec, file: Text, r: Index): Option<Commit> {
    if r.offset + FRAME_SIZE + r.length > |file| then None
    else
      var b, h := file[r.offset + FRAME_SIZE..r.offset + FRAME_SIZE + r.length], file[r.offset..r.offset + FRAME_SIZE];
      if FromBigEndian(h[..4]) != 1 || FromBigEndian(h[4..8]) != r.length
         || k.sha256(h[..8]) != h[8..40] || k.sha256(b) != h[40..] then None
      else Decode(k, b)
  }

  lemma {:induction false} RecordsAt(k: Codec, cs: seq<Commit>, i: nat)
    requires i < |cs|
    ensures |Records(k, cs)| == |cs|
    ensures Records(k, cs)[i] == Index(End(k, cs[..i]), |k.marshal(cs[i])|, |Log(cs[..i])| + 1, |Log(cs[..i + 1])|)
  {
    var init := cs[..|cs| - 1];
    if i < |init| {
      RecordsAt(k, init, i);
      assert init[..i] == cs[..i] && init[..i + 1] == cs[..i + 1];
    } else {
      if init != [] {
        RecordsAt(k, init, 0);
      }
      assert cs[..i + 1] == cs;
    }
  }

  lemma RecordsLen(k: Codec, cs: seq<Commit>)
    ensures |Records(k, cs)| == |cs|
  {
    if cs != [] {
      RecordsAt(k, cs, 0);
    }
  }

  /** Where a commit's events sit in the flat log. */
  lemma {:induction false} LogSlice(storeId: Id, cs: seq<Commit>, i: nat)
    requires i < |cs| && Numbered(Log(cs), storeId, 0)
    ensures var base := |Log(cs[..i])|;
            && |Log(cs[..i + 1])| == base + |cs[i].events| <= |Log(cs)|
            && Log(cs)[base..base + |cs[i].events|] == cs[i].events
            && forall t | 0 <= t < |cs[i].events| :: cs[i].events[t].cursor.sequence == base + t + 1
  {
    var upto := cs[..i + 1];
    assert upto[..i] == cs[..i] && upto[i] == cs[i];
    LogPrefix(cs, i + 1);
    SliceNumbered(Log(cs[..i]), cs[i].events, Log(cs), storeId);
  }

  lemma SliceNumbered(before: seq<Event>, es: seq<Event>, log: seq<Event>, storeId: Id)
    requires before + es <= log && Numbered(log, storeId, 0)
    ensures log[|before|..|before| + |es|] == es
    ensures forall t | 0 <= t < |es| :: es[t].cursor.sequence == |before| + t + 1
  {
    assert log[..|before| + |es|] == before + es;
    forall t | 0 <= t < |es| ensures es[t].cursor.sequence == |before| + t + 1 {
      assert es[t] == (before + es)[|before| + t] == log[|before| + t];
    }
  }

  lemma LastsSorted(k: Codec, cs: seq<Commit>)
    ensures |Records(k, cs)| == |cs|
    ensures forall a, b | 0 <= a < b < |cs| :: Records(k, cs)[a].last <= Records(k, cs)[b].last
  {
    RecordsLen(k, cs);
    forall a, b | 0 <= a < b < |cs| ensures Records(k, cs)[a].last <= Records(k, cs)[b].last {
      RecordsAt(k, cs, a);
      RecordsAt(k, cs, b);
      assert cs[..b + 1][..a + 1] == cs[..a + 1];
      LogPrefix(cs[..b + 1], a + 1);
    }
  }

  /** The first record searched holds nothing that an earlier page should have returned. */
  lemma StartsBefore(k: Codec, cs: seq<Commit>, after: nat, limit: nat, i: nat)
    requires i <= |cs| && |Records(k, cs)| == |cs| && after <= |Log(cs)|
    requires forall a | 0 <= a < i :: Records(k, cs)[a].last <= after
    ensures limit >= 1 ==> PageState(k, Log(cs), after, limit, |Log(cs[..i])|, [], 0, false)
  {
    if i > 0 {
      RecordsAt(k, cs, i - 1);
    } else {
      assert cs[..i] == [];
    }
    LogPrefix(cs, i);
  }

  /** The bytes of an appended commit decode to that commit or not at all. */
  lemma {:induction false} RecordRead(k: Codec, seed: Text, cs: seq<Commit>, i: nat)
    requires Lawful(k) && |seed| == 16 && Storable(k, cs) && i < |cs|
    ensures |Records(k, cs)| == |cs|
    ensures ReadRecord(k, Image(k, seed, cs), Records(k, cs)[i]) == if Decodable(cs[i]) then Some(cs[i]) else None
  {
    RecordsAt(k, cs, i);
    var upto := cs[..i + 1];
    assert upto[..i] == cs[..i] && upto[i] == cs[i];
    ImagePrefix(k, seed, cs, i + 1);
    FrameFollows(k, seed, upto, Image(k, seed, cs));
    FrameAt(k, Image(k, seed, cs), Records(k, cs)[i], k.marshal(cs[i]));
    DecodesExactly(k, cs[i]);
  }

  lemma FrameAt(k: Codec, file: Text, r: Index, b: Text)
    requires Lawful(k) && |b| <= MAX_COMMIT_BYTES && r.offset <= |file| && Frame(k, b) <= file[r.offset..] && r.length == |b|
    ensures ReadRecord(k, file, r) == Decode(k, b)
  {
    var pos := r.offset;
    var f, rest := Frame(k, b), file[pos..];
    FrameLen(k, b);
    FramePieces(k, b, f);
    BigEndianInverse(1);
    BigEndianInverse(|b|);
    assert rest[..|f|] == f;
    var h := file[pos..pos + FRAME_SIZE];
    assert h == f[..FRAME_SIZE];
    assert h[4..8] == f[4..8] && h[..4] == f[..4] && h[..8] == f[..8] && h[8..40] == f[8..40] && h[40..] == f[40..72];
    assert file[pos + FRAME_SIZE..pos + FRAME_SIZE + |b|] == f[72..];
    assert f[72..] == b;
  }

  // ---- paging theorems ----

  lemma {:induction false} EventFitsPage(k: Codec, cs: seq<Commit>, i: nat)
    requires Lawful(k) && Storable(k, cs) && i < |Log(cs)|
    ensures k.eventLen(Log(cs)[i]) <= MAX_COMMIT_BYTES
  {
    var init, c := cs[..|cs| - 1], cs[|cs| - 1];
    if i < |Log(init)| {
      EventFitsPage(k, init, i);
    } else {
      assert Log(cs)[i] in c.events;
      assert k.eventLen(Log(cs)[i]) <= |k.marshal(c)|;
    }
  }

  /** A page is nonempty whenever history remains: one commit always fits a page. */
  lemma PageProgress(k: Codec, cs: seq<Commit>, after: nat, limit: nat, page: seq<Event>)
    requires Lawful(k) && Storable(k, cs) && limit >= 1 && after < |Log(cs)| && IsPage(k, Log(cs), after, limit, page)
    ensures page != []
  {
    EventFitsPage(k, cs, after);
  }

  /** IsPage as a one-point quantifier, so that chains do not unfold it. */
  ghost predicate PageChecked(k: Codec, log: seq<Event>, after: nat, limit: nat, page: seq<Event>) {
    forall p {:trigger IsPage(k, log, after, limit, p)} | p == page :: IsPage(k, log, after, limit, p)
  }

  /** Chained pages: each starts where the one before it ended. */
  ghost predicate Chained(k: Codec, log: seq<Event>, after: nat, limit: nat, pages: seq<seq<Event>>)
    decreases |pages|
  {
    if pages == [] then after <= |log|
    else PageChecked(k, log, after, limit, pages[0]) && Chained(k, log, after + |pages[0]|, limit, pages[1..])
  }

  function Joined(pages: seq<seq<Event>>): seq<Event> {
    if pages == [] then [] else pages[0] + Joined(pages[1..])
  }

  /** Chained pages hold every event once, in order, and reach the end of the log after at
      most as many pages as there are events left. */
  lemma PagesCoverLog(k: Codec, cs: seq<Commit>, after: nat, limit: nat, pages: seq<seq<Event>>)
    requires Lawful(k) && Storable(k, cs) && limit >= 1 && Chained(k, Log(cs), after, limit, pages)
    ensures after + |Joined(pages)| <= |Log(cs)|
    ensures Joined(pages) == Log(cs)[after..after + |Joined(pages)|]
    ensures |pages| >= |Log(cs)| - after ==> Joined(pages) == Log(cs)[after..]
  {
    forall i | 0 <= i < |Log(cs)| ensures k.eventLen(Log(cs)[i]) <= MAX_OBSERVER_BYTES {
      EventFitsPage(k, cs, i);
    }
    ChainCovers(k, Log(cs), after, limit, pages);
  }

  lemma {:induction false} ChainCovers(k: Codec, log: seq<Event>, after: nat, limit: nat, pages: seq<seq<Event>>)
    requires limit >= 1 && Chained(k, log, after, limit, pages)
    requires forall i | 0 <= i < |log| :: k.eventLen(log[i]) <= MAX_OBSERVER_BYTES
    ensures after + |Joined(pages)| <= |log| && Joined(pages) == log[after..after + |Joined(pages)|]
    ensures |pages| >= |log| - after ==> Joined(pages) == log[after..]
    decreases |pages|
  {
    if pages != [] {
      var p := pages[0];
      PageSpan(k, log, after, limit, p);
      ChainCovers(k, log, after + |p|, limit, pages[1..]);
      Adjacent(log, after, |p|, |Joined(pages[1..])|);
    } else {
      assert log[after..after] == [];
    }
  }

  lemma PageSpan(k: Codec, log: seq<Event>, after: nat, limit: nat, page: seq<Event>)
    requires limit >= 1 && PageChecked(k, log, after, limit, page)
    requires forall i | 0 <= i < |log| :: k.eventLen(log[i]) <= MAX_OBSERVER_BYTES
    ensures after + |page| <= |log| && page == log[after..after + |page|] && (after < |log| ==> page != [])
  {
    assert IsPage(k, log, after, limit, page);
  }

  lemma Adjacent(log: seq<Event>, after: nat, n: nat, m: nat)
    requires after + n + m <= |log|
    ensures log[after..after + n] + log[after + n..after + n + m] == log[after..after + n + m]
    ensures after + n + m == |log| ==> log[after..after + n + m] == log[after..]
  {
  }

  /** One record fetched from the file. */
  method Fetch(k: Codec, file: Text, r: Index, ghost seed: Text, ghost cs: seq<Commit>, ghost i: nat)
    returns (c: Option<Commit>)
    requires Lawful(k) && |seed| == 16 && Storable(k, cs) && i < |cs| == |Records(k, cs)|
    requires file == Image(k, seed, cs) && r == Records(k, cs)[i]
    ensures c == if Decodable(cs[i]) then Some(cs[i]) else None
  {
    c := ReadRecord(k, file, r);
    RecordRead(k, seed, cs, i);
  }

  /** The page so far, or the finished page. */
  ghost predicate PageState(k: Codec, log: seq<Event>, after: nat, limit: nat, upto: nat, page: seq<Event>, bytes: nat, full: bool) {
    forall p {:trigger IsPage(k, log, after, limit, p)} {:trigger Partial(k, log, after, limit, upto, p, bytes)} | p == page ::
      if full then IsPage(k, log, after, limit, p) else Partial(k, log, after, limit, upto, p, bytes) && |p| < limit
  }

  lemma PageDone(k: Codec, log: seq<Event>, after: nat, limit: nat, page: seq<Event>, bytes: nat, full: bool)
    requires PageState(k, log, after, limit, |log|, page, bytes, full) || (full && exists upto :: PageState(k, log, after, limit, upto, page, bytes, full))
    ensures IsPage(k, log, after, limit, page)
  {
    assert full || Partial(k, log, after, limit, |log|, page, bytes);
  }

  /** One record's contribution to the page. */
  method CollectRecord(k: Codec, file: Text, r: Index, after: nat, limit: nat, page0: seq<Event>, bytes0: nat,
                       ghost seed: Text, ghost cs: seq<Commit>, ghost i: nat)
    returns (ok: bool, page: seq<Event>, bytes: nat, full: bool)
    requires Lawful(k) && |seed| == 16 && Storable(k, cs) && Numbered(Log(cs), Hex(seed), 0)
    requires i < |cs| == |Records(k, cs)| && file == Image(k, seed, cs) && r == Records(k, cs)[i]
    requires PageState(k, Log(cs), after, limit, |Log(cs[..i])|, page0, bytes0, false)
    ensures ok <==> Decodable(cs[i])
    ensures ok ==> PageState(k, Log(cs), after, limit, |Log(cs[..i + 1])|, page, bytes, full)
    ensures ok && Own(page0) ==> Own(page)
  {
    var c := Fetch(k, file, r, seed, cs, i);
    if c.None? {
      return false, page0, bytes0, false;
    }
    LogSlice(Hex(seed), cs, i);
    DecodableOwn(c.value);
    ok := true;
    page, bytes, full := Collect(k, c.value.events, after, limit, page0, bytes0, Log(cs), |Log(cs[..i])|);
  }

  /** The reading loop: record after record until the page is complete, or None when a
      record cannot be read or decoded. */
  method ReadPage(k: Codec, file: Text, records: seq<Index>, after: nat, limit: nat, broken: set<nat>,
                  ghost seed: Text, ghost cs: seq<Commit>)
    returns (r: Option<seq<Event>>)
    requires Lawful(k) && |seed| == 16 && Storable(k, cs) && Numbered(Log(cs), Hex(seed), 0)
    requires file == Image(k, seed, cs) && records == Records(k, cs) && after <= |Log(cs)| && limit >= 1
    ensures r.Some? ==> IsPage(k, Log(cs), after, limit, r.value) && Own(r.value)
    ensures AllDecodable(cs) && broken == {} ==> r.Some?
  {
    LastsSorted(k, cs);
    var i := FirstAfter(records, after);
    StartsBefore(k, cs, after, limit, i);
    var page: seq<Event>, bytes, full := [], 0, false;
    while i < |records| && !full
      invariant i <= |records|
      invariant PageState(k, Log(cs), after, limit, |Log(cs[..i])|, page, bytes, full)
      invariant Own(page)
      decreases |records| - i, !full
    {
      if i in broken {
        return None;
      }
      var ok;
      ok, page, bytes, full := CollectRecord(k, file, records[i], after, limit, page, bytes, seed, cs, i);
      if !ok {
        return None;
      }
      i := i + 1;
    }
    assert cs[..|cs|] == cs;
    PageDone(k, Log(cs), after, limit, page, bytes, full);
    return Some(page);
  }
}
