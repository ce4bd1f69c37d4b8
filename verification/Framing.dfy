/** The line filter and the cancellation tracker of the MCP bridge
    (internal/adapters/mcpbridge/framing.go). */
module Framing {
  import opened Utf8
  import opened Contract
  import opened Reducer

  const NEWLINE: Byte := 10

  // ---- lines ----

  /** One answer of the buffered reader: a piece up to and including a line break, a full
      buffer without one, or what was left at the end of the input or before a failure. */
  datatype Chunk = Ended(bytes: Text) | Full(bytes: Text)

  /** What a line turned out to be. */
  datatype Item = Oversized | Kept(line: Text)

  predicate ChunkOk(c: Chunk) {
    match c
    case Ended(b) => b != [] && b[|b| - 1] == NEWLINE && NEWLINE !in b[..|b| - 1]
    case Full(b) => NEWLINE !in b
  }

  function Joined(chunks: seq<Chunk>): Text {
    if chunks == [] then [] else Joined(chunks[..|chunks| - 1]) + chunks[|chunks| - 1].bytes
  }

  function Judge(line: Text, limit: nat): Item { if |line| > limit then Oversized else Kept(line) }

  /** What follows the last line break. */
  function Remainder(s: Text): Text {
    if s == [] || s[|s| - 1] == NEWLINE then [] else Remainder(s[..|s| - 1]) + [s[|s| - 1]]
  }

  /** The complete lines of the whole input, judged one by one. */
  function Lines(s: Text, limit: nat): seq<Item> {
    if s == [] then []
    else
      var init, b := s[..|s| - 1], s[|s| - 1];
      if b == NEWLINE then Lines(init, limit) + [Judge(Remainder(init) + [b], limit)] else Lines(init, limit)
  }

  /** A piece without a break only lengthens the remainder. */
  lemma {:induction false} NoBreak(s: Text, b: Text, limit: nat)
    requires NEWLINE !in b
    ensures Remainder(s + b) == Remainder(s) + b && Lines(s + b, limit) == Lines(s, limit)
  {
    if b == [] {
      assert s + b == s;
    } else {
      var init := b[..|b| - 1];
      assert (s + b)[..|s + b| - 1] == s + init;
      assert b[|b| - 1] in b;
      NoBreak(s, init, limit);
      assert b == init + [b[|b| - 1]];
    }
  }

  /** A break completes the line. */
  lemma {:induction false} Completes(s: Text, limit: nat)
    ensures Remainder(s + [NEWLINE]) == []
    ensures Lines(s + [NEWLINE], limit) == Lines(s, limit) + [Judge(Remainder(s) + [NEWLINE], limit)]
  {
    assert (s + [NEWLINE])[..|s|] == s;
  }

  function Content(items: seq<Item>): Text {
    if items == [] then []
    else Content(items[..|items| - 1]) + (if items[|items| - 1].Kept? then items[|items| - 1].line else [])
  }

  /** A kept line that ends at its only break. */
  predicate Proper(item: Item) { item.Kept? && ChunkOk(Ended(item.line)) }

  lemma {:induction false} ContentAppend(items: seq<Item>, line: Text)
    ensures Content(items + [Kept(line)]) == Content(items) + line
  {
    assert (items + [Kept(line)])[..|items|] == items;
  }

  lemma {:induction false} ProperLine(r: Text)
    requires NEWLINE !in r
    ensures Proper(Kept(r + [NEWLINE]))
  {
    assert (r + [NEWLINE])[..|r|] == r;
  }

  /** Judged one by one, lines are neither merged nor split nor lost: with no limit in the way
      they and the remainder make up the input, each ends at its only break and the remainder
      has none. */
  lemma {:induction false} LinesCover(s: Text, limit: nat)
    requires |s| <= limit
    ensures |Remainder(s)| <= |s| && NEWLINE !in Remainder(s)
    ensures Content(Lines(s, limit)) + Remainder(s) == s
    ensures forall i | 0 <= i < |Lines(s, limit)| :: Proper(Lines(s, limit)[i])
  {
    if s != [] {
      var init, b := s[..|s| - 1], s[|s| - 1];
      LinesCover(init, limit);
      assert s == init + [b];
      var r := Remainder(init);
      assert Content(Lines(init, limit)) + (r + [b]) == s;
      if b == NEWLINE {
        ContentAppend(Lines(init, limit), r + [b]);
        ProperLine(r);
      }
    }
  }

  /** The accumulated line: dropped for good once it is too long. */
  ghost predicate Pending(line: Text, oversized: bool, whole: Text, limit: nat) {
    (oversized <==> |whole| > limit) && (!oversized ==> line == whole) && (oversized ==> line == [])
  }

  /** After reading `s`: the items so far and the line under way. */
  ghost predicate Reading(s: Text, limit: nat, items: seq<Item>, line: Text, oversized: bool) {
    forall x {:trigger Lines(x, limit)} | x == s ::
      items == Lines(x, limit) && Pending(line, oversized, Remainder(x), limit)
  }

  lemma {:induction false} NothingRead(limit: nat)
    ensures Reading(Joined([]), limit, [], [], false)
  {
  }

  /** One piece from the reader. */
  method Feed(c: Chunk, limit: nat, items0: seq<Item>, line0: Text, oversized0: bool, ghost s: Text)
    returns (items: seq<Item>, line: Text, oversized: bool)
    requires ChunkOk(c) && Reading(s, limit, items0, line0, oversized0)
    ensures Reading(s + c.bytes, limit, items, line, oversized)
  {
    items := items0;
    assert items == Lines(s, limit);
    Step(s, c, limit);
    line, oversized := Accumulate(line0, oversized0, c.bytes, limit, Remainder(s));
    if c.Ended? {
      items := items + [if oversized then Oversized else Kept(line)];
      line, oversized := [], false;
    }
  }

  /** LINES DO NOT DEPEND ON CHUNKS. However the reader splits its input, the lines handled
      are those of the whole input, each oversized exactly when its bytes exceed the limit.
      At the end of the input an unfinished line counts; after a read failure it is dropped. */
  method FilterInput(chunks: seq<Chunk>, last: Text, eof: bool, limit: nat) returns (items: seq<Item>)
    requires (forall i | 0 <= i < |chunks| :: ChunkOk(chunks[i])) && NEWLINE !in last
    ensures var input := Joined(chunks) + last;
            items == Lines(input, limit) + (if eof && Remainder(input) != [] then [Judge(Remainder(input), limit)] else [])
  {
    items := [];
    var line: Text, oversized := [], false;
    NothingRead(limit);
    assert chunks[..0] == [];
    for i := 0 to |chunks|
      invariant Reading(Joined(chunks[..i]), limit, items, line, oversized)
    {
      assert chunks[..i + 1][..i] == chunks[..i];
      items, line, oversized := Feed(chunks[i], limit, items, line, oversized, Joined(chunks[..i]));
    }
    assert chunks[..|chunks|] == chunks;
    assert items == Lines(Joined(chunks), limit);
    NoBreak(Joined(chunks), last, limit);
    line, oversized := Accumulate(line, oversized, last, limit, Remainder(Joined(chunks)));
    if eof && (|line| > 0 || oversized) {
      items := items + [if oversized then Oversized else Kept(line)];
    }
  }

  method Accumulate(line0: Text, oversized0: bool, chunk: Text, limit: nat, ghost whole: Text)
    returns (line: Text, oversized: bool)
    requires Pending(line0, oversized0, whole, limit)
    ensures Pending(line, oversized, whole + chunk, limit)
  {
    line, oversized := line0, oversized0;
    if !oversized {
      if |line| + |chunk| > limit {
        line, oversized := [], true;
      } else {
        line := line + chunk;
      }
    }
  }

  lemma {:induction false} Step(s: Text, c: Chunk, limit: nat)
    requires ChunkOk(c)
    ensures c.Full? ==> Remainder(s + c.bytes) == Remainder(s) + c.bytes && Lines(s + c.bytes, limit) == Lines(s, limit)
    ensures c.Ended? ==> Remainder(s + c.bytes) == []
                         && Lines(s + c.bytes, limit) == Lines(s, limit) + [Judge(Remainder(s) + c.bytes, limit)]
  {
    if c.Full? {
      NoBreak(s, c.bytes, limit);
    } else {
      var b := c.bytes[..|c.bytes| - 1];
      assert c.bytes == b + [NEWLINE];
      assert s + c.bytes == s + b + [NEWLINE];
      NoBreak(s, b, limit);
      Completes(s + b, limit);
      assert Remainder(s) + b + [NEWLINE] == Remainder(s) + c.bytes;
    }
  }

  // ---- what happens to a line ----

  /** The JSON checks of a line, which are foreign here. */
  datatype Checks = Checks(validJson: Text -> bool, envelopeOk: Text -> bool)

  datatype Action = Ignored | Refused(code: int) | Forwarded(line: Text)

  /** `flush`: the answer to one line depends on that line alone. A forwarded line is the
      trimmed text and one break; exactly the complete JSON objects and arrays with a sound
      envelope pass, and only blank lines are ignored. */
  function Flush(item: Item, k: Checks): (a: Action)
    ensures a.Ignored? <==> item.Kept? && TrimSpace(item.line) == []
    ensures a.Forwarded? <==>
              && item.Kept? && TrimSpace(item.line) != [] && k.validJson(TrimSpace(item.line))
              && TrimSpace(item.line)[0] in {123, 91} && k.envelopeOk(TrimSpace(item.line))
    ensures a.Forwarded? ==> a.line == TrimSpace(item.line) + [NEWLINE]
    ensures a.Refused? && a.code == -32700 <==>
              item.Kept? && TrimSpace(item.line) != [] && !k.validJson(TrimSpace(item.line))
  {
    match item
    case Oversized => Refused(-32600)
    case Kept(line) =>
      var t := TrimSpace(line);
      if t == [] then Ignored
      else if !k.validJson(t) then Refused(-32700)
      else if t[0] != 123 && t[0] != 91 then Refused(-32600)
      else if !k.envelopeOk(t) then Refused(-32600)
      else Forwarded(t + [NEWLINE])
  }

  // ---- cancellation ----

  /** A message as far as the tracker reads it, ids in compact spelling. */
  datatype Rpc =
    | Asked(id: Text)
    | Cancel(id: Text)
    | Response(id: Text, bytes: Text)
    | OtherIn
    | OtherOut(bytes: Text)

  predicate Outgoing(m: Rpc) { m.Response? || m.OtherOut? }

  /** Not answered since index `i`. */
  ghost predicate Unanswered(t: seq<Rpc>, id: Text, i: int) {
    forall k | 0 <= k < |t| && i < k :: !(t[k].Response? && t[k].id == id)
  }

  /** A request with this id is waiting for its response. */
  ghost predicate Waiting(t: seq<Rpc>, id: Text) {
    exists i :: 0 <= i < |t| && t[i] == Asked(id) && Unanswered(t, id, i)
  }

  /** A cancellation arrived while the id was waiting, and no response since. */
  ghost predicate Withdrawn(t: seq<Rpc>, id: Text) {
    exists j :: 0 <= j < |t| && t[j] == Cancel(id) && Waiting(t[..j], id) && Unanswered(t, id, j)
  }

  /** What the client is to receive: every outgoing message, unchanged and in order, except
      responses to withdrawn requests. */
  ghost function Delivered(t: seq<Rpc>): seq<Text> {
    if t == [] then []
    else
      var init, m := t[..|t| - 1], t[|t| - 1];
      Delivered(init) +
      (if !Outgoing(m) || (m.Response? && Withdrawn(init, m.id)) then [] else [m.bytes])
  }

  lemma {:induction false} UnansweredNext(t: seq<Rpc>, m: Rpc, id: Text, i: int)
    requires i < |t|
    ensures Unanswered(t + [m], id, i) <==> Unanswered(t, id, i) && !(m.Response? && m.id == id)
  {
    var u := t + [m];
    assert u[|t|] == m;
    assert forall k | 0 <= k < |t| :: u[k] == t[k];
  }

  lemma {:induction false} WaitingNext(t: seq<Rpc>, m: Rpc, id: Text)
    ensures Waiting(t + [m], id) <==> m == Asked(id) || (Waiting(t, id) && !(m.Response? && m.id == id))
  {
    var u := t + [m];
    if m == Asked(id) {
      assert u[|t|] == Asked(id) && Unanswered(u, id, |t|);
    } else if Waiting(u, id) {
      var i :| 0 <= i < |u| && u[i] == Asked(id) && Unanswered(u, id, i);
      UnansweredNext(t, m, id, i);
      assert t[i] == Asked(id);
    } else if Waiting(t, id) {
      var i :| 0 <= i < |t| && t[i] == Asked(id) && Unanswered(t, id, i);
      UnansweredNext(t, m, id, i);
      assert u[i] == Asked(id);
    }
  }

  lemma {:induction false} WithdrawnNext(t: seq<Rpc>, m: Rpc, id: Text)
    ensures Withdrawn(t + [m], id) <==>
              (m == Cancel(id) && Waiting(t, id)) || (Withdrawn(t, id) && !(m.Response? && m.id == id))
  {
    var u := t + [m];
    assert u[..|t|] == t;
    if m == Cancel(id) && Waiting(t, id) {
      assert u[|t|] == Cancel(id) && Unanswered(u, id, |t|);
    } else if Withdrawn(u, id) {
      var j :| 0 <= j < |u| && u[j] == Cancel(id) && Waiting(u[..j], id) && Unanswered(u, id, j);
      assert u[..j] == t[..j];
      UnansweredNext(t, m, id, j);
      assert t[j] == Cancel(id);
    } else if Withdrawn(t, id) {
      var j :| 0 <= j < |t| && t[j] == Cancel(id) && Waiting(t[..j], id) && Unanswered(t, id, j);
      assert u[..j] == t[..j];
      UnansweredNext(t, m, id, j);
      assert u[j] == Cancel(id);
    }
  }

  /** Only a waiting request can be withdrawn. */
  lemma {:induction false} WithdrawnWaits(t: seq<Rpc>, id: Text)
    requires Withdrawn(t, id)
    ensures Waiting(t, id)
  {
    var j :| 0 <= j < |t| && t[j] == Cancel(id) && Waiting(t[..j], id) && Unanswered(t, id, j);
    var i :| 0 <= i < j && t[..j][i] == Asked(id) && Unanswered(t[..j], id, i);
    assert t[i] == Asked(id);
    forall k | i < k < |t| ensures !(t[k].Response? && t[k].id == id) {
      if k < j {
        assert t[..j][k] == t[k];
      }
    }
    assert Unanswered(t, id, i);
  }

  class Framer {
    var inflight: set<Text>
    var cancelled: set<Text>
    var written: seq<Text>
    /** Everything that passed in either direction. */
    ghost var trace: seq<Rpc>

    ghost predicate Valid()
      reads this
    {
      && (forall id :: id in inflight <==> Waiting(trace, id))
      && (forall id :: id in cancelled <==> Withdrawn(trace, id))
      && written == Delivered(trace)
    }

    constructor ()
      ensures Valid() && trace == [] && written == []
    {
      inflight, cancelled, written, trace := {}, {}, [], [];
    }

    /** Cancelled ids are in flight, and both sets are empty once everything is answered. */
    lemma Bounded()
      requires Valid()
      ensures cancelled <= inflight
      ensures (forall id :: !Waiting(trace, id)) ==> inflight == {} && cancelled == {}
    {
      forall id | id in cancelled ensures id in inflight {
        WithdrawnWaits(trace, id);
      }
    }

    /** An inbound message. */
    method Track(m: Rpc)
      requires Valid() && !Outgoing(m)
      modifies this
      ensures Valid() && trace == old(trace) + [m] && written == old(written)
    {
      Traced(trace, m);
      trace := trace + [m];
      match m {
        case Cancel(id) =>
          if id in inflight {
            cancelled := cancelled + {id};
          }
        case Asked(id) => inflight := inflight + {id};
        case _ =>
      }
    }

    /** An outbound message. */
    method Write(m: Rpc) returns (sent: bool)
      requires Valid() && Outgoing(m)
      modifies this
      ensures Valid() && trace == old(trace) + [m]
      ensures sent <==> !(m.Response? && Withdrawn(old(trace), m.id))
      ensures written == old(written) + (if sent then [m.bytes] else [])
    {
      Traced(trace, m);
      if m.Response? && m.id in cancelled {
        WithdrawnWaits(trace, m.id);
      }
      trace := trace + [m];
      if |inflight| > 0 && m.Response? && m.id in inflight {
        inflight := inflight - {m.id};
        if m.id in cancelled {
          cancelled := cancelled - {m.id};
          return false;
        }
      }
      written := written + [m.bytes];
      return true;
    }
  }

  lemma Traced(t: seq<Rpc>, m: Rpc)
    ensures forall id :: Waiting(t + [m], id) <==> m == Asked(id) || (Waiting(t, id) && !(m.Response? && m.id == id))
    ensures forall id :: Withdrawn(t + [m], id) <==>
              (m == Cancel(id) && Waiting(t, id)) || (Withdrawn(t, id) && !(m.Response? && m.id == id))
    ensures Delivered(t + [m]) ==
            Delivered(t) + (if !Outgoing(m) || (m.Response? && Withdrawn(t, m.id)) then [] else [m.bytes])
  {
    forall id ensures Waiting(t + [m], id) <==> m == Asked(id) || (Waiting(t, id) && !(m.Response? && m.id == id)) {
      WaitingNext(t, m, id);
    }
    forall id
      ensures Withdrawn(t + [m], id) <==>
                (m == Cancel(id) && Waiting(t, id)) || (Withdrawn(t, id) && !(m.Response? && m.id == id))
    {
      WithdrawnNext(t, m, id);
    }
    assert (t + [m])[..|t|] == t;
  }
}
