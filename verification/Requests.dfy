/** What a request is composed into and when it is refused (`Compose` and `ValidateRequest`,
    internal/core/state.go), independently of how they compute it. */
module Requests {
  import opened Utf8
  import opened Contract
  import opened Reducer
  import opened History
  import opened Conversation

  // ---- white space ----

  /** The code point of a character of at most three bytes. */
  function CodePoint(r: Text): int
    requires 1 <= |r| <= 3 && RuneLen(r) == |r|
  {
    if |r| == 1 then r[0] as int
    else if |r| == 2 then (r[0] as int - 0xC0) * 64 + (r[1] as int - 0x80)
    else (r[0] as int - 0xE0) * 4096 + (r[1] as int - 0x80) * 64 + (r[2] as int - 0x80)
  }

  /** The characters with the Unicode property White_Space. */
  predicate WhiteSpace(c: int) {
    || 0x09 <= c <= 0x0D || c == 0x20 || c == 0x85 || c == 0xA0 || c == 0x1680
    || 0x2000 <= c <= 0x200A || c == 0x2028 || c == 0x2029 || c == 0x202F || c == 0x205F || c == 0x3000
  }

  /** A text begins with white space exactly if its first character is a white space character. */
  lemma {:induction false} SpaceExact(s: Text)
    ensures SpaceLen(s) > 0 <==> 1 <= RuneLen(s) <= 3 && RuneLen(s[..RuneLen(s)]) == RuneLen(s) && WhiteSpace(CodePoint(s[..RuneLen(s)]))
    ensures SpaceLen(s) > 0 ==> SpaceLen(s) == RuneLen(s)
  {
    var n := RuneLen(s);
    if n == 2 {
      TwoBytes(s[..n]);
    } else if n == 3 {
      ThreeBytes(s[..n]);
    }
  }

  lemma {:induction false} TwoBytes(r: Text)
    requires |r| == 2 == RuneLen(r)
    ensures WhiteSpace(CodePoint(r)) <==> SpaceLen(r) == 2
  {
  }

  lemma {:induction false} ThreeBytes(r: Text)
    requires |r| == 3 == RuneLen(r)
    ensures WhiteSpace(CodePoint(r)) <==> WideSpace(r[0], r[1], r[2])
  {
  }

  // SpaceLen is a large leaf: the predicates below are one-point quantifiers around it, so that
  // proofs which do not name it do not unfold it.

  /** The text begins with a white space character of `n` bytes, or with none if that is 0. */
  predicate Begins(s: Text, n: nat) { forall x {:trigger SpaceLen(x)} | x == s :: SpaceLen(x) == n }

  /** Nothing but white space. */
  ghost predicate AllSpace(s: Text)
    decreases |s|
  {
    s == [] || exists n :: 0 < n <= |s| && Begins(s, n) && AllSpace(s[n..])
  }

  /** The text ends with a white space character of `n` bytes. */
  predicate Ends(s: Text, n: nat) { 0 < n <= |s| && Begins(s[|s| - n..], n) }

  /** Neither the beginning nor the end is white space. */
  ghost predicate Trimmed(s: Text) { Begins(s, 0) && forall n :: !Ends(s, n) }

  lemma {:induction false} BeginsOne(s: Text, n: nat, m: nat)
    requires Begins(s, n) && Begins(s, m)
    ensures n == m
  {
    assert SpaceLen(s) == n;
  }

  lemma {:induction false} BeginsAny(s: Text)
    ensures Begins(s, SpaceLen(s))
  {
  }

  lemma {:induction false} BeginsPrefix(a: Text, b: Text, n: nat)
    requires 0 < n <= |a| && Begins(a, n)
    ensures Begins(a + b, n) && (a + b)[n..] == a[n..] + b && Begins(a[..n], n)
  {
    assert SpaceLen(a) == n;
  }

  lemma {:induction false} AllSpaceConcat(a: Text, b: Text)
    requires AllSpace(a) && AllSpace(b)
    ensures AllSpace(a + b)
    decreases |a|
  {
    if a == [] {
      assert a + b == b;
    } else {
      var n :| 0 < n <= |a| && Begins(a, n) && AllSpace(a[n..]);
      BeginsPrefix(a, b, n);
      AllSpaceConcat(a[n..], b);
    }
  }

  lemma {:induction false} OneSpace(c: Text)
    requires c != [] && Begins(c, |c|)
    ensures AllSpace(c)
  {
    assert c[|c|..] == [];
    assert AllSpace([]);
  }

  /** `r` is left of `s` once white space in front is dropped. */
  ghost predicate LeftTrimmed(s: Text, r: Text) { |r| <= |s| && r == s[|s| - |r|..] && AllSpace(s[..|s| - |r|]) && Begins(r, 0) }

  lemma {:induction false} LeftTrimmedMore(s: Text, k: nat, r: Text)
    requires 0 < k <= |s| && Begins(s, k) && LeftTrimmed(s[k..], r)
    ensures LeftTrimmed(s, r)
  {
    var t, n := s[k..], |s| - |r|;
    assert s == s[..k] + t;
    assert s[..n] == s[..k] + t[..n - k];
    BeginsPrefix(s, [], k);
    OneSpace(s[..k]);
    AllSpaceConcat(s[..k], t[..n - k]);
  }

  /** What `TrimLeft` drops is white space, and nothing white is left in front. */
  lemma {:induction false} TrimLeftExact(s: Text)
    ensures LeftTrimmed(s, TrimLeft(s))
    decreases |s|
  {
    var k := SpaceLen(s);
    BeginsAny(s);
    if k == 0 {
      assert s[..0] == [] && s[0..] == s;
    } else {
      TrimLeftExact(s[k..]);
      LeftTrimmedMore(s, k, TrimLeft(s[k..]));
    }
  }

  ghost predicate RightTrimmed(s: Text, r: Text) {
    r <= s && AllSpace(s[|r|..]) && forall n :: !Ends(r, n)
  }

  lemma {:induction false} RightTrimmedMore(s: Text, k: nat, r: Text)
    requires Ends(s, k) && RightTrimmed(s[..|s| - k], r)
    ensures RightTrimmed(s, r)
  {
    var t, c := s[..|s| - k], s[|s| - k..];
    assert s == t + c;
    assert s[|r|..] == t[|r|..] + c;
    OneSpace(c);
    AllSpaceConcat(t[|r|..], c);
  }

  /** `SpaceBefore` finds the white space character at the end, if there is one. */
  lemma {:induction false} SpaceBeforeExact(s: Text)
    ensures var k := SpaceBefore(s);
            if k > 0 then Ends(s, k) else forall n :: !Ends(s, n)
  {
    var k := SpaceBefore(s);
    if k == 0 {
      forall n: nat ensures !Ends(s, n) {
        NoSpaceBefore(s, n);
      }
    }
  }

  lemma {:induction false} NoSpaceBefore(s: Text, n: nat)
    requires SpaceBefore(s) == 0
    ensures !Ends(s, n)
  {
    if 0 < n <= |s| {
      var t := s[|s| - n..];
      BeginsAny(t);
      ShortSpace(t);
      assert Begins(t, n) ==> SpaceLen(t) == n;
    }
  }

  lemma {:induction false} ShortSpace(s: Text)
    ensures SpaceLen(s) <= 3
  {
  }

  lemma {:induction false} TrimRightExact(s: Text)
    ensures RightTrimmed(s, TrimRight(s))
    decreases |s|
  {
    var k := SpaceBefore(s);
    SpaceBeforeExact(s);
    if k == 0 {
      assert s[|s|..] == [];
    } else {
      TrimRightExact(s[..|s| - k]);
      RightTrimmedMore(s, k, TrimRight(s[..|s| - k]));
    }
  }

  /** `s` is white space, `r` and white space. */
  ghost predicate Surrounded(s: Text, r: Text) { exists n: nat :: SurroundedAt(s, r, n) }

  ghost predicate SurroundedAt(s: Text, r: Text, n: nat) {
    n + |r| <= |s| && s[n..n + |r|] == r && AllSpace(s[..n]) && AllSpace(s[n + |r|..])
  }

  lemma {:induction false} BothTrimmed(s: Text, t: Text, r: Text)
    requires LeftTrimmed(s, t) && RightTrimmed(t, r)
    ensures Surrounded(s, r) && Trimmed(r)
  {
    var n := |s| - |t|;
    assert s[n..n + |r|] == r && s[n + |r|..] == t[|r|..];
    assert SurroundedAt(s, r, n);
    var k := SpaceLen(r);
    BeginsAny(r);
    if k > 0 {
      assert t == r + t[|r|..];
      BeginsPrefix(r, t[|r|..], k);
      BeginsOne(t, 0, k);
    }
  }

  /** TRIMMING. The text is white space, the trimmed text and white space, and the trimmed text
      neither begins nor ends with white space. */
  lemma {:induction false} TrimSpaceExact(s: Text)
    ensures Surrounded(s, TrimSpace(s)) && Trimmed(TrimSpace(s))
  {
    TrimLeftExact(s);
    TrimRightExact(TrimLeft(s));
    BothTrimmed(s, TrimLeft(s), TrimRight(TrimLeft(s)));
  }

  lemma {:induction false} BlankTrimmed(s: Text)
    ensures TrimSpace(s) == [] <==> AllSpace(s)
  {
    if TrimSpace(s) == [] {
      TrimSpaceExact(s);
      SurroundedBlank(s);
    }
    if AllSpace(s) {
      BlankLeft(s);
      assert TrimRight([]) == [];
    }
  }

  lemma {:induction false} SurroundedBlank(s: Text)
    requires Surrounded(s, [])
    ensures AllSpace(s)
  {
    var n: nat :| SurroundedAt(s, [], n);
    assert s == s[..n] + s[n..];
    AllSpaceConcat(s[..n], s[n..]);
  }

  lemma {:induction false} BlankLeft(s: Text)
    requires AllSpace(s)
    ensures TrimLeft(s) == []
    decreases |s|
  {
    if s != [] {
      var n :| 0 < n <= |s| && Begins(s, n) && AllSpace(s[n..]);
      assert SpaceLen(s) == n;
      BlankLeft(s[n..]);
    }
  }

  // ---- composition ----

  const GAP: Text := [10, 10]

  /** strings.Join with two newlines. */
  function Joined(parts: seq<Text>): Text {
    if parts == [] then []
    else if |parts| == 1 then parts[0]
    else Joined(parts[..|parts| - 1]) + GAP + parts[|parts| - 1]
  }

  /** The parts of a text list that are not blank, trimmed. */
  function Kernels(ts: seq<Text>): seq<Text> {
    if ts == [] then []
    else
      var s := TrimSpace(ts[|ts| - 1]);
      Kernels(ts[..|ts| - 1]) + (if s == [] then [] else [s])
  }

  /** Composition as it runs: the loop over role and system prompt, then the join. */
  method ComposeLoop(r: Request) returns (i: Instructions)
    ensures i == Compose(r) && i.system == Joined(Kernels([r.role, r.systemPrompt]))
  {
    var parts: seq<Text>, ts := [], [r.role, r.systemPrompt];
    for k := 0 to |ts|
      invariant parts == Kernels(ts[..k])
    {
      assert ts[..k + 1][..k] == ts[..k];
      var s := TrimSpace(ts[k]);
      if s != [] {
        parts := parts + [s];
      }
    }
    assert ts[..|ts|] == ts;
    ComposeJoins(r);
    i := Instructions(Joined(parts), [], r.prompt);
  }

  lemma {:induction false} ComposeJoins(r: Request)
    ensures Compose(r).system == Joined(Kernels([r.role, r.systemPrompt]))
  {
    var a, b := TrimSpace(r.role), TrimSpace(r.systemPrompt);
    var ts := [r.role, r.systemPrompt];
    assert ts[..1] == [r.role] && [r.role][..0] == [];
    assert Kernels([r.role]) == if a == [] then [] else [a];
    if a != [] && b != [] {
      assert Kernels(ts) == [a, b];
      assert [a, b][..1] == [a];
    }
  }

  /** The system text is the trimmed role, an empty line and the trimmed system prompt, or
      whichever of the two is not blank. */
  predicate SystemComposed(j: Job) {
    var role, prompt := TrimSpace(j.request.role), TrimSpace(j.request.systemPrompt);
    && (role == [] ==> j.instructions.system == prompt)
    && (prompt == [] ==> j.instructions.system == role)
    && (role != [] && prompt != [] ==> j.instructions.system == role + GAP + prompt)
  }

  lemma {:induction false} SystemVerbatim(jobs: seq<Job>, i: nat)
    requires Lineaged(jobs) && i < |jobs|
    ensures SystemComposed(jobs[i])
  {
    assert InstructionsChecked(jobs[..i], jobs[i]);
    assert ExpectedInstructions(jobs[..i], jobs[i]) == Some(jobs[i].instructions);
    if jobs[i].lineage.Some? {
      ParentPrecedes(jobs, i);
      SystemVerbatim(jobs, Find(jobs[..i], jobs[i].lineage.value.parentId));
    }
  }

  /** A retry repeats its parent: the same request and the same instructions. */
  lemma {:induction false} RetryRepeats(jobs: seq<Job>, i: nat)
    requires Lineaged(jobs) && i < |jobs| && jobs[i].lineage.Some? && jobs[i].lineage.value.relation.Retry?
    ensures exists p :: 0 <= p < i && jobs[p].id == jobs[i].lineage.value.parentId
                        && jobs[i].request == jobs[p].request && jobs[i].instructions == jobs[p].instructions
  {
    assert InstructionsChecked(jobs[..i], jobs[i]);
    assert ExpectedInstructions(jobs[..i], jobs[i]) == Some(jobs[i].instructions);
    ParentPrecedes(jobs, i);
    var p := Find(jobs[..i], jobs[i].lineage.value.parentId);
    assert jobs[p] == jobs[..i][p];
  }

  // ---- validation ----

  predicate OptionsSound(o: GenerationOptions) {
    && o.maxOutputTokens >= 1 && (o.contextTokens.Some? ==> o.contextTokens.value > o.maxOutputTokens)
    && (o.temperature.Some? ==> o.temperature.value.Number?
                                && (o.temperature.value.json == [45, 48] || !([45] <= o.temperature.value.json)))
  }

  /** The request says something, all of it is UTF-8, and its options and history make sense. */
  ghost predicate Meaningful(r: Request, i: Instructions) {
    && !AllSpace(r.model) && !AllSpace(r.prompt) && OptionsSound(r.options)
    && Wellformed(r.model) && Wellformed(r.role) && Wellformed(r.systemPrompt) && Wellformed(r.prompt)
    && Wellformed(i.system) && Wellformed(i.prompt)
    && forall k | 0 <= k < |i.history| :: !i.history[k].role.OtherRole? && Wellformed(i.history[k].content)
  }

  function Contents(h: seq<Message>): (t: Text)
    ensures |t| == HistoryBytes(h)
  {
    if h == [] then [] else Contents(h[..|h| - 1]) + h[|h| - 1].content
  }

  /** Neither the request nor what the backend is given exceeds the input limit. */
  predicate Short(r: Request, i: Instructions) {
    && |r.model + r.role + r.systemPrompt + r.prompt| <= MAX_INPUT_BYTES
    && |i.system + Contents(i.history) + i.prompt| <= MAX_INPUT_BYTES
  }

  /** WHEN A REQUEST IS REFUSED: exactly if it is not meaningful, or meaningful and too long. */
  lemma {:induction false} ValidateExact(r: Request, i: Instructions)
    ensures ValidateRequest(r, i) ==
            if !Meaningful(r, i) then Some(InvalidRequest) else if !Short(r, i) then Some(LimitExceeded) else None
  {
    BlankTrimmed(r.model);
    BlankTrimmed(r.prompt);
  }

  /** EVERY REQUEST THAT WAS ACCEPTED. In every snapshot of every run each job was asked for by a
      meaningful request within the limit, and is run with the system text composed from it. */
  lemma {:induction false} RunRequests(storeId: Id, cs: seq<Commit>, i: nat)
    requires Replay(EmptySnapshot(storeId), cs).Some? && i < |Replay(EmptySnapshot(storeId), cs).value.jobs|
    ensures var j := Replay(EmptySnapshot(storeId), cs).value.jobs[i];
            && SystemComposed(j) && Meaningful(j.request, j.instructions) && Short(j.request, j.instructions)
            && |j.origin| <= 1024 && Wellformed(j.origin) && j.createdAt.At?
            && |j.result.text| <= MAX_OUTPUT_BYTES && Wellformed(j.result.text)
  {
    RunsStaySteady(storeId, cs);
    var jobs := Replay(EmptySnapshot(storeId), cs).value.jobs;
    SystemVerbatim(jobs, i);
    assert JobOk(jobs[i]);
    assert JobRecordOk(jobs[i]);
    ValidateExact(jobs[i].request, jobs[i].instructions);
  }
}
