/** The gate on generated Modelfiles (internal/adapters/ollama/modelfile.go). The serialiser
    it reads quotes lossily, so the parser alone cannot tell where a value ends; the gate
    compares each parsed value with independent metadata. */
module Modelfile {
  import opened Utf8
  import opened Contract
  import opened Reducer

  const SPACE: Byte := 32
  const TAB: Byte := 9
  const NEWLINE: Byte := 10
  const RETURN: Byte := 13
  const HASH: Byte := 35
  const QUOTE: Byte := 34
  const TRIPLE: Text := [34, 34, 34]

  const FROM: Text := [70, 82, 79, 77]
  const ADAPTER: Text := [65, 68, 65, 80, 84, 69, 82]
  const TEMPLATE: Text := [84, 69, 77, 80, 76, 65, 84, 69]
  const SYSTEM: Text := [83, 89, 83, 84, 69, 77]
  const RENDERER: Text := [82, 69, 78, 68, 69, 82, 69, 82]
  const MESSAGE: Text := [77, 69, 83, 83, 65, 71, 69]
  const LICENSE: Text := [76, 73, 67, 69, 78, 83, 69]
  const PARSER: Text := [80, 65, 82, 83, 69, 82]
  const REQUIRES: Text := [82, 69, 81, 85, 73, 82, 69, 83]
  const PARAMETER: Text := [80, 65, 82, 65, 77, 69, 84, 69, 82]

  // ---- scanning ----

  /** Blanks: " \t"; breaks: "\r\n"; white: both. */
  predicate Blank(b: Byte) { b == SPACE || b == TAB }
  predicate Break(b: Byte) { b == NEWLINE || b == RETURN }
  predicate White(b: Byte) { Blank(b) || Break(b) }

  /** strings.IndexAny for the white characters. */
  function FirstWhite(s: Text): (i: int)
    ensures -1 <= i < |s|
    ensures i >= 0 ==> White(s[i]) && forall k | 0 <= k < i :: !White(s[k])
    ensures i < 0 ==> forall k | 0 <= k < |s| :: !White(s[k])
  {
    if s == [] then -1 else if White(s[0]) then 0
    else var i := FirstWhite(s[1..]); if i < 0 then -1 else i + 1
  }

  /** strings.IndexAny for the line breaks. */
  function FirstBreak(s: Text): (i: int)
    ensures -1 <= i < |s|
    ensures i >= 0 ==> Break(s[i]) && forall k | 0 <= k < i :: !Break(s[k])
    ensures i < 0 ==> forall k | 0 <= k < |s| :: !Break(s[k])
  {
    if s == [] then -1 else if Break(s[0]) then 0
    else var i := FirstBreak(s[1..]); if i < 0 then -1 else i + 1
  }

  /** `d` stands at index `k` of `s`. */
  predicate Occurs(s: Text, d: Text, k: int) { 0 <= k <= |s| - |d| && s[k..k + |d|] == d }

  lemma {:induction false} OccursLater(s: Text, d: Text, k: int)
    requires s != [] && k >= 1
    ensures Occurs(s, d, k) <==> Occurs(s[1..], d, k - 1)
  {
    if k <= |s| - |d| {
      var t := s[1..];
      assert forall i | k <= i < k + |d| :: s[i] == t[i - 1];
      assert s[k..k + |d|] == t[k - 1..k - 1 + |d|];
    }
  }

  /** strings.Index: where `d` first occurs. */
  function IndexOf(s: Text, d: Text): (i: int)
    ensures i >= -1 && (i >= 0 ==> Occurs(s, d, i)) && forall k | 0 <= k && (i < 0 || k < i) :: !Occurs(s, d, k)
    decreases |s|
  {
    if |s| < |d| then -1
    else if s[..|d|] == d then 0
    else if s == [] then -1
    else
      var i := IndexOf(s[1..], d);
      assert forall k | k >= 1 :: Occurs(s, d, k) <==> Occurs(s[1..], d, k - 1) by {
        forall k | k >= 1 ensures Occurs(s, d, k) <==> Occurs(s[1..], d, k - 1) { OccursLater(s, d, k); }
      }
      if i < 0 then -1 else i + 1
  }

  /** strings.TrimLeft for the blanks. */
  function SkipBlanks(s: Text): (r: Text)
    ensures |r| <= |s| && (r == [] || !Blank(r[0]))
    ensures |r| < |s| ==> Blank(s[0])
    ensures |r| == |s| ==> r == s
  {
    if s != [] && Blank(s[0]) then SkipBlanks(s[1..]) else s
  }

  function SkipWhite(s: Text): (r: Text)
    ensures |r| <= |s| && (r == [] || !White(r[0]))
  {
    if s != [] && White(s[0]) then SkipWhite(s[1..]) else s
  }

  /** `modelfileLine`: a line and what follows its break. */
  function Line(s: Text): (Text, Text) {
    var i := FirstBreak(s);
    if i >= 0 then (s[..i], s[i + 1..]) else (s, [])
  }

  /** A value after its opening delimiter: up to the next one, with only blanks behind it. */
  function DelimitedRest(body: Text, d: Text): (r: Option<(Text, Text)>)
    ensures r.Some? ==> |r.value.1| <= |body|
  {
    var i := IndexOf(body, d);
    if i < 0 then None
    else
      var line := Line(body[i + |d|..]);
      if SkipBlanks(line.0) != [] then None else Some((body[..i], line.1))
  }

  /** `modelfileValue`: a raw, double-quoted or triple-quoted value and what follows its line. */
  function Value(s: Text): (r: Option<(Text, Text)>)
    ensures r.Some? ==> |r.value.1| <= |s|
  {
    if s == [] || Break(s[0]) then None
    else if TRIPLE <= s then DelimitedRest(s[3..], TRIPLE)
    else if s[0] == QUOTE then DelimitedRest(s[1..], [QUOTE])
    else Some((TrimSpace(Line(s).0), Line(s).1))
  }

  // ---- commands ----

  function UpperByte(b: Byte): Byte {
    var x: int := b;
    if 97 <= x <= 122 then x - 32 else x
  }

  /** strings.ToUpper as far as it can produce an ASCII keyword: besides a to z only the
      dotless i and the long s have an ASCII upper case. */
  function Upper(s: Text): Text
    decreases |s|
  {
    if s == [] then []
    else if [0xC4, 0xB1] <= s then [73] + Upper(s[2..])
    else if [0xC5, 0xBF] <= s then [83] + Upper(s[2..])
    else [UpperByte(s[0])] + Upper(s[1..])
  }

  datatype Flags = Flags(from: bool, template: bool, system: bool, tail: bool)
  datatype Progress = Reject | Continue(rest: Text, flags: Flags)

  predicate NameByte(b: Byte) { 97 <= b <= 122 || 65 <= b <= 90 || 48 <= b <= 57 || b == 95 }

  /** A value command: parse the value, compare it with the metadata where there is some. */
  function TakeValue(s: Text, expected: Option<Text>, mayBeEmpty: bool, next: Flags): (p: Progress)
    ensures p.Continue? ==> |p.rest| <= |s|
  {
    var v := Value(s);
    if v.None? || (v.value.0 == [] && !mayBeEmpty) then Reject
    else if expected.Some? && v.value.0 != expected.value then Reject
    else Continue(v.value.1, next)
  }

  function TakePath(s: Text, isFrom: bool, f: Flags): (p: Progress)
    ensures p.Continue? ==> |p.rest| <= |s|
  {
    var (value, rest) := Line(s);
    if TrimSpace(value) == [] || QUOTE in value || TAB in value || f.template || f.tail then Reject
    else if isFrom == f.from then Reject
    else Continue(rest, f.(from := true))
  }

  /** PARAMETER: a name before the value. */
  function TakeParameter(s: Text, f: Flags): (p: Progress)
    ensures p.Continue? ==> |p.rest| <= |s|
  {
    var i := FirstWhite(s);
    if i <= 0 || Break(s[i]) || exists k :: 0 <= k < i && !NameByte(s[k]) then Reject
    else TakeValue(SkipBlanks(s[i..]), None, true, f)
  }

  /** One command with its argument; `s` is what follows the keyword. */
  function Command(word: Text, s: Text, f: Flags, template: Text, system: Text): (p: Progress)
    ensures p.Continue? ==> |p.rest| <= |s|
  {
    var prefixDone := f.template && (system == [] || f.system);
    if word == RENDERER || word == MESSAGE then Reject
    else if word == FROM || word == ADAPTER then TakePath(s, word == FROM, f)
    else if word == TEMPLATE then
      if !f.from || f.template || f.tail then Reject
      else TakeValue(s, Some(template), false, f.(template := true))
    else if word == SYSTEM then
      if !f.template || f.system || f.tail || system == [] then Reject
      else TakeValue(s, Some(system), false, f.(system := true))
    else if word == LICENSE || word == PARSER || word == REQUIRES then
      if !prefixDone then Reject else TakeValue(s, None, false, f.(tail := true))
    else if word == PARAMETER then
      if !prefixDone then Reject else TakeParameter(s, f.(tail := true))
    else Reject
  }

  /** One turn of the loop on source that starts with neither white space nor nothing. */
  function Turn(s: Text, f: Flags, template: Text, system: Text): (p: Progress)
    requires s != [] && !White(s[0])
    ensures p.Continue? ==> |p.rest| < |s|
  {
    if s[0] == HASH then Continue(Line(s).1, f)
    else
      var end := FirstWhite(s);
      if end < 0 || Break(s[end]) then Reject
      else Command(Upper(s[..end]), SkipBlanks(s[end..]), f, template, system)
  }

  predicate Complete(f: Flags, system: Text) { f.from && f.template && (system == [] || f.system) }

  predicate GateFrom(source: Text, f: Flags, template: Text, system: Text)
    decreases |source|
  {
    var s := SkipWhite(source);
    if s == [] then Complete(f, system)
    else
      var p := Turn(s, f, template, system);
      p.Continue? && GateFrom(p.rest, p.flags, template, system)
  }

  const START: Flags := Flags(false, false, false, false)

  predicate Gate(source: Text, template: Text, system: Text) {
    source != [] && 0 !in source && GateFrom(source, START, template, system)
  }

  /** `templateOnlyModelfile` as it runs. */
  method TemplateOnly(text: Text, template: Text, system: Text) returns (ok: bool)
    ensures ok <==> Gate(text, template, system)
  {
    if text == [] || 0 in text {
      return false;
    }
    var source, f := text, START;
    while source != []
      invariant GateFrom(text, START, template, system) <==> GateFrom(source, f, template, system)
      decreases |source|
    {
      var s := SkipWhite(source);
      if s == [] {
        break;
      }
      var p := Turn(s, f, template, system);
      if p.Reject? {
        return false;
      }
      source, f := p.rest, p.flags;
    }
    return Complete(f, system);
  }

  // ---- the serialiser ----

  /** The quote rule needs delimiters for this value. */
  predicate NeedsQuotes(v: Text) { NEWLINE in v || (v != [] && (v[0] == SPACE || v[|v| - 1] == SPACE)) }

  /** The serialiser's lossy quote rule: no escaping, and a literal quote alone changes nothing. */
  function Quoted(v: Text): Text {
    if !NeedsQuotes(v) then v else if QUOTE in v then TRIPLE + v + TRIPLE else [QUOTE] + v + [QUOTE]
  }

  function AdapterLines(adapters: seq<Text>): Text {
    if adapters == [] then []
    else ADAPTER + [SPACE] + Quoted(adapters[0]) + [NEWLINE] + AdapterLines(adapters[1..])
  }

  function ValueLine(word: Text, v: Text): Text { word + [SPACE] + Quoted(v) + [NEWLINE] }

  /** A generated Modelfile up to where a renderer would stand. */
  function Prefix(path: Text, adapters: seq<Text>, template: Text, system: Text): Text {
    FROM + [SPACE] + path + [NEWLINE] + AdapterLines(adapters) + ValueLine(TEMPLATE, template)
    + (if system == [] then [] else ValueLine(SYSTEM, system))
  }

  /** An unquoted single-line path that is not blank. */
  predicate PlainPath(v: Text) {
    var w := SkipBlanks(v);
    TrimSpace(w) != [] && QUOTE !in w && TAB !in w
  }

  predicate PlainAdapter(v: Text) { !NeedsQuotes(v) && PlainPath(v) }

  /** The parser gets this value back from what the quote rule wrote. */
  predicate Recoverable(v: Text) {
    && v != []
    && if !NeedsQuotes(v) then TrimSpace(v) == v && RETURN !in v && v[0] != QUOTE
       else QUOTE in v ==> IndexOf(v + TRIPLE, TRIPLE) == |v|
  }

  // ---- scanning what was written ----

  lemma {:induction false} SkipBlanksSuffix(s: Text)
    ensures SkipBlanks(s) == s[|s| - |SkipBlanks(s)|..]
  {
    if s != [] && Blank(s[0]) {
      SkipBlanksSuffix(s[1..]);
    }
  }

  lemma {:induction false} SkipBlanksAcross(v: Text, rest: Text)
    requires rest != [] && !Blank(rest[0])
    ensures SkipBlanks(v + rest) == SkipBlanks(v) + rest
    decreases |v|
  {
    if v == [] {
      assert v + rest == rest;
    } else {
      assert (v + rest)[1..] == v[1..] + rest;
      if Blank(v[0]) {
        SkipBlanksAcross(v[1..], rest);
      }
    }
  }

  lemma {:induction false} FirstBreakAt(s: Text, n: nat)
    requires n < |s| && Break(s[n]) && forall k | 0 <= k < n :: !Break(s[k])
    ensures FirstBreak(s) == n
  {
  }

  /** The line that ends at the first break. */
  lemma {:induction false} LineIs(v: Text, rest: Text)
    requires forall k | 0 <= k < |v| :: !Break(v[k])
    ensures Line(v + [NEWLINE] + rest) == (v, rest)
  {
    var s := v + [NEWLINE] + rest;
    assert s[|v|] == NEWLINE;
    FirstBreakAt(s, |v|);
    assert s[..|v|] == v && s[|v| + 1..] == rest;
  }

  /** A keyword as written: upper-case letters. */
  predicate Keyword(word: Text) { word != [] && forall k | 0 <= k < |word| :: 65 <= word[k] <= 90 }

  lemma {:induction false} UpperKeyword(word: Text, more: Text)
    requires forall k | 0 <= k < |word| :: 65 <= word[k] <= 90
    ensures Upper(word + more) == word + Upper(more)
    decreases |word|
  {
    if word == [] {
      assert word + more == more;
    } else {
      assert (word + more)[0] == word[0];
      assert !([0xC4, 0xB1] <= word + more) && !([0xC5, 0xBF] <= word + more);
      assert (word + more)[1..] == word[1..] + more;
      assert word == [word[0]] + word[1..];
      UpperKeyword(word[1..], more);
    }
  }

  /** The gate accepts from here on. (A one-point quantifier, so that proofs about a whole
      prefix do not unfold the gate.) */
  predicate Passes(source: Text, f: Flags, template: Text, system: Text) {
    forall x {:trigger GateFrom(x, f, template, system)} | x == source :: GateFrom(x, f, template, system)
  }

  /** The command a keyword and the space after it select. */
  lemma {:induction false} KeywordTurn(word: Text, arg: Text, f: Flags, template: Text, system: Text)
    requires Keyword(word)
    ensures var s := word + [SPACE] + arg;
            && SkipWhite(s) == s && !White(s[0])
            && Turn(s, f, template, system) == Command(word, SkipBlanks(arg), f, template, system)
  {
    var s := word + [SPACE] + arg;
    assert s[0] == word[0];
    assert s[|word|] == SPACE;
    assert forall k | 0 <= k < |word| :: s[k] == word[k];
    assert FirstWhite(s) == |word|;
    assert s[..|word|] == word;
    UpperKeyword(word, []);
    assert word + [] == word;
    assert s[|word|..] == [SPACE] + arg;
    assert ([SPACE] + arg)[1..] == arg;
  }

  /** At a keyword followed by a space, the loop takes that command. */
  lemma {:induction false} AtKeyword(word: Text, arg: Text, f: Flags, template: Text, system: Text)
    requires Keyword(word)
    ensures var p := Command(word, SkipBlanks(arg), f, template, system);
            Passes(word + [SPACE] + arg, f, template, system) <==>
              p.Continue? && Passes(p.rest, p.flags, template, system)
  {
    var s := word + [SPACE] + arg;
    KeywordTurn(word, arg, f, template, system);
    var p := Turn(s, f, template, system);
    assert GateFrom(s, f, template, system) <==> p.Continue? && GateFrom(p.rest, p.flags, template, system);
  }

  // ---- paths ----

  /** A path line either ends at its own break or is refused. */
  lemma {:induction false} PathLine(v: Text, rest: Text, isFrom: bool, f: Flags)
    requires forall k | 0 <= k < |v| :: !Break(v[k])
    ensures TakePath(SkipBlanks(v + [NEWLINE] + rest), isFrom, f) ==
            if PlainPath(v) && !f.template && !f.tail && isFrom != f.from then Continue(rest, f.(from := true)) else Reject
  {
    assert v + [NEWLINE] + rest == v + ([NEWLINE] + rest);
    SkipBlanksAcross(v, [NEWLINE] + rest);
    var w := SkipBlanks(v);
    SkipBlanksSuffix(v);
    assert forall k | 0 <= k < |w| :: !Break(w[k]);
    assert w + ([NEWLINE] + rest) == w + [NEWLINE] + rest;
    LineIs(w, rest);
  }

  /** A quoted path is refused wherever its line ends. */
  lemma {:induction false} QuotedPath(s: Text, isFrom: bool, f: Flags)
    requires s != [] && s[0] == QUOTE
    ensures TakePath(SkipBlanks(s), isFrom, f) == Reject
  {
    assert SkipBlanks(s) == s;
    var value := Line(s).0;
    assert value[0] == QUOTE;
  }

  // ---- values ----

  lemma {:induction false} TrimLeftShorter(s: Text)
    ensures |TrimLeft(s)| <= |s|
    decreases |s|
  {
    if SpaceLen(s) != 0 {
      TrimLeftShorter(s[SpaceLen(s)..]);
    }
  }

  lemma {:induction false} TrimRightShorter(s: Text)
    ensures |TrimRight(s)| <= |s|
    decreases |s|
  {
    if SpaceBefore(s) != 0 {
      TrimRightShorter(s[..|s| - SpaceBefore(s)]);
    }
  }

  lemma TrimSpaceShorter(s: Text)
    ensures |TrimSpace(s)| <= |TrimLeft(s)| <= |s|
  {
    TrimLeftShorter(s);
    TrimRightShorter(TrimLeft(s));
  }

  /** The parser read exactly `v`, which is not empty. */
  predicate Matches(r: Option<(Text, Text)>, v: Text) { r.Some? && r.value.0 == v && v != [] }

  /** A value that begins with a delimiter and was written bare never matches: what the
      parser takes ends before the next such delimiter. */
  lemma {:induction false} BareQuote(s: Text, d: Text, v: Text, k: nat)
    requires |d| <= |s| && k <= |v| && Occurs(v, d, k) && d != []
    ensures var i := IndexOf(s[|d|..], d);
            i < 0 || s[|d|..][..i] != v
  {
    var body := s[|d|..];
    var i := IndexOf(body, d);
    if i >= 0 && body[..i] == v {
      assert k + |d| <= i;
      assert body[k..k + |d|] == v[k..k + |d|];
      assert Occurs(body, d, k);
    }
  }

  /** Bare: the value is read back exactly when it is trimmed, has no carriage return and does
      not begin with a quote. */
  lemma {:induction false} BareValue(v: Text, rest: Text)
    requires !NeedsQuotes(v)
    ensures var r := Value(SkipBlanks(v + [NEWLINE] + rest));
            (Matches(r, v) <==> Recoverable(v)) && (Recoverable(v) ==> r == Some((v, rest)))
  {
    assert v + [NEWLINE] + rest == v + ([NEWLINE] + rest);
    SkipBlanksAcross(v, [NEWLINE] + rest);
    var w := SkipBlanks(v);
    var s := w + ([NEWLINE] + rest);
    assert s == w + [NEWLINE] + rest;
    var k := |v| - |w|;
    SkipBlanksSuffix(v);
    if w == [] {
      BlankValue(v);
    } else if w[0] == QUOTE {
      BareQuoted(v, w, k, s);
    } else {
      assert s[0] == w[0];
      BareUnquoted(v, w, rest);
    }
  }

  /** Nothing but blanks is not trimmed text. */
  lemma {:induction false} BlankValue(v: Text)
    requires SkipBlanks(v) == []
    ensures !NeedsQuotes(v) ==> !Recoverable(v)
  {
    if v != [] {
      assert Blank(v[0]);
      LeadingBlank(v);
    }
  }

  lemma {:induction false} LeadingBlank(v: Text)
    requires v != [] && Blank(v[0])
    ensures TrimSpace(v) != v
  {
    assert SpaceLen(v) == 1;
    TrimSpaceShorter(v);
    TrimLeftShorter(v[1..]);
  }

  /** A bare value whose first character after blanks is a quote. */
  lemma {:induction false} BareQuoted(v: Text, w: Text, k: nat, s: Text)
    requires w != [] && w[0] == QUOTE && k == |v| - |w| && w == v[k..] && w <= s && w == SkipBlanks(v) && !NeedsQuotes(v)
    requires |s| > |w| && s[|w|] == NEWLINE
    ensures !Matches(Value(s), v) && !Recoverable(v)
  {
    var d := if TRIPLE <= s then TRIPLE else [QUOTE];
    if k > 0 {
      LeadingBlank(v);
    }
    QuoteInside(v, w, k, s, d);
    BareQuote(s, d, v, k);
  }

  lemma {:induction false} QuoteInside(v: Text, w: Text, k: nat, s: Text, d: Text)
    requires w != [] && w[0] == QUOTE && k == |v| - |w| && w == v[k..] && w <= s
    requires |s| > |w| && s[|w|] == NEWLINE && d <= s && (d == TRIPLE || d == [QUOTE])
    ensures Occurs(v, d, k)
  {
    assert forall i | 0 <= i < |d| :: s[i] == d[i] == QUOTE;
    assert |d| <= |w|;
    assert w[..|d|] == s[..|d|] == d;
    assert v[k..k + |d|] == w[..|d|];
  }

  lemma {:induction false} BareUnquoted(v: Text, w: Text, rest: Text)
    requires w != [] && w[0] != QUOTE && w == SkipBlanks(v) && !NeedsQuotes(v)
    ensures var r := Value(w + [NEWLINE] + rest);
            (Matches(r, v) <==> Recoverable(v)) && (Recoverable(v) ==> r == Some((v, rest)))
  {
    SkipBlanksSuffix(v);
    assert forall i | 0 <= i < |w| :: w[i] in v;
    if RETURN in w {
      BareCut(v, w, rest);
    } else {
      RawValue(w, rest);
      LineIs(w, rest);
      if |w| < |v| {
        assert Blank(v[0]);
        LeadingBlank(v);
        TrimSpaceShorter(w);
      } else {
        assert w == v;
      }
    }
  }

  /** With a carriage return inside, neither is the value recoverable nor is it read. */
  lemma {:induction false} BareCut(v: Text, w: Text, rest: Text)
    requires w != [] && w[0] != QUOTE && RETURN in w && NEWLINE !in w && |w| <= |v| && (forall i | 0 <= i < |w| :: w[i] in v) && !NeedsQuotes(v)
    ensures !Matches(Value(w + [NEWLINE] + rest), v) && !Recoverable(v)
  {
    var s := w + [NEWLINE] + rest;
    assert s[0] == w[0];
    if !Break(w[0]) {
      RawValue(w, rest);
      CutByReturn(v, w, rest);
    }
  }

  /** What begins with neither a quote nor a break is read to the end of its line. */
  lemma {:induction false} RawValue(w: Text, rest: Text)
    requires w != [] && w[0] != QUOTE && !Break(w[0])
    ensures var s := w + [NEWLINE] + rest;
            Value(s) == Some((TrimSpace(Line(s).0), Line(s).1))
  {
    var s := w + [NEWLINE] + rest;
    assert s[0] == w[0];
    assert !(TRIPLE <= s);
  }

  /** A carriage return ends the line before the value's end. */
  lemma {:induction false} CutByReturn(v: Text, w: Text, rest: Text)
    requires RETURN in w && |w| <= |v|
    ensures |TrimSpace(Line(w + [NEWLINE] + rest).0)| < |v|
  {
    var s := w + [NEWLINE] + rest;
    var j :| 0 <= j < |w| && w[j] == RETURN;
    assert s[j] == RETURN;
    assert 0 <= FirstBreak(s) <= j;
    TrimSpaceShorter(s[..FirstBreak(s)]);
  }

  /** What the parser makes of an opening delimiter. */
  lemma {:induction false} Opened(d: Text, body: Text)
    requires d == TRIPLE || (d == [QUOTE] && body != [] && body[0] != QUOTE)
    ensures Value(d + body) == DelimitedRest(body, d)
  {
    var s := d + body;
    assert s[|d|..] == body;
    Delimiter(d, body);
    assert s[0] == QUOTE;
  }

  lemma {:induction false} Delimiter(d: Text, body: Text)
    requires d == TRIPLE || (d == [QUOTE] && body != [] && body[0] != QUOTE)
    ensures TRIPLE <= d + body <==> d == TRIPLE
  {
    var s := d + body;
    if d == [QUOTE] {
      assert s[1] == body[0];
    } else {
      assert s[..3] == TRIPLE;
    }
  }

  /** Delimited: the value is read back exactly when the delimiter does not occur early. */
  lemma {:induction false} DelimitedValue(v: Text, d: Text, rest: Text)
    requires d == TRIPLE || (d == [QUOTE] && v != [] && v[0] != QUOTE)
    ensures var r := Value(d + v + d + [NEWLINE] + rest);
            if IndexOf(v + d, d) == |v| then r == Some((v, rest)) else !Matches(r, v)
  {
    var body := v + d + ([NEWLINE] + rest);
    assert d + v + d + [NEWLINE] + rest == d + body;
    Opened(d, body);
    Closed(v, d, rest);
  }

  /** Where the closing delimiter is found, and what follows it. */
  lemma {:induction false} Closed(v: Text, d: Text, rest: Text)
    requires d != []
    ensures var body := v + d + ([NEWLINE] + rest);
            var i := IndexOf(body, d);
            && 0 <= i <= |v| && i == IndexOf(v + d, d) && (body[..i] == v <==> i == |v|)
            && (i == |v| ==> Line(body[i + |d|..]) == ([], rest))
  {
    EarlyIndex(v, d, [NEWLINE] + rest);
    var body := v + d + ([NEWLINE] + rest);
    assert body[..|v|] == v;
    assert body[|v| + |d|..] == [] + [NEWLINE] + rest;
    LineIs([], rest);
  }

  /** Text after the closing delimiter does not change where it is first found. */
  lemma {:induction false} EarlyIndex(v: Text, d: Text, more: Text)
    requires d != []
    ensures IndexOf(v + d + more, d) == IndexOf(v + d, d) && 0 <= IndexOf(v + d, d) <= |v|
  {
    var a, b := v + d, v + d + more;
    assert forall k | 0 <= k <= |v| :: Occurs(a, d, k) <==> Occurs(b, d, k) by {
      forall k | 0 <= k <= |v| ensures Occurs(a, d, k) <==> Occurs(b, d, k) {
        assert a[k..k + |d|] == b[k..k + |d|];
      }
    }
    assert a[|v|..|v| + |d|] == d;
    assert Occurs(a, d, |v|);
  }

  lemma {:induction false} NoEarlyQuote(v: Text)
    requires QUOTE !in v
    ensures IndexOf(v + [QUOTE], [QUOTE]) == |v|
  {
    EarlyIndex(v, [QUOTE], []);
    var i := IndexOf(v + [QUOTE], [QUOTE]);
    assert (v + [QUOTE])[i..i + 1] == [QUOTE];
    assert (v + [QUOTE])[i] == QUOTE;
  }

  /** A PARSED VALUE THAT MATCHES FORCES THE TRUE BOUNDARY. After `Quoted(v)` and its line
      break, the parser reads `v` exactly for recoverable values, and then stops where the
      serialiser did. */
  lemma {:induction false} ValueBoundary(v: Text, rest: Text)
    ensures var r := Value(SkipBlanks(Quoted(v) + [NEWLINE] + rest));
            (Matches(r, v) <==> Recoverable(v)) && (Recoverable(v) ==> r == Some((v, rest)))
  {
    if !NeedsQuotes(v) {
      BareValue(v, rest);
    } else {
      var d := if QUOTE in v then TRIPLE else [QUOTE];
      var s := Quoted(v) + [NEWLINE] + rest;
      assert s == d + v + d + [NEWLINE] + rest;
      assert s[0] == QUOTE;
      assert SkipBlanks(s) == s;
      DelimitedValue(v, d, rest);
      if d == [QUOTE] {
        NoEarlyQuote(v);
      }
    }
  }

  // ---- the gate on a generated prefix ----

  lemma {:induction false} FromDecides(path: Text, rest: Text, template: Text, system: Text)
    requires forall k | 0 <= k < |path| :: !Break(path[k])
    ensures Passes(FROM + [SPACE] + path + [NEWLINE] + rest, START, template, system) <==>
              PlainPath(path) && Passes(rest, START.(from := true), template, system)
  {
    var arg := path + [NEWLINE] + rest;
    assert FROM + [SPACE] + path + [NEWLINE] + rest == FROM + [SPACE] + arg;
    AtKeyword(FROM, arg, START, template, system);
    PathLine(path, rest, true, START);
  }

  /** Before the template: a path was found and nothing else. */
  const PATHS: Flags := Flags(true, false, false, false)

  lemma {:induction false} AdapterDecides(v: Text, rest: Text, template: Text, system: Text)
    requires RETURN !in v
    ensures Passes(ADAPTER + [SPACE] + Quoted(v) + [NEWLINE] + rest, PATHS, template, system) <==>
              PlainAdapter(v) && Passes(rest, PATHS, template, system)
  {
    var arg := Quoted(v) + [NEWLINE] + rest;
    assert ADAPTER + [SPACE] + Quoted(v) + [NEWLINE] + rest == ADAPTER + [SPACE] + arg;
    AtKeyword(ADAPTER, arg, PATHS, template, system);
    if NeedsQuotes(v) {
      assert arg[0] == QUOTE;
      QuotedPath(arg, false, PATHS);
    } else {
      assert forall k | 0 <= k < |v| :: v[k] in v;
      PathLine(v, rest, false, PATHS);
    }
  }

  predicate AllPlain(adapters: seq<Text>) { forall i | 0 <= i < |adapters| :: PlainAdapter(adapters[i]) }

  lemma {:induction false} AdaptersDecide(adapters: seq<Text>, rest: Text, template: Text, system: Text)
    requires forall i | 0 <= i < |adapters| :: RETURN !in adapters[i]
    ensures Passes(AdapterLines(adapters) + rest, PATHS, template, system) <==>
              AllPlain(adapters) && Passes(rest, PATHS, template, system)
  {
    if adapters == [] {
      assert AdapterLines(adapters) + rest == rest;
    } else {
      var v, more := adapters[0], AdapterLines(adapters[1..]) + rest;
      assert AdapterLines(adapters) + rest == ADAPTER + [SPACE] + Quoted(v) + [NEWLINE] + more;
      AdapterDecides(v, more, template, system);
      AdaptersDecide(adapters[1..], rest, template, system);
      assert adapters == [v] + adapters[1..];
    }
  }

  /** A value taken against the metadata it was written from. */
  lemma {:induction false} TakesOwnValue(v: Text, rest: Text, next: Flags)
    ensures TakeValue(SkipBlanks(Quoted(v) + [NEWLINE] + rest), Some(v), false, next) ==
            if Recoverable(v) then Continue(rest, next) else Reject
  {
    ValueBoundary(v, rest);
    var r := Value(SkipBlanks(Quoted(v) + [NEWLINE] + rest));
    assert Matches(r, v) <==> Recoverable(v);
  }

  lemma {:induction false} TemplateDecides(v: Text, rest: Text, system: Text)
    ensures Passes(ValueLine(TEMPLATE, v) + rest, PATHS, v, system) <==>
              Recoverable(v) && Passes(rest, PATHS.(template := true), v, system)
  {
    var arg := Quoted(v) + [NEWLINE] + rest;
    assert ValueLine(TEMPLATE, v) + rest == TEMPLATE + [SPACE] + arg;
    AtKeyword(TEMPLATE, arg, PATHS, v, system);
    TakesOwnValue(v, rest, PATHS.(template := true));
  }

  lemma {:induction false} SystemDecides(v: Text, rest: Text, template: Text)
    requires v != []
    ensures Passes(ValueLine(SYSTEM, v) + rest, PATHS.(template := true), template, v) <==>
              Recoverable(v) && Passes(rest, Flags(true, true, true, false), template, v)
  {
    var arg := Quoted(v) + [NEWLINE] + rest;
    assert ValueLine(SYSTEM, v) + rest == SYSTEM + [SPACE] + arg;
    AtKeyword(SYSTEM, arg, PATHS.(template := true), template, v);
    TakesOwnValue(v, rest, Flags(true, true, true, false));
  }

  /** Every field of the prefix is one the gate can read back. */
  predicate PrefixReadable(path: Text, adapters: seq<Text>, template: Text, system: Text) {
    PlainPath(path) && AllPlain(adapters) && Recoverable(template) && (system == [] || Recoverable(system))
  }

  lemma {:induction false} Associates(a: Text, b: Text, c: Text, d: Text, e: Text)
    ensures a + b + c + d + e == a + (b + (c + (d + e)))
  {
    assert a + b + c + d + e == a + b + c + (d + e) == a + b + (c + (d + e));
  }

  /** THE GATE IS EXACT ON GENERATED PREFIXES. Whatever follows, it is judged from the true
      end of the prefix, and only if every field is readable. */
  lemma {:induction false} PrefixDecides(path: Text, adapters: seq<Text>, template: Text, system: Text, tail: Text)
    requires forall k | 0 <= k < |path| :: !Break(path[k])
    requires forall i | 0 <= i < |adapters| :: RETURN !in adapters[i]
    ensures Passes(Prefix(path, adapters, template, system) + tail, START, template, system) <==>
              && PrefixReadable(path, adapters, template, system)
              && Passes(tail, Flags(true, true, system != [], false), template, system)
  {
    var systemLine := if system == [] then [] else ValueLine(SYSTEM, system);
    var afterTemplate := systemLine + tail;
    var afterAdapters := ValueLine(TEMPLATE, template) + afterTemplate;
    var afterFrom := AdapterLines(adapters) + afterAdapters;
    Associates(FROM + [SPACE] + path + [NEWLINE], AdapterLines(adapters), ValueLine(TEMPLATE, template), systemLine, tail);
    FromDecides(path, afterFrom, template, system);
    AdaptersDecide(adapters, afterAdapters, template, system);
    TemplateDecides(template, afterTemplate, system);
    if system == [] {
      assert afterTemplate == tail;
    } else {
      SystemDecides(system, tail, template);
    }
  }

  /** The word at the front of a text that begins with the keyword begins with it. */
  lemma {:induction false} KeywordFirst(word: Text, suffix: Text, end: nat)
    requires Keyword(word) && end < |word + suffix| && White((word + suffix)[end])
    ensures end >= |word| && word <= Upper((word + suffix)[..end])
  {
    var s := word + suffix;
    assert end >= |word| by {
      assert forall k | 0 <= k < |word| :: s[k] == word[k] && !White(s[k]);
    }
    var more := suffix[..end - |word|];
    assert s[..end] == word + more;
    UpperKeyword(word, more);
  }

  /** Where no command that begins like the keyword is accepted, the keyword is refused. */
  lemma {:induction false} KeywordRefused(word: Text, suffix: Text, f: Flags, template: Text, system: Text)
    requires Keyword(word)
    requires forall w, arg {:trigger Command(w, arg, f, template, system)} | word <= w :: Command(w, arg, f, template, system) == Reject
    ensures !Passes(word + suffix, f, template, system)
  {
    var s := word + suffix;
    assert s[0] == word[0];
    assert SkipWhite(s) == s;
    assert Passes(s, f, template, system) ==> GateFrom(s, f, template, system);
    var end := FirstWhite(s);
    if end >= 0 && !Break(s[end]) {
      KeywordFirst(word, suffix, end);
      assert Command(Upper(s[..end]), SkipBlanks(s[end..]), f, template, system) == Reject;
    }
  }

  /** A renderer command is refused wherever it stands, whatever follows its keyword. */
  lemma {:induction false} RendererRefused(suffix: Text, f: Flags, template: Text, system: Text)
    ensures !Passes(RENDERER + suffix, f, template, system)
  {
    forall w, arg | RENDERER <= w ensures Command(w, arg, f, template, system) == Reject {
      assert w[0] == 82 && w[2] == 78;
    }
    KeywordRefused(RENDERER, suffix, f, template, system);
  }

  /** So is a stored message. */
  lemma {:induction false} MessageRefused(suffix: Text, f: Flags, template: Text, system: Text)
    ensures !Passes(MESSAGE + suffix, f, template, system)
  {
    forall w, arg | MESSAGE <= w ensures Command(w, arg, f, template, system) == Reject {
      assert w[0] == 77;
    }
    KeywordRefused(MESSAGE, suffix, f, template, system);
  }

  /** NO HIDDEN RENDERER. A generated Modelfile that holds a renderer is refused, for every
      path, adapters, template, system text and continuation. */
  lemma {:induction false} NoHiddenRenderer(path: Text, adapters: seq<Text>, template: Text, system: Text, suffix: Text)
    requires forall k | 0 <= k < |path| :: !Break(path[k])
    requires forall i | 0 <= i < |adapters| :: RETURN !in adapters[i]
    ensures !Gate(Prefix(path, adapters, template, system) + RENDERER + suffix, template, system)
  {
    var p := Prefix(path, adapters, template, system);
    assert p + RENDERER + suffix == p + (RENDERER + suffix);
    PrefixDecides(path, adapters, template, system, RENDERER + suffix);
    RendererRefused(suffix, Flags(true, true, system != [], false), template, system);
    assert Passes(p + (RENDERER + suffix), START, template, system) <==> GateFrom(p + (RENDERER + suffix), START, template, system);
  }

  /** Without a renderer the prefix is accepted exactly when it is readable. */
  lemma {:induction false} PlainAccepted(path: Text, adapters: seq<Text>, template: Text, system: Text)
    requires forall k | 0 <= k < |path| :: !Break(path[k])
    requires forall i | 0 <= i < |adapters| :: RETURN !in adapters[i]
    ensures var p := Prefix(path, adapters, template, system);
            Gate(p, template, system) <==> 0 !in p && PrefixReadable(path, adapters, template, system)
  {
    var p := Prefix(path, adapters, template, system);
    assert p + [] == p;
    PrefixDecides(path, adapters, template, system, []);
    assert SkipWhite([]) == [];
    assert Passes(p, START, template, system) <==> GateFrom(p, START, template, system);
    assert GateFrom([], Flags(true, true, system != [], false), template, system);
  }

  // ---- what may stand behind the prefix ----

  /** The commands that may follow the prefix. */
  predicate TailWord(word: Text) { word == LICENSE || word == PARSER || word == REQUIRES || word == PARAMETER }

  /** Everything the gate compares with metadata was read. */
  predicate PrefixDone(f: Flags, system: Text) { f.from && f.template && (system == [] || f.system) }

  /** The command word at the front of a text. */
  function Word(s: Text): Text { if FirstWhite(s) < 0 then s else s[..FirstWhite(s)] }

  /** BEHIND THE PREFIX ONLY FOUR COMMANDS PASS, each followed by a blank. */
  lemma {:induction false} OnlyTailWords(s: Text, f: Flags, template: Text, system: Text)
    requires s != [] && !White(s[0]) && s[0] != HASH && PrefixDone(f, system) && Passes(s, f, template, system)
    ensures TailWord(Upper(Word(s))) && FirstWhite(s) >= 0 && Blank(s[FirstWhite(s)])
  {
    assert SkipWhite(s) == s;
    assert GateFrom(s, f, template, system);
    var end := FirstWhite(s);
    OnlyTailCommands(Upper(s[..end]), SkipBlanks(s[end..]), f, template, system);
  }

  lemma {:induction false} OnlyTailCommands(word: Text, arg: Text, f: Flags, template: Text, system: Text)
    requires PrefixDone(f, system) && Command(word, arg, f, template, system).Continue?
    ensures TailWord(word)
  {
  }

  /** A line behind the prefix, as the serialiser writes it or as a comment. */
  datatype TailLine = Comment(text: Text) | Setting(word: Text, value: Text) | Parameter(name: Text, value: Text)

  function TailText(l: TailLine): Text {
    match l
    case Comment(text) => [HASH] + text + [NEWLINE]
    case Setting(word, value) => ValueLine(word, value)
    case Parameter(name, value) => PARAMETER + [SPACE] + name + [SPACE] + Quoted(value) + [NEWLINE]
  }

  /** One line; its value is one the parser gets back. */
  predicate TailReadable(l: TailLine) {
    match l
    case Comment(text) => forall k | 0 <= k < |text| :: !Break(text[k])
    case Setting(word, value) => SettingWord(word) && ReadsBack(value)
    case Parameter(name, value) => name != [] && (forall k | 0 <= k < |name| :: !White(name[k])) && ReadsBack(value)
  }

  /** Parameters are named by letters, digits and underscores. */
  predicate Named(l: TailLine) { l.Parameter? ==> forall k | 0 <= k < |l.name| :: NameByte(l.name[k]) }

  function TailFlags(f: Flags, l: TailLine): Flags { if l.Comment? then f else f.(tail := true) }

  lemma {:induction false} CommentDecides(text: Text, rest: Text, f: Flags, template: Text, system: Text)
    requires forall k | 0 <= k < |text| :: !Break(text[k])
    ensures Passes([HASH] + text + [NEWLINE] + rest, f, template, system) <==> Passes(rest, f, template, system)
  {
    var v := [HASH] + text;
    var s := v + [NEWLINE] + rest;
    assert s[0] == HASH && SkipWhite(s) == s;
    LineIs(v, rest);
    assert Turn(s, f, template, system) == Continue(rest, f);
    assert GateFrom(s, f, template, system) <==> GateFrom(rest, f, template, system);
  }

  /** Recoverable as a one-point quantifier, so that callers do not unfold it. */
  predicate ReadsBack(v: Text) { forall x {:trigger Recoverable(x)} | x == v :: Recoverable(x) }

  /** A value that no metadata is compared with. */
  lemma {:induction false} TakesReadable(v: Text, rest: Text, mayBeEmpty: bool, next: Flags)
    requires ReadsBack(v)
    ensures TakeValue(SkipBlanks(Quoted(v) + [NEWLINE] + rest), None, mayBeEmpty, next) == Continue(rest, next)
  {
    assert Recoverable(v);
    ValueBoundary(v, rest);
  }

  predicate SettingWord(word: Text) { word == LICENSE || word == PARSER || word == REQUIRES }

  lemma {:induction false} SettingCommand(word: Text, arg: Text, f: Flags, template: Text, system: Text)
    requires SettingWord(word) && PrefixDone(f, system)
    ensures Keyword(word) && Command(word, arg, f, template, system) == TakeValue(arg, None, false, f.(tail := true))
  {
    OtherWords(word);
  }

  lemma {:induction false} OtherWords(word: Text)
    requires SettingWord(word)
    ensures word != RENDERER && word != MESSAGE && word != FROM && word != ADAPTER && word != TEMPLATE && word != SYSTEM
    ensures Keyword(word)
  {
    assert word[0] == 76 || word[0] == 80 || (word[0] == 82 && word[2] == 81);
  }

  lemma {:induction false} ParameterCommand(arg: Text, f: Flags, template: Text, system: Text)
    requires PrefixDone(f, system)
    ensures Keyword(PARAMETER) && Command(PARAMETER, arg, f, template, system) == TakeParameter(arg, f.(tail := true))
  {
  }

  /** AtKeyword for a command whose outcome is known. */
  lemma {:induction false} AtCommand(word: Text, arg: Text, f: Flags, template: Text, system: Text, p: Progress)
    requires Keyword(word) && Command(word, SkipBlanks(arg), f, template, system) == p
    ensures Passes(word + [SPACE] + arg, f, template, system) <==> p.Continue? && Passes(p.rest, p.flags, template, system)
  {
    AtKeyword(word, arg, f, template, system);
  }

  lemma {:induction false} SettingDecides(word: Text, v: Text, rest: Text, f: Flags, template: Text, system: Text)
    requires PrefixDone(f, system) && TailReadable(Setting(word, v))
    ensures Passes(ValueLine(word, v) + rest, f, template, system) <==> Passes(rest, f.(tail := true), template, system)
  {
    var arg := Quoted(v) + [NEWLINE] + rest;
    assert ValueLine(word, v) + rest == word + [SPACE] + arg;
    SettingCommand(word, SkipBlanks(arg), f, template, system);
    TakesReadable(v, rest, false, f.(tail := true));
    AtCommand(word, arg, f, template, system, Continue(rest, f.(tail := true)));
  }

  lemma {:induction false} ParameterDecides(name: Text, v: Text, rest: Text, f: Flags, template: Text, system: Text)
    requires PrefixDone(f, system) && TailReadable(Parameter(name, v))
    ensures Passes(TailText(Parameter(name, v)) + rest, f, template, system) <==>
              Named(Parameter(name, v)) && Passes(rest, f.(tail := true), template, system)
  {
    var value := Quoted(v) + [NEWLINE] + rest;
    var arg := name + [SPACE] + value;
    assert TailText(Parameter(name, v)) + rest == PARAMETER + [SPACE] + arg;
    ParameterCommand(arg, f, template, system);
    assert arg[0] == name[0] && SkipBlanks(arg) == arg;
    ParameterTaken(name, v, rest, f.(tail := true));
    AtCommand(PARAMETER, arg, f, template, system, TakeParameter(arg, f.(tail := true)));
  }

  lemma {:induction false} ParameterTaken(name: Text, v: Text, rest: Text, f: Flags)
    requires TailReadable(Parameter(name, v))
    ensures TakeParameter(name + [SPACE] + (Quoted(v) + [NEWLINE] + rest), f) ==
            if Named(Parameter(name, v)) then Continue(rest, f) else Reject
  {
    NameTaken(name, Quoted(v) + [NEWLINE] + rest, f);
    TakesReadable(v, rest, true, f);
  }

  lemma {:induction false} NameTaken(name: Text, value: Text, f: Flags)
    requires name != [] && forall k | 0 <= k < |name| :: !White(name[k])
    ensures TakeParameter(name + [SPACE] + value, f) ==
            if Named(Parameter(name, [])) then TakeValue(SkipBlanks(value), None, true, f) else Reject
  {
    var arg := name + [SPACE] + value;
    var n := |name|;
    assert arg[n] == SPACE && forall k | 0 <= k < n :: arg[k] == name[k];
    assert FirstWhite(arg) == n;
    assert arg[n..] == [SPACE] + value && ([SPACE] + value)[1..] == value;
  }

  /** One readable line behind the prefix is passed exactly if its parameter is well named, and what
      follows is judged from its true end. */
  lemma {:induction false} TailLineDecides(l: TailLine, rest: Text, f: Flags, template: Text, system: Text)
    requires PrefixDone(f, system) && TailReadable(l)
    ensures Passes(TailText(l) + rest, f, template, system) <==> Named(l) && Passes(rest, TailFlags(f, l), template, system)
  {
    match l {
      case Comment(text) => CommentDecides(text, rest, f, template, system);
      case Setting(word, value) => SettingDecides(word, value, rest, f, template, system);
      case Parameter(name, value) => ParameterDecides(name, value, rest, f, template, system);
    }
  }

  // ---- empty values ----

  const EMPTY: Text := [34, 34]

  lemma {:induction false} EmptyRead(rest: Text)
    ensures Value(EMPTY + [NEWLINE] + rest) == Some(([], rest)) && SkipBlanks(EMPTY + [NEWLINE] + rest) == EMPTY + [NEWLINE] + rest
  {
    var s := EMPTY + [NEWLINE] + rest;
    assert s[0] == QUOTE && s[2] == NEWLINE;
    assert !(TRIPLE <= s);
    var body := [] + [QUOTE] + ([NEWLINE] + rest);
    assert s[1..] == body;
    Closed([], [QUOTE], rest);
    assert body[..0] == [];
  }

  /** Only a parameter may be empty. */
  lemma {:induction false} EmptySetting(word: Text, rest: Text, f: Flags, template: Text, system: Text)
    requires PrefixDone(f, system) && SettingWord(word)
    ensures !Passes(word + [SPACE] + (EMPTY + [NEWLINE] + rest), f, template, system)
  {
    var arg := EMPTY + [NEWLINE] + rest;
    EmptyRead(rest);
    SettingCommand(word, arg, f, template, system);
    AtCommand(word, arg, f, template, system, Reject);
  }

  lemma {:induction false} EmptyParameter(name: Text, rest: Text, f: Flags, template: Text, system: Text)
    requires PrefixDone(f, system) && name != [] && forall k | 0 <= k < |name| :: !White(name[k])
    ensures Passes(PARAMETER + [SPACE] + (name + [SPACE] + (EMPTY + [NEWLINE] + rest)), f, template, system) <==>
              Named(Parameter(name, [])) && Passes(rest, f.(tail := true), template, system)
  {
    var value := EMPTY + [NEWLINE] + rest;
    var arg := name + [SPACE] + value;
    EmptyRead(rest);
    ParameterCommand(arg, f, template, system);
    assert arg[0] == name[0] && SkipBlanks(arg) == arg;
    NameTaken(name, value, f.(tail := true));
    AtCommand(PARAMETER, arg, f, template, system, TakeParameter(arg, f.(tail := true)));
  }

  // ---- whole files ----

  function TailTexts(ls: seq<TailLine>): Text { if ls == [] then [] else TailText(ls[0]) + TailTexts(ls[1..]) }

  predicate AllReadable(ls: seq<TailLine>) { forall i | 0 <= i < |ls| :: TailReadable(ls[i]) }

  predicate AllNamed(ls: seq<TailLine>) { forall i | 0 <= i < |ls| :: Named(ls[i]) }

  function FlagsAfter(f: Flags, ls: seq<TailLine>): (g: Flags)
    ensures g == f || g == f.(tail := true)
    decreases |ls|
  {
    if ls == [] then f else FlagsAfter(TailFlags(f, ls[0]), ls[1..])
  }

  lemma {:induction false} TailDecides(ls: seq<TailLine>, rest: Text, f: Flags, template: Text, system: Text)
    requires PrefixDone(f, system) && AllReadable(ls)
    ensures Passes(TailTexts(ls) + rest, f, template, system) <==>
              AllNamed(ls) && Passes(rest, FlagsAfter(f, ls), template, system)
  {
    if ls == [] {
      assert TailTexts(ls) + rest == rest;
    } else {
      var more := TailTexts(ls[1..]) + rest;
      assert TailTexts(ls) + rest == TailText(ls[0]) + more;
      TailLineDecides(ls[0], more, f, template, system);
      TailDecides(ls[1..], rest, TailFlags(f, ls[0]), template, system);
      assert AllNamed(ls) <==> Named(ls[0]) && AllNamed(ls[1..]) by {
        assert ls == [ls[0]] + ls[1..];
      }
    }
  }

  /** A generated file with lines behind its prefix. */
  function FileText(path: Text, adapters: seq<Text>, template: Text, system: Text, ls: seq<TailLine>): Text {
    Prefix(path, adapters, template, system) + TailTexts(ls)
  }

  /** THE GATE IS EXACT ON WHOLE FILES. Behind the prefix and any readable lines, what follows is
      judged from their true end. */
  lemma {:induction false} FileDecides(path: Text, adapters: seq<Text>, template: Text, system: Text, ls: seq<TailLine>, rest: Text)
    requires forall k | 0 <= k < |path| :: !Break(path[k])
    requires (forall i | 0 <= i < |adapters| :: RETURN !in adapters[i]) && AllReadable(ls)
    ensures Passes(FileText(path, adapters, template, system, ls) + rest, START, template, system) <==>
              && PrefixReadable(path, adapters, template, system) && AllNamed(ls)
              && Passes(rest, FlagsAfter(Flags(true, true, system != [], false), ls), template, system)
  {
    var p, tail := Prefix(path, adapters, template, system), TailTexts(ls) + rest;
    assert FileText(path, adapters, template, system, ls) + rest == p + tail;
    PrefixDecides(path, adapters, template, system, tail);
    TailDecides(ls, rest, Flags(true, true, system != [], false), template, system);
  }

  /** A whole generated file with readable lines is accepted exactly if its prefix is readable, its
      parameters are well named and it is free of NUL. */
  lemma {:induction false} FileAccepted(path: Text, adapters: seq<Text>, template: Text, system: Text, ls: seq<TailLine>)
    requires forall k | 0 <= k < |path| :: !Break(path[k])
    requires (forall i | 0 <= i < |adapters| :: RETURN !in adapters[i]) && AllReadable(ls)
    ensures var file := FileText(path, adapters, template, system, ls);
            Gate(file, template, system) <==> 0 !in file && PrefixReadable(path, adapters, template, system) && AllNamed(ls)
  {
    var file := FileText(path, adapters, template, system, ls);
    assert file + [] == file;
    FileDecides(path, adapters, template, system, ls, []);
    assert SkipWhite([]) == [];
    assert Passes(file, START, template, system) <==> GateFrom(file, START, template, system);
    assert GateFrom([], FlagsAfter(Flags(true, true, system != [], false), ls), template, system);
  }

  /** NOTHING ELSE BEHIND THE PREFIX. Behind the prefix and any readable lines, the next command of
      an accepted file is one of the four, whatever it is and whatever follows: a renderer, a
      message, a second FROM, ADAPTER, TEMPLATE or SYSTEM and every unknown command are refused. */
  lemma {:induction false} NothingElseBehind(path: Text, adapters: seq<Text>, template: Text, system: Text, ls: seq<TailLine>, s: Text)
    requires forall k | 0 <= k < |path| :: !Break(path[k])
    requires (forall i | 0 <= i < |adapters| :: RETURN !in adapters[i]) && AllReadable(ls)
    requires s != [] && !White(s[0]) && s[0] != HASH
    requires Gate(FileText(path, adapters, template, system, ls) + s, template, system)
    ensures TailWord(Upper(Word(s)))
  {
    var file := FileText(path, adapters, template, system, ls) + s;
    assert Passes(file, START, template, system) <==> GateFrom(file, START, template, system);
    FileDecides(path, adapters, template, system, ls, s);
    OnlyTailWords(s, FlagsAfter(Flags(true, true, system != [], false), ls), template, system);
  }

  /** A MESSAGE BEHIND THE PREFIX IS REFUSED, like every command that may stand in it only once. */
  lemma {:induction false} NoSecondPrefix(path: Text, adapters: seq<Text>, template: Text, system: Text, ls: seq<TailLine>, word: Text, suffix: Text)
    requires forall k | 0 <= k < |path| :: !Break(path[k])
    requires (forall i | 0 <= i < |adapters| :: RETURN !in adapters[i]) && AllReadable(ls)
    requires word in {MESSAGE, RENDERER, FROM, ADAPTER, TEMPLATE, SYSTEM}
    ensures !Gate(FileText(path, adapters, template, system, ls) + (word + suffix), template, system)
  {
    NotTail(word, suffix);
    if Gate(FileText(path, adapters, template, system, ls) + (word + suffix), template, system) {
      NothingElseBehind(path, adapters, template, system, ls, word + suffix);
    }
  }

  lemma {:induction false} NotTail(word: Text, suffix: Text)
    requires word in {MESSAGE, RENDERER, FROM, ADAPTER, TEMPLATE, SYSTEM}
    ensures !TailWord(Upper(Word(word + suffix)))
    ensures var s := word + suffix; s != [] && !White(s[0]) && s[0] != HASH
  {
    assert Keyword(word);
    assert (word + suffix)[0] == word[0];
    WordBegins(word, suffix);
    var w := Upper(Word(word + suffix));
    assert w[0] == word[0] && w[2] == word[2];
  }

  lemma {:induction false} WordBegins(word: Text, suffix: Text)
    requires Keyword(word)
    ensures word <= Upper(Word(word + suffix))
  {
    var s := word + suffix;
    var end := FirstWhite(s);
    if end >= 0 {
      KeywordFirst(word, suffix, end);
    } else {
      UpperKeyword(word, suffix);
    }
  }

  // ---- the order of commands in any accepted file ----

  /** The command words the loop meets until it stops. */
  function Words(source: Text, f: Flags, template: Text, system: Text): seq<Text>
    decreases |source|
  {
    var s := SkipWhite(source);
    if s == [] then []
    else
      var p := Turn(s, f, template, system);
      if p.Reject? then []
      else (if s[0] == HASH then [] else [Upper(Word(s))]) + Words(p.rest, p.flags, template, system)
  }

  /** FROM once, ADAPTER any number of times, TEMPLATE once, SYSTEM once if there is a system text,
      and then only the four. */
  predicate InOrder(words: seq<Text>, f: Flags, system: Text)
    decreases |words|
  {
    if !f.from then words != [] && words[0] == FROM && InOrder(words[1..], f.(from := true), system)
    else if !f.template then
      && words != []
      && ((words[0] == ADAPTER && InOrder(words[1..], f, system))
          || (words[0] == TEMPLATE && InOrder(words[1..], f.(template := true), system)))
    else if system != [] && !f.system then words != [] && words[0] == SYSTEM && InOrder(words[1..], f.(system := true), system)
    else forall i | 0 <= i < |words| :: TailWord(words[i])
  }

  /** What the flags can be. */
  predicate Reachable(f: Flags, system: Text) {
    (f.template ==> f.from) && (f.system ==> f.template && system != []) && (f.tail ==> PrefixDone(f, system))
  }

  /** One command keeps the order. */
  lemma {:induction false} CommandOrder(word: Text, arg: Text, f: Flags, template: Text, system: Text, more: seq<Text>)
    requires Reachable(f, system) && Command(word, arg, f, template, system).Continue?
    requires InOrder(more, Command(word, arg, f, template, system).flags, system)
    ensures Reachable(Command(word, arg, f, template, system).flags, system) && InOrder([word] + more, f, system)
  {
    assert ([word] + more)[1..] == more;
  }

  lemma {:induction false} CommandReaches(word: Text, arg: Text, f: Flags, template: Text, system: Text)
    requires Reachable(f, system) && Command(word, arg, f, template, system).Continue?
    ensures Reachable(Command(word, arg, f, template, system).flags, system)
  {
  }

  /** EVERY ACCEPTED FILE IS IN ORDER, generated or not. */
  lemma {:induction false} GateInOrder(source: Text, f: Flags, template: Text, system: Text)
    requires Reachable(f, system) && GateFrom(source, f, template, system)
    ensures InOrder(Words(source, f, template, system), f, system)
    decreases |source|
  {
    var s := SkipWhite(source);
    if s != [] {
      var p := Turn(s, f, template, system);
      if s[0] == HASH {
        GateInOrder(p.rest, f, template, system);
        assert [] + Words(p.rest, f, template, system) == Words(p.rest, f, template, system);
      } else {
        var word, arg := Upper(Word(s)), SkipBlanks(s[FirstWhite(s)..]);
        CommandReaches(word, arg, f, template, system);
        GateInOrder(p.rest, p.flags, template, system);
        CommandOrder(word, arg, f, template, system, Words(p.rest, p.flags, template, system));
      }
    }
  }

  /** Keywords are recognised in either case. */
  lemma {:induction false} UpperAscii(s: Text)
    requires forall k | 0 <= k < |s| :: s[k] < 128
    ensures |Upper(s)| == |s|
    ensures forall k | 0 <= k < |s| :: Upper(s)[k] == if 97 <= s[k] <= 122 then s[k] - 32 else s[k]
  {
    if s != [] {
      UpperAscii(s[1..]);
      assert Upper(s) == [UpperByte(s[0])] + Upper(s[1..]);
    }
  }
}
