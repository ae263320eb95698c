/**
 Parsing an HTTP/1 head in two stages: first with the inline field slots and, if those
 run out, once more with as many slots as a scan for newlines says could be needed.

 The tokenizer is a parameter: `start` lexes the start line, with any empty lines before
 it, and `field` one header field. All that is assumed of them is that they work by lines.
 */
module HeadParse {
  import opened Basics

  const INLINE_CAPACITY := 256

  datatype Error = HeaderName | HeaderValue | NewLine | Status | Token | TooManyHeaders | Version
  datatype Lexed = Took(n: nat) | Short | Refused(error: Error)
  type Lexer = seq<Byte> -> Lexed
  datatype Grammar = Grammar(start: Lexer, field: Lexer)

  datatype Span = Span(from: nat, to: nat)
  datatype Parsed = Complete(consumed: nat, fields: seq<Span>) | Partial | Failed(error: Error)
  datatype HeaderLimit = Limited(limit: nat) | Unlimited

  /** An empty line begins at `i`: the head ends here. */
  predicate BlankAt(s: seq<Byte>, i: nat) {
    i < |s| && (s[i] == LF || (s[i] == CR && i + 1 < |s| && s[i + 1] == LF))
  }

  // ----- One parse with a given number of slots -----

  /** Lex fields from `at` on; `cap` slots in all, or as many as it takes. */
  function Fields(g: Grammar, cap: Option<nat>, buf: seq<Byte>, at: nat, spans: seq<Span>): Parsed
    requires at <= |buf|
    decreases |buf| - at
  {
    if at == |buf| then Partial
    else if buf[at] == LF then Complete(at + 1, spans)
    else if buf[at] == CR then
      if at + 1 == |buf| then Partial
      else if buf[at + 1] == LF then Complete(at + 2, spans) else Failed(NewLine)
    else if cap == Some(|spans|) then Failed(TooManyHeaders)
    else
      match g.field(buf[at..])
      case Took(n) =>
        if 0 < n <= |buf| - at then Fields(g, cap, buf, at + n, spans + [Span(at, at + n)]) else Partial
      case Short => Partial
      case Refused(e) => Failed(e)
  }

  function ParseOnce(g: Grammar, cap: Option<nat>, buf: seq<Byte>): Parsed {
    match g.start(buf)
    case Took(n) => if 0 < n <= |buf| then Fields(g, cap, buf, n, []) else Partial
    case Short => Partial
    case Refused(e) => Failed(e)
  }

  // ----- The tokenizer works by lines -----

  /** Where the empty lines that begin at `i` end. */
  function SkipEmpty(s: seq<Byte>, i: nat): (k: nat)
    requires i <= |s|
    ensures i <= k <= |s| && !BlankAt(s, k)
    decreases |s| - i
  {
    if !BlankAt(s, i) then i else SkipEmpty(s, LineAfter(s, i))
  }

  function LineAfter(s: seq<Byte>, i: nat): (k: nat)
    requires BlankAt(s, i)
    ensures i < k <= |s|
  {
    if s[i] == LF then i + 1 else i + 2
  }

  predicate TwoEmptyLines(s: seq<Byte>) { BlankAt(s, 0) && BlankAt(s, LineAfter(s, 0)) }

  lemma {:induction false} OneEmptyLine(s: seq<Byte>)
    requires BlankAt(s, 0)
    ensures
      var one := LineAfter(s, 0);
      SkipEmpty(s, 0) == if TwoEmptyLines(s) then SkipEmpty(s, LineAfter(s, one)) else one
  {
    assert SkipEmpty(s, 0) == SkipEmpty(s, LineAfter(s, 0));
  }

  /** What was taken ends a line and, from `from` on, holds no empty line. */
  ghost predicate TakesLines(lexed: Lexed, s: seq<Byte>, from: nat) {
    match lexed
    case Took(n) =>
      from < n <= |s| && s[n - 1] == LF && forall i | from <= i < n - 1 && s[i] == LF :: !BlankAt(s, i + 1)
    case Short => true
    case Refused(e) => !e.TooManyHeaders?
  }

  ghost predicate LineGrammar(g: Grammar, buf: seq<Byte>) {
    && TakesLines(g.start(buf), buf, SkipEmpty(buf, 0))
    && forall at | 0 <= at <= |buf| :: TakesLines(g.field(buf[at..]), buf[at..], 0)
  }

  // ----- What a complete head is -----

  /** From `at` on the spans follow one another, each a field as the tokenizer takes it, up to the last, empty line. */
  ghost predicate Tiles(g: Grammar, buf: seq<Byte>, at: nat, spans: seq<Span>, n: nat)
    decreases |spans|
  {
    at < |buf| &&
    if spans == [] then BlankAt(buf, at) && n == LineAfter(buf, at)
    else
      var to := spans[0].to;
      && buf[at] != LF && buf[at] != CR && spans[0] == Span(at, to) && at < to <= |buf|
      && g.field(buf[at..]) == Took(to - at) && Tiles(g, buf, to, spans[1..], n)
  }

  lemma {:induction false} FieldsIff(
      g: Grammar, cap: Option<nat>, buf: seq<Byte>, at: nat, before: seq<Span>, n: nat, rest: seq<Span>)
    requires at <= |buf| && (cap.Some? ==> |before| <= cap.value)
    ensures
      Fields(g, cap, buf, at, before) == Complete(n, before + rest) <==>
      Tiles(g, buf, at, rest, n) && (cap.Some? ==> |before + rest| <= cap.value)
    decreases |buf| - at
  {
    if at < |buf| && buf[at] != LF && buf[at] != CR && cap != Some(|before|) && g.field(buf[at..]).Took? {
      var to := at + g.field(buf[at..]).n;
      if at < to <= |buf| {
        var span := Span(at, to);
        FieldsReach(g, cap, buf, to, before + [span]);
        if rest != [] && rest[0] == span {
          assert before + rest == before + [span] + rest[1..];
          FieldsIff(g, cap, buf, to, before + [span], n, rest[1..]);
        }
        assert before + [span] <= before + rest ==> rest != [] && rest[0] == span by { NextOne(before, span, rest); }
      }
    }
    if rest == [] { assert before + rest == before; }
  }

  lemma {:induction false} NextOne(before: seq<Span>, span: Span, rest: seq<Span>)
    ensures before + [span] <= before + rest ==> rest != [] && rest[0] == span
  {
    if before + [span] <= before + rest { assert (before + rest)[|before|] == (before + [span])[|before|]; }
  }

  /** The spans found so far stay in front. */
  lemma {:induction false} FieldsReach(g: Grammar, cap: Option<nat>, buf: seq<Byte>, at: nat, before: seq<Span>)
    requires at <= |buf|
    ensures var r := Fields(g, cap, buf, at, before); r.Complete? ==> before <= r.fields
    decreases |buf| - at
  {
    if at < |buf| && buf[at] != LF && buf[at] != CR && cap != Some(|before|) && g.field(buf[at..]).Took? {
      var to := at + g.field(buf[at..]).n;
      if at < to <= |buf| { FieldsReach(g, cap, buf, to, before + [Span(at, to)]); }
    }
  }

  /** A head is complete exactly when fields tile it from the start line to the empty line, and fit the slots. */
  lemma {:induction false} CompleteIff(g: Grammar, cap: Option<nat>, buf: seq<Byte>, n: nat, spans: seq<Span>)
    ensures
      ParseOnce(g, cap, buf) == Complete(n, spans) <==>
      && g.start(buf).Took? && 0 < g.start(buf).n <= |buf|
      && Tiles(g, buf, g.start(buf).n, spans, n) && (cap.Some? ==> |spans| <= cap.value)
  {
    if g.start(buf).Took? && 0 < g.start(buf).n <= |buf| {
      FieldsIff(g, cap, buf, g.start(buf).n, [], n, spans);
      assert [] + spans == spans;
    }
  }

  // ----- The newline scan -----

  /** Newlines from `i` up to the one before the empty line, and one more if there is an empty line. */
  function NewlineScan(buf: seq<Byte>, i: nat): nat
    requires i <= |buf|
    decreases |buf| - i
  {
    if i == |buf| then 0
    else if buf[i] != LF then NewlineScan(buf, i + 1)
    else if BlankAt(buf, i + 1) then 2
    else 1 + NewlineScan(buf, i + 1)
  }

  function InitialCapacity(limit: HeaderLimit): nat {
    match limit case Limited(l) => Min(l, INLINE_CAPACITY) case Unlimited => INLINE_CAPACITY
  }

  function ExpandedSpec(limit: HeaderLimit, current: nat, buf: seq<Byte>): Option<nat> {
    var bound := Max(NewlineScan(buf, 0), current + 1);
    match limit
    case Limited(l) => if l > current then Some(Min(l, bound)) else None
    case Unlimited => Some(bound)
  }

  /** No empty line follows a line that ends between the two. */
  ghost predicate OpenBetween(buf: seq<Byte>, from: nat, to: nat) {
    to <= |buf| && forall i | from <= i < to && buf[i] == LF :: !BlankAt(buf, i + 1)
  }

  function Newlines(buf: seq<Byte>, i: nat, at: nat): nat
    requires i <= at <= |buf|
    decreases at - i
  {
    if i == at then 0 else (if buf[i] == LF then 1 else 0) + Newlines(buf, i + 1, at)
  }

  lemma {:induction false} ScanCountsOpenLines(buf: seq<Byte>, i: nat, at: nat)
    requires i <= at && OpenBetween(buf, i, at)
    ensures NewlineScan(buf, i) == Newlines(buf, i, at) + NewlineScan(buf, at)
    decreases at - i
  {
    if i < at { ScanCountsOpenLines(buf, i + 1, at); }
  }

  lemma {:induction false} LineHasNewline(buf: seq<Byte>, from: nat, to: nat)
    requires from < to <= |buf| && buf[to - 1] == LF
    ensures Newlines(buf, from, to) >= 1
    decreases |buf| - from
  {
    if from + 1 < to { LineHasNewline(buf, from + 1, to); }
  }

  /** A line taken at `at` that is not followed by an empty line adds to the scan. */
  lemma {:induction false} TakenLineIsCounted(buf: seq<Byte>, at: nat, to: nat)
    requires at < to && OpenBetween(buf, at, to) && buf[to - 1] == LF
    ensures NewlineScan(buf, at) >= 1 + NewlineScan(buf, to)
  {
    ScanCountsOpenLines(buf, at, to);
    LineHasNewline(buf, at, to);
  }

  // ----- Slots -----

  /** How many slots are asked for from `at` on, if none is refused. */
  function Asked(g: Grammar, buf: seq<Byte>, at: nat): nat
    requires at <= |buf|
    decreases |buf| - at
  {
    if at == |buf| || buf[at] == LF || buf[at] == CR then 0
    else
      match g.field(buf[at..])
      case Took(n) => if 0 < n <= |buf| - at then 1 + Asked(g, buf, at + n) else 1
      case _ => 1
  }

  function SlotsAsked(g: Grammar, buf: seq<Byte>): nat {
    match g.start(buf)
    case Took(n) => if 0 < n <= |buf| then Asked(g, buf, n) else 0
    case _ => 0
  }

  lemma {:induction false} FieldsWithSlots(g: Grammar, cap: nat, buf: seq<Byte>, at: nat, spans: seq<Span>)
    requires at <= |buf| && |spans| <= cap
    ensures Fields(g, Some(cap), buf, at, spans) ==
            if |spans| + Asked(g, buf, at) <= cap then Fields(g, None, buf, at, spans) else Failed(TooManyHeaders)
    decreases |buf| - at
  {
    if at < |buf| && buf[at] != LF && buf[at] != CR && |spans| < cap {
      match g.field(buf[at..])
      case Took(n) =>
        if 0 < n <= |buf| - at { FieldsWithSlots(g, cap, buf, at + n, spans + [Span(at, at + n)]); }
      case Short =>
      case Refused(_) =>
    }
  }

  /** A parse runs out of slots iff it asks for more than there are, and otherwise does not depend on them. */
  lemma {:induction false} SlotsDecide(g: Grammar, cap: nat, buf: seq<Byte>)
    ensures ParseOnce(g, Some(cap), buf) ==
            if SlotsAsked(g, buf) <= cap then ParseOnce(g, None, buf) else Failed(TooManyHeaders)
  {
    match g.start(buf)
    case Took(n) => if 0 < n <= |buf| { FieldsWithSlots(g, cap, buf, n, []); }
    case Short =>
    case Refused(_) =>
  }

  lemma {:induction false} UnlimitedHasRoom(g: Grammar, buf: seq<Byte>)
    requires LineGrammar(g, buf)
    ensures ParseOnce(g, None, buf) != Failed(TooManyHeaders)
  {
    match g.start(buf)
    case Took(n) => UnlimitedFieldsHaveRoom(g, buf, n, []);
    case Short =>
    case Refused(_) =>
  }

  lemma {:induction false} UnlimitedFieldsHaveRoom(g: Grammar, buf: seq<Byte>, at: nat, spans: seq<Span>)
    requires LineGrammar(g, buf) && at <= |buf|
    ensures Fields(g, None, buf, at, spans) != Failed(TooManyHeaders)
    decreases |buf| - at
  {
    if at < |buf| && buf[at] != LF && buf[at] != CR {
      assert TakesLines(g.field(buf[at..]), buf[at..], 0);
      match g.field(buf[at..])
      case Took(n) => UnlimitedFieldsHaveRoom(g, buf, at + n, spans + [Span(at, at + n)]);
      case Short =>
      case Refused(_) =>
    }
  }

  lemma {:induction false} FieldIsOpen(g: Grammar, buf: seq<Byte>, at: nat, n: nat)
    requires LineGrammar(g, buf) && at <= |buf| && g.field(buf[at..]) == Took(n)
    ensures 0 < n <= |buf| - at && buf[at + n - 1] == LF
    ensures !BlankAt(buf, at + n) ==> OpenBetween(buf, at, at + n)
  {
    var s := buf[at..];
    assert TakesLines(g.field(s), s, 0);
    assert buf[at + n - 1] == s[n - 1];
    forall i | at <= i < at + n - 1 && buf[i] == LF ensures !BlankAt(buf, i + 1) {
      assert s[i - at] == LF && !BlankAt(s, i - at + 1);
    }
  }

  /** Every field asked for but the last adds a newline to the scan. */
  lemma {:induction false} ScanBoundsFieldsBegun(g: Grammar, buf: seq<Byte>, at: nat)
    requires LineGrammar(g, buf) && at <= |buf|
    ensures Asked(g, buf, at) <= NewlineScan(buf, at) + 1
    decreases |buf| - at
  {
    if at < |buf| && buf[at] != LF && buf[at] != CR && g.field(buf[at..]).Took? {
      var n := g.field(buf[at..]).n;
      FieldIsOpen(g, buf, at, n);
      if !BlankAt(buf, at + n) {
        TakenLineIsCounted(buf, at, at + n);
        ScanBoundsFieldsBegun(g, buf, at + n);
      }
    }
  }

  lemma {:induction false} StartIsOpen(g: Grammar, buf: seq<Byte>, n: nat)
    requires LineGrammar(g, buf) && g.start(buf) == Took(n) && !TwoEmptyLines(buf) && !BlankAt(buf, n)
    ensures OpenBetween(buf, 0, n)
  {
    if BlankAt(buf, 0) { OneEmptyLine(buf); }
  }

  /** Unless the head begins with two empty lines, the scan is a bound on the slots asked for. */
  lemma {:induction false} ScanBoundsSlotsAsked(g: Grammar, buf: seq<Byte>)
    requires LineGrammar(g, buf) && !TwoEmptyLines(buf)
    ensures SlotsAsked(g, buf) <= NewlineScan(buf, 0)
  {
    if g.start(buf).Took? {
      var n := g.start(buf).n;
      if !BlankAt(buf, n) {
        StartIsOpen(g, buf, n);
        TakenLineIsCounted(buf, 0, n);
        ScanBoundsFieldsBegun(g, buf, n);
      }
    }
  }

  /** Two empty lines end the scan before it has seen a field. */
  lemma {:induction false} ScanStopsAtTwoEmptyLines(buf: seq<Byte>)
    requires TwoEmptyLines(buf)
    ensures NewlineScan(buf, 0) == 2
  {
    if buf[0] == CR { assert NewlineScan(buf, 0) == NewlineScan(buf, 1); }
  }

  // ----- More bytes do not change a decided head -----

  /** What a tokenizer took or refused it would take or refuse with other bytes after the next one. */
  ghost predicate LooksOneAhead(lex: Lexer, s: seq<Byte>, t: seq<Byte>) {
    match lex(s)
    case Took(n) => n < |s| ==> lex(s[..n + 1] + t) == Took(n)
    case Short => true
    case Refused(e) => lex(s + t) == Refused(e)
  }

  ghost predicate IncrementalGrammar(g: Grammar) {
    && g.start([]).Short?
    && (forall s :: LineGrammar(g, s))
    && (forall s, t :: LooksOneAhead(g.start, s, t))
    && (forall s, t :: LooksOneAhead(g.field, s, t))
  }

  /** The simplest such tokenizer: a line up to its newline, after any empty lines if it is the start line. */
  function UpToNewline(s: seq<Byte>, i: nat): Lexed
    requires i <= |s|
    decreases |s| - i
  {
    if i == |s| then Short else if s[i] == LF then Took(i + 1) else UpToNewline(s, i + 1)
  }

  const PLAIN := Grammar(s => UpToNewline(s, SkipEmpty(s, 0)), s => UpToNewline(s, 0))

  lemma {:induction false} UpToNewlineStops(s: seq<Byte>, i: nat)
    requires i <= |s|
    ensures
      match UpToNewline(s, i)
      case Took(n) => i < n <= |s| && s[n - 1] == LF && forall j | i <= j < n - 1 :: s[j] != LF
      case Short => true
      case Refused(_) => false
    decreases |s| - i
  {
    if i < |s| && s[i] != LF { UpToNewlineStops(s, i + 1); }
  }

  lemma {:induction false} UpToNewlineAgain(s: seq<Byte>, t: seq<Byte>, i: nat)
    requires i <= |s| && UpToNewline(s, i).Took?
    requires var n := UpToNewline(s, i).n; n <= |s| && n <= |t| && forall j | 0 <= j < n :: t[j] == s[j]
    ensures i <= |t| && UpToNewline(t, i) == UpToNewline(s, i)
    decreases |s| - i
  {
    UpToNewlineStops(s, i);
    if s[i] != LF { UpToNewlineAgain(s, t, i + 1); }
  }

  lemma {:induction false} SkipsAgain(s: seq<Byte>, t: seq<Byte>, i: nat, n: nat)
    requires i <= SkipEmpty(s, 0) < n <= |s| && n <= |t| && s[n - 1] == LF && forall j | 0 <= j < n :: t[j] == s[j]
    requires SkipEmpty(s, i) == SkipEmpty(s, 0)
    ensures SkipEmpty(t, i) == SkipEmpty(s, i)
    decreases n - i
  {
    if BlankAt(s, i) { SkipsAgain(s, t, LineAfter(s, i), n); }
  }

  /** What is asked of a tokenizer can be met, empty lines before the start line included. */
  lemma {:induction false} PlainIsIncremental()
    ensures IncrementalGrammar(PLAIN)
  {
    forall s ensures LineGrammar(PLAIN, s) {
      UpToNewlineStops(s, SkipEmpty(s, 0));
      forall at | 0 <= at <= |s| ensures TakesLines(PLAIN.field(s[at..]), s[at..], 0) {
        UpToNewlineStops(s[at..], 0);
      }
    }
    forall s, t ensures LooksOneAhead(PLAIN.start, s, t) {
      var k := SkipEmpty(s, 0);
      UpToNewlineStops(s, k);
      if PLAIN.start(s).Took? && PLAIN.start(s).n < |s| {
        var n := PLAIN.start(s).n;
        SkipsAgain(s, s[..n + 1] + t, 0, n);
        UpToNewlineAgain(s, s[..n + 1] + t, k);
      }
    }
    forall s, t ensures LooksOneAhead(PLAIN.field, s, t) {
      UpToNewlineStops(s, 0);
      if PLAIN.field(s).Took? && PLAIN.field(s).n < |s| { UpToNewlineAgain(s, s[..PLAIN.field(s).n + 1] + t, 0); }
    }
  }

  /** A line taken from `buf` is taken from any buffer that agrees one byte beyond it. */
  lemma {:induction false} TakesAgain(lex: Lexer, buf: seq<Byte>, other: seq<Byte>, at: nat, n: nat)
    requires forall s, t :: LooksOneAhead(lex, s, t)
    requires at + n < |buf| && at + n < |other| && buf[..at + n + 1] == other[..at + n + 1]
    requires lex(buf[at..]) == Took(n)
    ensures lex(other[at..]) == Took(n)
  {
    var s, t := buf[at..], other[at + n + 1..];
    assert LooksOneAhead(lex, s, t);
    assert s[..n + 1] == buf[..at + n + 1][at..] == other[..at + n + 1][at..];
    assert other[at..] == s[..n + 1] + t;
  }

  /** A complete head is the same in every buffer that begins with it. */
  lemma {:induction false} CompleteFieldsStay(
      g: Grammar, cap: Option<nat>, buf: seq<Byte>, other: seq<Byte>, at: nat, spans: seq<Span>)
    requires IncrementalGrammar(g) && at <= |buf|
    requires Fields(g, cap, buf, at, spans).Complete?
    requires var n := Fields(g, cap, buf, at, spans).consumed;
             n <= |buf| && n <= |other| && buf[..n] == other[..n]
    ensures at <= |other| && Fields(g, cap, other, at, spans) == Fields(g, cap, buf, at, spans)
    decreases |buf| - at
  {
    var n := Fields(g, cap, buf, at, spans).consumed;
    if buf[at] != LF && buf[at] != CR {
      var m := g.field(buf[at..]).n;
      CompleteFieldsReach(g, cap, buf, at + m, spans + [Span(at, at + m)]);
      TakesAgain(g.field, buf, other, at, m) by {
        assert buf[..at + m + 1] == buf[..n][..at + m + 1];
        assert other[..at + m + 1] == other[..n][..at + m + 1];
      }
      CompleteFieldsStay(g, cap, buf, other, at + m, spans + [Span(at, at + m)]);
      assert other[at] == other[..n][at] == buf[..n][at];
    } else {
      CompleteFieldsReach(g, cap, buf, at, spans);
      assert forall i | 0 <= i < n :: other[i] == other[..n][i] == buf[..n][i];
    }
  }

  lemma {:induction false} CompleteFieldsReach(g: Grammar, cap: Option<nat>, buf: seq<Byte>, at: nat, spans: seq<Span>)
    requires at <= |buf| && Fields(g, cap, buf, at, spans).Complete?
    ensures at < Fields(g, cap, buf, at, spans).consumed <= |buf|
    decreases |buf| - at
  {
    if buf[at] != LF && buf[at] != CR {
      var m := g.field(buf[at..]).n;
      CompleteFieldsReach(g, cap, buf, at + m, spans + [Span(at, at + m)]);
    }
  }

  lemma {:induction false} FailedFieldsStay(
      g: Grammar, cap: Option<nat>, buf: seq<Byte>, more: seq<Byte>, at: nat, spans: seq<Span>)
    requires IncrementalGrammar(g) && at <= |buf| && Fields(g, cap, buf, at, spans).Failed?
    ensures at < |buf| && Fields(g, cap, buf + more, at, spans) == Fields(g, cap, buf, at, spans)
    decreases |buf| - at
  {
    if buf[at] != LF && buf[at] != CR && cap != Some(|spans|) {
      assert (buf + more)[at..] == buf[at..] + more;
      assert LooksOneAhead(g.field, buf[at..], more);
      if g.field(buf[at..]).Took? {
        var m := g.field(buf[at..]).n;
        FailedFieldsStay(g, cap, buf, more, at + m, spans + [Span(at, at + m)]);
        TakesAgain(g.field, buf, buf + more, at, m);
      }
    }
  }

  /** Once complete, a head is complete with the same fields whatever follows it. */
  lemma {:induction false} CompleteHeadStays(g: Grammar, cap: Option<nat>, buf: seq<Byte>, more: seq<Byte>)
    requires IncrementalGrammar(g) && ParseOnce(g, cap, buf).Complete?
    ensures ParseOnce(g, cap, buf).consumed <= |buf|
    ensures ParseOnce(g, cap, buf[..ParseOnce(g, cap, buf).consumed] + more) == ParseOnce(g, cap, buf)
  {
    var m := g.start(buf).n;
    var n := ParseOnce(g, cap, buf).consumed;
    CompleteFieldsReach(g, cap, buf, m, []);
    var other := buf[..n] + more;
    assert buf[0..] == buf && other[0..] == other;
    TakesAgain(g.start, buf, other, 0, m);
    CompleteFieldsStay(g, cap, buf, other, m, []);
  }

  lemma {:induction false} FailedHeadStays(g: Grammar, cap: Option<nat>, buf: seq<Byte>, more: seq<Byte>)
    requires IncrementalGrammar(g) && ParseOnce(g, cap, buf).Failed?
    ensures ParseOnce(g, cap, buf + more).Failed?
  {
    assert LooksOneAhead(g.start, buf, more);
    if g.start(buf).Took? {
      var m := g.start(buf).n;
      FailedFieldsStay(g, cap, buf, more, m, []);
      assert buf[0..] == buf && (buf + more)[0..] == buf + more;
      TakesAgain(g.start, buf, buf + more, 0, m);
    }
  }

  /** A complete head ends with an empty line after a line. */
  lemma {:induction false} CompleteHeadEndsBlank(g: Grammar, cap: Option<nat>, buf: seq<Byte>) returns (i: nat)
    requires IncrementalGrammar(g) && ParseOnce(g, cap, buf).Complete?
    ensures var n := ParseOnce(g, cap, buf).consumed;
            n <= |buf| && i + 1 < n && buf[i] == LF && BlankAt(buf[..n], i + 1)
  {
    assert LineGrammar(g, buf);
    var m := g.start(buf).n;
    i := FieldsEndBlank(g, cap, buf, m, []);
  }

  lemma {:induction false} FieldsEndBlank(
      g: Grammar, cap: Option<nat>, buf: seq<Byte>, at: nat, spans: seq<Span>) returns (i: nat)
    requires IncrementalGrammar(g) && 0 < at <= |buf| && buf[at - 1] == LF
    requires Fields(g, cap, buf, at, spans).Complete?
    ensures var n := Fields(g, cap, buf, at, spans).consumed;
            n <= |buf| && i + 1 < n && buf[i] == LF && BlankAt(buf[..n], i + 1)
    decreases |buf| - at
  {
    if buf[at] != LF && buf[at] != CR {
      var m := g.field(buf[at..]).n;
      assert LineGrammar(g, buf);
      FieldIsOpen(g, buf, at, m);
      i := FieldsEndBlank(g, cap, buf, at + m, spans + [Span(at, at + m)]);
    } else {
      i := at - 1;
    }
  }

  // ----- Two stages refine one -----

  /** The configured limit as a number of slots. */
  function CapOf(limit: HeaderLimit): Option<nat> {
    match limit case Limited(l) => Some(l) case Unlimited => None
  }

  /** The limit that is in force: after two empty lines the scan offers one slot more than there are inline. */
  function EffectiveCap(limit: HeaderLimit, buf: seq<Byte>): Option<nat> {
    if !TwoEmptyLines(buf) then CapOf(limit)
    else
      match limit
      case Limited(l) => Some(Min(l, INLINE_CAPACITY + 1))
      case Unlimited => Some(INLINE_CAPACITY + 1)
  }

  function ParseTwoStage(g: Grammar, limit: HeaderLimit, buf: seq<Byte>): Parsed {
    var first := ParseOnce(g, Some(InitialCapacity(limit)), buf);
    if first != Failed(TooManyHeaders) then first
    else
      match ExpandedSpec(limit, InitialCapacity(limit), buf)
      case None => Failed(TooManyHeaders)
      case Some(capacity) => ParseOnce(g, Some(capacity), buf)
  }

  /** Parsing inline and retrying is the same as one parse with the limit in force. */
  lemma {:induction false} TwoStageRefinesOneStage(g: Grammar, limit: HeaderLimit, buf: seq<Byte>)
    requires LineGrammar(g, buf)
    ensures ParseTwoStage(g, limit, buf) == ParseOnce(g, EffectiveCap(limit, buf), buf)
  {
    var current := InitialCapacity(limit);
    SlotsDecide(g, current, buf);
    UnlimitedHasRoom(g, buf);
    if EffectiveCap(limit, buf).Some? { SlotsDecide(g, EffectiveCap(limit, buf).value, buf); }
    var expanded := ExpandedSpec(limit, current, buf);
    if expanded.Some? {
      SlotsDecide(g, expanded.value, buf);
      if TwoEmptyLines(buf) { ScanStopsAtTwoEmptyLines(buf); } else { ScanBoundsSlotsAsked(g, buf); }
    }
  }

  predicate Within(slots: nat, limit: HeaderLimit) { limit.Limited? ==> slots <= limit.limit }

  /**
   The configured limit itself is respected iff the head does not begin with two empty
   lines, or has at most one field more than there are inline slots, or too many anyway.
   */
  lemma {:induction false} TwoStageKeepsTheLimitIff(g: Grammar, limit: HeaderLimit, buf: seq<Byte>)
    requires LineGrammar(g, buf)
    ensures
      ParseTwoStage(g, limit, buf) == ParseOnce(g, CapOf(limit), buf) <==>
      || !TwoEmptyLines(buf)
      || SlotsAsked(g, buf) <= INLINE_CAPACITY + 1
      || !Within(SlotsAsked(g, buf), limit)
  {
    TwoStageRefinesOneStage(g, limit, buf);
    UnlimitedHasRoom(g, buf);
    if limit.Limited? { SlotsDecide(g, limit.limit, buf); }
    if EffectiveCap(limit, buf).Some? { SlotsDecide(g, EffectiveCap(limit, buf).value, buf); }
  }

  /** More bytes after a start line do not change the limit in force. */
  lemma {:induction false} EffectiveCapStays(g: Grammar, limit: HeaderLimit, buf: seq<Byte>, other: seq<Byte>)
    requires LineGrammar(g, buf) && g.start(buf).Took?
    requires var n := g.start(buf).n; n <= |other| && forall i | 0 <= i < n :: other[i] == buf[i]
    ensures EffectiveCap(limit, other) == EffectiveCap(limit, buf)
  {
    if BlankAt(buf, 0) { OneEmptyLine(buf); }
  }

  /** The scan, as the loop that runs it. */
  method ExpandedCapacity(limit: HeaderLimit, current: nat, buf: seq<Byte>) returns (capacity: Option<nat>)
    ensures capacity == ExpandedSpec(limit, current, buf)
  {
    var bound := 0;
    var index := 0;
    while index < |buf|
      invariant 0 <= index <= |buf|
      invariant bound + NewlineScan(buf, index) == NewlineScan(buf, 0)
    {
      if buf[index] == LF {
        bound := bound + 1;
        if BlankAt(buf, index + 1) {
          bound := bound + 1;
          break;
        }
      }
      index := index + 1;
    }
    bound := Max(bound, current + 1);
    match limit
    case Limited(l) => capacity := if l > current then Some(Min(l, bound)) else None;
    case Unlimited => capacity := Some(bound);
  }

  method Parse(g: Grammar, limit: HeaderLimit, buf: seq<Byte>) returns (r: Parsed)
    requires LineGrammar(g, buf)
    ensures r == ParseOnce(g, EffectiveCap(limit, buf), buf)
  {
    TwoStageRefinesOneStage(g, limit, buf);
    var inline := InitialCapacity(limit);
    r := ParseOnce(g, Some(inline), buf);
    if r != Failed(TooManyHeaders) {
      return;
    }
    var capacity := ExpandedCapacity(limit, inline, buf);
    match capacity
    case None => return Failed(TooManyHeaders);
    case Some(slots) => r := ParseOnce(g, Some(slots), buf);
  }
}
