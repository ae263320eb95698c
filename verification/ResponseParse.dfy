/**
 The incremental response parser used by cache PUT: bytes are injected in chunks of any
 size and come out as header and body tasks. Whatever the chunks, the outcome is that of
 the concatenated bytes.

 The head parser and the conversion of a parsed head are parameters; what is assumed of
 them is stated by `PrefixParser`, and `HeadParse` is shown to provide it.
 */
module ResponseParse {
  import opened Basics
  import HeadParse

  const MAX_HEADER_SIZE := 1_048_575

  /** What the parser needs from a response header; `contentLength` is the value if it is a number. */
  datatype Head = Head(status: nat, contentLength: Option<nat>, fields: seq<(string, seq<Byte>)>)

  /** `Unbuildable`: the head parses but its header map cannot be built. */
  datatype HeadResult = Complete(n: nat, head: Head) | Unbuildable(n: nat) | Partial | Invalid
  type HeadParser = seq<Byte> -> HeadResult

  datatype ParseState =
    | Init
    | PartialHeader
    | PartialBodyContentLength(total: nat, seen: nat)
    | PartialBody(seen: nat)
    | Done(seen: nat)
    | InvalidHead
    | InvalidHeaderSize

  datatype HttpTask = HeaderTask(head: Head, end: bool) | BodyTask(bytes: seq<Byte>, end: bool)

  datatype Parser = Parser(state: ParseState, buf: seq<Byte>)

  // ----- The head -----

  /** An empty line after a line, within the first `n` bytes. */
  ghost predicate HeadEndsWithin(buf: seq<Byte>, n: nat) {
    n <= |buf| && exists i: nat :: i < n && buf[i] == LF && HeadParse.BlankAt(buf[..n], i + 1)
  }

  predicate ExceedsSizeLimit(buf: seq<Byte>) {
    |buf| > MAX_HEADER_SIZE &&
    !exists i: nat | i < MAX_HEADER_SIZE :: buf[i] == LF && HeadParse.BlankAt(buf[..MAX_HEADER_SIZE], i + 1)
  }

  /** A decided head stays decided, and a complete one is found exactly at its end. */
  ghost predicate Settled(parse: HeadParser, s: seq<Byte>, t: seq<Byte>) {
    match parse(s)
    case Partial => true
    case Invalid => parse(s + t).Invalid?
    case Complete(n, _) => HeadEndsWithin(s, n) && parse(s[..n] + t) == parse(s)
    case Unbuildable(n) => HeadEndsWithin(s, n) && parse(s[..n] + t) == parse(s)
  }

  ghost predicate PrefixParser(parse: HeadParser) {
    parse([]).Partial? && forall s, t :: Settled(parse, s, t)
  }

  function BodyType(head: Head): ParseState {
    if head.status == 204 || head.status == 304 then Done(0)
    else
      match head.contentLength
      case Some(length) => if length == 0 then Done(0) else PartialBodyContentLength(length, 0)
      case None => PartialBody(0)
  }

  // ----- Injection -----

  predicate ReadsHeader(state: ParseState) { state.Init? || state.PartialHeader? }

  predicate ReadsBody(state: ParseState) { state.PartialBodyContentLength? || state.PartialBody? }

  datatype HeaderStep = Got(head: Head, parser: Parser) | Wait(parser: Parser) | Broken(parser: Parser)

  function ParseHeader(parse: HeadParser, p: Parser): HeaderStep {
    if ExceedsSizeLimit(p.buf) then Broken(p.(state := InvalidHeaderSize))
    else
      match parse(p.buf)
      case Invalid => Broken(p.(state := InvalidHead))
      case Partial => Wait(p.(state := PartialHeader))
      case Unbuildable(n) => Broken(if n > MAX_HEADER_SIZE then p.(state := InvalidHeaderSize) else p)
      case Complete(n, head) =>
        if n > MAX_HEADER_SIZE then Broken(p.(state := InvalidHeaderSize))
        else if n > |p.buf| then Broken(p)
        else Got(head, Parser(BodyType(head), p.buf[n..]))
  }

  /** A length-delimited body that is still being read lacks at least one byte. */
  predicate Lacking(state: ParseState) { state.PartialBodyContentLength? ==> state.seen < state.total }

  /** The next piece of body; `None` when there is nothing buffered. */
  function ParseBody(p: Parser): (r: Option<(seq<Byte>, Parser)>)
    requires ReadsBody(p.state) && Lacking(p.state)
    ensures r.Some? ==> |r.value.1.buf| < |p.buf| && Lacking(r.value.1.state) && !ReadsHeader(r.value.1.state)
  {
    if p.buf == [] then None
    else if p.state.PartialBodyContentLength? then
      var PartialBodyContentLength(total, seen) := p.state;
      var end := if total < |p.buf| + seen then total - seen else |p.buf|;
      var state := if seen + end >= total then Done(seen + end) else PartialBodyContentLength(total, seen + end);
      Some((p.buf[..end], Parser(state, p.buf[end..])))
    else Some((p.buf, Parser(PartialBody(p.state.seen + |p.buf|), [])))
  }

  datatype Driven = Driven(tasks: seq<HttpTask>, parser: Parser, ok: bool)

  /** The inject loop: header, then body, until nothing more can be said. */
  function Drive(parse: HeadParser, p: Parser): Driven
    requires Lacking(p.state)
    decreases ReadsHeader(p.state), |p.buf|
  {
    if ReadsHeader(p.state) then
      match ParseHeader(parse, p)
      case Broken(q) => Driven([], q, false)
      case Wait(q) => Driven([], q, true)
      case Got(head, q) =>
        var rest := Drive(parse, q);
        rest.(tasks := [HeaderTask(head, q.state.Done?)] + rest.tasks)
    else if ReadsBody(p.state) then
      match ParseBody(p)
      case None => Driven([], p, true)
      case Some((bytes, q)) =>
        var rest := Drive(parse, q);
        rest.(tasks := [BodyTask(bytes, q.state.Done?)] + rest.tasks)
    else Driven([], p, true)
  }

  /** Bytes after the end of the response are ignored. */
  function Inject(parse: HeadParser, p: Parser, data: seq<Byte>): Driven
    requires Lacking(p.state)
  {
    if p.state.Done? then Driven([], p, true) else Drive(parse, p.(buf := p.buf + data))
  }

  /** Inject chunk after chunk, up to the first error. */
  function Feed(parse: HeadParser, p: Parser, chunks: seq<seq<Byte>>): Driven
    requires Lacking(p.state)
    decreases |chunks|
  {
    if chunks == [] then Driven([], p, true)
    else
      var d := Inject(parse, p, chunks[0]);
      if !d.ok || !Lacking(d.parser.state) then d
      else
        var rest := Feed(parse, d.parser, chunks[1..]);
        rest.(tasks := d.tasks + rest.tasks)
  }

  function FinishOk(state: ParseState): bool { state.PartialBody? || state.Done? }

  // ----- What a caller can see -----

  function HeadOf(tasks: seq<HttpTask>): Option<Head> {
    if tasks == [] then None else if tasks[0].HeaderTask? then Some(tasks[0].head) else HeadOf(tasks[1..])
  }

  function BodyOf(tasks: seq<HttpTask>): seq<Byte> {
    if tasks == [] then [] else (if tasks[0].BodyTask? then tasks[0].bytes else []) + BodyOf(tasks[1..])
  }

  datatype Outcome = Failed | Parsed(head: Option<Head>, body: seq<Byte>, finished: bool)

  function Observe(d: Driven): Outcome {
    if d.ok then Parsed(HeadOf(d.tasks), BodyOf(d.tasks), FinishOk(d.parser.state)) else Failed
  }

  function Flatten(chunks: seq<seq<Byte>>): seq<Byte> {
    if chunks == [] then [] else chunks[0] + Flatten(chunks[1..])
  }

  // ----- The reference: all the bytes at once -----

  /** The body of a response whose bytes after the head are `rest`, and whether it is all there. */
  function BodyAfter(head: Head, rest: seq<Byte>): (seq<Byte>, bool) {
    match BodyType(head)
    case PartialBodyContentLength(total, _) => (rest[..Min(total, |rest|)], |rest| >= total)
    case PartialBody(_) => (rest, true)
    case _ => ([], true)
  }

  function Reference(parse: HeadParser, bytes: seq<Byte>): Outcome {
    match parse(bytes)
    case Invalid => Failed
    case Unbuildable(_) => Failed
    case Partial => if ExceedsSizeLimit(bytes) then Failed else Parsed(None, [], false)
    case Complete(n, head) =>
      if n > MAX_HEADER_SIZE || n > |bytes| then Failed
      else
        var (body, finished) := BodyAfter(head, bytes[n..]);
        Parsed(Some(head), body, finished)
  }

  // ----- Chunks do not matter -----

  /** The state once the head and `rest` have been read. */
  function StateAfter(head: Head, rest: seq<Byte>): ParseState {
    match BodyType(head)
    case PartialBodyContentLength(total, _) =>
      if |rest| >= total then Done(total) else PartialBodyContentLength(total, |rest|)
    case PartialBody(_) => PartialBody(|rest|)
    case other => other
  }

  /** The parser stands where `bytes` have brought it. */
  ghost predicate At(parse: HeadParser, p: Parser, bytes: seq<Byte>) {
    var r := parse(bytes);
    if ReadsHeader(p.state) then p.buf == bytes && r.Partial? && !ExceedsSizeLimit(bytes)
    else
      && r.Complete? && r.n <= MAX_HEADER_SIZE && r.n <= |bytes|
      && p.state == StateAfter(r.head, bytes[r.n..])
      && (!p.state.Done? ==> p.buf == [])
  }

  /** The end flag is on the last task exactly when the response is complete. */
  ghost predicate EndFlagged(tasks: seq<HttpTask>, done: bool) {
    forall i | 0 <= i < |tasks| :: tasks[i].end <==> done && i == |tasks| - 1
  }

  /** One more piece of body, in the state the earlier pieces have led to. */
  lemma {:induction false} BodyContinues(parse: HeadParser, p: Parser, head: Head, rest: seq<Byte>)
    requires p.state == StateAfter(head, rest) && !p.state.Done?
    ensures Lacking(p.state)
    ensures var d := Drive(parse, p);
            && d.ok && d.parser.state == StateAfter(head, rest + p.buf)
            && (!d.parser.state.Done? ==> d.parser.buf == [])
            && BodyAfter(head, rest + p.buf).0 == BodyAfter(head, rest).0 + BodyOf(d.tasks)
            && HeadOf(d.tasks) == None
            && EndFlagged(d.tasks, d.parser.state.Done?) && (d.parser.state.Done? ==> d.tasks != [])
  {
    var d := Drive(parse, p);
    if p.buf == [] {
      assert rest + p.buf == rest;
    } else {
      var (bytes, q) := ParseBody(p).value;
      assert Drive(parse, q) == Driven([], q, true);
      assert d == Driven([BodyTask(bytes, q.state.Done?)], q, true);
      assert BodyOf(d.tasks) == bytes + BodyOf(d.tasks[1..]) == bytes;
    }
  }

  lemma {:induction false} SettledBy(parse: HeadParser, bytes: seq<Byte>, data: seq<Byte>)
    requires PrefixParser(parse)
    ensures parse(bytes).Invalid? ==> parse(bytes + data).Invalid?
    ensures parse(bytes).Complete? || parse(bytes).Unbuildable? ==>
              parse(bytes).n <= |bytes| && HeadEndsWithin(bytes, parse(bytes).n) && parse(bytes + data) == parse(bytes)
  {
    var r := parse(bytes);
    assert Settled(parse, bytes, data);
    if r.Complete? || r.Unbuildable? {
      assert Settled(parse, bytes, bytes[r.n..] + data);
      assert bytes + data == bytes[..r.n] + (bytes[r.n..] + data);
    }
  }

  /** A head that ends within the limit keeps the size check quiet. */
  lemma {:induction false} SmallHeadIsNotTooLarge(buf: seq<Byte>, n: nat)
    requires HeadEndsWithin(buf, n) && n <= MAX_HEADER_SIZE
    ensures !ExceedsSizeLimit(buf)
  {
    if |buf| > MAX_HEADER_SIZE {
      var i: nat :| i < n && buf[i] == LF && HeadParse.BlankAt(buf[..n], i + 1);
      assert HeadParse.BlankAt(buf[..MAX_HEADER_SIZE], i + 1);
    }
  }

  /** The size check looks at the first bytes only, so more bytes do not appease it. */
  lemma {:induction false} TooLargeStays(buf: seq<Byte>, data: seq<Byte>)
    requires ExceedsSizeLimit(buf)
    ensures ExceedsSizeLimit(buf + data)
  {
    assert (buf + data)[..MAX_HEADER_SIZE] == buf[..MAX_HEADER_SIZE];
  }

  lemma {:induction false} FailureIsFinal(parse: HeadParser, bytes: seq<Byte>, data: seq<Byte>)
    requires PrefixParser(parse) && Reference(parse, bytes).Failed?
    ensures Reference(parse, bytes + data).Failed?
  {
    SettledBy(parse, bytes, data);
    if parse(bytes).Partial? {
      var r := parse(bytes + data);
      SettledBy(parse, bytes + data, []);
      TooLargeStays(bytes, data);
      if r.Complete? && r.n <= MAX_HEADER_SIZE { SmallHeadIsNotTooLarge(bytes + data, r.n); }
    }
  }

  lemma {:induction false} ReferenceAfterHead(parse: HeadParser, bytes: seq<Byte>, rest: seq<Byte>)
    requires parse(bytes).Complete? && parse(bytes).n <= MAX_HEADER_SIZE && parse(bytes).n <= |bytes|
    requires rest == bytes[parse(bytes).n..]
    ensures
      var head := parse(bytes).head;
      Reference(parse, bytes) == Parsed(Some(head), BodyAfter(head, rest).0, FinishOk(StateAfter(head, rest)))
  {
  }

  lemma {:induction false} BodyFromItsStart(parse: HeadParser, head: Head, rest: seq<Byte>)
    ensures Lacking(BodyType(head))
    ensures var b := Parser(BodyType(head), rest);
            var e := Drive(parse, b);
            && e.ok && e.parser.state == StateAfter(head, rest) && (!e.parser.state.Done? ==> e.parser.buf == [])
            && BodyOf(e.tasks) == BodyAfter(head, rest).0 && HeadOf(e.tasks) == None
            && EndFlagged(e.tasks, e.parser.state.Done?)
            && (b.state.Done? ==> e.tasks == []) && (!b.state.Done? && e.parser.state.Done? ==> e.tasks != [])
  {
    if !BodyType(head).Done? {
      assert StateAfter(head, []) == BodyType(head) && BodyAfter(head, []).0 == [];
      BodyContinues(parse, Parser(BodyType(head), rest), head, []);
      assert [] + rest == rest;
    }
  }

  /** The header and as much of the body as came with it. */
  lemma {:induction false} HeadArrives(parse: HeadParser, p: Parser)
    requires ReadsHeader(p.state) && parse(p.buf).Complete?
    requires parse(p.buf).n <= MAX_HEADER_SIZE && HeadEndsWithin(p.buf, parse(p.buf).n)
    ensures var d := Drive(parse, p);
            && d.ok && At(parse, d.parser, p.buf) && Observe(d) == Reference(parse, p.buf)
            && EndFlagged(d.tasks, d.parser.state.Done?) && d.tasks != []
  {
    var r := parse(p.buf);
    var rest := p.buf[r.n..];
    SmallHeadIsNotTooLarge(p.buf, r.n);
    ReferenceAfterHead(parse, p.buf, rest);
    BodyFromItsStart(parse, r.head, rest);
    var b := Parser(BodyType(r.head), rest);
    assert ParseHeader(parse, p) == Got(r.head, b);
    HeaderThenBody(r.head, b.state.Done?, Drive(parse, b));
  }

  lemma {:induction false} HeaderThenBody(head: Head, end: bool, e: Driven)
    requires EndFlagged(e.tasks, e.parser.state.Done?) && (end ==> e.tasks == [] && e.parser.state.Done?)
    requires !end && e.parser.state.Done? ==> e.tasks != []
    ensures
      var tasks := [HeaderTask(head, end)] + e.tasks;
      HeadOf(tasks) == Some(head) && BodyOf(tasks) == BodyOf(e.tasks) && EndFlagged(tasks, e.parser.state.Done?)
  {
    var tasks := [HeaderTask(head, end)] + e.tasks;
    assert tasks[1..] == e.tasks;
    forall i | 0 <= i < |tasks| ensures tasks[i].end <==> e.parser.state.Done? && i == |tasks| - 1 {
      if i > 0 { assert tasks[i] == e.tasks[i - 1]; }
    }
  }

  lemma {:induction false} HeadWaitsOrFails(parse: HeadParser, p: Parser)
    requires ReadsHeader(p.state) && (parse(p.buf).Complete? ==> parse(p.buf).n > MAX_HEADER_SIZE)
    ensures var d := Drive(parse, p);
            && (!d.ok <==> Reference(parse, p.buf).Failed?)
            && (d.ok ==> d.tasks == [] && At(parse, d.parser, p.buf) && Observe(d) == Reference(parse, p.buf))
  {
  }

  lemma {:induction false} InjectHeader(parse: HeadParser, p: Parser, bytes: seq<Byte>, data: seq<Byte>)
    requires PrefixParser(parse) && At(parse, p, bytes) && ReadsHeader(p.state)
    ensures var d, all := Inject(parse, p, data), bytes + data;
            && (!d.ok <==> Reference(parse, all).Failed?)
            && (d.ok ==> At(parse, d.parser, all) && Observe(d) == Reference(parse, all))
            && (d.ok ==> EndFlagged(d.tasks, d.parser.state.Done?) && (d.parser.state.Done? ==> d.tasks != []))
  {
    var q := p.(buf := bytes + data);
    SettledBy(parse, bytes + data, []);
    if parse(bytes + data).Complete? && parse(bytes + data).n <= MAX_HEADER_SIZE { HeadArrives(parse, q); }
    else { HeadWaitsOrFails(parse, q); }
  }

  /** More bytes of a body that is still being read. */
  lemma {:induction false} BodyArrives(parse: HeadParser, p: Parser, bytes: seq<Byte>, data: seq<Byte>)
    requires At(parse, p, bytes) && !ReadsHeader(p.state) && !p.state.Done? && parse(bytes + data) == parse(bytes)
    ensures Lacking(p.state)
    ensures var d, all := Inject(parse, p, data), bytes + data;
            var was, now := Reference(parse, bytes), Reference(parse, all);
            && d.ok && At(parse, d.parser, all) && HeadOf(d.tasks) == None
            && was.Parsed? && now == Parsed(was.head, was.body + BodyOf(d.tasks), FinishOk(d.parser.state))
            && EndFlagged(d.tasks, d.parser.state.Done?) && (d.parser.state.Done? ==> d.tasks != [])
  {
    var r := parse(bytes);
    var rest := bytes[r.n..];
    assert (bytes + data)[r.n..] == rest + data;
    BodyContinues(parse, p.(buf := data), r.head, rest);
    assert p.buf + data == data;
    ReferenceAfterHead(parse, bytes, rest);
    ReferenceAfterHead(parse, bytes + data, rest + data);
  }

  lemma {:induction false} BodyIsOver(parse: HeadParser, p: Parser, bytes: seq<Byte>, data: seq<Byte>)
    requires At(parse, p, bytes) && p.state.Done? && parse(bytes + data) == parse(bytes)
    ensures At(parse, p, bytes + data) && Reference(parse, bytes).Parsed?
    ensures Reference(parse, bytes + data) == Reference(parse, bytes) && Reference(parse, bytes).finished
  {
    var r := parse(bytes);
    assert (bytes + data)[r.n..] == bytes[r.n..] + data;
  }

  lemma {:induction false} InjectBody(parse: HeadParser, p: Parser, bytes: seq<Byte>, data: seq<Byte>)
    requires PrefixParser(parse) && At(parse, p, bytes) && !ReadsHeader(p.state)
    ensures Lacking(p.state)
    ensures var d, all := Inject(parse, p, data), bytes + data;
            var was, now := Reference(parse, bytes), Reference(parse, all);
            && d.ok && At(parse, d.parser, all) && HeadOf(d.tasks) == None
            && was.Parsed? && now == Parsed(was.head, was.body + BodyOf(d.tasks), FinishOk(d.parser.state))
            && EndFlagged(d.tasks, d.parser.state.Done?)
            && (p.state.Done? ==> d.tasks == [])
            && (!p.state.Done? && d.parser.state.Done? ==> d.tasks != [])
  {
    SettledBy(parse, bytes, data);
    if p.state.Done? { BodyIsOver(parse, p, bytes, data); } else { BodyArrives(parse, p, bytes, data); }
  }

  lemma {:induction false} BodiesConcat(a: seq<HttpTask>, b: seq<HttpTask>)
    ensures BodyOf(a + b) == BodyOf(a) + BodyOf(b)
    decreases |a|
  {
    if a == [] {
      assert a + b == b;
    } else {
      var own := if a[0].BodyTask? then a[0].bytes else [];
      BodiesConcat(a[1..], b);
      assert (a + b)[0] == a[0] && (a + b)[1..] == a[1..] + b;
      assert own + (BodyOf(a[1..]) + BodyOf(b)) == (own + BodyOf(a[1..])) + BodyOf(b);
    }
  }

  lemma {:induction false} TasksConcat(a: seq<HttpTask>, b: seq<HttpTask>)
    ensures HeadOf(a + b) == if HeadOf(a).Some? then HeadOf(a) else HeadOf(b)
    ensures BodyOf(a + b) == BodyOf(a) + BodyOf(b)
    decreases |a|
  {
    BodiesConcat(a, b);
    if a == [] {
      assert a + b == b;
    } else {
      TasksConcat(a[1..], b);
      assert (a + b)[1..] == a[1..] + b;
    }
  }

  /** `d` adds to the outcome `was` exactly what makes it `now`. */
  ghost predicate Adds(was: Outcome, now: Outcome, from: ParseState, d: Driven) {
    && was.Parsed?
    && (!d.ok <==> now.Failed?)
    && (d.ok ==>
          && now.Parsed? && now.head == (if was.head.Some? then was.head else HeadOf(d.tasks))
          && now.body == was.body + BodyOf(d.tasks) && now.finished == FinishOk(d.parser.state)
          && (from.Done? ==> d.tasks == [] && d.parser.state.Done?)
          && EndFlagged(d.tasks, d.parser.state.Done?)
          && (!from.Done? && d.parser.state.Done? ==> d.tasks != []))
  }

  /** `d` adds to what `bytes` had given exactly what `all` gives. */
  ghost predicate Extends(parse: HeadParser, bytes: seq<Byte>, all: seq<Byte>, p: Parser, d: Driven) {
    Adds(Reference(parse, bytes), Reference(parse, all), p.state, d) && (d.ok ==> At(parse, d.parser, all))
  }

  lemma {:induction false} InjectExtends(parse: HeadParser, p: Parser, bytes: seq<Byte>, data: seq<Byte>)
    requires PrefixParser(parse) && At(parse, p, bytes)
    ensures Lacking(p.state) && Extends(parse, bytes, bytes + data, p, Inject(parse, p, data))
  {
    if ReadsHeader(p.state) {
      InjectHeader(parse, p, bytes, data);
    } else {
      InjectBody(parse, p, bytes, data);
    }
  }

  /** No task carries the flag before the response is complete, and then no more tasks come. */
  lemma {:induction false} EndFlaggedConcat(a: seq<HttpTask>, b: seq<HttpTask>, mid: bool, done: bool)
    requires EndFlagged(a, mid) && EndFlagged(b, done) && (mid ==> b == [] && done) && (!mid && done ==> b != [])
    ensures EndFlagged(a + b, done)
  {
    forall i | 0 <= i < |a + b| ensures (a + b)[i].end <==> done && i == |a + b| - 1 {
      if i < |a| { assert (a + b)[i] == a[i]; } else { assert (a + b)[i] == b[i - |a|]; }
    }
  }

  lemma {:induction false} AddsTwice(was: Outcome, mid: Outcome, now: Outcome, from: ParseState, d: Driven, e: Driven)
    requires d.ok && Adds(was, mid, from, d) && Adds(mid, now, d.parser.state, e)
    ensures Adds(was, now, from, e.(tasks := d.tasks + e.tasks))
  {
    if e.ok {
      var a, b := d.tasks, e.tasks;
      TasksConcat(a, b);
      EndFlaggedConcat(a, b, d.parser.state.Done?, e.parser.state.Done?);
      assert (was.body + BodyOf(a)) + BodyOf(b) == was.body + BodyOf(a + b);
    }
  }

  lemma {:induction false} FeedExtends(parse: HeadParser, p: Parser, bytes: seq<Byte>, chunks: seq<seq<Byte>>)
    requires PrefixParser(parse) && At(parse, p, bytes)
    ensures Lacking(p.state) && Extends(parse, bytes, bytes + Flatten(chunks), p, Feed(parse, p, chunks))
    decreases |chunks|
  {
    if chunks == [] {
      assert bytes + Flatten(chunks) == bytes;
    } else {
      var mid := bytes + chunks[0];
      var d := Inject(parse, p, chunks[0]);
      InjectExtends(parse, p, bytes, chunks[0]);
      assert bytes + Flatten(chunks) == mid + Flatten(chunks[1..]);
      if d.ok {
        FeedExtends(parse, d.parser, mid, chunks[1..]);
        var was, now := Reference(parse, bytes), Reference(parse, bytes + Flatten(chunks));
        AddsTwice(was, Reference(parse, mid), now, p.state, d, Feed(parse, d.parser, chunks[1..]));
      } else {
        FailureIsFinal(parse, mid, Flatten(chunks[1..]));
      }
    }
  }

  const FRESH := Parser(Init, [])

  /** The outcome is that of the bytes, however they were cut; the end flag is on the last task or on none. */
  lemma {:induction false} ChunksDoNotMatter(parse: HeadParser, chunks: seq<seq<Byte>>)
    requires PrefixParser(parse)
    ensures var d := Feed(parse, FRESH, chunks);
            && Observe(d) == Reference(parse, Flatten(chunks))
            && (d.ok ==> EndFlagged(d.tasks, d.parser.state.Done?))
  {
    FeedExtends(parse, FRESH, [], chunks);
    assert [] + Flatten(chunks) == Flatten(chunks);
  }

  /** Any two ways of cutting the same bytes fail together or yield the same response. */
  lemma {:induction false} SplitIndependence(parse: HeadParser, a: seq<seq<Byte>>, b: seq<seq<Byte>>)
    requires PrefixParser(parse) && Flatten(a) == Flatten(b)
    ensures Observe(Feed(parse, FRESH, a)) == Observe(Feed(parse, FRESH, b))
  {
    ChunksDoNotMatter(parse, a);
    ChunksDoNotMatter(parse, b);
  }

  /** Responses that have no body whatever they declare. */
  predicate Bodiless(head: Head) { head.status == 204 || head.status == 304 }

  /**
   How the head frames the bytes after it: nothing without a body, the declared number of bytes
   if there is one, and otherwise everything. The response is finished once that has come.
   */
  lemma {:induction false} HeadFramesTheBody(parse: HeadParser, chunks: seq<seq<Byte>>)
    requires PrefixParser(parse)
    ensures
      var bytes, o := Flatten(chunks), Observe(Feed(parse, FRESH, chunks));
      o.Parsed? && o.head.Some? ==>
        && parse(bytes).Complete? && parse(bytes).head == o.head.value && parse(bytes).n <= |bytes|
        && var head, rest := o.head.value, bytes[parse(bytes).n..];
           if Bodiless(head) then
             o.body == [] && o.finished
           else if head.contentLength.Some? then
             var n := head.contentLength.value;
             && (|rest| <= n ==> o.body == rest) && (|rest| >= n ==> o.body == rest[..n])
             && (o.finished <==> |rest| >= n)
           else
             o.body == rest && o.finished
  {
    ChunksDoNotMatter(parse, chunks);
  }

  /**
   Bytes are refused, however they were cut, exactly when their head is no head, or is too large:
   it ends past the limit, or more bytes than that have come and it has not ended within them.
   */
  lemma {:induction false} RefusedIff(parse: HeadParser, chunks: seq<seq<Byte>>)
    requires PrefixParser(parse)
    ensures
      var bytes := Flatten(chunks);
      Observe(Feed(parse, FRESH, chunks)).Failed? <==>
        match parse(bytes)
        case Invalid => true
        case Unbuildable(_) => true
        case Complete(n, _) => n > MAX_HEADER_SIZE
        case Partial => |bytes| > MAX_HEADER_SIZE && !HeadEndsWithin(bytes, MAX_HEADER_SIZE)
  {
    ChunksDoNotMatter(parse, chunks);
    SettledBy(parse, Flatten(chunks), []);
  }

  /** A body never exceeds the declared length, and the response is finished exactly when it reaches it. */
  lemma {:induction false} ContentLengthIsKept(parse: HeadParser, chunks: seq<seq<Byte>>)
    requires PrefixParser(parse)
    ensures
      var o := Observe(Feed(parse, FRESH, chunks));
      o.Parsed? && o.head.Some? && !Bodiless(o.head.value) && o.head.value.contentLength.Some? ==>
        && |o.body| <= o.head.value.contentLength.value
        && (o.finished <==> |o.body| == o.head.value.contentLength.value)
  {
    HeadFramesTheBody(parse, chunks);
  }

  // ----- The two-stage head parser is such a parser -----

  /** How a parsed head becomes a response header, from its bytes and field spans. */
  type Reader = (seq<Byte>, seq<HeadParse.Span>) -> Option<Head>

  function FromBackend(g: HeadParse.Grammar, limit: HeadParse.HeaderLimit, read: Reader, bytes: seq<Byte>): HeadResult {
    match HeadParse.ParseTwoStage(g, limit, bytes)
    case Failed(_) => Invalid
    case Partial => HeadResult.Partial
    case Complete(n, spans) =>
      if n > |bytes| then Invalid
      else
        match read(bytes[..n], spans)
        case None => Unbuildable(n)
        case Some(head) => HeadResult.Complete(n, head)
  }

  lemma {:induction false} BackendIsPrefixParser(g: HeadParse.Grammar, limit: HeadParse.HeaderLimit, read: Reader)
    requires HeadParse.IncrementalGrammar(g)
    ensures PrefixParser(bytes => FromBackend(g, limit, read, bytes))
  {
    var parse := bytes => FromBackend(g, limit, read, bytes);
    assert HeadParse.LineGrammar(g, []);
    HeadParse.TwoStageRefinesOneStage(g, limit, []);
    forall s, t
      ensures Settled(parse, s, t)
    {
      BackendSettles(g, limit, read, s, t);
    }
  }

  lemma {:induction false} BackendSettles(
      g: HeadParse.Grammar, limit: HeadParse.HeaderLimit, read: Reader, s: seq<Byte>, t: seq<Byte>)
    requires HeadParse.IncrementalGrammar(g)
    ensures Settled(bytes => FromBackend(g, limit, read, bytes), s, t)
  {
    match HeadParse.ParseTwoStage(g, limit, s)
    case Partial =>
    case Failed(_) => FailureSettles(g, limit, s, t);
    case Complete(n, spans) =>
      CompletionSettles(g, limit, s, t);
      assert (s[..n] + t)[..n] == s[..n];
  }

  lemma {:induction false} FailureSettles(
      g: HeadParse.Grammar, limit: HeadParse.HeaderLimit, s: seq<Byte>, t: seq<Byte>)
    requires HeadParse.IncrementalGrammar(g) && HeadParse.ParseTwoStage(g, limit, s).Failed?
    ensures HeadParse.ParseTwoStage(g, limit, s + t).Failed?
  {
    assert HeadParse.LineGrammar(g, s) && HeadParse.LineGrammar(g, s + t);
    HeadParse.TwoStageRefinesOneStage(g, limit, s);
    HeadParse.TwoStageRefinesOneStage(g, limit, s + t);
    HeadParse.FailedHeadStays(g, HeadParse.EffectiveCap(limit, s), s, t);
    if g.start(s).Took? {
      HeadParse.EffectiveCapStays(g, limit, s, s + t);
    } else {
      assert HeadParse.LooksOneAhead(g.start, s, t);
    }
  }

  lemma {:induction false} CompletionSettles(
      g: HeadParse.Grammar, limit: HeadParse.HeaderLimit, s: seq<Byte>, t: seq<Byte>)
    requires HeadParse.IncrementalGrammar(g) && HeadParse.ParseTwoStage(g, limit, s).Complete?
    ensures
      var n := HeadParse.ParseTwoStage(g, limit, s).consumed;
      HeadEndsWithin(s, n) && HeadParse.ParseTwoStage(g, limit, s[..n] + t) == HeadParse.ParseTwoStage(g, limit, s)
  {
    var cap, n := HeadParse.EffectiveCap(limit, s), HeadParse.ParseTwoStage(g, limit, s).consumed;
    assert HeadParse.LineGrammar(g, s);
    HeadParse.TwoStageRefinesOneStage(g, limit, s);
    HeadParse.CompleteHeadStays(g, cap, s, t);
    assert HeadParse.LineGrammar(g, s[..n] + t);
    HeadParse.TwoStageRefinesOneStage(g, limit, s[..n] + t);
    var i := HeadParse.CompleteHeadEndsBlank(g, cap, s);
    HeadParse.CompleteFieldsReach(g, cap, s, g.start(s).n, []);
    HeadParse.EffectiveCapStays(g, limit, s, s[..n] + t);
  }

  // ----- The parser object -----

  /** `d`, with `tasks` already handed out. */
  function After(tasks: seq<HttpTask>, d: Driven): Driven { d.(tasks := tasks + d.tasks) }

  lemma {:induction false} AfterNone(d: Driven)
    ensures After([], d) == d
  {
    assert [] + d.tasks == d.tasks;
  }

  lemma {:induction false} AfterOne(tasks: seq<HttpTask>, task: HttpTask, d: Driven)
    ensures After(tasks, After([task], d)) == After(tasks + [task], d)
  {
    assert tasks + ([task] + d.tasks) == (tasks + [task]) + d.tasks;
  }

  lemma {:induction false} AfterLast(tasks: seq<HttpTask>, d: Driven)
    requires d.tasks == []
    ensures After(tasks, d) == d.(tasks := tasks)
  {
    assert tasks + [] == tasks;
  }

  class ResponseParser {
    const parse: HeadParser
    var state: ParseState
    var buf: seq<Byte>

    ghost function View(): Parser
      reads this
    {
      Parser(state, buf)
    }

    constructor (parse: HeadParser)
      ensures this.parse == parse && View() == FRESH
    {
      this.parse := parse;
      state, buf := Init, [];
    }

    method TakeHeader() returns (head: Option<Head>, ok: bool)
      requires ReadsHeader(state)
      modifies this
      ensures View() == ParseHeader(parse, old(View())).parser
      ensures ok == !ParseHeader(parse, old(View())).Broken?
      ensures head == if ParseHeader(parse, old(View())).Got? then Some(ParseHeader(parse, old(View())).head) else None
      ensures head.Some? && Bodiless(head.value) ==> state == Done(0)
      ensures head.Some? && !Bodiless(head.value) ==>
                match head.value.contentLength
                case Some(n) => if n == 0 then state == Done(0) else state == PartialBodyContentLength(n, 0)
                case None => state == PartialBody(0)
    {
      head, ok := None, false;
      if ExceedsSizeLimit(buf) {
        state := InvalidHeaderSize;
        return;
      }
      var r := parse(buf);
      match r
      case Invalid => state := InvalidHead;
      case Partial => state, ok := PartialHeader, true;
      case Unbuildable(n) => if n > MAX_HEADER_SIZE { state := InvalidHeaderSize; }
      case Complete(n, h) =>
        if n > MAX_HEADER_SIZE {
          state := InvalidHeaderSize;
        } else if n <= |buf| {
          state, buf := BodyType(h), buf[n..];
          head, ok := Some(h), true;
        }
    }

    method TakeBody() returns (body: Option<seq<Byte>>)
      requires ReadsBody(state) && Lacking(state)
      modifies this
      ensures match ParseBody(old(View()))
              case None => body == None && View() == old(View())
              case Some((bytes, q)) => body == Some(bytes) && View() == q
    {
      if buf == [] {
        return None;
      }
      if state.PartialBodyContentLength? {
        var total, seen := state.total, state.seen;
        var end := if total < |buf| + seen then total - seen else |buf|;
        seen := seen + end;
        state := if seen >= total then Done(seen) else PartialBodyContentLength(total, seen);
        body := Some(buf[..end]);
        buf := buf[end..];
      } else {
        state := PartialBody(state.seen + |buf|);
        body := Some(buf);
        buf := [];
      }
    }

    /** One turn of the inject loop: the next task, or none when there is nothing more to say. */
    method TakeTask() returns (task: Option<HttpTask>, ok: bool)
      requires Lacking(state) && (ReadsHeader(state) || ReadsBody(state))
      modifies this
      ensures task.None? ==> Drive(parse, old(View())) == Driven([], View(), ok)
      ensures task.Some? ==> ok && Lacking(state) && !ReadsHeader(state)
      ensures task.Some? ==> old(ReadsHeader(state)) || |buf| < |old(buf)|
      ensures task.Some? ==> Drive(parse, old(View())) == After([task.value], Drive(parse, View()))
    {
      if ReadsHeader(state) {
        var head;
        head, ok := TakeHeader();
        task := if head.Some? then Some(HeaderTask(head.value, state.Done?)) else None;
      } else {
        var body := TakeBody();
        ok := true;
        task := if body.Some? then Some(BodyTask(body.value, state.Done?)) else None;
      }
    }

    method InjectData(data: seq<Byte>) returns (tasks: seq<HttpTask>, ok: bool)
      requires Lacking(state) && !state.InvalidHead? && !state.InvalidHeaderSize?
      modifies this
      ensures Driven(tasks, View(), ok) == Inject(parse, old(View()), data)
    {
      tasks, ok := [], true;
      if state.Done? {
        return;
      }
      buf := buf + data;
      ghost var goal := Drive(parse, View());
      AfterNone(goal);
      while ReadsHeader(state) || ReadsBody(state)
        invariant ok && Lacking(state)
        invariant goal == After(tasks, Drive(parse, View()))
        decreases ReadsHeader(state), |buf|
      {
        var task;
        task, ok := TakeTask();
        if task.None? {
          AfterLast(tasks, Driven([], View(), ok));
          return;
        }
        AfterOne(tasks, task.value, Drive(parse, View()));
        tasks := tasks + [task.value];
      }
      AfterLast(tasks, Drive(parse, View()));
    }

    method Finish() returns (ok: bool)
      modifies this
      ensures ok == FinishOk(old(state)) && buf == old(buf)
      ensures state == if old(state).PartialBody? then Done(old(state).seen) else old(state)
    {
      if state.PartialBody? {
        state := Done(state.seen);
      }
      ok := state.Done?;
    }
  }
}
