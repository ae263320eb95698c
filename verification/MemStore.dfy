/**
 The in-memory storage with streaming reads: writers that append to a shared body and
 announce how far they have got on a watch channel, and readers that follow the channel.

 Appending to the body and announcing it are two steps, and so are taking the announced
 length and copying the bytes. Finishing a write and dropping a writer are one step each,
 although they touch the stored objects, the list of open writes and the channel in turn.
 Removing a key's entries while a write to it is open is not part of the model.
 */
module MemStore {
  import opened Basics

  type Key = nat
  type Id = nat

  datatype Progress = Partial(count: nat) | Complete(count: nat) | Aborted

  /** `extended` holds the end-of-body flag between appending bytes and announcing them. */
  datatype Write = Write(
    key: Key,
    body: seq<Byte>,
    progress: Progress,
    version: nat,
    extended: Option<bool>,
    eof: bool,
    open: bool,
    finished: bool)

  datatype Mode = Idle | Copying(end: nat) | Waiting | Ended | Failed

  datatype Reader = Reader(source: Id, bytesRead: nat, seen: nat, received: seq<Byte>, mode: Mode)

  datatype Object = Object(body: seq<Byte>, from: Id)

  datatype State = State(
    failReaders: bool,
    lastTempId: nat,
    writes: map<Id, Write>,
    temp: map<Key, set<Id>>,
    cached: map<Key, Object>,
    readers: seq<Reader>)

  function New(failReaders: bool): State { State(failReaders, 0, map[], map[], map[], []) }

  datatype Step =
    | Start(key: Key)
    | Extend(id: Id, data: seq<Byte>, eof: bool)
    | Announce(id: Id)
    | Finish(id: Id)
    | DropWriter(id: Id)
    | LookupTagged(key: Key, id: Id)
    | Lookup(key: Key, id: Id)
    | Observe(reader: nat)
    | Copy(reader: nat)
    | Wake(reader: nat)
    | Purge(key: Key)

  // ----- Writers -----

  function Temps(temp: map<Key, set<Id>>, key: Key): set<Id> { if key in temp then temp[key] else {} }

  predicate Writing(writes: map<Id, Write>, id: Id) { id in writes && writes[id].open && !writes[id].finished }

  function StartSpec(s: State, key: Key): State {
    var id := s.lastTempId;
    s.(lastTempId := id + 1,
       writes := s.writes[id := Write(key, [], Partial(0), 0, None, false, true, false)],
       temp := s.temp[key := Temps(s.temp, key) + {id}])
  }

  function ExtendSpec(w: Write, data: seq<Byte>, eof: bool): Write {
    w.(body := w.body + data, extended := Some(eof))
  }

  function Announced(w: Write): Write
    requires w.extended.Some?
  {
    w.(progress := if w.extended.value then Complete(|w.body|) else Partial(|w.body|),
       version := w.version + 1, extended := None, eof := w.extended.value)
  }

  function Unlisted(s: State, id: Id): map<Key, set<Id>>
    requires id in s.writes
  {
    var key := s.writes[id].key;
    if key in s.temp then s.temp[key := s.temp[key] - {id}] else s.temp
  }

  function FinishSpec(s: State, id: Id): State
    requires id in s.writes
  {
    var w := s.writes[id];
    s.(cached := s.cached[w.key := Object(w.body, id)],
       temp := Unlisted(s, id),
       writes := s.writes[id := w.(finished := true)])
  }

  function Dropped(w: Write, failReaders: bool): Write {
    if failReaders && !w.finished then w.(open := false, progress := Aborted, version := w.version + 1)
    else w.(open := false)
  }

  function DropSpec(s: State, id: Id): State
    requires id in s.writes
  {
    s.(temp := Unlisted(s, id), writes := s.writes[id := Dropped(s.writes[id], s.failReaders)])
  }

  // ----- Readers -----

  function Attach(id: Id, w: Write): Reader { Reader(id, 0, w.version, [], Idle) }

  function Observed(r: Reader, w: Write): Reader {
    var s := r.(seen := w.version);
    match w.progress
    case Complete(n) => if n == r.bytesRead then s.(mode := Ended) else s.(mode := Copying(n))
    case Partial(n) => if n > r.bytesRead then s.(mode := Copying(n)) else s.(mode := Waiting)
    case Aborted => s.(mode := Failed)
  }

  function Copied(r: Reader, w: Write): Reader
    requires r.mode.Copying? && r.bytesRead <= r.mode.end <= |w.body|
  {
    r.(received := r.received + w.body[r.bytesRead..r.mode.end], bytesRead := r.mode.end, mode := Idle)
  }

  /** The channel has news, or its last sender is gone. */
  function Woken(r: Reader, w: Write): Reader {
    if r.seen != w.version then r.(mode := Idle) else r.(mode := Ended)
  }

  predicate Enabled(s: State, step: Step) {
    match step
    case Start(_) => true
    case Extend(id, _, _) => Writing(s.writes, id) && s.writes[id].extended.None? && s.writes[id].progress.Partial?
    case Announce(id) => Writing(s.writes, id) && s.writes[id].extended.Some?
    case Finish(id) => Writing(s.writes, id) && s.writes[id].extended.None?
    case DropWriter(id) => id in s.writes && s.writes[id].open && s.writes[id].extended.None?
    case LookupTagged(key, id) => id in s.writes && id in Temps(s.temp, key)
    case Lookup(key, id) => id in s.writes && id in Temps(s.temp, key)
    case Observe(i) => i < |s.readers| && s.readers[i].mode.Idle? && s.readers[i].source in s.writes
    case Copy(i) =>
      && i < |s.readers| && s.readers[i].source in s.writes && s.readers[i].mode.Copying?
      && s.readers[i].bytesRead <= s.readers[i].mode.end <= |s.writes[s.readers[i].source].body|
    case Wake(i) =>
      && i < |s.readers| && s.readers[i].source in s.writes && s.readers[i].mode.Waiting?
      && var w := s.writes[s.readers[i].source]; s.readers[i].seen != w.version || !w.open
    case Purge(key) => Temps(s.temp, key) == {}
  }

  function Source(s: State, i: nat): Write
    requires i < |s.readers| && s.readers[i].source in s.writes
  {
    s.writes[s.readers[i].source]
  }

  function Next(s: State, step: Step): State
    requires Enabled(s, step)
  {
    match step
    case Start(key) => StartSpec(s, key)
    case Extend(id, data, eof) => s.(writes := s.writes[id := ExtendSpec(s.writes[id], data, eof)])
    case Announce(id) => s.(writes := s.writes[id := Announced(s.writes[id])])
    case Finish(id) => FinishSpec(s, id)
    case DropWriter(id) => DropSpec(s, id)
    case LookupTagged(_, id) => s.(readers := s.readers + [Attach(id, s.writes[id])])
    case Lookup(_, id) => s.(readers := s.readers + [Attach(id, s.writes[id])])
    case Observe(i) => s.(readers := s.readers[i := Observed(s.readers[i], Source(s, i))])
    case Copy(i) => s.(readers := s.readers[i := Copied(s.readers[i], Source(s, i))])
    case Wake(i) => s.(readers := s.readers[i := Woken(s.readers[i], Source(s, i))])
    case Purge(key) => s.(cached := s.cached - {key}, temp := s.temp - {key})
  }

  ghost predicate Runs(s: State, steps: seq<Step>, t: State)
    decreases |steps|
  {
    if steps == [] then s == t
    else Enabled(s, steps[0]) && Runs(Next(s, steps[0]), steps[1..], t)
  }

  // ----- Invariants -----

  /** Nothing will be appended any more. */
  predicate Closed(w: Write) { w.eof || w.finished || !w.open }

  predicate WriteOk(w: Write, failReaders: bool) {
    && (w.progress.Partial? ==> w.progress.count <= |w.body| && !w.eof)
    && (w.progress.Partial? && w.extended.None? ==> w.progress.count == |w.body|)
    && (w.progress.Complete? ==> w.progress.count == |w.body| && w.eof)
    && (w.extended.Some? ==> w.open && !w.finished && w.progress.Partial?)
    && (w.progress.Aborted? <==> !w.open && !w.finished && failReaders)
  }

  /** What the reader has is a prefix of the body, and what it knows of the channel is true. */
  predicate ReaderOk(r: Reader, w: Write, failReaders: bool) {
    && r.bytesRead <= |w.body| && r.received == w.body[..r.bytesRead]
    && r.seen <= w.version
    && (!w.progress.Aborted? ==> r.bytesRead <= w.progress.count)
    && match r.mode
       case Idle => true
       case Copying(end) => r.bytesRead < end <= |w.body| && (!w.progress.Aborted? ==> end <= w.progress.count)
       case Waiting => r.seen == w.version ==> w.progress == Partial(r.bytesRead)
       case Ended => r.bytesRead == |w.body| && Closed(w) && (failReaders ==> w.eof || w.finished)
       case Failed => w.progress.Aborted?
  }

  ghost predicate WritesOk(writes: map<Id, Write>, lastTempId: nat, failReaders: bool) {
    forall id <- writes :: id < lastTempId && WriteOk(writes[id], failReaders)
  }

  ghost predicate ReadersOk(readers: seq<Reader>, writes: map<Id, Write>, failReaders: bool) {
    forall i :: 0 <= i < |readers| ==>
      readers[i].source in writes && ReaderOk(readers[i], writes[readers[i].source], failReaders)
  }

  /** A write is listed under its key exactly while it is open and unfinished. */
  ghost predicate TempOk(temp: map<Key, set<Id>>, writes: map<Id, Write>) {
    && (forall key <- temp, id <- temp[key] :: Writing(writes, id) && writes[id].key == key)
    && (forall id <- writes :: Writing(writes, id) ==> id in Temps(temp, writes[id].key))
  }

  ghost predicate CachedOk(cached: map<Key, Object>, writes: map<Id, Write>) {
    forall key <- cached :: StoredOk(writes, key, cached[key])
  }

  ghost predicate Valid(s: State) {
    && WritesOk(s.writes, s.lastTempId, s.failReaders) && ReadersOk(s.readers, s.writes, s.failReaders)
    && TempOk(s.temp, s.writes) && CachedOk(s.cached, s.writes)
  }

  /** What is stored under a key is the whole body of a finished write to it. */
  predicate StoredOk(writes: map<Id, Write>, key: Key, stored: Object) {
    && stored.from in writes && writes[stored.from].finished
    && writes[stored.from].key == key && writes[stored.from].body == stored.body
  }

  // ----- A writer's step does not disturb its readers -----

  lemma {:induction false} ExtendIsSafe(w: Write, data: seq<Byte>, eof: bool, r: Reader, failReaders: bool)
    requires WriteOk(w, failReaders) && ReaderOk(r, w, failReaders)
    requires w.open && !w.finished && w.extended.None? && w.progress.Partial?
    ensures WriteOk(ExtendSpec(w, data, eof), failReaders)
    ensures ReaderOk(r, ExtendSpec(w, data, eof), failReaders)
  {
    assert (w.body + data)[..r.bytesRead] == w.body[..r.bytesRead];
  }

  lemma {:induction false} AnnounceIsSafe(w: Write, r: Reader, failReaders: bool)
    requires WriteOk(w, failReaders) && ReaderOk(r, w, failReaders) && w.extended.Some?
    ensures WriteOk(Announced(w), failReaders) && ReaderOk(r, Announced(w), failReaders)
  {
  }

  lemma {:induction false} DropIsSafe(w: Write, r: Reader, failReaders: bool)
    requires WriteOk(w, failReaders) && ReaderOk(r, w, failReaders) && w.open && w.extended.None?
    ensures WriteOk(Dropped(w, failReaders), failReaders) && ReaderOk(r, Dropped(w, failReaders), failReaders)
  {
  }

  lemma {:induction false} ReaderStepIsSafe(r: Reader, w: Write, failReaders: bool)
    requires WriteOk(w, failReaders) && ReaderOk(r, w, failReaders)
    ensures r.mode.Idle? ==> ReaderOk(Observed(r, w), w, failReaders)
    ensures r.mode.Copying? ==> ReaderOk(Copied(r, w), w, failReaders)
    ensures r.mode.Waiting? && (r.seen != w.version || !w.open) ==> ReaderOk(Woken(r, w), w, failReaders)
  {
    if r.mode.Copying? {
      assert w.body[..r.bytesRead] + w.body[r.bytesRead..r.mode.end] == w.body[..r.mode.end];
    }
  }

  // ----- Every step keeps the invariant -----

  /** Readers that can live with the changed write live with the changed map. */
  lemma {:induction false} ReadersSurvive(
      readers: seq<Reader>, writes: map<Id, Write>, id: Id, w: Write, failReaders: bool)
    requires ReadersOk(readers, writes, failReaders) && id in writes
    requires forall r: Reader :: ReaderOk(r, writes[id], failReaders) ==> ReaderOk(r, w, failReaders)
    ensures ReadersOk(readers, writes[id := w], failReaders)
  {
  }

  lemma {:induction false} CachedSurvives(cached: map<Key, Object>, writes: map<Id, Write>, id: Id, w: Write)
    requires CachedOk(cached, writes) && id in writes && w.key == writes[id].key
    requires writes[id].finished ==> w.finished && w.body == writes[id].body
    ensures CachedOk(cached, writes[id := w])
  {
    forall key <- cached ensures StoredOk(writes[id := w], key, cached[key]) {
      assert StoredOk(writes, key, cached[key]);
    }
  }

  lemma {:induction false} WriteChangeKeepsValid(s: State, id: Id, w: Write)
    requires Valid(s) && Writing(s.writes, id) && w.open && !w.finished && w.key == s.writes[id].key
    requires WriteOk(w, s.failReaders)
    requires forall r: Reader :: ReaderOk(r, s.writes[id], s.failReaders) ==> ReaderOk(r, w, s.failReaders)
    ensures Valid(s.(writes := s.writes[id := w]))
  {
    ReadersSurvive(s.readers, s.writes, id, w, s.failReaders);
    CachedSurvives(s.cached, s.writes, id, w);
  }

  lemma {:induction false} ReaderChangeKeepsValid(s: State, i: nat, r: Reader)
    requires Valid(s) && i < |s.readers| && r.source == s.readers[i].source
    requires ReaderOk(r, s.writes[r.source], s.failReaders)
    ensures Valid(s.(readers := s.readers[i := r]))
  {
  }

  lemma {:induction false} AttachKeepsValid(s: State, id: Id)
    requires Valid(s) && id in s.writes
    ensures Valid(s.(readers := s.readers + [Attach(id, s.writes[id])]))
  {
  }

  lemma {:induction false} PurgeKeepsValid(s: State, key: Key)
    requires Valid(s) && Enabled(s, Purge(key))
    ensures Valid(Next(s, Purge(key)))
  {
  }

  lemma {:induction false} ListedWithTheNew(temp: map<Key, set<Id>>, writes: map<Id, Write>, id: Id, w: Write)
    requires TempOk(temp, writes) && id !in writes && w.open && !w.finished
    ensures TempOk(temp[w.key := Temps(temp, w.key) + {id}], writes[id := w])
  {
    var temp', writes' := temp[w.key := Temps(temp, w.key) + {id}], writes[id := w];
    assert forall key <- temp :: id in temp[key] ==> Writing(writes, id);
    forall key <- temp', other <- temp'[key] ensures Writing(writes', other) && writes'[other].key == key {
      if other != id { assert key in temp && other in temp[key]; }
    }
    forall other <- writes' ensures Writing(writes', other) ==> other in Temps(temp', writes'[other].key) {
      if other != id && Writing(writes', other) { assert other in Temps(temp, writes[other].key); }
    }
  }

  lemma {:induction false} StartKeepsValid(s: State, key: Key)
    requires Valid(s)
    ensures Valid(StartSpec(s, key))
  {
    var id, w := s.lastTempId, Write(key, [], Partial(0), 0, None, false, true, false);
    assert id !in s.writes;
    ListedWithTheNew(s.temp, s.writes, id, w);
    assert CachedOk(s.cached, s.writes[id := w]) by {
      forall k <- s.cached ensures StoredOk(s.writes[id := w], k, s.cached[k]) {
        assert StoredOk(s.writes, k, s.cached[k]);
      }
    }
  }

  /** Taking a write off its list goes with its no longer being open and unfinished. */
  lemma {:induction false} UnlistedWhenOver(s: State, id: Id, w: Write)
    requires TempOk(s.temp, s.writes) && id in s.writes && w.key == s.writes[id].key && !(w.open && !w.finished)
    ensures TempOk(Unlisted(s, id), s.writes[id := w])
  {
    var temp, writes := Unlisted(s, id), s.writes[id := w];
    forall key <- temp, other <- temp[key] ensures Writing(writes, other) && writes[other].key == key {
      assert other in s.temp[key];
    }
  }

  lemma {:induction false} FinishKeepsValid(s: State, id: Id)
    requires Valid(s) && Enabled(s, Finish(id))
    ensures Valid(FinishSpec(s, id))
  {
    var w := s.writes[id].(finished := true);
    UnlistedWhenOver(s, id, w);
    ReadersSurvive(s.readers, s.writes, id, w, s.failReaders);
    CachedSurvives(s.cached, s.writes, id, w);
  }

  lemma {:induction false} DropKeepsValid(s: State, id: Id)
    requires Valid(s) && Enabled(s, DropWriter(id))
    ensures Valid(DropSpec(s, id))
  {
    var w := Dropped(s.writes[id], s.failReaders);
    forall r: Reader | ReaderOk(r, s.writes[id], s.failReaders) ensures ReaderOk(r, w, s.failReaders) {
      DropIsSafe(s.writes[id], r, s.failReaders);
    }
    UnlistedWhenOver(s, id, w);
    ReadersSurvive(s.readers, s.writes, id, w, s.failReaders);
    CachedSurvives(s.cached, s.writes, id, w);
  }

  lemma {:induction false} StepKeepsValid(s: State, step: Step)
    requires Valid(s) && Enabled(s, step)
    ensures Valid(Next(s, step))
  {
    match step
    case Start(key) => StartKeepsValid(s, key);
    case Extend(id, data, eof) =>
      forall r: Reader | ReaderOk(r, s.writes[id], s.failReaders)
        ensures ReaderOk(r, ExtendSpec(s.writes[id], data, eof), s.failReaders)
      {
        ExtendIsSafe(s.writes[id], data, eof, r, s.failReaders);
      }
      WriteChangeKeepsValid(s, id, ExtendSpec(s.writes[id], data, eof));
    case Announce(id) =>
      forall r: Reader | ReaderOk(r, s.writes[id], s.failReaders)
        ensures ReaderOk(r, Announced(s.writes[id]), s.failReaders)
      {
        AnnounceIsSafe(s.writes[id], r, s.failReaders);
      }
      WriteChangeKeepsValid(s, id, Announced(s.writes[id]));
    case Finish(id) => FinishKeepsValid(s, id);
    case DropWriter(id) => DropKeepsValid(s, id);
    case Observe(i) =>
      ReaderStepIsSafe(s.readers[i], Source(s, i), s.failReaders);
      ReaderChangeKeepsValid(s, i, Observed(s.readers[i], Source(s, i)));
    case Copy(i) =>
      ReaderStepIsSafe(s.readers[i], Source(s, i), s.failReaders);
      ReaderChangeKeepsValid(s, i, Copied(s.readers[i], Source(s, i)));
    case Wake(i) =>
      ReaderStepIsSafe(s.readers[i], Source(s, i), s.failReaders);
      ReaderChangeKeepsValid(s, i, Woken(s.readers[i], Source(s, i)));
    case LookupTagged(_, id) => AttachKeepsValid(s, id);
    case Lookup(_, id) => AttachKeepsValid(s, id);
    case Purge(key) => PurgeKeepsValid(s, key);
  }

  lemma {:induction false} RunsKeepValid(s: State, steps: seq<Step>, t: State)
    requires Valid(s) && Runs(s, steps, t)
    ensures Valid(t)
    decreases |steps|
  {
    if steps != [] {
      StepKeepsValid(s, steps[0]);
      RunsKeepValid(Next(s, steps[0]), steps[1..], t);
    }
  }

  // ----- Bodies only grow, and stop growing -----

  predicate Continues(w: Write, v: Write) {
    && v.key == w.key && w.body <= v.body
    && (Closed(w) ==> Closed(v) && v.body == w.body && (w.eof || w.finished ==> v.eof || v.finished))
  }

  ghost predicate Later(s: State, t: State) {
    && t.failReaders == s.failReaders
    && (forall id <- s.writes :: id in t.writes && Continues(s.writes[id], t.writes[id]))
    && |s.readers| <= |t.readers|
    && (forall i :: 0 <= i < |s.readers| ==> t.readers[i].source == s.readers[i].source)
  }

  lemma {:induction false} StepIsLater(s: State, step: Step)
    requires Valid(s) && Enabled(s, step)
    ensures Later(s, Next(s, step))
  {
    var t := Next(s, step);
    assert s.lastTempId !in s.writes;
    forall id <- s.writes ensures id in t.writes && Continues(s.writes[id], t.writes[id]) {
      assert WriteOk(s.writes[id], s.failReaders);
    }
    ReadersKeepTheirSource(s, step);
  }

  lemma {:induction false} ReadersKeepTheirSource(s: State, step: Step)
    requires Enabled(s, step)
    ensures
      var t := Next(s, step);
      && t.failReaders == s.failReaders && |s.readers| <= |t.readers|
      && forall i :: 0 <= i < |s.readers| ==> t.readers[i].source == s.readers[i].source
  {
  }

  lemma {:induction false} RunsAreLater(s: State, steps: seq<Step>, t: State)
    requires Valid(s) && Runs(s, steps, t)
    ensures Valid(t) && Later(s, t)
    decreases |steps|
  {
    if steps != [] {
      var m := Next(s, steps[0]);
      StepKeepsValid(s, steps[0]);
      StepIsLater(s, steps[0]);
      RunsAreLater(m, steps[1..], t);
      forall id <- s.writes ensures id in t.writes && Continues(s.writes[id], t.writes[id]) {
        assert id in m.writes;
      }
    }
  }

  // ----- Main results -----

  /** In every interleaving a reader has a prefix of the body of the write it follows. */
  lemma {:induction false} ReaderHasPrefix(failReaders: bool, steps: seq<Step>, t: State, i: nat)
    requires Runs(New(failReaders), steps, t) && i < |t.readers|
    ensures t.readers[i].source in t.writes && t.readers[i].received <= Source(t, i).body
  {
    RunsKeepValid(New(failReaders), steps, t);
  }

  /**
   A reader told that the body has ended has all of it, for good: nothing is appended
   later. With `failReaders`, the write has reached its end or been finished.
   */
  lemma {:induction false} EndOfBodyIsTheWholeBody(
      failReaders: bool, before: seq<Step>, s: State, after: seq<Step>, t: State, i: nat)
    requires Runs(New(failReaders), before, s) && Runs(s, after, t)
    requires i < |s.readers| && s.readers[i].mode.Ended?
    ensures s.readers[i].source in s.writes && s.readers[i].source in t.writes
    ensures s.readers[i].received == Source(s, i).body == t.writes[s.readers[i].source].body
    ensures Closed(Source(s, i))
    ensures failReaders ==> Source(s, i).eof || Source(s, i).finished
  {
    RunsAreLater(New(failReaders), before, s);
    RunsAreLater(s, after, t);
  }

  /** Without `failReaders` a dropped write ends its waiting readers as if it were complete. */
  lemma {:induction false} DroppedWriteEndsCleanly(s: State, i: nat)
    requires Valid(s) && !s.failReaders && i < |s.readers| && s.readers[i].mode.Waiting?
    requires s.readers[i].seen == Source(s, i).version
    requires Writing(s.writes, s.readers[i].source) && Source(s, i).extended.None?
    ensures
      var drop := DropWriter(s.readers[i].source);
      && Enabled(s, drop) && Enabled(Next(s, drop), Wake(i))
      && var t := Next(Next(s, drop), Wake(i));
         t.readers[i].mode.Ended? && !Source(t, i).eof && !Source(t, i).finished
  {
  }

  /** The reader follows a write that was dropped before it was finished, and has not been told of an end. */
  predicate Stranded(s: State, i: nat) {
    && i < |s.readers| && !s.readers[i].mode.Ended? && s.readers[i].source in s.writes
    && !Source(s, i).open && !Source(s, i).finished
  }

  lemma {:induction false} StepLeavesStranded(s: State, step: Step, i: nat)
    requires Valid(s) && s.failReaders && Stranded(s, i) && Enabled(s, step)
    ensures Stranded(Next(s, step), i) && Next(s, step).failReaders
    ensures s.readers[i].mode.Failed? ==> Next(s, step).readers[i].mode.Failed?
  {
    var r, w := s.readers[i], Source(s, i);
    assert ReaderOk(r, w, true) && WriteOk(w, true);
    assert s.lastTempId !in s.writes;
  }

  /**
   With `failReaders` a reader of a dropped write is never told that the body has ended: its next
   look at the channel fails it for good, and nothing keeps it from looking.
   */
  lemma {:induction false} DroppedWriteFailsReaders(before: seq<Step>, s: State, after: seq<Step>, t: State, i: nat)
    requires Runs(New(true), before, s) && Runs(s, after, t) && Stranded(s, i)
    ensures Stranded(t, i)
    ensures
      match t.readers[i].mode
      case Idle => Enabled(t, Observe(i)) && Next(t, Observe(i)).readers[i].mode.Failed?
      case Copying(_) => Enabled(t, Copy(i)) && Next(t, Copy(i)).readers[i].mode.Idle?
      case Waiting => Enabled(t, Wake(i)) && Next(t, Wake(i)).readers[i].mode.Idle?
      case Failed => true
      case Ended => false
    ensures s.readers[i].mode.Failed? ==> t.readers[i].mode.Failed?
  {
    RunsKeepValid(New(true), before, s);
    RunsAreLater(New(true), before, s);
    RunsLeaveStranded(s, after, t, i);
    RunsKeepValid(s, after, t);
    assert ReaderOk(t.readers[i], Source(t, i), true) && WriteOk(Source(t, i), true);
  }

  lemma {:induction false} RunsLeaveStranded(s: State, steps: seq<Step>, t: State, i: nat)
    requires Valid(s) && s.failReaders && Stranded(s, i) && Runs(s, steps, t)
    ensures Stranded(t, i) && t.failReaders && (s.readers[i].mode.Failed? ==> t.readers[i].mode.Failed?)
    decreases |steps|
  {
    if steps != [] {
      StepKeepsValid(s, steps[0]);
      StepLeavesStranded(s, steps[0], i);
      RunsLeaveStranded(Next(s, steps[0]), steps[1..], t, i);
    }
  }

  predicate EndedIsComplete(s: State, i: nat) {
    i < |s.readers| && s.readers[i].mode.Ended? ==>
      s.readers[i].source in s.writes && (Source(s, i).eof || Source(s, i).finished)
  }

  /** A reader waits for the first bytes of a write. */
  lemma {:induction false} WaitingEarly() returns (s: State)
    ensures Runs(New(false), [Start(0), LookupTagged(0, 0), Observe(0)], s) && Valid(s) && !s.failReaders
    ensures |s.readers| == 1 && s.readers[0].source == 0 && s.readers[0].mode.Waiting?
    ensures Writing(s.writes, 0) && s.writes[0].extended.None? && s.readers[0].seen == s.writes[0].version
  {
    var s1 := StartSpec(New(false), 0);
    var s2 := Next(s1, LookupTagged(0, 0));
    s := Next(s2, Observe(0));
    OneStepFirst(s2, Observe(0), [], s);
    OneStepFirst(s1, LookupTagged(0, 0), [Observe(0)], s);
    OneStepFirst(New(false), Start(0), [LookupTagged(0, 0), Observe(0)], s);
    RunsKeepValid(New(false), [Start(0), LookupTagged(0, 0), Observe(0)], s);
  }

  /** If the writer is then dropped, the reader is told that the body has ended. */
  lemma {:induction false} DroppedEarlyEnds() returns (steps: seq<Step>, t: State)
    ensures Runs(New(false), steps, t) && !EndedIsComplete(t, 0)
  {
    var s := WaitingEarly();
    DroppedWriteEndsCleanly(s, 0);
    var m := Next(s, DropWriter(0));
    t := Next(m, Wake(0));
    OneStepFirst(m, Wake(0), [], t);
    OneStepFirst(s, DropWriter(0), [Wake(0)], t);
    steps := [Start(0), LookupTagged(0, 0), Observe(0)] + [DropWriter(0), Wake(0)];
    RunsThen(New(false), [Start(0), LookupTagged(0, 0), Observe(0)], s, [DropWriter(0), Wake(0)], t);
  }

  lemma {:induction false} OneStepFirst(s: State, step: Step, rest: seq<Step>, t: State)
    requires Enabled(s, step) && Runs(Next(s, step), rest, t)
    ensures Runs(s, [step] + rest, t)
  {
    assert ([step] + rest)[1..] == rest;
  }

  lemma {:induction false} RunsThen(s: State, a: seq<Step>, m: State, b: seq<Step>, t: State)
    requires Runs(s, a, m) && Runs(m, b, t)
    ensures Runs(s, a + b, t)
    decreases |a|
  {
    if a == [] {
      assert a + b == b;
    } else {
      RunsThen(Next(s, a[0]), a[1..], m, b, t);
      assert (a + b)[1..] == a[1..] + b;
    }
  }

  ghost predicate Reachable(failReaders: bool, t: State) { exists steps :: Runs(New(failReaders), steps, t) }

  /** The end of body means a complete write, in every run and for every reader, iff readers of dropped writes fail. */
  lemma {:induction false} EndMeansCompleteIff(failReaders: bool)
    ensures failReaders <==> forall t, i | Reachable(failReaders, t) :: EndedIsComplete(t, i)
  {
    if failReaders {
      forall t, i | Reachable(failReaders, t) ensures EndedIsComplete(t, i) {
        var steps :| Runs(New(failReaders), steps, t);
        RunsAreLater(New(failReaders), steps, t);
      }
    } else {
      var steps, t := DroppedEarlyEnds();
      assert Runs(New(failReaders), steps, t);
      assert Reachable(failReaders, t) && !EndedIsComplete(t, 0);
    }
  }

  /** As long as a write is open its tag finds it, and the reader it yields follows that very write. */
  lemma {:induction false} TagFindsItsOwnWrite(
      failReaders: bool, before: seq<Step>, s: State, key: Key, during: seq<Step>, t: State, after: seq<Step>, u: State)
    requires Runs(New(failReaders), before, s) && Runs(Next(s, Start(key)), during, t)
    requires Writing(t.writes, s.lastTempId)
    ensures Enabled(t, LookupTagged(key, s.lastTempId))
    ensures
      Runs(Next(t, LookupTagged(key, s.lastTempId)), after, u) ==>
        && |t.readers| < |u.readers| && u.readers[|t.readers|].source == s.lastTempId
        && s.lastTempId in u.writes && u.readers[|t.readers|].received <= u.writes[s.lastTempId].body
  {
    RunsKeepValid(New(failReaders), before, s);
    StepKeepsValid(s, Start(key));
    RunsAreLater(Next(s, Start(key)), during, t);
    if Runs(Next(t, LookupTagged(key, s.lastTempId)), after, u) {
      StepKeepsValid(t, LookupTagged(key, s.lastTempId));
      RunsAreLater(Next(t, LookupTagged(key, s.lastTempId)), after, u);
      assert u.readers[|t.readers|].source == s.lastTempId;
    }
  }

  /** Whatever is stored, in any reachable state, is the whole and final body of a finished write to that key. */
  lemma {:induction false} StoredIsWhole(
      failReaders: bool, before: seq<Step>, s: State, after: seq<Step>, t: State, key: Key)
    requires Runs(New(failReaders), before, s) && Runs(s, after, t) && key in s.cached
    ensures
      var from := s.cached[key].from;
      && from in t.writes && t.writes[from].finished && t.writes[from].key == key
      && t.writes[from].body == s.cached[key].body
  {
    RunsAreLater(New(failReaders), before, s);
    FinishedStays(s, after, t, s.cached[key].from);
  }

  lemma {:induction false} FinishedStays(s: State, steps: seq<Step>, t: State, id: Id)
    requires Valid(s) && Runs(s, steps, t) && id in s.writes && s.writes[id].finished
    ensures id in t.writes && t.writes[id].finished
    ensures t.writes[id].key == s.writes[id].key && t.writes[id].body == s.writes[id].body
    decreases |steps|
  {
    if steps != [] {
      StepKeepsValid(s, steps[0]);
      assert s.lastTempId !in s.writes;
      FinishedStays(Next(s, steps[0]), steps[1..], t, id);
    }
  }

  /** A stored object was there before, or comes from a write that had not been finished then. */
  lemma {:induction false} StoredComesFrom(s: State, steps: seq<Step>, t: State, key: Key)
    requires Valid(s) && Runs(s, steps, t) && key in t.cached
    ensures
      var from := t.cached[key].from;
      || (key in s.cached && s.cached[key] == t.cached[key])
      || from !in s.writes || !s.writes[from].finished
    decreases |steps|
  {
    if steps != [] {
      var m := Next(s, steps[0]);
      StepKeepsValid(s, steps[0]);
      StepKeepsFinished(s, steps[0], t.cached[key].from);
      StoredComesFrom(m, steps[1..], t, key);
    }
  }

  lemma {:induction false} StepKeepsFinished(s: State, step: Step, id: Id)
    requires Valid(s) && Enabled(s, step)
    ensures id in s.writes && s.writes[id].finished ==>
            id in Next(s, step).writes && Next(s, step).writes[id].finished
  {
    assert s.lastTempId !in s.writes;
  }

  /** A purged object is gone: what is stored under the key later was not finished before the purge. */
  lemma {:induction false} PurgedStaysGone(
      failReaders: bool, before: seq<Step>, s: State, key: Key, after: seq<Step>, t: State)
    requires Runs(New(failReaders), before, s) && Enabled(s, Purge(key)) && Runs(Next(s, Purge(key)), after, t)
    ensures key in t.cached ==>
            t.cached[key].from !in s.writes || !s.writes[t.cached[key].from].finished
  {
    RunsKeepValid(New(failReaders), before, s);
    StepKeepsValid(s, Purge(key));
    if key in t.cached { StoredComesFrom(Next(s, Purge(key)), after, t, key); }
  }

  /** `finish` never misses the entry it unwraps, and stores the writer's own bytes. */
  lemma {:induction false} FinishStoresTheBody(failReaders: bool, steps: seq<Step>, t: State, id: Id)
    requires Runs(New(failReaders), steps, t) && Enabled(t, Finish(id))
    ensures id in Temps(t.temp, t.writes[id].key)
    ensures Next(t, Finish(id)).cached == t.cached[t.writes[id].key := Object(t.writes[id].body, id)]
  {
    RunsKeepValid(New(failReaders), steps, t);
  }

  /** The reader's assertion holds, its slice is in bounds, and one call hands over everything announced. */
  lemma {:induction false} ReaderCatchesUp(failReaders: bool, steps: seq<Step>, t: State, i: nat)
    requires Runs(New(failReaders), steps, t) && i < |t.readers|
    ensures t.readers[i].source in t.writes
    ensures t.readers[i].mode.Copying? ==> Enabled(t, Copy(i))
    ensures t.readers[i].mode.Idle? && !Source(t, i).progress.Aborted? ==>
              t.readers[i].bytesRead <= Source(t, i).progress.count
    ensures
      var r, w := t.readers[i], Source(t, i);
      var o := Observed(r, w);
      r.mode.Idle? && w.extended.None? && !w.progress.Aborted? ==>
        if r.bytesRead == |w.body| then
          if w.eof then o.mode.Ended? else o.mode.Waiting?
        else
          o.mode.Copying? && o.mode.end == |w.body| && Copied(o, w).received == w.body
  {
    RunsKeepValid(New(failReaders), steps, t);
    var w := Source(t, i);
    assert w.body[..t.readers[i].bytesRead] + w.body[t.readers[i].bytesRead..|w.body|] == w.body;
  }

  // ----- The storage object -----

  class MemCache {
    const failReaders: bool
    var lastTempId: nat
    var writes: map<Id, Write>
    var temp: map<Key, set<Id>>
    var cached: map<Key, Object>
    var readers: seq<Reader>

    ghost function View(): State
      reads this
    {
      State(failReaders, lastTempId, writes, temp, cached, readers)
    }

    constructor (failReaders: bool)
      ensures View() == New(failReaders) && Valid(View())
    {
      this.failReaders := failReaders;
      lastTempId, writes, temp, cached, readers := 0, map[], map[], map[], [];
    }

    method GetMissHandler(key: Key) returns (id: Id)
      requires Valid(View())
      modifies this`lastTempId, this`writes, this`temp
      ensures View() == Next(old(View()), Start(key)) && Valid(View())
      ensures id !in old(writes) && Writing(writes, id) && id in Temps(temp, key)
    {
      StepKeepsValid(View(), Start(key));
      id := lastTempId;
      lastTempId := lastTempId + 1;
      writes := writes[id := Write(key, [], Partial(0), 0, None, false, true, false)];
      temp := temp[key := Temps(temp, key) + {id}];
    }

    method WriteBody(id: Id, data: seq<Byte>, eof: bool)
      requires Valid(View()) && Enabled(View(), Extend(id, data, eof))
      modifies this`writes
      ensures View() == Next(Next(old(View()), Extend(id, data, eof)), Announce(id)) && Valid(View())
      ensures writes[id].body == old(writes[id].body) + data && !writes[id].progress.Aborted?
      ensures writes[id].progress.count == |writes[id].body|
    {
      StepKeepsValid(View(), Extend(id, data, eof));
      StepKeepsValid(Next(View(), Extend(id, data, eof)), Announce(id));
      var before := writes[id];
      var written := before.progress.count + |data|;
      var progress := if eof then Complete(written) else Partial(written);
      var version := before.version + 1;
      writes := writes[id := before.(body := before.body + data, progress := progress, version := version, eof := eof)];
      ghost var after := before.(body := before.body + data, extended := Some(eof));
      assert writes[id] == Announced(after);
      assert writes == old(writes)[id := after][id := Announced(after)];
    }

    method FinishWrite(id: Id) returns (size: nat)
      requires Valid(View()) && Enabled(View(), Finish(id))
      modifies this`cached, this`temp, this`writes
      ensures View() == Next(old(View()), Finish(id)) && Valid(View())
      ensures size == |cached[writes[id].key].body|
    {
      StepKeepsValid(View(), Finish(id));
      var w := writes[id];
      size := |w.body|;
      cached := cached[w.key := Object(w.body, id)];
      temp := temp[w.key := temp[w.key] - {id}];
      writes := writes[id := w.(finished := true)];
    }

    method DropMissHandler(id: Id)
      requires Valid(View()) && Enabled(View(), DropWriter(id))
      modifies this`temp, this`writes
      ensures View() == Next(old(View()), DropWriter(id)) && Valid(View())
    {
      StepKeepsValid(View(), DropWriter(id));
      var w := writes[id];
      if w.key in temp { temp := temp[w.key := temp[w.key] - {id}]; }
      writes := writes[id := w.(open := false)];
      if failReaders && !w.finished {
        writes := writes[id := writes[id].(progress := Aborted, version := w.version + 1)];
      }
      assert writes == Next(old(View()), DropWriter(id)).writes;
    }

    method LookupStreamingWrite(key: Key, tag: Id) returns (reader: nat)
      requires Valid(View()) && Writing(writes, tag) && writes[tag].key == key
      modifies this`readers
      ensures Enabled(old(View()), LookupTagged(key, tag))
      ensures View() == Next(old(View()), LookupTagged(key, tag)) && Valid(View())
      ensures reader == |old(readers)| && readers[reader].source == tag
    {
      StepKeepsValid(View(), LookupTagged(key, tag));
      reader := |readers|;
      readers := readers + [Attach(tag, writes[tag])];
    }

    /**
     The part of a read that runs without waiting: `Some(bytes)` when there is more,
     `None` when the body has ended, waits or has failed, as the reader's mode tells.
     */
    method Read(i: nat) returns (chunk: Option<seq<Byte>>)
      requires Valid(View()) && Enabled(View(), Observe(i))
      modifies this`readers
      ensures Valid(View()) && |readers| == |old(readers)|
      ensures forall j :: 0 <= j < |readers| && j != i ==> readers[j] == old(readers[j])
      ensures
        var o := Next(old(View()), Observe(i));
        View() == if o.readers[i].mode.Copying? && Enabled(o, Copy(i)) then Next(o, Copy(i)) else o
      ensures readers[i].received == old(readers[i].received) + (if chunk.Some? then chunk.value else [])
      ensures chunk.Some? ==> chunk.value != [] && readers[i].mode.Idle?
    {
      StepKeepsValid(View(), Observe(i));
      var w := writes[readers[i].source];
      readers := readers[i := Observed(readers[i], w)];
      chunk := None;
      if readers[i].mode.Copying? {
        StepKeepsValid(View(), Copy(i));
        var r := readers[i];
        chunk := Some(w.body[r.bytesRead..r.mode.end]);
        readers := readers[i := r.(received := r.received + chunk.value, bytesRead := r.mode.end, mode := Idle)];
      }
    }
  }
}
