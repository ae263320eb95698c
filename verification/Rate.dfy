/**
 The rate estimator: two slots, one collecting the events of the current interval while the
 other reports the one before. Sequential calls with a clock that does not run backwards;
 times are milliseconds since the estimator was made.
 */
module Rate {
  import opened Basics
  import opened Estimator

  datatype Timed = Timed(at: nat, event: Event)

  /** The two slots, with the times of their events, and which one is current. */
  datatype Slots = Slots(interval: nat, lastReset: nat, redNow: bool, red: seq<Timed>, blue: seq<Timed>)

  function Current(s: Slots): seq<Timed> { if s.redNow then s.red else s.blue }

  function Previous(s: Slots): seq<Timed> { if s.redNow then s.blue else s.red }

  function New(interval: nat): Slots { Slots(interval, 0, true, [], []) }

  /** Clear the previous slot and make it current; after two intervals the other one is stale as well. */
  function MaybeResetSpec(s: Slots, now: nat): Slots
    requires s.lastReset <= now
  {
    if now - s.lastReset < s.interval then s
    else
      var kept := if now - s.lastReset >= 2 * s.interval then [] else Current(s);
      if s.redNow then Slots(s.interval, now, false, kept, []) else Slots(s.interval, now, true, [], kept)
  }

  function ObserveSpec(s: Slots, now: nat, e: Event): Slots
    requires s.lastReset <= now
  {
    Recorded(MaybeResetSpec(s, now), Timed(now, e))
  }

  function Recorded(s: Slots, t: Timed): Slots {
    if s.redNow then s.(red := s.red + [t]) else s.(blue := s.blue + [t])
  }

  // ----- The reference: every event ever seen, and the start of the interval before -----

  datatype Trace = Trace(history: seq<Timed>, before: Option<nat>, clock: nat)

  const FRESH := Trace([], None, 0)

  /** The events of the half-open stretch of time from `lo` to `hi`. */
  function Window(history: seq<Timed>, lo: nat, hi: nat): seq<Timed> {
    if history == [] then []
    else
      var front := Window(history[..|history| - 1], lo, hi);
      var last := history[|history| - 1];
      if lo <= last.at < hi then front + [last] else front
  }

  lemma {:induction false} WindowAppends(history: seq<Timed>, t: Timed, lo: nat, hi: nat)
    ensures Window(history + [t], lo, hi) == Window(history, lo, hi) + if lo <= t.at < hi then [t] else []
  {
    assert (history + [t])[..|history|] == history;
  }

  lemma {:induction false} NothingYet(history: seq<Timed>, lo: nat, hi: nat)
    requires forall k :: 0 <= k < |history| ==> history[k].at < lo
    ensures Window(history, lo, hi) == []
    decreases |history|
  {
    if history != [] { NothingYet(history[..|history| - 1], lo, hi); }
  }

  /** The current slot holds exactly the events of the current interval. */
  predicate CurrentIs(s: Slots, trace: Trace) {
    Current(s) == Window(trace.history, s.lastReset, s.lastReset + s.interval)
  }

  /** The previous slot holds those of the interval before, or nothing once two intervals have passed. */
  predicate PreviousIs(s: Slots, trace: Trace) {
    match trace.before
    case None => Previous(s) == []
    case Some(start) =>
      && start + s.interval <= s.lastReset
      && Previous(s) ==
         if s.lastReset - start >= 2 * s.interval then [] else Window(trace.history, start, start + s.interval)
  }

  /** When an event can have happened: in the current interval, or before the end of an earlier one. */
  predicate Placed(s: Slots, trace: Trace, t: Timed) {
    && t.at <= trace.clock && t.at < s.lastReset + s.interval
    && (t.at >= s.lastReset || (trace.before.Some? && t.at < trace.before.value + s.interval))
  }

  /** What the slots hold, in terms of the whole history. */
  predicate Refines(s: Slots, trace: Trace) {
    && s.interval > 0 && s.lastReset <= trace.clock
    && (forall k :: 0 <= k < |trace.history| ==> Placed(s, trace, trace.history[k]))
    && CurrentIs(s, trace) && PreviousIs(s, trace)
  }

  datatype Op = Observe(now: nat, event: Event) | Ask(now: nat)

  function Next(s: Slots, op: Op): Slots
    requires s.lastReset <= op.now
  {
    match op
    case Observe(now, e) => ObserveSpec(s, now, e)
    case Ask(now) => MaybeResetSpec(s, now)
  }

  function Traced(s: Slots, trace: Trace, op: Op): Trace {
    Trace(
      if op.Observe? then trace.history + [Timed(op.now, op.event)] else trace.history,
      if s.lastReset <= op.now && op.now - s.lastReset >= s.interval then Some(s.lastReset) else trace.before,
      op.now)
  }

  lemma {:induction false} ResetRefines(s: Slots, trace: Trace, now: nat)
    requires Refines(s, trace) && trace.clock <= now
    ensures Refines(MaybeResetSpec(s, now), Traced(s, trace, Ask(now)))
  {
    var t, next := MaybeResetSpec(s, now), Traced(s, trace, Ask(now));
    forall k | 0 <= k < |trace.history| ensures Placed(t, next, trace.history[k]) {
      assert Placed(s, trace, trace.history[k]);
    }
    if now - s.lastReset >= s.interval {
      NothingYet(trace.history, now, now + s.interval) by {
        assert forall k :: 0 <= k < |trace.history| ==> Placed(s, trace, trace.history[k]);
      }
      assert PreviousIs(t, next);
    }
  }

  lemma {:induction false} RecordKeepsWindows(s: Slots, trace: Trace, t: Timed)
    requires CurrentIs(s, trace) && PreviousIs(s, trace) && s.lastReset <= t.at < s.lastReset + s.interval
    ensures CurrentIs(Recorded(s, t), trace.(history := trace.history + [t]))
    ensures PreviousIs(Recorded(s, t), trace.(history := trace.history + [t]))
  {
    WindowAppends(trace.history, t, s.lastReset, s.lastReset + s.interval);
    if trace.before.Some? { WindowAppends(trace.history, t, trace.before.value, trace.before.value + s.interval); }
  }

  lemma {:induction false} RecordKeepsPlaced(s: Slots, trace: Trace, t: Timed, u: Timed)
    requires u == t || Placed(s, trace, u)
    requires s.lastReset <= trace.clock == t.at < s.lastReset + s.interval
    ensures Placed(Recorded(s, t), trace.(history := trace.history + [t]), u)
  {
  }

  lemma {:induction false} RecordRefines(s: Slots, trace: Trace, t: Timed)
    requires Refines(s, trace) && trace.clock == t.at < s.lastReset + s.interval
    ensures Refines(Recorded(s, t), trace.(history := trace.history + [t]))
  {
    var next, after := Recorded(s, t), trace.(history := trace.history + [t]);
    RecordKeepsWindows(s, trace, t);
    forall k | 0 <= k < |after.history| ensures Placed(next, after, after.history[k]) {
      if k < |trace.history| { assert after.history[k] == trace.history[k]; } else { assert after.history[k] == t; }
      RecordKeepsPlaced(s, trace, t, after.history[k]);
    }
  }

  lemma {:induction false} ObserveRefines(s: Slots, trace: Trace, now: nat, e: Event)
    requires Refines(s, trace) && trace.clock <= now
    ensures Refines(ObserveSpec(s, now, e), Traced(s, trace, Observe(now, e)))
  {
    ResetRefines(s, trace, now);
    RecordRefines(MaybeResetSpec(s, now), Traced(s, trace, Ask(now)), Timed(now, e));
  }

  ghost predicate Runs(s: Slots, trace: Trace, ops: seq<Op>, t: Slots, end: Trace)
    decreases |ops|
  {
    if ops == [] then s == t && trace == end
    else
      && s.lastReset <= trace.clock <= ops[0].now
      && Runs(Next(s, ops[0]), Traced(s, trace, ops[0]), ops[1..], t, end)
  }

  lemma {:induction false} RunsRefine(s: Slots, trace: Trace, ops: seq<Op>, t: Slots, end: Trace)
    requires Refines(s, trace) && Runs(s, trace, ops, t, end)
    ensures Refines(t, end) && t.interval == s.interval
    decreases |ops|
  {
    if ops != [] {
      var op := ops[0];
      if op.Observe? { ObserveRefines(s, trace, op.now, op.event); } else { ResetRefines(s, trace, op.now); }
      RunsRefine(Next(s, op), Traced(s, trace, op), ops[1..], t, end);
    }
  }

  /** In every run each slot is the window of the history it should be. */
  lemma {:induction false} SlotsAreWindows(interval: nat, ops: seq<Op>, s: Slots, trace: Trace)
    requires interval > 0 && Runs(New(interval), FRESH, ops, s, trace)
    ensures s.interval == interval && CurrentIs(s, trace) && PreviousIs(s, trace)
  {
    RunsRefine(New(interval), FRESH, ops, s, trace);
  }

  lemma {:induction false} ResetIsACall(s: Slots, trace: Trace, ops: seq<Op>, t: Slots, end: Trace) returns (j: int)
    requires Runs(s, trace, ops, t, end) && s.interval > 0
    ensures -1 <= j < |ops| && t.interval == s.interval
    ensures t.lastReset == if j < 0 then s.lastReset else ops[j].now
    ensures forall k :: j < k < |ops| ==> ops[k].now < t.lastReset + s.interval
    decreases |ops|
  {
    j := -1;
    if ops != [] {
      var u := Next(s, ops[0]);
      var n := ResetIsACall(u, Traced(s, trace, ops[0]), ops[1..], t, end);
      assert u.lastReset == if ops[0].now >= s.lastReset + s.interval then ops[0].now else s.lastReset;
      j := if n >= 0 then n + 1 else if ops[0].now >= s.lastReset + s.interval then 0 else -1;
      forall k | j < k < |ops| ensures ops[k].now < t.lastReset + s.interval {
        if k > 0 { assert ops[k] == ops[1..][k - 1]; }
      }
    }
  }

  /**
   The current interval begins with a call, or at the start, and no call since has come after its
   end: a call that comes an interval or more later begins the next one.
   */
  lemma {:induction false} IntervalsBeginWithACall(interval: nat, ops: seq<Op>, s: Slots, trace: Trace) returns (j: int)
    requires interval > 0 && Runs(New(interval), FRESH, ops, s, trace)
    ensures -1 <= j < |ops| && s.lastReset == if j < 0 then 0 else ops[j].now
    ensures forall k :: j < k < |ops| ==> ops[k].now < s.lastReset + interval
  {
    j := ResetIsACall(New(interval), FRESH, ops, s, trace);
  }

  function Events(log: seq<Timed>): seq<Event> { seq(|log|, i requires 0 <= i < |log| => log[i].event) }

  /** A window whose count the sketch can bound: no event is negative and no counter of the key overflows. */
  predicate Countable(shape: Shape, window: seq<Timed>, key: Key)
    requires ShapeOk(shape)
  {
    shape.rows > 0 && NonNegative(Events(window)) && InRange(shape, Events(window), key, shape.rows)
  }

  /** Short of overflow, what is reported for the current interval is never below what happened in it. */
  lemma {:induction false} ReportIsNeverBelow(
      shape: Shape, interval: nat, ops: seq<Op>, s: Slots, trace: Trace, key: Key, window: seq<Timed>)
    requires ShapeOk(shape) && interval > 0 && Runs(New(interval), FRESH, ops, s, trace)
    requires window == Window(trace.history, s.lastReset, s.lastReset + interval) && Countable(shape, window, key)
    ensures Count(Events(window), key) <= Estimate(shape, Events(Current(s)), key, shape.rows)
  {
    SlotsAreWindows(interval, ops, s, trace);
    EstimateIsNeverBelow(shape, Events(window), key, shape.rows);
  }

  /** And so for the interval before, until two intervals have passed. */
  lemma {:induction false} LastReportIsNeverBelow(
      shape: Shape, interval: nat, ops: seq<Op>, s: Slots, trace: Trace, key: Key, start: nat, window: seq<Timed>)
    requires ShapeOk(shape) && interval > 0 && Runs(New(interval), FRESH, ops, s, trace)
    requires trace.before == Some(start) && s.lastReset - start < 2 * interval
    requires window == Window(trace.history, start, start + interval) && Countable(shape, window, key)
    ensures Count(Events(window), key) <= Estimate(shape, Events(Previous(s)), key, shape.rows)
  {
    SlotsAreWindows(interval, ops, s, trace);
    EstimateIsNeverBelow(shape, Events(window), key, shape.rows);
  }

  /** The zeros answered early are what the slots would have said iff the sketch has any rows. */
  lemma {:induction false} EarlyZerosAreTrueIff(shape: Shape, s: Slots, now: nat, key: Key)
    requires ShapeOk(shape) && s.lastReset <= now
    ensures
      var t := MaybeResetSpec(s, now);
      && (now - s.lastReset >= s.interval ==>
            (Estimate(shape, Events(Current(t)), key, shape.rows) == 0 <==> shape.rows > 0))
      && (now - s.lastReset >= 2 * s.interval ==>
            (Estimate(shape, Events(Previous(t)), key, shape.rows) == 0 <==> shape.rows > 0))
  {
    EmptyEstimate(shape, key, shape.rows);
    assert Events([]) == [];
  }

  // ----- The estimator object -----

  lemma {:induction false} EventsAppend(log: seq<Timed>, t: Timed)
    ensures Events(log + [t]) == Events(log) + [t.event]
  {
  }

  /** So many events per second are `samples` in an interval given in milliseconds. */
  predicate IsPerSecond(rate: real, samples: int, interval: nat) {
    rate * (interval as real) == 1000.0 * (samples as real)
  }

  method ScaledToSeconds(samples: int, interval: nat) returns (rate: real)
    requires interval > 0
    ensures IsPerSecond(rate, samples, interval)
    ensures samples == 0 ==> rate == 0.0
  {
    rate := samples as real * 1000.0 / (interval as real);
  }

  class Rate {
    const red: Sketch
    const blue: Sketch
    const interval: nat
    var redNow: bool
    var lastReset: nat
    ghost var redLog: seq<Timed>
    ghost var blueLog: seq<Timed>

    ghost function View(): Slots
      reads this
    {
      Slots(interval, lastReset, redNow, redLog, blueLog)
    }

    ghost predicate Valid()
      reads this, red, blue, red.counters, blue.counters
    {
      && red.Valid() && blue.Valid() && red != blue && red.counters != blue.counters
      && red.shape == blue.shape
      && red.log == Events(redLog) && blue.log == Events(blueLog)
    }

    constructor (interval: nat, shape: Shape)
      requires ShapeOk(shape)
      ensures Valid() && View() == New(interval) && red.shape == shape
      ensures fresh(red) && fresh(blue) && fresh(red.counters) && fresh(blue.counters)
    {
      this.interval := interval;
      red := new Sketch(shape);
      blue := new Sketch(shape);
      redNow, lastReset, redLog, blueLog := true, 0, [], [];
    }

    method MaybeReset(now: nat) returns (past: nat)
      requires Valid() && lastReset <= now
      modifies this, red, blue, red.counters, blue.counters
      ensures Valid() && View() == MaybeResetSpec(old(View()), now)
      ensures past == now - old(lastReset)
    {
      past := now - lastReset;
      if past < interval { return; }
      var wasRed := redNow;
      lastReset := now;
      if wasRed { blue.Reset(); blueLog := []; } else { red.Reset(); redLog := []; }
      redNow := !wasRed;
      if past >= interval * 2 {
        if wasRed { red.Reset(); redLog := []; } else { blue.Reset(); blueLog := []; }
      }
    }

    method Record(now: nat, key: Key, events: int) returns (seen: int)
      requires Valid()
      modifies this, red, blue, red.counters, blue.counters
      ensures Valid() && View() == Recorded(old(View()), Timed(now, Event(key, events)))
      ensures seen == Estimate(red.shape, Events(Current(View())), key, red.shape.rows)
    {
      if redNow {
        EventsAppend(redLog, Timed(now, Event(key, events)));
        seen := red.Incr(key, events);
        redLog := redLog + [Timed(now, Event(key, events))];
      } else {
        EventsAppend(blueLog, Timed(now, Event(key, events)));
        seen := blue.Incr(key, events);
        blueLog := blueLog + [Timed(now, Event(key, events))];
      }
    }

    /** The answer is the estimate of the current interval's events so far. */
    method Observe(now: nat, key: Key, events: int) returns (seen: int)
      requires Valid() && lastReset <= now
      modifies this, red, blue, red.counters, blue.counters
      ensures Valid() && View() == ObserveSpec(old(View()), now, Event(key, events))
      ensures seen == Estimate(red.shape, Events(Current(View())), key, red.shape.rows)
    {
      var _ := MaybeReset(now);
      seen := Record(now, key, events);
    }

    /** The samples of both intervals; those known to be stale are answered with zero. */
    method RateWith(now: nat, key: Key) returns (previous: int, current: int)
      requires Valid() && lastReset <= now
      modifies this, red, blue, red.counters, blue.counters
      ensures Valid() && View() == MaybeResetSpec(old(View()), now)
      ensures
        var past := now - old(lastReset);
        && previous ==
            (if past >= interval * 2 then 0 else Estimate(red.shape, Events(Previous(View())), key, red.shape.rows))
        && current == (if past >= interval then 0
            else Estimate(red.shape, Events(Current(View())), key, red.shape.rows))
      ensures
        red.shape.rows > 0 ==>
          && previous == Estimate(red.shape, Events(Previous(View())), key, red.shape.rows)
          && current == Estimate(red.shape, Events(Current(View())), key, red.shape.rows)
    {
      EarlyZerosAreTrueIff(red.shape, View(), now, key);
      var past := MaybeReset(now);
      if past >= interval * 2 {
        previous, current := 0, 0;
      } else {
        previous := GetFrom(!redNow, key);
        current := 0;
        if past < interval { current := GetFrom(redNow, key); }
      }
    }

    method GetFrom(fromRed: bool, key: Key) returns (samples: int)
      requires Valid()
      ensures samples == Estimate(red.shape, Events(if fromRed then redLog else blueLog), key, red.shape.rows)
    {
      if fromRed { samples := red.Get(key); } else { samples := blue.Get(key); }
    }

    method PreviousSamples(now: nat, key: Key) returns (previous: int)
      requires Valid() && lastReset <= now
      modifies this, red, blue, red.counters, blue.counters
      ensures Valid() && View() == MaybeResetSpec(old(View()), now)
      ensures red.shape.rows > 0 ==> previous == Estimate(red.shape, Events(Previous(View())), key, red.shape.rows)
      ensures now - old(lastReset) >= interval * 2 ==> previous == 0
    {
      EarlyZerosAreTrueIff(red.shape, View(), now, key);
      var past := MaybeReset(now);
      if past >= interval * 2 { return 0; }
      previous := GetFrom(!redNow, key);
    }

    /** Events per second over the interval before. */
    method PerSecond(now: nat, key: Key) returns (rate: real)
      requires Valid() && lastReset <= now && interval > 0
      modifies this, red, blue, red.counters, blue.counters
      ensures Valid() && View() == MaybeResetSpec(old(View()), now)
      ensures
        red.shape.rows > 0 ==>
          IsPerSecond(rate, Estimate(red.shape, Events(Previous(View())), key, red.shape.rows), interval)
      ensures now - old(lastReset) >= interval * 2 ==> rate == 0.0
    {
      var previous := PreviousSamples(now, key);
      rate := ScaledToSeconds(previous, interval);
    }
  }
}
