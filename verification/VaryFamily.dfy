/**
 One primary key of the cache and everything stored under it: the primary slot and the
 secondary slots of its variants, used by any number of interleaved requests.

 The provenance of the primary entry is the tombstone of the family: a variant created
 before it is not served. Requests run the proxy's lookup loop over `HttpCache`; the vary
 filter, the hit filter and the lock outcomes are arguments of the steps.

 Writes to the primary slot are serialized with the lookup they rest on: `version` counts
 changes of that slot, and a request may write it only if it has not changed since the
 request read it. Nothing is assumed about the order of writes to secondary slots. Beside
 its metadata a slot records when its body was fetched; a 304 replaces the metadata only.
 */
module VaryFamily {
  import opened Basics
  import opened HttpCache

  type Slot = Option<Variance>

  /** Inside the lookup loop; out of it, hit, miss or stale; with a response ready to be stored. */
  datatype Stage = Looking | Decided | Ready(fetched: Time)

  datatype Flight = Flight(r: Request, stage: Stage, base: nat)

  /** What a slot holds: the metadata, and when the body beside it was fetched. */
  datatype Stored = Stored(meta: Meta, fetched: Time)

  datatype World = World(store: map<Slot, Stored>, now: Time, version: nat, flights: map<nat, Flight>)

  datatype Step =
    | Tick(elapsed: nat)
    | Purge(slot: Slot)
    | Begin(id: nat)
    | Look(id: nat, variance: Option<Variance>, status: HitStatus, wait: bool, failed: bool)
    | Respond(id: nat, variance: Option<Variance>)
    | NotModified(id: nat)
    | Commit(id: nat)
    | Abandon(id: nat)

  // ----- The lookup loop -----

  function Reading(w: World, slot: Slot, failed: bool): Option<Meta> {
    if failed || slot !in w.store then None else Some(w.store[slot].meta)
  }

  function Missed(r: Request, base: nat, wait: bool): Flight
    requires r.phase.CacheKey? || r.phase.Stale?
  {
    if wait then Flight(r, Looking, base) else Flight(Next(r, CacheMiss), Decided, base)
  }

  function Decide(r: Request, m: Meta, status: HitStatus, wait: bool, base: nat): Flight
    requires (r.phase.CacheKey? || r.phase.Stale?) && r.key.Some?
  {
    var s := FoundSpec(r, m, status, Read);
    if TreatedAsMiss(status) then Missed(s, base, wait)
    else Flight(s, if s.phase.Stale? && wait then Looking else Decided, base)
  }

  /** The entry in the primary slot is the wanted variant, or the next turn looks in the variant's own slot. */
  function Vary(r: Request, v: Variance, m: Meta, status: HitStatus, wait: bool, base: nat): Flight
    requires (r.phase.CacheKey? || r.phase.Stale?) && r.key.Some?
  {
    var (s, matches) := VaryLookupSpec(r, v, m);
    if matches then Decide(s, m, status, wait, base) else Flight(s, Looking, base)
  }

  predicate InLoop(f: Flight) {
    f.stage.Looking? && (f.r.phase.CacheKey? || f.r.phase.Stale?) && f.r.key.Some?
  }

  function SlotOf(f: Flight): Slot
    requires f.r.key.Some?
  {
    f.r.key.value.variance
  }

  /** One turn of the loop; `None` when the request gives up on the cache. */
  function Turn(
      w: World, f: Flight, variance: Option<Variance>, status: HitStatus, wait: bool, failed: bool): Option<Flight>
    requires InLoop(f)
  {
    var slot := SlotOf(f);
    var base := if slot.None? then w.version else f.base;
    match Visible(f.r, Reading(w, slot, failed))
    case None => Some(Missed(f.r, base, wait))
    case Some(m) =>
      if slot.Some? then
        if m.variance != slot then None else Some(Decide(f.r, m, status, wait, base))
      else
        match variance
        case None => Some(Decide(f.r, m, status, wait, base))
        case Some(v) => Some(Vary(f.r, v, m, status, wait, base))
  }

  // ----- Responses -----

  predicate Awaiting(f: Flight) {
    f.stage.Decided? && f.r.key.Some? && (f.r.phase.Miss? || (f.r.phase.Stale? && f.r.meta.Some?))
  }

  function Responded(f: Flight, now: Time, variance: Option<Variance>): Flight
    requires Awaiting(f)
  {
    var r := SetMetaSpec(f.r, Meta(now, Some(now), None));
    Flight(UpdateVarianceSpec(r, variance), Ready(now), f.base)
  }

  /** A 304 keeps the variance of the entry it renews. */
  function Renewed(f: Flight, now: Time): Meta
    requires Awaiting(f) && f.r.phase.Stale?
  {
    RevalidateMetaSpec(f.r, Meta(now, Some(now), f.r.meta.value.variance)).meta.value
  }

  function Store(w: World, slot: Slot, e: Stored): World {
    w.(store := w.store[slot := e], version := if slot.None? then w.version + 1 else w.version)
  }

  predicate MayWrite(w: World, f: Flight) {
    f.r.key.Some? && (SlotOf(f).None? ==> f.base == w.version)
  }

  predicate Enabled(w: World, step: Step) {
    match step
    case Tick(_) => true
    case Purge(_) => true
    case Begin(id) => id !in w.flights
    case Look(id, _, _, _, _) => id in w.flights && InLoop(w.flights[id])
    case Respond(id, _) => id in w.flights && Awaiting(w.flights[id])
    case NotModified(id) =>
      && id in w.flights && Awaiting(w.flights[id]) && w.flights[id].r.phase.Stale?
      && MayWrite(w, w.flights[id]) && SlotOf(w.flights[id]) in w.store
    case Commit(id) =>
      && id in w.flights && w.flights[id].stage.Ready? && w.flights[id].r.meta.Some?
      && MayWrite(w, w.flights[id])
    case Abandon(id) => id in w.flights
  }

  const ENTERING := NEW.(phase := CacheKey, enabled := true, key := Some(Key(0, None)))

  function After(w: World, step: Step): World
    requires Enabled(w, step)
  {
    match step
    case Tick(elapsed) => w.(now := w.now + elapsed)
    case Purge(slot) => w.(store := w.store - {slot}, version := if slot.None? then w.version + 1 else w.version)
    case Begin(id) => w.(flights := w.flights[id := Flight(ENTERING, Looking, w.version)])
    case Look(id, variance, status, wait, failed) =>
      (match Turn(w, w.flights[id], variance, status, wait, failed)
       case Some(f) => w.(flights := w.flights[id := f])
       case None => w.(flights := w.flights - {id}))
    case Respond(id, variance) =>
      w.(flights := w.flights[id := Responded(w.flights[id], w.now, variance)])
    case NotModified(id) =>
      var f := w.flights[id];
      Store(w, SlotOf(f), Stored(Renewed(f, w.now), w.store[SlotOf(f)].fetched)).(flights := w.flights - {id})
    case Commit(id) =>
      var f := w.flights[id];
      Store(w, SlotOf(f), Stored(f.r.meta.value, f.stage.fetched)).(flights := w.flights - {id})
    case Abandon(id) => w.(flights := w.flights - {id})
  }

  ghost predicate Runs(w: World, steps: seq<Step>, u: World)
    decreases |steps|
  {
    if steps == [] then w == u
    else Enabled(w, steps[0]) && Runs(After(w, steps[0]), steps[1..], u)
  }

  // ----- The tombstone -----

  /**
   The request can neither serve from a slot anything created before `t` nor lower the primary's
   provenance below `t`.
   */
  predicate Above(f: Flight, t: Time) {
    f.r.key.Some? &&
    if SlotOf(f).Some? then f.r.validAfter.Some? && f.r.validAfter.value >= t
    else (f.stage.Ready? || (f.stage.Decided? && f.r.phase.Stale?)) ==>
         f.r.meta.Some? && Provenance(f.r.meta.value) >= t
  }

  /** Everyone who read the primary at version `since` or later is above `t`, and so is the primary itself. */
  ghost predicate Tombstone(w: World, since: nat, t: Time) {
    && since <= w.version && t <= w.now
    && (None in w.store ==> Provenance(w.store[None].meta) >= t)
    && forall id <- w.flights :: w.flights[id].base >= since ==> Above(w.flights[id], t)
  }

  predicate Timely(now: Time, m: Meta) { Provenance(m) <= m.created <= now }

  /** The request is about to renew the entry now in the primary slot. */
  predicate Refreshing(w: World, f: Flight) {
    f.stage.Decided? && f.r.phase.Stale? && f.base == w.version && f.r.key.Some? && SlotOf(f).None?
  }

  ghost predicate FlightOk(w: World, f: Flight) {
    && f.base <= w.version && f.r.key.Some? && f.r.lock.None? && !f.r.lockCtx
    && (f.r.meta.Some? ==> Timely(w.now, f.r.meta.value))
    && (f.stage.Ready? ==> f.r.meta.Some? && f.r.meta.value.created == f.stage.fetched)
    && (Refreshing(w, f) ==> None in w.store && f.r.meta == Some(w.store[None].meta))
  }

  ghost predicate WorldOk(w: World) {
    && (forall slot <- w.store :: Timely(w.now, w.store[slot].meta))
    && (forall id <- w.flights :: FlightOk(w, w.flights[id]))
    && (None in w.store ==> Tombstone(w, w.version, Provenance(w.store[None].meta)))
  }

  // ----- What one request does -----

  /** A turn of the loop leaves these alone. */
  predicate Carried(r: Request, s: Request) {
    s.key == r.key && s.validAfter == r.validAfter && s.lock == r.lock && s.lockCtx == r.lockCtx
  }

  lemma {:induction false} MissedFacts(r: Request, base: nat, wait: bool)
    requires r.phase.CacheKey? || r.phase.Stale?
    ensures
      var g := Missed(r, base, wait);
      && Carried(r, g.r) && g.base == base && !g.stage.Ready?
      && (g.r.meta.None? || g.r.meta == r.meta) && (g.stage.Decided? ==> g.r.phase.Miss?)
  {
  }

  lemma {:induction false} FoundFacts(r: Request, m: Meta, status: HitStatus)
    requires (r.phase.CacheKey? || r.phase.Stale?) && r.key.Some? && !r.lockCtx
    ensures
      var s := FoundSpec(r, m, status, Read);
      && Carried(r, s) && s.meta == (if TreatedAsMiss(status) then None else Some(m))
      && (TreatedAsMiss(status) ==> s.phase == r.phase)
  {
  }

  lemma {:induction false} DecideFacts(r: Request, m: Meta, status: HitStatus, wait: bool, base: nat)
    requires (r.phase.CacheKey? || r.phase.Stale?) && r.key.Some? && !r.lockCtx
    ensures
      var g := Decide(r, m, status, wait, base);
      && Carried(r, g.r) && g.base == base && !g.stage.Ready?
      && (g.r.meta.None? || g.r.meta == Some(m)) && (g.stage.Decided? && g.r.phase.Stale? ==> g.r.meta == Some(m))
      && (!TreatedAsMiss(status) ==> g.r.meta == Some(m))
  {
    FoundFacts(r, m, status);
    if TreatedAsMiss(status) { MissedFacts(FoundSpec(r, m, status, Read), base, wait); }
  }

  /** What a turn leads to, read off the request alone. */
  predicate Turned(f: Flight, m: Option<Meta>, g: Flight) {
    && f.r.key.Some? && g.r.key.Some? && g.r.lock == f.r.lock && g.r.lockCtx == f.r.lockCtx && !g.stage.Ready?
    && (g.r.meta.None? || g.r.meta == f.r.meta || g.r.meta == m)
    && (g.stage.Decided? && g.r.phase.Stale? ==> g.r.meta.Some? && g.r.meta == m)
    && if SlotOf(f).Some? then Carried(f.r, g.r)
       else SlotOf(g).Some? ==> m.Some? && g.r.validAfter == Some(Provenance(m.value))
  }

  lemma {:induction false} MissedTurns(f: Flight, base: nat, wait: bool)
    requires InLoop(f)
    ensures Turned(f, None, Missed(f.r, base, wait)) && Missed(f.r, base, wait).base == base
  {
    MissedFacts(f.r, base, wait);
  }

  lemma {:induction false} DecideTurns(f: Flight, m: Meta, status: HitStatus, wait: bool, base: nat)
    requires InLoop(f) && !f.r.lockCtx
    ensures Turned(f, Some(m), Decide(f.r, m, status, wait, base)) && Decide(f.r, m, status, wait, base).base == base
  {
    DecideFacts(f.r, m, status, wait, base);
  }

  lemma {:induction false} VaryFacts(f: Flight, v: Variance, m: Meta, status: HitStatus, wait: bool, base: nat)
    requires InLoop(f) && !f.r.lockCtx && SlotOf(f).None?
    ensures
      var g := Vary(f.r, v, m, status, wait, base);
      Turned(f, Some(m), g) && g.base == base
  {
    var (s, matches) := VaryLookupSpec(f.r, v, m);
    if matches { DecideFacts(s, m, status, wait, base); }
  }

  lemma {:induction false} TurnFacts(
      w: World, f: Flight, variance: Option<Variance>, status: HitStatus, wait: bool, failed: bool)
    requires InLoop(f) && !f.r.lockCtx
    ensures
      var g := Turn(w, f, variance, status, wait, failed);
      g.Some? ==> Turned(f, Visible(f.r, Reading(w, SlotOf(f), failed)), g.value)
                  && g.value.base == if SlotOf(f).None? then w.version else f.base
  {
    var slot := SlotOf(f);
    var base := if slot.None? then w.version else f.base;
    match Visible(f.r, Reading(w, slot, failed))
    case None => MissedTurns(f, base, wait);
    case Some(m) =>
      if slot.Some? || variance.None? {
        DecideTurns(f, m, status, wait, base);
      } else {
        VaryFacts(f, variance.value, m, status, wait, base);
      }
  }

  lemma {:induction false} TurnKeepsOk(
      w: World, f: Flight, variance: Option<Variance>, status: HitStatus, wait: bool, failed: bool)
    requires InLoop(f) && FlightOk(w, f)
    requires forall slot <- w.store :: Timely(w.now, w.store[slot].meta)
    ensures
      var g := Turn(w, f, variance, status, wait, failed);
      g.Some? ==> FlightOk(w, g.value)
  {
    TurnFacts(w, f, variance, status, wait, failed);
    var seen := Reading(w, SlotOf(f), failed);
    assert seen.Some? ==> Timely(w.now, seen.value);
  }

  lemma {:induction false} TurnStaysAbove(
      w: World, f: Flight, variance: Option<Variance>, status: HitStatus, wait: bool, failed: bool, since: nat, t: Time)
    requires InLoop(f) && FlightOk(w, f)
    requires since <= w.version && (None in w.store ==> Provenance(w.store[None].meta) >= t)
    requires f.base >= since ==> Above(f, t)
    ensures
      var g := Turn(w, f, variance, status, wait, failed);
      g.Some? && g.value.base >= since ==> Above(g.value, t)
  {
    TurnFacts(w, f, variance, status, wait, failed);
  }

  lemma {:induction false} ResponseKeepsOk(w: World, f: Flight, variance: Option<Variance>)
    requires Awaiting(f) && FlightOk(w, f)
    ensures FlightOk(w, Responded(f, w.now, variance))
  {
    ResponseProvenance(f, w.now, variance);
  }

  lemma {:induction false} ResponseStaysAbove(w: World, f: Flight, variance: Option<Variance>, t: Time)
    requires Awaiting(f) && FlightOk(w, f) && Above(f, t) && t <= w.now
    ensures Above(Responded(f, w.now, variance), t)
  {
  }

  lemma {:induction false} RenewalKeepsProvenance(w: World, f: Flight)
    requires Awaiting(f) && f.r.phase.Stale? && FlightOk(w, f)
    ensures
      var m := Renewed(f, w.now);
      Provenance(m) == Provenance(f.r.meta.value) && m.variance == f.r.meta.value.variance && Timely(w.now, m)
  {
  }

  // ----- What every step keeps -----

  lemma {:induction false} StepKeepsTombstone(w: World, step: Step, since: nat, t: Time)
    requires WorldOk(w) && Tombstone(w, since, t) && Enabled(w, step)
    ensures Tombstone(After(w, step), since, t)
  {
    match step
    case Look(id, variance, status, wait, failed) =>
      TurnStaysAbove(w, w.flights[id], variance, status, wait, failed, since, t);
    case Respond(id, variance) =>
      if w.flights[id].base >= since { ResponseStaysAbove(w, w.flights[id], variance, t); }
    case NotModified(id) => RenewalKeepsProvenance(w, w.flights[id]);
    case _ =>
  }

  /** A write to the primary slot becomes the tombstone of everything after it. */
  lemma {:induction false} PrimaryWriteSetsTombstone(w: World, e: Stored, rest: map<nat, Flight>)
    requires WorldOk(w) && Timely(w.now, e.meta)
    requires forall id <- rest :: id in w.flights && rest[id] == w.flights[id]
    ensures
      var u := Store(w, None, e).(flights := rest);
      Tombstone(u, u.version, Provenance(e.meta))
  {
  }

  lemma {:induction false} FlightChangeKeepsOk(w: World, id: nat, f: Flight)
    requires WorldOk(w) && FlightOk(w, f)
    requires None in w.store && f.base == w.version ==> Above(f, Provenance(w.store[None].meta))
    ensures WorldOk(w.(flights := w.flights[id := f]))
  {
    var u := w.(flights := w.flights[id := f]);
    forall i <- u.flights ensures FlightOk(u, u.flights[i]) {}
  }

  lemma {:induction false} WriteKeepsOk(w: World, slot: Slot, e: Stored, id: nat)
    requires WorldOk(w) && Timely(w.now, e.meta)
    ensures WorldOk(Store(w, slot, e).(flights := w.flights - {id}))
  {
    var u := Store(w, slot, e).(flights := w.flights - {id});
    forall i <- u.flights ensures FlightOk(u, u.flights[i]) { assert i in w.flights; }
    if slot.None? { PrimaryWriteSetsTombstone(w, e, u.flights); }
  }

  lemma {:induction false} StepKeepsOk(w: World, step: Step)
    requires WorldOk(w) && Enabled(w, step)
    ensures WorldOk(After(w, step))
  {
    var p := if None in w.store then Provenance(w.store[None].meta) else 0;
    match step
    case Tick(_) => TickKeepsOk(w, step);
    case Begin(id) => FlightChangeKeepsOk(w, id, Flight(ENTERING, Looking, w.version));
    case Look(id, variance, status, wait, failed) =>
      var f := w.flights[id];
      TurnKeepsOk(w, f, variance, status, wait, failed);
      if None in w.store { TurnStaysAbove(w, f, variance, status, wait, failed, w.version, p); }
      match Turn(w, f, variance, status, wait, failed) {
        case Some(g) => FlightChangeKeepsOk(w, id, g);
        case None =>
      }
    case Respond(id, variance) =>
      var f := w.flights[id];
      ResponseKeepsOk(w, f, variance);
      if None in w.store && f.base == w.version { ResponseStaysAbove(w, f, variance, p); }
      FlightChangeKeepsOk(w, id, Responded(f, w.now, variance));
    case NotModified(id) =>
      RenewalKeepsProvenance(w, w.flights[id]);
      var f := w.flights[id];
      WriteKeepsOk(w, SlotOf(f), Stored(Renewed(f, w.now), w.store[SlotOf(f)].fetched), id);
    case Commit(id) =>
      var f := w.flights[id];
      WriteKeepsOk(w, SlotOf(f), Stored(f.r.meta.value, f.stage.fetched), id);
    case _ =>
  }

  lemma {:induction false} TickKeepsOk(w: World, step: Step)
    requires WorldOk(w) && step.Tick?
    ensures WorldOk(After(w, step))
  {
    var u := After(w, step);
    forall i <- u.flights ensures FlightOk(u, u.flights[i]) {}
  }

  lemma {:induction false} RunsKeepOk(w: World, steps: seq<Step>, u: World)
    requires WorldOk(w) && Runs(w, steps, u)
    ensures WorldOk(u)
    decreases |steps|
  {
    if steps != [] {
      StepKeepsOk(w, steps[0]);
      RunsKeepOk(After(w, steps[0]), steps[1..], u);
    }
  }

  lemma {:induction false} RunsKeepTombstone(w: World, steps: seq<Step>, u: World, since: nat, t: Time)
    requires WorldOk(w) && Tombstone(w, since, t) && Runs(w, steps, u)
    ensures WorldOk(u) && Tombstone(u, since, t)
    decreases |steps|
  {
    if steps != [] {
      StepKeepsOk(w, steps[0]);
      StepKeepsTombstone(w, steps[0], since, t);
      RunsKeepTombstone(After(w, steps[0]), steps[1..], u, since, t);
    }
  }

  // ----- From an empty cache on -----

  function Empty(now: Time): World { World(map[], now, 0, map[]) }

  /** Reachable: whatever requests and purges have done to a cache that was empty. */
  ghost predicate Reached(start: Time, past: seq<Step>, w: World) { Runs(Empty(start), past, w) }

  lemma {:induction false} ReachedIsOk(start: Time, past: seq<Step>, w: World)
    requires Reached(start, past, w)
    ensures WorldOk(w)
  {
    RunsKeepOk(Empty(start), past, w);
  }

  predicate Concerns(step: Step, id: nat) { !step.Tick? && !step.Purge? && step.id == id }

  /** The primary slot changes only with its version, and a request only by its own steps. */
  lemma {:induction false} StepLeavesAlone(w: World, step: Step, id: nat)
    requires Enabled(w, step) && id in w.flights && !Concerns(step, id)
    ensures
      var u := After(w, step);
      && id in u.flights && u.flights[id] == w.flights[id] && u.version >= w.version
      && (u.version == w.version ==> (None in u.store <==> None in w.store))
      && (u.version == w.version && None in w.store ==> u.store[None] == w.store[None])
  {
  }

  lemma {:induction false} RunsLeaveAlone(w: World, steps: seq<Step>, u: World, id: nat)
    requires Runs(w, steps, u) && id in w.flights && forall k | 0 <= k < |steps| :: !Concerns(steps[k], id)
    ensures id in u.flights && u.flights[id] == w.flights[id] && u.version >= w.version
    ensures u.version == w.version ==> (None in u.store <==> None in w.store)
    ensures u.version == w.version && None in w.store ==> u.store[None] == w.store[None]
    decreases |steps|
  {
    if steps != [] {
      assert !Concerns(steps[0], id);
      StepLeavesAlone(w, steps[0], id);
      RunsLeaveAlone(After(w, steps[0]), steps[1..], u, id);
    }
  }

  // ----- Variants are where they belong -----

  /** A request that has settled on an entry of a variant's slot, or has a response for it, has that variant. */
  predicate HasItsVariant(f: Flight) {
    f.r.key.Some? && SlotOf(f).Some? && f.r.meta.Some? && !f.stage.Looking? ==> f.r.meta.value.variance == SlotOf(f)
  }

  ghost predicate VariantsInPlace(w: World) {
    && WorldOk(w)
    && (forall slot <- w.store :: slot.Some? ==> w.store[slot].meta.variance == slot)
    && (forall id <- w.flights :: HasItsVariant(w.flights[id]))
  }

  lemma {:induction false} TurnHasItsVariant(
      w: World, f: Flight, variance: Option<Variance>, status: HitStatus, wait: bool, failed: bool)
    requires InLoop(f) && !f.r.lockCtx
    ensures
      var g := Turn(w, f, variance, status, wait, failed);
      g.Some? ==> HasItsVariant(g.value)
  {
    var slot := SlotOf(f);
    var base := if slot.None? then w.version else f.base;
    match Visible(f.r, Reading(w, slot, failed))
    case None => MissHasItsVariant(f.r, base, wait);
    case Some(m) =>
      if variance.Some? && slot.None? {
        VaryHasItsVariant(f.r, variance.value, m, status, wait, base);
      } else if slot.None? || m.variance == slot {
        DecisionHasItsVariant(f.r, m, status, wait, base);
      }
  }

  lemma {:induction false} MissHasItsVariant(r: Request, base: nat, wait: bool)
    requires r.phase.CacheKey? || r.phase.Stale?
    ensures HasItsVariant(Missed(r, base, wait))
  {
  }

  lemma {:induction false} DecisionHasItsVariant(r: Request, m: Meta, status: HitStatus, wait: bool, base: nat)
    requires (r.phase.CacheKey? || r.phase.Stale?) && r.key.Some? && !r.lockCtx
    requires r.key.value.variance.None? || m.variance == r.key.value.variance
    ensures HasItsVariant(Decide(r, m, status, wait, base))
  {
    DecideFacts(r, m, status, wait, base);
  }

  lemma {:induction false} VaryHasItsVariant(
      r: Request, v: Variance, m: Meta, status: HitStatus, wait: bool, base: nat)
    requires (r.phase.CacheKey? || r.phase.Stale?) && r.key.Some? && r.key.value.variance.None? && !r.lockCtx
    ensures HasItsVariant(Vary(r, v, m, status, wait, base))
  {
    VaryChoosesTheSlot(r, v, m, status, wait, base);
  }

  lemma {:induction false} ResponseHasItsVariant(f: Flight, now: Time, variance: Option<Variance>)
    requires Awaiting(f)
    ensures HasItsVariant(Responded(f, now, variance))
  {
    ResponseProvenance(f, now, variance);
  }

  lemma {:induction false} FlightKeepsInPlace(w: World, id: nat, f: Flight)
    requires VariantsInPlace(w) && HasItsVariant(f) && WorldOk(w.(flights := w.flights[id := f]))
    ensures VariantsInPlace(w.(flights := w.flights[id := f]))
  {
  }

  lemma {:induction false} StepKeepsInPlace(w: World, step: Step)
    requires VariantsInPlace(w) && Enabled(w, step)
    ensures VariantsInPlace(After(w, step))
  {
    StepKeepsOk(w, step);
    match step
    case Begin(id) => FlightKeepsInPlace(w, id, Flight(ENTERING, Looking, w.version));
    case Look(id, variance, status, wait, failed) =>
      TurnHasItsVariant(w, w.flights[id], variance, status, wait, failed);
    case Respond(id, variance) =>
      ResponseHasItsVariant(w.flights[id], w.now, variance);
      FlightKeepsInPlace(w, id, Responded(w.flights[id], w.now, variance));
    case NotModified(id) => RenewalKeepsProvenance(w, w.flights[id]);
    case _ =>
  }

  lemma {:induction false} RunsKeepInPlace(w: World, steps: seq<Step>, u: World)
    requires VariantsInPlace(w) && Runs(w, steps, u)
    ensures VariantsInPlace(u)
    decreases |steps|
  {
    if steps != [] {
      StepKeepsInPlace(w, steps[0]);
      RunsKeepInPlace(After(w, steps[0]), steps[1..], u);
    }
  }

  /**
   In every reachable state the slot of a variant holds that variant, and so does whoever has
   settled there: the check that gives up on a mismatch never fires.
   */
  lemma {:induction false} NoOtherVariantIsServed(start: Time, past: seq<Step>, w: World, id: nat)
    requires Reached(start, past, w) && id in w.flights && w.flights[id].r.key.Some?
    ensures
      var f := w.flights[id];
      && (forall v :: Some(v) in w.store ==> w.store[Some(v)].meta.variance == Some(v))
      && (SlotOf(f).Some? && f.r.meta.Some? && !f.stage.Looking? ==> f.r.meta.value.variance == SlotOf(f))
      && (InLoop(f) ==> forall variance, status, wait, failed :: Turn(w, f, variance, status, wait, failed).Some?)
  {
    RunsKeepInPlace(Empty(start), past, w);
  }

  // ----- When bodies were fetched -----

  /** No body is older than the metadata beside it says. */
  ghost predicate Truthful(w: World) {
    WorldOk(w) && forall slot <- w.store :: w.store[slot].meta.created <= w.store[slot].fetched
  }

  /**
   A 304 writes metadata over whatever body is in the slot by then. It fits if that body is no
   older than the entry the request had asked about.
   */
  predicate Fits(w: World, step: Step)
    requires Enabled(w, step)
  {
    step.NotModified? ==>
      w.flights[step.id].r.meta.value.created <= w.store[SlotOf(w.flights[step.id])].fetched
  }

  ghost predicate RunsFit(w: World, steps: seq<Step>)
    decreases |steps|
  {
    steps != [] && Enabled(w, steps[0]) ==> Fits(w, steps[0]) && RunsFit(After(w, steps[0]), steps[1..])
  }

  /** A 304 keeps the creation time, and the body is the one that was in the slot. */
  lemma {:induction false} RevalidationKeepsCreation(w: World, id: nat)
    requires Enabled(w, NotModified(id))
    ensures
      var f, u := w.flights[id], After(w, NotModified(id));
      var slot := SlotOf(f);
      && u.store.Keys == w.store.Keys
      && u.store[slot].meta.created == f.r.meta.value.created && u.store[slot].fetched == w.store[slot].fetched
      && Provenance(u.store[slot].meta) == Provenance(f.r.meta.value)
      && forall other <- w.store :: other != slot ==> u.store[other] == w.store[other]
  {
  }

  /** Every step keeps the dates true, except a 304 that does not fit. */
  lemma {:induction false} StepStaysTruthfulIff(w: World, step: Step)
    requires Truthful(w) && Enabled(w, step)
    ensures Truthful(After(w, step)) <==> Fits(w, step)
  {
    var u := After(w, step);
    StepKeepsOk(w, step);
    match step
    case NotModified(id) =>
      RevalidationKeepsCreation(w, id);
      assert SlotOf(w.flights[id]) in u.store;
    case Commit(id) => assert FlightOk(w, w.flights[id]);
    case _ => assert forall slot <- u.store :: slot in w.store && u.store[slot] == w.store[slot];
  }

  lemma {:induction false} RunsStayTruthful(w: World, steps: seq<Step>, u: World)
    requires Truthful(w) && Runs(w, steps, u) && RunsFit(w, steps)
    ensures Truthful(u)
    decreases |steps|
  {
    if steps != [] {
      StepStaysTruthfulIff(w, steps[0]);
      RunsStayTruthful(After(w, steps[0]), steps[1..], u);
    }
  }

  /** As long as the slot holds the entry it renews, a 304 fits; on the primary slot it always does. */
  lemma {:induction false} UndisturbedFits(w: World, id: nat)
    requires Truthful(w) && Enabled(w, NotModified(id))
    ensures w.store[SlotOf(w.flights[id])].meta == w.flights[id].r.meta.value ==> Fits(w, NotModified(id))
    ensures SlotOf(w.flights[id]).None? ==> Fits(w, NotModified(id))
  {
    assert FlightOk(w, w.flights[id]);
  }

  // ----- Main results -----

  /** What the request finds in a secondary slot. */
  function ServedVariant(w: World, f: Flight): Option<Meta>
    requires f.r.key.Some?
  {
    if SlotOf(f).Some? then Visible(f.r, Reading(w, SlotOf(f), false)) else None
  }

  /** The primary slot is written without keeping its family: a fill after a miss, or a changed variance. */
  predicate StartsFamily(f: Flight) {
    f.stage.Ready? && f.r.meta.Some? && f.r.meta.value.provenance == Some(f.r.meta.value.created)
  }

  /**
   However requests interleave afterwards: whoever reads the primary after it has been
   refilled, or rewritten with another variance, by a response fetched at time `t` is never
   served a variant that is dated before `t`; nor, if every 304 fits, one whose body was
   fetched before `t`.
   */
  lemma {:induction false} NoVariantFromBeforeTheFamily(
      start: Time, past: seq<Step>, w: World, id: nat, steps: seq<Step>, u: World, reader: nat)
    requires Reached(start, past, w) && Enabled(w, Commit(id))
    requires SlotOf(w.flights[id]).None? && StartsFamily(w.flights[id])
    requires Runs(After(w, Commit(id)), steps, u)
    requires reader in u.flights && u.flights[reader].r.key.Some? && u.flights[reader].base > w.version
    ensures
      var t := w.flights[id].stage.fetched;
      var f := u.flights[reader];
      var served := ServedVariant(u, f);
      && w.flights[id].r.meta.value.created == t
      && (served.Some? ==> SlotOf(f) in u.store && served.value.created >= t)
      && (served.Some? && RunsFit(Empty(start), past) && RunsFit(After(w, Commit(id)), steps) ==>
            u.store[SlotOf(f)].fetched >= t)
      && (None in u.store ==> Provenance(u.store[None].meta) >= t)
  {
    var t := w.flights[id].stage.fetched;
    var v := After(w, Commit(id));
    ReachedIsOk(start, past, w);
    assert FlightOk(w, w.flights[id]);
    StepKeepsOk(w, Commit(id));
    RunsKeepTombstone(v, steps, u, v.version, t);
    if RunsFit(Empty(start), past) && RunsFit(v, steps) {
      RunsStayTruthful(Empty(start), past, w);
      StepStaysTruthfulIff(w, Commit(id));
      RunsStayTruthful(v, steps, u);
    }
  }

  /** The provenance never goes back while the family lives, and survives purges of the primary. */
  lemma {:induction false} ProvenanceNeverGoesBack(start: Time, past: seq<Step>, w: World, steps: seq<Step>, u: World)
    requires Reached(start, past, w) && Runs(w, steps, u) && None in w.store && None in u.store
    ensures Provenance(w.store[None].meta) <= Provenance(u.store[None].meta)
  {
    ReachedIsOk(start, past, w);
    RunsKeepTombstone(w, steps, u, w.version, Provenance(w.store[None].meta));
  }

  /** A variant is in service: its slot is filled, and not from before the primary's provenance. */
  predicate InService(w: World, v: Variance) {
    && None in w.store && Some(v) in w.store
    && w.store[Some(v)].meta.created >= Provenance(w.store[None].meta)
  }

  /** A primary entry stored without a provenance counts from its own creation. */
  lemma {:induction false} WithoutProvenanceCreationCounts(w: World, v: Variance)
    requires None in w.store && w.store[None].meta.provenance.None?
    ensures InService(w, v) <==>
            Some(v) in w.store && w.store[Some(v)].meta.created >= w.store[None].meta.created
  {
  }

  /** A variant in service is what a request finds that asks the primary for it and then looks. */
  lemma {:induction false} InServiceIsFound(w: World, f: Flight, v: Variance, status: HitStatus, wait: bool)
    requires InLoop(f) && SlotOf(f).None? && !f.r.lockCtx
    requires None in w.store && w.store[None].meta.variance != Some(v)
    requires Visible(f.r, Some(w.store[None].meta)).Some?
    ensures
      var g := Turn(w, f, Some(v), status, wait, false);
      && g.Some? && InLoop(g.value) && SlotOf(g.value) == Some(v)
      && (InService(w, v) <==> ServedVariant(w, g.value).Some?)
      && (InService(w, v) ==> ServedVariant(w, g.value) == Some(w.store[Some(v)].meta))
  {
  }

  /** If the primary entry is itself the variant asked for, the request stays with it. */
  lemma {:induction false} PrimaryServesItsOwnVariant(w: World, f: Flight, v: Variance, status: HitStatus, wait: bool)
    requires InLoop(f) && SlotOf(f).None? && !f.r.lockCtx
    requires None in w.store && Visible(f.r, Some(w.store[None].meta)).Some?
    ensures
      var g := Turn(w, f, Some(v), status, wait, false);
      && g.Some? && (SlotOf(g.value).None? <==> w.store[None].meta.variance == Some(v))
      && (SlotOf(g.value).None? && !TreatedAsMiss(status) ==> g.value.r.meta == Some(w.store[None].meta))
      && (SlotOf(g.value).Some? ==> SlotOf(g.value) == Some(v) && g.value.stage.Looking?)
  {
    var m := w.store[None].meta;
    assert Turn(w, f, Some(v), status, wait, false) == Some(Vary(f.r, v, m, status, wait, w.version));
    VaryChoosesTheSlot(f.r, v, m, status, wait, w.version);
  }

  lemma {:induction false} VaryChoosesTheSlot(
      r: Request, v: Variance, m: Meta, status: HitStatus, wait: bool, base: nat)
    requires (r.phase.CacheKey? || r.phase.Stale?) && r.key.Some? && r.key.value.variance.None? && !r.lockCtx
    ensures
      var g := Vary(r, v, m, status, wait, base);
      && g.r.key == Some(r.key.value.(variance := if m.variance == Some(v) then None else Some(v)))
      && (m.variance == Some(v) && !TreatedAsMiss(status) ==> g.r.meta == Some(m))
      && (m.variance != Some(v) ==> g.stage.Looking?)
  {
    var (s, matches) := VaryLookupSpec(r, v, m);
    if matches { DecideFacts(s, m, status, wait, base); }
  }

  /** Whether the response the request is waiting for starts a new family if it is stored with this variance. */
  predicate NewFamily(f: Flight, variance: Option<Variance>)
    requires Awaiting(f)
  {
    || f.r.phase.Miss?
    || (if SlotOf(f).Some? then SlotOf(f) != variance else f.r.meta.value.variance != variance)
  }

  lemma {:induction false} VarianceUpdate(r: Request, variance: Option<Variance>)
    requires MayStore(r)
    ensures
      var s := UpdateVarianceSpec(r, variance);
      && s.meta == Some(Varied(r, variance))
      && s.key == Some(if MovesToPrimary(r.key.value, variance) then r.key.value.(variance := None) else r.key.value)
  {
    ReleaseLeavesRest(r.(staleVariance := None, meta := Some(Varied(r, variance))), LockDone);
  }

  lemma {:induction false} ResponseProvenance(f: Flight, now: Time, variance: Option<Variance>)
    requires Awaiting(f)
    ensures
      var m := Responded(f, now, variance).r.meta;
      && m.Some? && m.value.created == now && m.value.variance == variance
      && Provenance(m.value) == if NewFamily(f, variance) then now else Provenance(f.r.meta.value)
    ensures NewFamily(f, variance) ==> StartsFamily(Responded(f, now, variance))
    ensures
      var slot := SlotOf(f);
      SlotOf(Responded(f, now, variance)) == if slot != variance then None else slot
  {
    var r := SetMetaSpec(f.r, Meta(now, Some(now), None));
    assert r.key == f.r.key;
    if f.r.phase.Miss? {
      assert r.phase.Miss? && r.meta == Some(Meta(now, Some(now), None));
    } else {
      assert r.phase.Expired? && r.staleVariance == f.r.meta.value.variance;
      assert r.meta == Some(Meta(now, Some(Provenance(f.r.meta.value)), None));
    }
    VarianceUpdate(r, variance);
  }

  /**
   A refresh of the primary entry keeps exactly the variants in service that belong to the
   new entry: all of them when the variance is the one it had, otherwise those at least as
   young. Others may take any steps between the response and its commit.
   */
  lemma {:induction false} RefreshKeepsVariants(
      start: Time, past: seq<Step>, w: World, id: nat, variance: Option<Variance>, steps: seq<Step>, u: World,
      v: Variance)
    requires Reached(start, past, w) && id in w.flights && Awaiting(w.flights[id]) && Refreshing(w, w.flights[id])
    requires Runs(After(w, Respond(id, variance)), steps, u)
    requires forall k | 0 <= k < |steps| :: !Concerns(steps[k], id)
    ensures id in u.flights && (Enabled(u, Commit(id)) <==> u.version == w.version)
    ensures
      Enabled(u, Commit(id)) ==>
        && None in u.store
        && (InService(After(u, Commit(id)), v) <==>
            InService(u, v) && (variance == u.store[None].meta.variance || u.store[Some(v)].meta.created >= w.now))
  {
    ReachedIsOk(start, past, w);
    ResponseProvenance(w.flights[id], w.now, variance);
    RunsLeaveAlone(After(w, Respond(id, variance)), steps, u, id);
  }

  /** A 304 for the primary entry changes no variant's standing. */
  lemma {:induction false} RevalidationKeepsVariants(start: Time, past: seq<Step>, w: World, id: nat, v: Variance)
    requires Reached(start, past, w) && id in w.flights && Awaiting(w.flights[id]) && Refreshing(w, w.flights[id])
    ensures Enabled(w, NotModified(id))
    ensures InService(After(w, NotModified(id)), v) <==> InService(w, v)
  {
    ReachedIsOk(start, past, w);
    RenewalKeepsProvenance(w, w.flights[id]);
  }

  /**
   A 304 for a variant: whether that variant is in service afterwards depends on when the entry
   it renews was created, so a slot that still holds that entry keeps its standing.
   */
  lemma {:induction false} VariantRevalidationKeepsStanding(w: World, id: nat, v: Variance)
    requires Enabled(w, NotModified(id)) && SlotOf(w.flights[id]).Some?
    ensures
      var f, u := w.flights[id], After(w, NotModified(id));
      && (InService(u, v) <==>
            if SlotOf(f) == Some(v) then
              None in w.store && f.r.meta.value.created >= Provenance(w.store[None].meta)
            else InService(w, v))
      && (w.store[SlotOf(f)].meta == f.r.meta.value ==> (InService(u, v) <==> InService(w, v)))
  {
    RevalidationKeepsCreation(w, id);
  }

  /**
   Why the primary's writes have to be serialized with the lookups they rest on: a refresh
   that began before a purge and is written after it would put back in service exactly the
   purged variants that its own family would have kept.
   */
  lemma {:induction false} LateRefreshWouldReviveVariantsIff(
      start: Time, past: seq<Step>, w: World, id: nat, variance: Option<Variance>, v: Variance)
    requires Reached(start, past, w) && id in w.flights && Awaiting(w.flights[id]) && Refreshing(w, w.flights[id])
    ensures
      var purged := After(w, Purge(None));
      && None in w.store && !InService(purged, v) && Enabled(purged, Respond(id, variance))
      && var ready := After(purged, Respond(id, variance));
         && !Enabled(ready, Commit(id))
         && ready.flights[id].r.meta.Some?
         && (InService(Store(ready, None, Stored(ready.flights[id].r.meta.value, w.now)), v) <==>
             InService(w, v) && (variance == w.store[None].meta.variance || w.store[Some(v)].meta.created >= w.now))
  {
    ReachedIsOk(start, past, w);
    ResponseProvenance(w.flights[id], w.now, variance);
  }

  // ----- A 304 that does not fit -----

  lemma {:induction false} OneMoreStep(w: World, steps: seq<Step>, m: World, step: Step)
    requires Runs(w, steps, m) && Enabled(m, step)
    ensures Runs(w, steps + [step], After(m, step))
    decreases |steps|
  {
    if steps == [] {
      assert [] + [step] == [step] && [step][1..] == [];
    } else {
      OneMoreStep(After(w, steps[0]), steps[1..], m, step);
      assert (steps + [step])[1..] == steps[1..] + [step];
    }
  }

  /** Only this request has changed. */
  predicate OnlyFlight(w: World, u: World, id: nat) {
    id in u.flights && u == w.(flights := w.flights[id := u.flights[id]])
  }

  /** A request finds the primary slot empty and gets a response with variance 1. */
  lemma {:induction false} PrimaryResponse(w: World, past: seq<Step>, m: World, id: nat)
    returns (steps: seq<Step>, u: World)
    requires Runs(w, past, m) && id !in m.flights && None !in m.store
    ensures Runs(w, steps, u) && OnlyFlight(m, u, id) && Enabled(u, Commit(id))
    ensures
      var f := u.flights[id];
      && f.base == m.version && f.stage == Ready(m.now) && SlotOf(f).None? && StartsFamily(f)
      && f.r.meta == Some(Meta(m.now, Some(m.now), Some(1)))
  {
    var a := After(m, Begin(id));
    OneMoreStep(w, past, m, Begin(id));
    steps, u := MissAndResponse(w, past + [Begin(id)], a, id, false, Some(1));
  }

  lemma {:induction false} MissAndResponse(
      w: World, past: seq<Step>, m: World, id: nat, failed: bool, variance: Option<Variance>)
    returns (steps: seq<Step>, u: World)
    requires Runs(w, past, m) && id in m.flights && InLoop(m.flights[id])
    requires Reading(m, SlotOf(m.flights[id]), failed).None?
    requires SlotOf(m.flights[id]).Some? ==> SlotOf(m.flights[id]) == variance
    ensures Runs(w, steps, u) && OnlyFlight(m, u, id)
    ensures
      var f := u.flights[id];
      && f.base == (if SlotOf(m.flights[id]).None? then m.version else m.flights[id].base)
      && f.stage == Ready(m.now) && f.r.key == m.flights[id].r.key && StartsFamily(f)
      && f.r.meta == Some(Meta(m.now, Some(m.now), variance))
  {
    var look, respond := Look(id, None, HitFresh, false, failed), Respond(id, variance);
    var f := m.flights[id];
    var base := if SlotOf(f).None? then m.version else f.base;
    var b := After(m, look);
    assert b.flights[id] == Flight(Next(f.r, CacheMiss), Decided, base);
    u := After(b, respond);
    ResponseAfterMiss(b.flights[id], m.now, variance);
    OneMoreStep(w, past, m, look);
    steps := past + [look] + [respond];
    OneMoreStep(w, past + [look], b, respond);
  }

  lemma {:induction false} ResponseAfterMiss(f: Flight, now: Time, variance: Option<Variance>)
    requires Awaiting(f) && f.r.phase.Miss? && (SlotOf(f).Some? ==> SlotOf(f) == variance)
    ensures
      var g := Responded(f, now, variance);
      && g.base == f.base && g.stage == Ready(now) && g.r.key == f.r.key && StartsFamily(g)
      && g.r.meta == Some(Meta(now, Some(now), variance))
  {
    VarianceUpdate(SetMetaSpec(f.r, Meta(now, Some(now), None)), variance);
  }

  /** The primary slot was filled by such a response. */
  predicate PrimaryFilled(w: World, t: Time) {
    None in w.store && w.store[None].meta == Meta(t, Some(t), Some(1))
  }

  /** A request that has come to the slot of variant 2. */
  predicate AtVariant(f: Flight, t: Time) {
    && f.stage.Looking? && f.r.phase.CacheKey? && !f.r.lockCtx
    && f.r.key == Some(Key(0, Some(2))) && f.r.validAfter == Some(t)
  }

  lemma {:induction false} ComesToVariant(w: World, past: seq<Step>, m: World, id: nat, t: Time)
    returns (steps: seq<Step>, u: World)
    requires Runs(w, past, m) && id !in m.flights && PrimaryFilled(m, t)
    ensures Runs(w, steps, u) && OnlyFlight(m, u, id) && AtVariant(u.flights[id], t) && u.flights[id].base == m.version
  {
    var look := Look(id, Some(2), HitFresh, false, false);
    var a := After(m, Begin(id));
    u := After(a, look);
    assert Turn(a, a.flights[id], Some(2), HitFresh, false, false) ==
           Some(Vary(ENTERING, 2, m.store[None].meta, HitFresh, false, m.version));
    OneMoreStep(w, past, m, Begin(id));
    steps := past + [Begin(id)] + [look];
    OneMoreStep(w, past + [Begin(id)], a, look);
  }

  /** It finds nothing there and gets a response. */
  lemma {:induction false} VariantResponse(w: World, past: seq<Step>, m: World, id: nat, t: Time)
    returns (steps: seq<Step>, u: World)
    requires Runs(w, past, m) && id !in m.flights && PrimaryFilled(m, t)
    ensures Runs(w, steps, u) && OnlyFlight(m, u, id) && Enabled(u, Commit(id))
    ensures
      var f := u.flights[id];
      && f.stage == Ready(m.now) && SlotOf(f) == Some(2)
      && f.r.meta.Some? && f.r.meta.value.created == m.now && f.r.meta.value.variance == Some(2)
  {
    var before, a := ComesToVariant(w, past, m, id, t);
    steps, u := MissAndResponse(w, before, a, id, true, Some(2));
  }

  /** It finds an expired entry there and asks whether that has changed. */
  lemma {:induction false} VariantExpired(w: World, past: seq<Step>, m: World, id: nat, t: Time)
    returns (steps: seq<Step>, u: World)
    requires Runs(w, past, m) && id !in m.flights && PrimaryFilled(m, t)
    requires Some(2) in m.store && m.store[Some(2)].meta.created >= t && m.store[Some(2)].meta.variance == Some(2)
    ensures Runs(w, steps, u) && OnlyFlight(m, u, id)
    ensures
      var f := u.flights[id];
      Awaiting(f) && f.r.phase.Stale? && SlotOf(f) == Some(2) && f.r.meta == Some(m.store[Some(2)].meta)
  {
    var before, a := ComesToVariant(w, past, m, id, t);
    var look := Look(id, None, HitExpired, false, false);
    var found := m.store[Some(2)].meta;
    u := After(a, look);
    var f := a.flights[id];
    assert Turn(a, f, None, HitExpired, false, false) == Some(Decide(f.r, found, HitExpired, false, f.base));
    DecideFacts(f.r, found, HitExpired, false, f.base);
    steps := before + [look];
    OneMoreStep(w, before, a, look);
  }

  /**
   Responses for variant 2 are fetched at 0 and at 3, either side of a new family. The later one
   is stored and a request asks about it; then the earlier one is stored over it; then the 304
   dates the earlier body 3.
   */
  lemma {:induction false} LateWriteGetsALaterDate(w: World, past: seq<Step>, m: World, t: Time)
    returns (steps: seq<Step>, u: World)
    requires Runs(w, past, m) && PrimaryFilled(m, t) && t <= m.now
    requires 1 in m.flights && Enabled(m, Commit(1)) && SlotOf(m.flights[1]) == Some(2) && 2 !in m.flights
    requires 3 !in m.flights
    ensures Runs(w, steps, u) && PrimaryFilled(u, t) && u.version == m.version && u.flights.Keys <= m.flights.Keys
    ensures Some(2) in u.store && u.store[Some(2)].meta.created == m.now
    ensures u.store[Some(2)].fetched == m.flights[1].stage.fetched
  {
    var s1, a := VariantResponse(w, past, m, 2, t);
    var b := After(a, Commit(2));
    OneMoreStep(w, s1, a, Commit(2));
    var s2, c := VariantExpired(w, s1 + [Commit(2)], b, 3, t);
    assert c.flights[1] == m.flights[1];
    var d := After(c, Commit(1));
    OneMoreStep(w, s2, c, Commit(1));
    assert d.flights[3] == c.flights[3] && Some(2) in d.store;
    u := After(d, NotModified(3));
    RevalidationKeepsCreation(d, 3);
    steps := s2 + [Commit(1)] + [NotModified(3)];
    OneMoreStep(w, s2 + [Commit(1)], d, NotModified(3));
  }

  /** So a reader of the new family is served a body that was fetched before it. */
  lemma {:induction false} UnfittingRevalidationServesAnOlderBody()
    returns (past: seq<Step>, w: World, steps: seq<Step>, u: World)
    ensures Reached(0, past, w) && Enabled(w, Commit(0)) && SlotOf(w.flights[0]).None? && StartsFamily(w.flights[0])
    ensures Runs(After(w, Commit(0)), steps, u) && 4 in u.flights && u.flights[4].base > w.version
    ensures
      && u.flights[4].r.key == Some(Key(0, Some(2))) && ServedVariant(u, u.flights[4]).Some?
      && Some(2) in u.store && u.store[Some(2)].fetched < w.flights[0].stage.fetched
  {
    var s1, a := PrimaryResponse(Empty(0), [], Empty(0), 0);
    var b := After(a, Commit(0));
    OneMoreStep(Empty(0), s1, a, Commit(0));
    var s2, c := VariantResponse(Empty(0), s1 + [Commit(0)], b, 1, 0);
    var d := After(c, Tick(3));
    OneMoreStep(Empty(0), s2, c, Tick(3));
    var e := After(d, Purge(None));
    OneMoreStep(Empty(0), s2 + [Tick(3)], d, Purge(None));
    past, w := PrimaryResponse(Empty(0), s2 + [Tick(3)] + [Purge(None)], e, 0);
    var f := After(w, Commit(0));
    assert f.flights[1] == c.flights[1];
    var s3, g := LateWriteGetsALaterDate(f, [], f, 3);
    steps, u := ComesToVariant(f, s3, g, 4, 3);
  }
}
