/**
 Any number of requests over one cache lock: what the requests log is what the lock does.

 A request asks the lock for a permit, releases it, hands it to a subrequest or goes away with
 it. Between two requests a permit is in transit, with the key it was locked under. The lock
 knows a key only by its hash, `slot`; hashes may collide.
 */
module CacheSystem {
  import opened Basics
  import L = LockProtocol
  import H = HttpCache

  type Id = nat
  type Slot = H.Key -> nat

  /** The lock, the key each permit was ever locked under, and the permits in transit. */
  datatype Shared = Shared(lock: L.State, under: map<H.Permit, H.Key>, transit: set<H.Permit>)

  datatype System = System(shared: Shared, requests: map<Id, H.Request>)

  const EMPTY := System(Shared(L.INIT, map[], {}), map[])

  function Reason(status: H.LockStatus): L.LockStatus {
    match status
    case LockDone => L.Done
    case LockTransientError => L.TransientError
    case LockGiveUp => L.GiveUp
  }

  /** What the lock answers under a hash. */
  function GrantOf(lock: L.State, hash: nat): H.Locked
    requires L.Enabled(lock, L.LockKey(hash))
  {
    if hash in lock.table && !L.Replaceable(lock.cores[lock.table[hash]].status) then H.Read
    else H.Write(|lock.cores|)
  }

  // ----- One event, seen by the lock -----

  predicate Fits(slot: Slot, d: Shared, e: H.Event) {
    match e
    case Acquired(p, key) =>
      if p in d.transit then p in d.under && d.under[p] == key
      else L.Enabled(d.lock, L.LockKey(slot(key))) && GrantOf(d.lock, slot(key)) == H.Write(p)
    case _ => e.permit < |d.lock.cores|
  }

  function Applied(slot: Slot, d: Shared, e: H.Event): Shared
    requires Fits(slot, d, e)
  {
    match e
    case Acquired(p, key) =>
      if p in d.transit then d.(transit := d.transit - {p})
      else d.(lock := L.LockSpec(d.lock, slot(key)), under := d.under[p := key])
    case Released(p, key, status) => d.(lock := L.ReleaseSpec(d.lock, slot(key), p, Reason(status)))
    case Taken(p) => d.(transit := d.transit + {p})
    case Dropped(p) => d.(lock := L.Unlocked(d.lock, p, L.Dangling))
  }

  // ----- The steps -----

  datatype Step =
    | Begin(id: Id)
    | Do(id: Id, op: H.Op)
    | Leave(id: Id)
    | AgeOut(core: L.CoreId)
    | ReturnUnused(permit: H.Permit)
    | Forget(permit: H.Permit)

  /** The lock answers a request by its own state; a permit is taken over only from transit, with its key. */
  predicate Answered(slot: Slot, d: Shared, r: H.Request, op: H.Op)
    requires H.Allowed(r, op)
  {
    match op
    case Lookup(_, _, granted) => GrantedBy(slot, d.lock, r.key.value, granted)
    case Found(_, _, granted) => GrantedBy(slot, d.lock, r.key.value, granted)
    case SetWriteLock(p, key) => p in d.transit && p in d.under && d.under[p] == key
    case _ => true
  }

  predicate GrantedBy(slot: Slot, lock: L.State, key: H.Key, granted: H.Locked) {
    L.Enabled(lock, L.LockKey(slot(key))) && granted == GrantOf(lock, slot(key))
  }

  predicate Enabled(slot: Slot, s: System, step: Step) {
    match step
    case Begin(id) => id !in s.requests
    case Do(id, op) =>
      && id in s.requests && H.Allowed(s.requests[id], op) && H.Careful(s.requests[id], op)
      && Answered(slot, s.shared, s.requests[id], op)
    case Leave(id) => id in s.requests
    case AgeOut(c) => c < |s.shared.lock.cores|
    case ReturnUnused(p) => p in s.shared.transit && p in s.shared.under && p < |s.shared.lock.cores|
    case Forget(p) => p in s.shared.transit && p < |s.shared.lock.cores|
  }

  /** What an operation says to the lock: nothing, or one event. */
  function Said(r: H.Request, op: H.Op): Option<H.Event>
    requires H.Allowed(r, op)
  {
    LastNew(r.log, H.Next(r, op).log)
  }

  function LastNew(before: seq<H.Event>, after: seq<H.Event>): Option<H.Event> {
    if |after| <= |before| then None else Some(after[|after| - 1])
  }

  function Heard(slot: Slot, d: Shared, e: Option<H.Event>): Shared {
    if e.Some? && Fits(slot, d, e.value) then Applied(slot, d, e.value) else d
  }

  /** What is said when a request goes away. */
  function Farewell(r: H.Request): Option<H.Event> {
    if H.HoldsPermit(r) then Some(H.Dropped(r.lock.value.permit)) else None
  }

  function Next(slot: Slot, s: System, step: Step): System
    requires Enabled(slot, s, step)
  {
    var d := s.shared;
    match step
    case Begin(id) => s.(requests := s.requests[id := H.NEW])
    case Do(id, op) =>
      System(Heard(slot, d, Said(s.requests[id], op)), s.requests[id := H.Next(s.requests[id], op)])
    case Leave(id) => System(Heard(slot, d, Farewell(s.requests[id])), s.requests - {id})
    case AgeOut(c) => s.(shared := d.(lock := L.AgeOutSpec(d.lock, c)))
    case ReturnUnused(p) => s.(shared := Returned(slot, d, p))
    case Forget(p) => s.(shared := Forgotten(d, p))
  }

  /** A subrequest that makes no use of its permit releases it under the key that came with it. */
  function Returned(slot: Slot, d: Shared, p: H.Permit): Shared
    requires p in d.under && p < |d.lock.cores|
  {
    d.(lock := L.ReleaseSpec(d.lock, slot(d.under[p]), p, L.TransientError), transit := d.transit - {p})
  }

  function Forgotten(d: Shared, p: H.Permit): Shared
    requires p < |d.lock.cores|
  {
    d.(lock := L.Unlocked(d.lock, p, L.Dangling), transit := d.transit - {p})
  }

  ghost predicate Runs(slot: Slot, s: System, steps: seq<Step>, t: System)
    decreases |steps|
  {
    if steps == [] then s == t
    else Enabled(slot, s, steps[0]) && Runs(slot, Next(slot, s, steps[0]), steps[1..], t)
  }

  // ----- What the lock and the requests agree on -----

  ghost predicate PermitRight(slot: Slot, d: Shared, p: H.Permit)
    requires p in d.lock.permits
  {
    p in d.under && d.lock.permits[p] == slot(d.under[p])
  }

  ghost predicate SharedRight(slot: Slot, d: Shared) {
    && L.Protocol(d.lock)
    && (forall p | p in d.lock.permits :: PermitRight(slot, d, p))
    && (forall p | p in d.under :: p < |d.lock.cores|)
    && (forall p | p in d.transit :: p in d.lock.permits)
  }

  /** What a request believes of a permit is what the lock knows. */
  ghost predicate EntryRight(d: Shared, l: H.Ledger, p: H.Permit) {
    && (p in l.held ==> p in d.lock.permits && p !in d.transit && p in d.under && d.under[p] == l.held[p])
    && (p in l.away ==> p in d.under && d.under[p] == l.away[p])
    && (p in l.gone ==> p in d.under && p !in d.lock.permits)
  }

  ghost predicate LedgerRight(d: Shared, l: H.Ledger) { forall p | H.Known(l, p) :: EntryRight(d, l, p) }

  /** The permits a request holds. */
  function Hand(r: H.Request): set<H.Permit> { if H.HoldsPermit(r) then {r.lock.value.permit} else {} }

  ghost predicate RequestRight(d: Shared, r: H.Request) { H.Conserved(r) && LedgerRight(d, H.LedgerOf(r.log)) }

  /** No permit is in two hands. */
  ghost predicate Apart(requests: map<Id, H.Request>) {
    forall i, j | i in requests && j in requests && i != j :: Hand(requests[i]) !! Hand(requests[j])
  }

  /** Every permit is in a hand or in transit. */
  ghost predicate Covered(d: Shared, requests: map<Id, H.Request>) {
    forall p | p in d.lock.permits :: p in d.transit || InSomeHand(requests, p)
  }

  ghost predicate Linked(slot: Slot, s: System) {
    && SharedRight(slot, s.shared)
    && (forall id | id in s.requests :: RequestRight(s.shared, s.requests[id]))
    && Apart(s.requests)
    && Covered(s.shared, s.requests)
  }

  lemma {:induction false} EntryIsRight(d: Shared, l: H.Ledger, p: H.Permit)
    requires LedgerRight(d, l)
    ensures EntryRight(d, l, p)
  {
    if H.Known(l, p) { assert EntryRight(d, l, p); }
  }

  ghost predicate InSomeHand(requests: map<Id, H.Request>, p: H.Permit) {
    exists id | id in requests :: p in Hand(requests[id])
  }

  // ----- An operation says one thing at most -----

  /** The new log is the old one and what was said. */
  predicate Adds(before: seq<H.Event>, after: seq<H.Event>, e: Option<H.Event>) {
    after == if e.Some? then before + [e.value] else before
  }

  /** Nothing is said but a release, if anything. */
  predicate AddsRelease(before: seq<H.Event>, after: seq<H.Event>) {
    Adds(before, after, LastNew(before, after)) && (|after| > |before| ==> after[|after| - 1].Released?)
  }

  lemma {:induction false} LettingGoAddsRelease(b: H.Books, status: H.LockStatus)
    requires H.Holds(b) ==> b.key.Some?
    ensures AddsRelease(b.log, b.log) && AddsRelease(b.log, H.LetGo(b, status).log)
  {
  }

  /** Operations that give up, and operations that store; both may let the permit go. */
  predicate GivesUp(op: H.Op) { op.RevalidateUncacheable? || op.ReleaseWriteLock? || op.Disable? }

  predicate Stores(op: H.Op) { op.UpdateVariance? || op.SetMissHandler? || op.FinishMiss? || op.RevalidateMeta? }

  lemma {:induction false} GivingUpSaysOneThing(r: H.Request, op: H.Op)
    requires H.Allowed(r, op) && GivesUp(op)
    ensures AddsRelease(r.log, H.Next(r, op).log)
  {
    var status := if H.HoldsPermit(r) then H.StatusFor(op.reason) else H.LockDone;
    LettingGoAddsRelease(H.BooksOf(r), status);
    if op.Disable? { H.DisableBooks(r, op.reason); } else { H.ReleaseBooks(r, status); }
  }

  lemma {:induction false} StoringSaysOneThing(r: H.Request, op: H.Op)
    requires H.Allowed(r, op) && Stores(op) && (H.HoldsPermit(r) ==> r.key.Some?)
    ensures AddsRelease(r.log, H.Next(r, op).log)
  {
    LettingGoAddsRelease(H.BooksOf(r), H.LockDone);
    match op
    case UpdateVariance(variance) => H.UpdateVarianceBooks(r, variance);
    case FinishMiss(_) => LettingGoAddsRelease(H.BooksOf(r), H.LockTransientError);
    case _ =>
  }

  /** A permit comes from the lock under the key in hand, or from transit. */
  predicate ComesBy(r: H.Request, op: H.Op, e: H.Event)
    requires H.Allowed(r, op) && e.Acquired?
  {
    match op
    case Lookup(_, _, granted) => granted == H.Write(e.permit) && r.key == Some(e.key)
    case Found(_, _, granted) => granted == H.Write(e.permit) && r.key == Some(e.key)
    case SetWriteLock(p, key) => e == H.Acquired(p, key)
    case _ => false
  }

  lemma {:induction false} AskingSaysOneThing(r: H.Request, op: H.Op)
    requires H.Allowed(r, op) && H.Careful(r, op) && (op.Lookup? || op.Found? || op.SetWriteLock?)
    ensures Adds(r.log, H.Next(r, op).log, Said(r, op))
    ensures Said(r, op).Some? && Said(r, op).value.Acquired? ==> ComesBy(r, op, Said(r, op).value)
  {
    match op
    case Lookup(stored, deferred, granted) =>
      if deferred { GivingUpSaysOneThing(r, H.Disable(H.Deferred)); }
    case Found(found, status, granted) => H.FoundBooks(r, found, status, granted);
    case _ =>
  }

  lemma {:induction false} SaysOneThing(r: H.Request, op: H.Op)
    requires H.Allowed(r, op) && H.Careful(r, op) && (H.HoldsPermit(r) ==> r.key.Some?)
    ensures Adds(r.log, H.Next(r, op).log, Said(r, op))
    ensures Said(r, op).Some? && Said(r, op).value.Acquired? ==> ComesBy(r, op, Said(r, op).value)
  {
    if GivesUp(op) { GivingUpSaysOneThing(r, op); }
    else if Stores(op) { StoringSaysOneThing(r, op); }
    else if op.Lookup? || op.Found? || op.SetWriteLock? { AskingSaysOneThing(r, op); }
  }

  // ----- One event and the lock -----

  /** The event is proper, or a permit in hand is dropped. */
  predicate Due(l: H.Ledger, e: H.Event) { H.Proper(l, e) || (e.Dropped? && e.permit in l.held) }

  /** The steps of the lock that an event stands for. */
  function LockSteps(slot: Slot, d: Shared, e: H.Event): seq<L.Step> {
    match e
    case Acquired(p, key) => if p in d.transit then [] else [L.LockKey(slot(key))]
    case Released(p, _, status) => [L.ReleasePermit(p, Reason(status))]
    case Taken(_) => []
    case Dropped(p) => [L.DropPermit(p)]
  }

  lemma {:induction false} OneLockStep(s: L.State, step: L.Step)
    requires L.Enabled(s, step)
    ensures L.Runs(s, [step], L.Next(s, step))
  {
    assert [step][1..] == [];
  }

  /** A release goes out under the hash the permit was locked with, so the lock does what it should. */
  lemma {:induction false} AppliedIsALockRun(slot: Slot, d: Shared, l: H.Ledger, e: H.Event)
    requires SharedRight(slot, d) && LedgerRight(d, l) && Fits(slot, d, e) && Due(l, e)
    ensures L.Runs(d.lock, LockSteps(slot, d, e), Applied(slot, d, e).lock)
  {
    if !e.Acquired? {
      assert H.Known(l, e.permit) && EntryRight(d, l, e.permit) && PermitRight(slot, d, e.permit);
    }
    if LockSteps(slot, d, e) != [] { OneLockStep(d.lock, LockSteps(slot, d, e)[0]); }
  }

  lemma {:induction false} ReleaseIsALockStep(slot: Slot, d: Shared, l: H.Ledger, e: H.Event)
    requires SharedRight(slot, d) && LedgerRight(d, l) && Fits(slot, d, e) && H.Proper(l, e) && e.Released?
    ensures
      var step := L.ReleasePermit(e.permit, Reason(e.status));
      && L.Enabled(d.lock, step) && d.lock.permits[e.permit] == slot(e.key)
      && Applied(slot, d, e).lock == L.Next(d.lock, step)
  {
    EntryIsRight(d, l, e.permit);
    assert PermitRight(slot, d, e.permit);
  }

  /** What an event changes, the lock's cores and table aside. */
  ghost predicate Effect(slot: Slot, d: Shared, e: H.Event, t: Shared) {
    && |d.lock.cores| <= |t.lock.cores|
    && match e
       case Acquired(p, key) =>
         if p in d.transit then t == d.(transit := d.transit - {p})
         else
           && p == |d.lock.cores| < |t.lock.cores| && t.transit == d.transit && t.under == d.under[p := key]
           && t.lock.permits == d.lock.permits[p := slot(key)]
       case Taken(p) => t == d.(transit := d.transit + {p})
       case _ => t.under == d.under && t.transit == d.transit && t.lock.permits == d.lock.permits - {e.permit}
  }

  lemma {:induction false} AppliedHasEffect(slot: Slot, d: Shared, e: H.Event)
    requires Fits(slot, d, e)
    ensures Effect(slot, d, e, Applied(slot, d, e))
  {
  }

  lemma {:induction false} EffectKeepsShared(slot: Slot, d: Shared, l: H.Ledger, e: H.Event, t: Shared)
    requires SharedRight(slot, d) && LedgerRight(d, l) && Due(l, e) && Effect(slot, d, e, t) && L.Protocol(t.lock)
    requires e.Acquired? && e.permit in d.transit ==> e.permit in d.lock.permits
    ensures SharedRight(slot, t)
  {
    if !e.Acquired? { assert H.Known(l, e.permit) && EntryRight(d, l, e.permit); }
    forall p | p in t.lock.permits ensures PermitRight(slot, t, p) {
      if p in d.lock.permits { assert PermitRight(slot, d, p); }
    }
  }

  /** The request that speaks. */
  lemma {:induction false} EffectKeepsOwnLedger(slot: Slot, d: Shared, l: H.Ledger, e: H.Event, t: Shared)
    requires SharedRight(slot, d) && LedgerRight(d, l) && Due(l, e) && Effect(slot, d, e, t)
    requires e.Acquired? && e.permit in d.transit ==> e.permit in d.under && d.under[e.permit] == e.key
    ensures LedgerRight(t, H.Entered(l, e))
  {
    var m := H.Entered(l, e);
    forall p | H.Known(m, p) ensures EntryRight(t, m, p) {
      if H.Known(l, p) { assert EntryRight(d, l, p); }
    }
  }

  /** The requests that do not. */
  lemma {:induction false} EffectKeepsLedger(slot: Slot, d: Shared, e: H.Event, t: Shared, m: H.Ledger)
    requires SharedRight(slot, d) && LedgerRight(d, m) && Effect(slot, d, e, t) && e.permit !in m.held
    ensures LedgerRight(t, m)
  {
    forall p | H.Known(m, p) ensures EntryRight(t, m, p) { assert EntryRight(d, m, p); }
  }

  // ----- One event and all requests -----

  lemma {:induction false} HandIsHeld(r: H.Request)
    requires H.Conserved(r)
    ensures Hand(r) == H.LedgerOf(r.log).held.Keys
  {
  }

  ghost predicate Speaks(slot: Slot, s: System, id: Id, e: H.Event) {
    id in s.requests && Fits(slot, s.shared, e) && Due(H.LedgerOf(s.requests[id].log), e)
  }

  lemma {:induction false} InNoOtherHand(slot: Slot, s: System, id: Id, e: H.Event, j: Id)
    requires Linked(slot, s) && Speaks(slot, s, id, e) && j in s.requests && j != id
    ensures e.permit !in H.LedgerOf(s.requests[j].log).held
  {
    var m := H.LedgerOf(s.requests[j].log);
    HandIsHeld(s.requests[id]);
    HandIsHeld(s.requests[j]);
    assert RequestRight(s.shared, s.requests[j]);
    EntryIsRight(s.shared, m, e.permit);
    assert !e.Acquired? ==> e.permit in Hand(s.requests[id]);
  }

  lemma {:induction false} SpeakingKeepsShared(slot: Slot, s: System, id: Id, e: H.Event)
    requires Linked(slot, s) && Speaks(slot, s, id, e)
    ensures SharedRight(slot, Applied(slot, s.shared, e))
    ensures LedgerRight(Applied(slot, s.shared, e), H.Entered(H.LedgerOf(s.requests[id].log), e))
  {
    var d, l := s.shared, H.LedgerOf(s.requests[id].log);
    var t := Applied(slot, d, e);
    AppliedHasEffect(slot, d, e);
    AppliedIsALockRun(slot, d, l, e);
    L.RunsKeepProtocol(d.lock, LockSteps(slot, d, e), t.lock);
    EffectKeepsShared(slot, d, l, e, t);
    EffectKeepsOwnLedger(slot, d, l, e, t);
  }

  lemma {:induction false} SpeakingKeepsOthers(slot: Slot, s: System, id: Id, e: H.Event, j: Id)
    requires Linked(slot, s) && Speaks(slot, s, id, e) && j in s.requests && j != id
    ensures RequestRight(Applied(slot, s.shared, e), s.requests[j])
  {
    assert RequestRight(s.shared, s.requests[j]);
    AppliedHasEffect(slot, s.shared, e);
    InNoOtherHand(slot, s, id, e, j);
    EffectKeepsLedger(slot, s.shared, e, Applied(slot, s.shared, e), H.LedgerOf(s.requests[j].log));
  }

  /** Who has a permit that no one spoke of has it still. */
  lemma {:induction false} StillInSomeHand(requests: map<Id, H.Request>, id: Id, t: H.Request, p: H.Permit)
    requires InSomeHand(requests, p) && id in requests && (p in Hand(requests[id]) ==> p in Hand(t))
    ensures InSomeHand(requests[id := t], p)
  {
    var j :| j in requests && p in Hand(requests[j]);
    assert p in Hand(requests[id := t][j]);
  }

  lemma {:induction false} SpeakingKeepsHands(slot: Slot, s: System, id: Id, e: H.Event, t: H.Request, p: H.Permit)
    requires Linked(slot, s) && Speaks(slot, s, id, e) && H.Conserved(t)
    requires H.LedgerOf(t.log) == H.Entered(H.LedgerOf(s.requests[id].log), e)
    requires p in Applied(slot, s.shared, e).lock.permits
    ensures p in Applied(slot, s.shared, e).transit || InSomeHand(s.requests[id := t], p)
  {
    AppliedHasEffect(slot, s.shared, e);
    HandIsHeld(s.requests[id]);
    HandIsHeld(t);
    if p == e.permit && e.Acquired? { assert p in Hand(s.requests[id := t][id]); }
    else if p != e.permit && p !in s.shared.transit { StillInSomeHand(s.requests, id, t, p); }
  }

  lemma {:induction false} ApartWith(requests: map<Id, H.Request>, id: Id, t: H.Request)
    requires Apart(requests) && forall j | j in requests && j != id :: Hand(requests[j]) !! Hand(t)
    ensures Apart(requests[id := t])
  {
  }

  lemma {:induction false} SpeakingKeepsApart(slot: Slot, s: System, id: Id, e: H.Event, t: H.Request)
    requires Linked(slot, s) && Speaks(slot, s, id, e) && H.Conserved(t)
    requires H.LedgerOf(t.log) == H.Entered(H.LedgerOf(s.requests[id].log), e)
    ensures Apart(s.requests[id := t])
  {
    HandIsHeld(s.requests[id]);
    HandIsHeld(t);
    forall j | j in s.requests && j != id ensures Hand(s.requests[j]) !! Hand(t) {
      InNoOtherHand(slot, s, id, e, j);
      HandIsHeld(s.requests[j]);
    }
    ApartWith(s.requests, id, t);
  }

  lemma {:induction false} SpeakingKeepsLinked(slot: Slot, s: System, id: Id, e: H.Event, t: H.Request)
    requires Linked(slot, s) && Speaks(slot, s, id, e) && H.Conserved(t)
    requires H.LedgerOf(t.log) == H.Entered(H.LedgerOf(s.requests[id].log), e)
    ensures Linked(slot, System(Applied(slot, s.shared, e), s.requests[id := t]))
  {
    var d, after := Applied(slot, s.shared, e), s.requests[id := t];
    SpeakingKeepsShared(slot, s, id, e);
    SpeakingKeepsApart(slot, s, id, e, t);
    forall j | j in after ensures RequestRight(d, after[j]) {
      if j != id { SpeakingKeepsOthers(slot, s, id, e, j); }
    }
    forall p | p in d.lock.permits ensures p in d.transit || InSomeHand(after, p) {
      SpeakingKeepsHands(slot, s, id, e, t, p);
    }
  }

  /** A request that goes away takes its permit with it. */
  lemma {:induction false} LeavingKeepsLinked(slot: Slot, s: System, id: Id)
    requires Linked(slot, s) && id in s.requests
    ensures Linked(slot, Next(slot, s, Leave(id)))
  {
    var r := s.requests[id];
    var t := Next(slot, s, Leave(id));
    HandIsHeld(r);
    if H.HoldsPermit(r) {
      var e := H.Dropped(r.lock.value.permit);
      assert EntryRight(s.shared, H.LedgerOf(r.log), e.permit);
      AppliedHasEffect(slot, s.shared, e);
      SpeakingKeepsShared(slot, s, id, e);
      forall j | j in t.requests ensures RequestRight(t.shared, t.requests[j]) {
        SpeakingKeepsOthers(slot, s, id, e, j);
      }
    }
    forall p | p in t.shared.lock.permits ensures p in t.shared.transit || InSomeHand(t.requests, p) {
      if p !in s.shared.transit { RemainsInHand(s.requests, id, p); }
    }
  }

  lemma {:induction false} RemainsInHand(requests: map<Id, H.Request>, id: Id, p: H.Permit)
    requires InSomeHand(requests, p) && id in requests && p !in Hand(requests[id])
    ensures InSomeHand(requests - {id}, p)
  {
    var j :| j in requests && p in Hand(requests[j]);
    assert p in Hand((requests - {id})[j]);
  }

  // ----- Every step -----

  /** The lock's answers are genuine, so a careful operation keeps its account. */
  lemma {:induction false} AnswersAreGenuine(slot: Slot, d: Shared, r: H.Request, op: H.Op)
    requires SharedRight(slot, d) && LedgerRight(d, H.LedgerOf(r.log)) && H.Allowed(r, op) && Answered(slot, d, r, op)
    ensures H.GenuineGrant(r, op)
  {
    var l := H.LedgerOf(r.log);
    match op
    case Lookup(_, _, granted) => if granted.Write? { NewPermitIsUnknown(slot, d, l); }
    case Found(_, _, granted) => if granted.Write? { NewPermitIsUnknown(slot, d, l); }
    case SetWriteLock(p, key) => if H.Known(l, p) { assert EntryRight(d, l, p); }
    case _ =>
  }

  lemma {:induction false} NewPermitIsUnknown(slot: Slot, d: Shared, l: H.Ledger)
    requires SharedRight(slot, d) && LedgerRight(d, l)
    ensures !H.Known(l, |d.lock.cores|) && |d.lock.cores| !in d.transit
  {
    EntryIsRight(d, l, |d.lock.cores|);
    assert forall p | p in d.transit :: PermitRight(slot, d, p);
  }

  /** A careful operation says what is due. */
  lemma {:induction false} SaysWhatIsDue(r: H.Request, op: H.Op)
    requires H.Conserved(r) && H.Allowed(r, op) && H.Careful(r, op) && H.GenuineGrant(r, op) && Said(r, op).Some?
    ensures Due(H.LedgerOf(r.log), Said(r, op).value)
    ensures H.LedgerOf(H.Next(r, op).log) == H.Entered(H.LedgerOf(r.log), Said(r, op).value)
  {
    H.StepConservesIff(r, op);
    SaysOneThing(r, op);
    H.OneMoreEvent(r.log, Said(r, op).value);
  }

  lemma {:induction false} ComingFits(slot: Slot, d: Shared, r: H.Request, op: H.Op, e: H.Event)
    requires SharedRight(slot, d) && H.Allowed(r, op) && Answered(slot, d, r, op) && e.Acquired? && ComesBy(r, op, e)
    ensures Fits(slot, d, e)
  {
    assert forall p | p in d.transit :: PermitRight(slot, d, p);
  }

  lemma {:induction false} LeavingFits(slot: Slot, d: Shared, l: H.Ledger, e: H.Event)
    requires SharedRight(slot, d) && LedgerRight(d, l) && Due(l, e) && !e.Acquired?
    ensures Fits(slot, d, e)
  {
    EntryIsRight(d, l, e.permit);
  }

  /** Nothing a request says is lost on the lock. */
  lemma {:induction false} SaidFits(slot: Slot, s: System, id: Id, op: H.Op)
    requires Linked(slot, s) && Enabled(slot, s, Do(id, op)) && Said(s.requests[id], op).Some?
    ensures Speaks(slot, s, id, Said(s.requests[id], op).value)
  {
    var r, d := s.requests[id], s.shared;
    var e := Said(r, op).value;
    assert RequestRight(d, r);
    AnswersAreGenuine(slot, d, r, op);
    SaysWhatIsDue(r, op);
    SaysOneThing(r, op);
    if e.Acquired? { ComingFits(slot, d, r, op, e); } else { LeavingFits(slot, d, H.LedgerOf(r.log), e); }
  }

  lemma {:induction false} DoingKeepsLinked(slot: Slot, s: System, id: Id, op: H.Op)
    requires Linked(slot, s) && Enabled(slot, s, Do(id, op))
    ensures Linked(slot, Next(slot, s, Do(id, op)))
  {
    var r := s.requests[id];
    var t := H.Next(r, op);
    AnswersAreGenuine(slot, s.shared, r, op);
    H.StepConservesIff(r, op);
    if Said(r, op).Some? {
      SaidFits(slot, s, id, op);
      SaysWhatIsDue(r, op);
      SpeakingKeepsLinked(slot, s, id, Said(r, op).value, t);
    } else {
      SaysOneThing(r, op);
      SilenceKeepsLinked(slot, s, id, t);
    }
  }

  lemma {:induction false} SilenceKeepsLinked(slot: Slot, s: System, id: Id, t: H.Request)
    requires Linked(slot, s) && id in s.requests && H.Conserved(t) && t.log == s.requests[id].log
    ensures Linked(slot, s.(requests := s.requests[id := t]))
  {
    HandIsHeld(t);
    HandIsHeld(s.requests[id]);
    forall p | p in s.shared.lock.permits ensures p in s.shared.transit || InSomeHand(s.requests[id := t], p) {
      if p !in s.shared.transit { StillInSomeHand(s.requests, id, t, p); }
    }
  }

  lemma {:induction false} BeginningKeepsLinked(slot: Slot, s: System, id: Id)
    requires Linked(slot, s) && id !in s.requests
    ensures Linked(slot, Next(slot, s, Begin(id)))
  {
    var after := s.requests[id := H.NEW];
    forall j | j in after ensures RequestRight(s.shared, after[j]) {
      if j != id { assert RequestRight(s.shared, s.requests[j]); }
    }
    ApartWith(s.requests, id, H.NEW);
    forall p | p in s.shared.lock.permits ensures p in s.shared.transit || InSomeHand(after, p) {
      if p !in s.shared.transit {
        var j :| j in s.requests && p in Hand(s.requests[j]);
        assert p in Hand(after[j]);
      }
    }
  }

  /** Only the lock's cores and table change, or a permit in transit ends. */
  lemma {:induction false} OutsideKeepsLinked(slot: Slot, s: System, t: System, ended: set<H.Permit>)
    requires Linked(slot, s) && L.Protocol(t.shared.lock)
    requires t.requests == s.requests && t.shared.under == s.shared.under
    requires |t.shared.lock.cores| == |s.shared.lock.cores| && ended <= s.shared.transit
    requires t.shared.lock.permits == s.shared.lock.permits - ended && t.shared.transit == s.shared.transit - ended
    ensures Linked(slot, t)
  {
    forall p | p in t.shared.lock.permits ensures PermitRight(slot, t.shared, p) {
      assert PermitRight(slot, s.shared, p);
    }
    forall id | id in t.requests ensures RequestRight(t.shared, t.requests[id]) {
      assert RequestRight(s.shared, s.requests[id]);
      OutsideKeepsLedger(s.shared, t.shared, ended, H.LedgerOf(s.requests[id].log));
    }
  }

  lemma {:induction false} OutsideKeepsLedger(d: Shared, t: Shared, ended: set<H.Permit>, l: H.Ledger)
    requires LedgerRight(d, l) && t.under == d.under && ended <= d.transit
    requires t.lock.permits == d.lock.permits - ended && t.transit == d.transit - ended
    ensures LedgerRight(t, l)
  {
    forall p | H.Known(l, p) ensures EntryRight(t, l, p) { assert EntryRight(d, l, p); }
  }

  // ----- The lock underneath -----

  /** Every step of the system is a run of the lock; above all, no release uses another key. */
  lemma {:induction false} StepIsALockRun(slot: Slot, s: System, step: Step) returns (moves: seq<L.Step>)
    requires Linked(slot, s) && Enabled(slot, s, step)
    ensures L.Runs(s.shared.lock, moves, Next(slot, s, step).shared.lock)
  {
    moves := [];
    match step
    case Begin(_) =>
    case Do(id, op) =>
      if Said(s.requests[id], op).Some? {
        var e := Said(s.requests[id], op).value;
        assert RequestRight(s.shared, s.requests[id]);
        SaidFits(slot, s, id, op);
        AppliedIsALockRun(slot, s.shared, H.LedgerOf(s.requests[id].log), e);
        moves := LockSteps(slot, s.shared, e);
      }
    case Leave(id) =>
      if H.HoldsPermit(s.requests[id]) { moves := LeavingIsALockRun(slot, s, id); }
    case AgeOut(c) => moves := [L.AgeOut(c)]; OneLockStep(s.shared.lock, moves[0]);
    case ReturnUnused(p) =>
      assert PermitRight(slot, s.shared, p);
      moves := [L.ReleasePermit(p, L.TransientError)];
      OneLockStep(s.shared.lock, moves[0]);
    case Forget(p) => moves := [L.DropPermit(p)]; OneLockStep(s.shared.lock, moves[0]);
  }

  lemma {:induction false} LeavingIsALockRun(slot: Slot, s: System, id: Id) returns (moves: seq<L.Step>)
    requires Linked(slot, s) && id in s.requests && H.HoldsPermit(s.requests[id])
    ensures L.Runs(s.shared.lock, moves, Next(slot, s, Leave(id)).shared.lock)
  {
    var r := s.requests[id];
    var l, e := H.LedgerOf(r.log), H.Dropped(r.lock.value.permit);
    assert RequestRight(s.shared, r);
    HandIsHeld(r);
    LeavingFits(slot, s.shared, l, e);
    AppliedIsALockRun(slot, s.shared, l, e);
    moves := LockSteps(slot, s.shared, e);
  }

  lemma {:induction false} OutsideStepKeepsLinked(slot: Slot, s: System, step: Step, ended: set<H.Permit>)
    requires Linked(slot, s) && Enabled(slot, s, step)
    requires
      || (step.AgeOut? && ended == {}) || (step.ReturnUnused? && ended == {step.permit})
      || (step.Forget? && ended == {step.permit})
    ensures Linked(slot, Next(slot, s, step))
  {
    var t := Next(slot, s, step);
    var moves := StepIsALockRun(slot, s, step);
    L.RunsKeepProtocol(s.shared.lock, moves, t.shared.lock);
    OutsideKeepsLinked(slot, s, t, ended);
  }

  lemma {:induction false} StepKeepsLinked(slot: Slot, s: System, step: Step)
    requires Linked(slot, s) && Enabled(slot, s, step)
    ensures Linked(slot, Next(slot, s, step))
  {
    match step
    case Begin(id) => BeginningKeepsLinked(slot, s, id);
    case Do(id, op) => DoingKeepsLinked(slot, s, id, op);
    case Leave(id) => LeavingKeepsLinked(slot, s, id);
    case AgeOut(_) => OutsideStepKeepsLinked(slot, s, step, {});
    case ReturnUnused(p) => OutsideStepKeepsLinked(slot, s, step, {p});
    case Forget(p) => OutsideStepKeepsLinked(slot, s, step, {p});
  }

  lemma {:induction false} RunsKeepLinked(slot: Slot, s: System, steps: seq<Step>, t: System)
    requires Linked(slot, s) && Runs(slot, s, steps, t)
    ensures Linked(slot, t)
    decreases |steps|
  {
    if steps != [] {
      StepKeepsLinked(slot, s, steps[0]);
      RunsKeepLinked(slot, Next(slot, s, steps[0]), steps[1..], t);
    }
  }

  lemma {:induction false} LockRunsJoin(s: L.State, a: seq<L.Step>, m: L.State, b: seq<L.Step>, t: L.State)
    requires L.Runs(s, a, m) && L.Runs(m, b, t)
    ensures L.Runs(s, a + b, t)
    decreases |a|
  {
    if a == [] {
      assert a + b == b;
    } else {
      LockRunsJoin(L.Next(s, a[0]), a[1..], m, b, t);
      assert (a + b)[1..] == a[1..] + b;
    }
  }

  // ----- Main results -----

  /** Under any number of careful requests the lock goes through a run of its own protocol. */
  lemma {:induction false} RunIsALockRun(slot: Slot, s: System, steps: seq<Step>, t: System)
    returns (moves: seq<L.Step>)
    requires Linked(slot, s) && Runs(slot, s, steps, t)
    ensures L.Runs(s.shared.lock, moves, t.shared.lock)
    decreases |steps|
  {
    if steps == [] {
      moves := [];
    } else {
      var u := Next(slot, s, steps[0]);
      var first := StepIsALockRun(slot, s, steps[0]);
      StepKeepsLinked(slot, s, steps[0]);
      var rest := RunIsALockRun(slot, u, steps[1..], t);
      LockRunsJoin(s.shared.lock, first, u.shared.lock, rest, t.shared.lock);
      moves := first + rest;
    }
  }

  /** In every reachable state each permit is in transit or in one hand, and under its own hash. */
  lemma {:induction false} EveryPermitIsInOnePlace(slot: Slot, steps: seq<Step>, t: System, p: H.Permit)
    requires Runs(slot, EMPTY, steps, t) && p in t.shared.lock.permits
    ensures p in t.shared.transit || exists id | id in t.requests :: p in Hand(t.requests[id])
    ensures forall id | id in t.requests && p in Hand(t.requests[id]) ::
              && p !in t.shared.transit
              && t.requests[id].key.Some? && slot(t.requests[id].key.value) == t.shared.lock.permits[p]
    ensures forall i, j | i in t.requests && j in t.requests ::
              p in Hand(t.requests[i]) && p in Hand(t.requests[j]) ==> i == j
  {
    RunsKeepLinked(slot, EMPTY, steps, t);
    assert PermitRight(slot, t.shared, p);
    forall id | id in t.requests && p in Hand(t.requests[id])
      ensures p !in t.shared.transit && t.requests[id].key.Some?
      ensures slot(t.requests[id].key.value) == t.shared.lock.permits[p]
    {
      HandIsRight(slot, t, id);
    }
  }

  lemma {:induction false} HandIsRight(slot: Slot, t: System, id: Id)
    requires Linked(slot, t) && id in t.requests && H.HoldsPermit(t.requests[id])
    ensures
      var r := t.requests[id];
      var p := r.lock.value.permit;
      && r.key.Some? && p in t.shared.lock.permits && p !in t.shared.transit
      && t.shared.lock.permits[p] == slot(r.key.value)
  {
    var r := t.requests[id];
    assert RequestRight(t.shared, r);
    HandIsHeld(r);
    EntryIsRight(t.shared, H.LedgerOf(r.log), r.lock.value.permit);
    assert PermitRight(slot, t.shared, r.lock.value.permit);
  }

  /** No two requests fill under the same hash, unless one of them has been aged out. */
  lemma {:induction false} OneFillerAtATime(slot: Slot, steps: seq<Step>, t: System, i: Id, j: Id)
    requires Runs(slot, EMPTY, steps, t) && i in t.requests && j in t.requests && i != j
    requires H.HoldsPermit(t.requests[i]) && H.HoldsPermit(t.requests[j])
    requires t.requests[i].key.Some? && t.requests[j].key.Some?
    requires slot(t.requests[i].key.value) == slot(t.requests[j].key.value)
    ensures
      var p, q := t.requests[i].lock.value.permit, t.requests[j].lock.value.permit;
      var cores := t.shared.lock.cores;
      p < |cores| && q < |cores| && (cores[p].status.AgeTimeout? || cores[q].status.AgeTimeout?)
  {
    RunsKeepLinked(slot, EMPTY, steps, t);
    HandIsRight(slot, t, i);
    HandIsRight(slot, t, j);
    var p, q := t.requests[i].lock.value.permit, t.requests[j].lock.value.permit;
    assert L.PermitOk(t.shared.lock, p) && L.PermitOk(t.shared.lock, q);
    assert p in Hand(t.requests[i]) && q in Hand(t.requests[j]);
  }

  /**
   What a request releases its permit with is what readers find, and the entry that goes is the
   one that came with the permit; an aged out permit leaves the table alone.
   */
  lemma {:induction false} ReleaseReachesItsReaders(slot: Slot, steps: seq<Step>, s: System, id: Id, op: H.Op)
    requires Runs(slot, EMPTY, steps, s) && Enabled(slot, s, Do(id, op))
    requires Said(s.requests[id], op).Some? && Said(s.requests[id], op).value.Released?
    ensures
      var e := Said(s.requests[id], op).value;
      var lock, after := s.shared.lock, Next(slot, s, Do(id, op)).shared.lock;
      && e.permit < |lock.cores| && |after.cores| == |lock.cores| && e.permit in lock.permits
      && after.permits == lock.permits - {e.permit} && after.cores[e.permit].wakeups == L.UNLOCK_WAKEUPS
      && if lock.cores[e.permit].status.AgeTimeout? then
           after.table == lock.table && after.cores[e.permit].status == L.AgeTimeout
         else
           && slot(e.key) in lock.table && lock.table[slot(e.key)] == e.permit
           && after.table == lock.table - {slot(e.key)} && after.cores[e.permit].status == Reason(e.status)
  {
    RunsKeepLinked(slot, EMPTY, steps, s);
    var moves := RunIsALockRun(slot, EMPTY, steps, s);
    var e := Said(s.requests[id], op).value;
    SaidRelease(slot, s, id, op);
    L.ReleaseTouchesOnlyItsOwnEntry(moves, s.shared.lock, e.permit, Reason(e.status));
  }

  lemma {:induction false} SaidRelease(slot: Slot, s: System, id: Id, op: H.Op)
    requires Linked(slot, s) && Enabled(slot, s, Do(id, op))
    requires Said(s.requests[id], op).Some? && Said(s.requests[id], op).value.Released?
    ensures
      var e, lock := Said(s.requests[id], op).value, s.shared.lock;
      && L.Enabled(lock, L.ReleasePermit(e.permit, Reason(e.status))) && lock.permits[e.permit] == slot(e.key)
      && Next(slot, s, Do(id, op)).shared.lock == L.Next(lock, L.ReleasePermit(e.permit, Reason(e.status)))
  {
    var r := s.requests[id];
    assert RequestRight(s.shared, r);
    SaidFits(slot, s, id, op);
    ReleaseIsALockStep(slot, s.shared, H.LedgerOf(r.log), Said(r, op).value);
  }

  /** Whatever a request settles its permit with is what the lock is told, and no request keeps the permit. */
  lemma {:induction false} VerdictIsSaid(r: H.Request, op: H.Op)
    requires H.Conserved(r) && H.Allowed(r, op) && H.Careful(r, op) && H.HoldsPermit(r) && H.Verdict(r, op).Some?
    ensures r.key.Some? && !H.HoldsPermit(H.Next(r, op))
    ensures Said(r, op) == Some(H.Released(r.lock.value.permit, r.key.value, H.Verdict(r, op).value))
  {
    H.ReleasesExactly(r, op);
  }

  /** The core of a permit that was settled with a status: final, and its readers woken. */
  predicate Settled(before: L.State, after: L.State, p: H.Permit, status: L.LockStatus) {
    && p < |before.cores| == |after.cores| && p !in after.permits
    && after.cores[p].wakeups == L.UNLOCK_WAKEUPS
    && after.cores[p].status == if before.cores[p].status.AgeTimeout? then L.AgeTimeout else status
  }

  /** Over every run: an operation that settles a permit leaves its core settled with that verdict. */
  lemma {:induction false} VerdictReachesReaders(slot: Slot, steps: seq<Step>, s: System, id: Id, op: H.Op)
    requires Runs(slot, EMPTY, steps, s) && Enabled(slot, s, Do(id, op))
    requires H.HoldsPermit(s.requests[id]) && H.Verdict(s.requests[id], op).Some?
    ensures
      var r, t := s.requests[id], Next(slot, s, Do(id, op));
      && !H.HoldsPermit(t.requests[id])
      && Settled(s.shared.lock, t.shared.lock, r.lock.value.permit, Reason(H.Verdict(r, op).value))
  {
    RunsKeepLinked(slot, EMPTY, steps, s);
    assert RequestRight(s.shared, s.requests[id]);
    VerdictIsSaid(s.requests[id], op);
    ReleaseReachesItsReaders(slot, steps, s, id, op);
  }

  /** Finishing a write: its readers are woken and find it done, or failed and free for another writer. */
  lemma {:induction false} FinishWakesReaders(slot: Slot, steps: seq<Step>, s: System, id: Id, ok: bool)
    requires Runs(slot, EMPTY, steps, s) && Enabled(slot, s, Do(id, H.FinishMiss(ok)))
    requires s.requests[id].writing && H.HoldsPermit(s.requests[id])
    ensures
      var t := Next(slot, s, Do(id, H.FinishMiss(ok)));
      && !H.HoldsPermit(t.requests[id])
      && Settled(s.shared.lock, t.shared.lock, s.requests[id].lock.value.permit,
                 if ok then L.Done else L.TransientError)
  {
    VerdictReachesReaders(slot, steps, s, id, H.FinishMiss(ok));
  }

  /** Giving up: readers are told to give up too if the response is not for the cache, or else to try. */
  lemma {:induction false} GivingUpTellsReaders(slot: Slot, steps: seq<Step>, s: System, id: Id, op: H.Op)
    requires Runs(slot, EMPTY, steps, s) && Enabled(slot, s, Do(id, op)) && GivesUp(op)
    requires H.HoldsPermit(s.requests[id])
    ensures
      var t := Next(slot, s, Do(id, op));
      && !H.HoldsPermit(t.requests[id])
      && Settled(s.shared.lock, t.shared.lock, s.requests[id].lock.value.permit,
                 if H.Uncacheable(op.reason) then L.GiveUp else L.TransientError)
  {
    VerdictReachesReaders(slot, steps, s, id, op);
  }

  /**
   A permit taken over by a request with another key is released under that key. The lock's
   protocol survives exactly when the hashes agree, the permit was aged out, or nothing is
   locked under the other hash.
   */
  lemma {:induction false} MisplacedPermitIff(
    slot: Slot, d: Shared, r: H.Request, p: H.Permit, reason: H.NoCacheReason)
    requires SharedRight(slot, d) && RequestRight(d, r) && p in d.transit && p in d.under
    requires r.enabled && r.lockCtx && !H.HoldsPermit(r) && r.key.Some? && H.WriterReason(reason)
    ensures
      var taken := H.Next(r, H.SetWriteLock(p, d.under[p]));
      var e := H.Released(p, r.key.value, H.StatusFor(reason));
      var moved := d.(transit := d.transit - {p});
      && H.Allowed(taken, H.ReleaseWriteLock(reason)) && Said(taken, H.ReleaseWriteLock(reason)) == Some(e)
      && Fits(slot, moved, e)
      && (L.Protocol(Applied(slot, moved, e).lock) <==>
          || slot(r.key.value) == slot(d.under[p]) || d.lock.cores[p].status.AgeTimeout?
          || slot(r.key.value) !in d.lock.table)
  {
    assert p in d.lock.permits && PermitRight(slot, d, p);
    L.ReleaseKeepsProtocolIff(d.lock, slot(r.key.value), p, Reason(H.StatusFor(reason)));
  }
}
