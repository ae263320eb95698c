/**
 The per-request cache state machine: its phases, the key that changes under it, and the
 write permit it carries. Every exchange with the cache lock is recorded in `log`.

 What the source answers with a panic is a precondition here. The lock's answer, the
 storage's answer and the admission decision are arguments.
 */
module HttpCache {
  import opened Basics

  type Variance = nat
  type Permit = nat
  type Time = nat

  datatype NoCacheReason =
    | NeverEnabled | OriginNotCache | ResponseTooLarge | PredictedResponseTooLarge | StorageError
    | InternalError | Deferred | DeclinedToUpstream | UpstreamError | CacheLockGiveUp
    | CacheLockTimeout | CacheLockRetryLimit | Custom(name: string)

  datatype Phase =
    | Disabled(reason: NoCacheReason) | Uninit | Bypass | CacheKey | Hit | Miss | Stale
    | StaleUpdating | Expired | Revalidated | RevalidatedNoCache(reason: NoCacheReason)

  datatype HitStatus =
    | HitExpired | ForceExpired | ForceExpiredServeStale | ForceMiss | FailedHitFilter | HitFresh | ForceFresh

  datatype LockStatus = LockDone | LockTransientError | LockGiveUp

  datatype Key = Key(primary: nat, variance: Option<Variance>)

  /** The metadata that matters here; without a stored provenance the creation time stands in. */
  datatype Meta = Meta(created: Time, provenance: Option<Time>, variance: Option<Variance>)

  function Provenance(m: Meta): Time { match m.provenance case Some(t) => t case None => m.created }

  datatype Locked = Write(permit: Permit) | Read

  /** What happened to write permits, in order. */
  datatype Event =
    | Acquired(permit: Permit, key: Key)
    | Released(permit: Permit, key: Key, status: LockStatus)
    | Taken(permit: Permit)
    | Dropped(permit: Permit)

  datatype Request = Request(
    phase: Phase,
    enabled: bool,
    streaming: bool,
    key: Option<Key>,
    meta: Option<Meta>,
    validAfter: Option<Time>,
    staleVariance: Option<Variance>,
    writing: bool,
    reading: bool,
    lockCtx: bool,
    lock: Option<Locked>,
    log: seq<Event>)

  const NEW := Request(Disabled(NeverEnabled), false, false, None, None, None, None, false, false, false, None, [])

  predicate TreatedAsMiss(status: HitStatus) { status.ForceMiss? || status.FailedHitFilter? }

  predicate HoldsPermit(r: Request) { r.lock.Some? && r.lock.value.Write? }

  // ----- Lock traffic -----

  /** Store a lock taken under a key; a permit that was still there goes out of scope. */
  function PutLock(r: Request, granted: Locked, under: Key): Request {
    r.(lock := Some(granted), log := PutLog(r.log, r.lock, granted, under))
  }

  function PutLog(log: seq<Event>, lock: Option<Locked>, granted: Locked, under: Key): seq<Event> {
    var log' := if lock.Some? && lock.value.Write? then log + [Dropped(lock.value.permit)] else log;
    if granted.Write? then log' + [Acquired(granted.permit, under)] else log'
  }

  /** Take the lock out of the request and, if it is a permit, release it under the current key. */
  function ReleaseHeld(r: Request, status: LockStatus): Request
    requires HoldsPermit(r) ==> r.key.Some?
  {
    if HoldsPermit(r) then r.(lock := None, log := r.log + [Released(r.lock.value.permit, r.key.value, status)])
    else r.(lock := None)
  }

  /** Readers only, or nobody, may give these reasons. */
  predicate WriterReason(reason: NoCacheReason) {
    !reason.NeverEnabled? && !reason.CacheLockGiveUp? && !reason.CacheLockTimeout? && !reason.CacheLockRetryLimit?
  }

  function CustomStatus(name: string): LockStatus {
    if name == "CacheFillCancelled" then LockTransientError else LockGiveUp
  }

  function StatusFor(reason: NoCacheReason): LockStatus
    requires WriterReason(reason)
  {
    match reason
    case OriginNotCache => LockGiveUp
    case ResponseTooLarge => LockGiveUp
    case PredictedResponseTooLarge => LockGiveUp
    case Custom(name) => CustomStatus(name)
    case _ => LockTransientError
  }

  /** Without a lock context there is nothing to release. */
  function ReleaseFor(r: Request, reason: NoCacheReason): Request
    requires HoldsPermit(r) ==> r.key.Some? && WriterReason(reason)
  {
    if HoldsPermit(r) then ReleaseHeld(r, StatusFor(reason)) else r.(lock := None)
  }

  // ----- Operations -----

  datatype Op =
    | Enable(streaming: bool, lockCtx: bool)
    | SetCacheLock(lockCtx: bool)
    | SetCacheKey(key: Key)
    | SetBypass
    | Lookup(stored: Option<Meta>, deferred: bool, granted: Locked)
    | VaryLookup(variance: Variance, seen: Meta)
    | Found(found: Meta, status: HitStatus, granted: Locked)
    | CacheMiss
    | SetMeta(meta: Meta)
    | UpdateVariance(newVariance: Option<Variance>)
    | SetMissHandler(created: bool, attached: bool)
    | FinishMiss(ok: bool)
    | RevalidateMeta(renewed: Meta)
    | RevalidateUncacheable(reason: NoCacheReason)
    | SetStaleUpdating
    | ReleaseWriteLock(reason: NoCacheReason)
    | Disable(reason: NoCacheReason)
    | TakeWriteLock
    | SetWriteLock(permit: Permit, lockedUnder: Key)
    | LockWait

  // What the source would not panic on.

  predicate MayRelease(r: Request, reason: NoCacheReason) { HoldsPermit(r) ==> r.key.Some? && WriterReason(reason) }

  predicate MayLook(r: Request) { (r.phase.CacheKey? || r.phase.Stale?) && r.key.Some? }

  predicate MaySetMeta(r: Request) { r.phase.Miss? || MayRevalidate(r) }

  predicate MayStore(r: Request) { (r.phase.Miss? || r.phase.Expired?) && r.key.Some? && r.meta.Some? }

  predicate MayFinish(r: Request) {
    (r.phase.Miss? || r.phase.Expired?) && (r.writing ==> r.meta.Some? && r.key.Some?)
  }

  predicate MayRevalidate(r: Request) { r.phase.Stale? && r.meta.Some? && r.key.Some? }

  predicate Allowed(r: Request, op: Op) {
    match op
    case Enable(_, _) => r.phase.Disabled?
    case SetCacheLock(_) => (r.phase.CacheKey? || r.phase.Stale? || r.phase.Hit?) && r.lock.None?
    case SetCacheKey(_) => r.phase.Uninit? || r.phase.CacheKey?
    case SetBypass => r.phase.CacheKey?
    case Lookup(stored, deferred, _) => MayLook(r) && (deferred ==> stored.None? && r.phase.CacheKey?)
    case VaryLookup(_, _) => MayLook(r)
    case Found(_, _, _) => MayLook(r)
    case CacheMiss => r.phase.CacheKey? || r.phase.Bypass? || r.phase.Stale?
    case SetMeta(_) => MaySetMeta(r)
    case UpdateVariance(_) => MayStore(r)
    case SetMissHandler(_, _) => MayStore(r) && !r.writing
    case FinishMiss(_) => MayFinish(r)
    case RevalidateMeta(_) => MayRevalidate(r)
    case RevalidateUncacheable(reason) => MayRevalidate(r) && MayRelease(r, reason)
    case SetStaleUpdating => r.phase.Stale?
    case ReleaseWriteLock(reason) => MayRelease(r, reason)
    case Disable(reason) => !reason.NeverEnabled? && MayRelease(r, reason)
    case TakeWriteLock => HoldsPermit(r)
    case SetWriteLock(_, _) => r.enabled
    case LockWait => r.lock == Some(Read)
  }

  /** An entry older than the primary's tombstone counts as absent. */
  function Visible(r: Request, stored: Option<Meta>): Option<Meta> {
    if stored.Some? && r.validAfter.Some? && stored.value.created < r.validAfter.value then None else stored
  }

  function EnableSpec(r: Request, streaming: bool, lockCtx: bool): Request {
    Request(Uninit, true, streaming, None, None, None, None, false, false, lockCtx, None, r.log)
  }

  function DisableSpec(r: Request, reason: NoCacheReason): Request
    requires !reason.NeverEnabled? && MayRelease(r, reason)
  {
    if r.phase.Disabled? then
      if r.phase.reason.NeverEnabled? then r else r.(phase := Disabled(reason))
    else
      var s := ReleaseFor(r, reason);
      s.(phase := Disabled(reason), enabled := false, meta := None, validAfter := None, staleVariance := None,
         writing := false, reading := false, lockCtx := false)
  }

  function LookupSpec(r: Request, stored: Option<Meta>, deferred: bool, granted: Locked): Request
    requires MayLook(r) && (deferred ==> stored.None? && r.phase.CacheKey?)
  {
    if Visible(r, stored).Some? then r
    else if deferred then DisableSpec(r, Deferred)
    else if r.lockCtx then PutLock(r, granted, r.key.value)
    else r
  }

  /** The slot of the variant, unless the entry seen is itself that variant in the primary slot. */
  function VaryLookupSpec(r: Request, variance: Variance, seen: Meta): (Request, bool)
    requires MayLook(r)
  {
    var matches := seen.variance == Some(variance);
    var initial := r.key.value.variance.None?;
    var key := r.key.value.(variance := if matches && initial then None else Some(variance));
    (r.(validAfter := Some(Provenance(seen)), key := Some(key)), matches)
  }

  function PhaseFor(phase: Phase, status: HitStatus): Phase {
    if status.HitFresh? || status.ForceFresh? then Hit
    else if TreatedAsMiss(status) then phase
    else Stale
  }

  function FoundSpec(r: Request, found: Meta, status: HitStatus, granted: Locked): Request
    requires MayLook(r)
  {
    var s := r.(phase := PhaseFor(r.phase, status));
    var t := if (s.phase.Stale? || TreatedAsMiss(status)) && s.lockCtx then PutLock(s, granted, r.key.value) else s;
    t.(reading := !TreatedAsMiss(status), meta := if TreatedAsMiss(status) then None else Some(found))
  }

  function SetMetaSpec(r: Request, meta: Meta): Request
    requires MaySetMeta(r)
  {
    if r.phase.Stale? then
      var stale := r.meta.value;
      r.(staleVariance := stale.variance, meta := Some(meta.(provenance := Some(Provenance(stale)))), phase := Expired)
    else r.(staleVariance := None, meta := Some(meta))
  }

  /** Whether an expired response starts a new Vary family. */
  predicate FamilyChanges(r: Request, variance: Option<Variance>)
    requires r.key.Some?
  {
    r.phase.Expired? &&
    match r.key.value.variance
    case Some(own) => variance != Some(own)
    case None => r.staleVariance != variance
  }

  predicate MovesToPrimary(key: Key, variance: Option<Variance>) { key.variance.Some? && key.variance != variance }

  /** The metadata under its new variance; a new family starts its own lineage. */
  function Varied(r: Request, variance: Option<Variance>): Meta
    requires r.key.Some? && r.meta.Some?
  {
    var m := r.meta.value.(variance := variance);
    if FamilyChanges(r, variance) then m.(provenance := Some(m.created)) else m
  }

  function UpdateVarianceSpec(r: Request, variance: Option<Variance>): Request
    requires MayStore(r)
  {
    var s := r.(staleVariance := None, meta := Some(Varied(r, variance)));
    if MovesToPrimary(r.key.value, variance) then
      ReleaseHeld(s, LockDone).(key := Some(r.key.value.(variance := None)))
    else s
  }

  function SetMissHandlerSpec(r: Request, created: bool, attached: bool): Request
    requires MayStore(r) && !r.writing
  {
    if !created then r
    else
      var s := r.(writing := true);
      if r.streaming then ReleaseHeld(s, LockDone).(reading := attached || r.reading) else s
  }

  function FinishMissSpec(r: Request, ok: bool): Request
    requires MayFinish(r)
  {
    if !r.writing then r
    else ReleaseHeld(r.(writing := false), if ok then LockDone else LockTransientError)
  }

  function RevalidateMetaSpec(r: Request, renewed: Meta): Request
    requires MayRevalidate(r)
  {
    var stale := r.meta.value;
    var m := renewed.(created := stale.created, provenance := Some(Provenance(stale)));
    ReleaseHeld(r.(meta := Some(m), staleVariance := None), LockDone).(phase := Revalidated)
  }

  /** A permit that was locked by another request; without a lock context it is dropped. */
  function SetWriteLockSpec(r: Request, permit: Permit, lockedUnder: Key): Request {
    if r.lockCtx then PutLock(r, Write(permit), lockedUnder)
    else r.(log := r.log + [Acquired(permit, lockedUnder)] + [Dropped(permit)])
  }

  function Next(r: Request, op: Op): Request
    requires Allowed(r, op)
  {
    match op
    case Enable(streaming, lockCtx) => EnableSpec(r, streaming, lockCtx)
    case SetCacheLock(lockCtx) => r.(lockCtx := lockCtx)
    case SetCacheKey(key) => r.(phase := CacheKey, key := Some(key))
    case SetBypass => r.(phase := Bypass)
    case Lookup(stored, deferred, granted) => LookupSpec(r, stored, deferred, granted)
    case VaryLookup(variance, seen) => VaryLookupSpec(r, variance, seen).0
    case Found(found, status, granted) => FoundSpec(r, found, status, granted)
    case CacheMiss => r.(phase := Miss, meta := None, staleVariance := None)
    case SetMeta(meta) => SetMetaSpec(r, meta)
    case UpdateVariance(variance) => UpdateVarianceSpec(r, variance)
    case SetMissHandler(created, attached) => SetMissHandlerSpec(r, created, attached)
    case FinishMiss(ok) => FinishMissSpec(r, ok)
    case RevalidateMeta(renewed) => RevalidateMetaSpec(r, renewed)
    case RevalidateUncacheable(reason) => ReleaseFor(r, reason).(phase := RevalidatedNoCache(reason))
    case SetStaleUpdating => r.(phase := StaleUpdating)
    case ReleaseWriteLock(reason) => ReleaseFor(r, reason)
    case Disable(reason) => DisableSpec(r, reason)
    case TakeWriteLock => r.(lock := None, log := r.log + [Taken(r.lock.value.permit)])
    case SetWriteLock(permit, lockedUnder) => SetWriteLockSpec(r, permit, lockedUnder)
    case LockWait => r.(lock := None)
  }

  // ----- The account of permits -----

  /**
   Permits held and the keys they were locked under, permits handed to another request with
   theirs, and permits that are gone for good.
   */
  datatype Ledger = Ledger(held: map<Permit, Key>, away: map<Permit, Key>, gone: set<Permit>)

  function Entered(l: Ledger, e: Event): Ledger {
    match e
    case Acquired(p, key) => Ledger(l.held[p := key], l.away - {p}, l.gone)
    case Taken(p) => Ledger(l.held - {p}, if p in l.held then l.away[p := l.held[p]] else l.away, l.gone)
    case Released(p, _, _) => Ledger(l.held - {p}, l.away, l.gone + {p})
    case Dropped(p) => Ledger(l.held - {p}, l.away, l.gone + {p})
  }

  function LedgerOf(log: seq<Event>): Ledger {
    if log == [] then Ledger(map[], map[], {}) else Entered(LedgerOf(log[..|log| - 1]), log[|log| - 1])
  }

  predicate Known(l: Ledger, p: Permit) { p in l.held || p in l.away || p in l.gone }

  /** The permit is new, or comes back with the key it was locked under. */
  predicate Genuine(l: Ledger, p: Permit, key: Key) { !Known(l, p) || (p in l.away && l.away[p] == key) }

  /** A permit comes genuinely, and goes while it is held: released under its own key, or handed on. */
  predicate Proper(l: Ledger, e: Event) {
    match e
    case Acquired(p, key) => Genuine(l, p, key)
    case Released(p, key, _) => p in l.held && l.held[p] == key
    case Taken(p) => p in l.held
    case Dropped(_) => false
  }

  predicate Honest(log: seq<Event>) {
    log != [] ==> Honest(log[..|log| - 1]) && Proper(LedgerOf(log[..|log| - 1]), log[|log| - 1])
  }

  lemma {:induction false} OneMoreEvent(log: seq<Event>, e: Event)
    ensures LedgerOf(log + [e]) == Entered(LedgerOf(log), e)
    ensures Honest(log + [e]) <==> Honest(log) && Proper(LedgerOf(log), e)
  {
    assert (log + [e])[..|log|] == log;
  }

  /** What the account of a request depends on. */
  datatype Books = Books(
    disabled: bool, enabled: bool, lockCtx: bool, key: Option<Key>, lock: Option<Locked>, log: seq<Event>)

  function BooksOf(r: Request): Books { Books(r.phase.Disabled?, r.enabled, r.lockCtx, r.key, r.lock, r.log) }

  predicate Holds(b: Books) { b.lock.Some? && b.lock.value.Write? }

  function HeldBy(b: Books): map<Permit, Key> {
    if Holds(b) && b.key.Some? then map[b.lock.value.permit := b.key.value] else map[]
  }

  predicate Balanced(b: Books) {
    && Honest(b.log)
    && LedgerOf(b.log).held == HeldBy(b)
    && (b.lock.Some? ==> b.lockCtx && b.key.Some?)
    && (b.lockCtx ==> b.enabled)
    && (b.disabled <==> !b.enabled)
  }

  /** The log is honest, and the permit it says is held is the one in hand, under the key in hand. */
  predicate Conserved(r: Request) { Balanced(BooksOf(r)) }

  // ----- What lock traffic does to the account -----

  function LetGo(b: Books, status: LockStatus): Books
    requires Holds(b) ==> b.key.Some?
  {
    b.(lock := None,
       log := if Holds(b) then b.log + [Released(b.lock.value.permit, b.key.value, status)] else b.log)
  }

  function Put(b: Books, granted: Locked, under: Key): Books {
    b.(lock := Some(granted), log := PutLog(b.log, b.lock, granted, under))
  }

  lemma {:induction false} LetGoBalances(b: Books, status: LockStatus)
    requires Balanced(b)
    ensures Balanced(LetGo(b, status))
  {
    if Holds(b) { OneMoreEvent(b.log, Released(b.lock.value.permit, b.key.value, status)); }
  }

  lemma {:induction false} TakenBalances(b: Books)
    requires Balanced(b) && Holds(b)
    ensures Balanced(b.(lock := None, log := b.log + [Taken(b.lock.value.permit)]))
  {
    OneMoreEvent(b.log, Taken(b.lock.value.permit));
  }

  lemma {:induction false} PutOverPermit(b: Books, granted: Locked, under: Key)
    requires Holds(b)
    ensures !Honest(PutLog(b.log, b.lock, granted, under))
  {
    var drop := Dropped(b.lock.value.permit);
    OneMoreEvent(b.log, drop);
    if granted.Write? { OneMoreEvent(b.log + [drop], Acquired(granted.permit, under)); }
  }

  lemma {:induction false} PutBalancesIff(b: Books, granted: Locked, under: Key)
    requires Balanced(b) && b.lockCtx && (granted.Read? ==> b.key.Some?)
    requires granted.Write? ==> Genuine(LedgerOf(b.log), granted.permit, under)
    ensures Balanced(Put(b, granted, under)) <==> !Holds(b) && (granted.Write? ==> b.key == Some(under))
  {
    if Holds(b) {
      PutOverPermit(b, granted, under);
    } else if granted.Write? {
      OneMoreEvent(b.log, Acquired(granted.permit, under));
      assert LedgerOf(b.log).held == map[];
      var held := map[granted.permit := under];
      assert LedgerOf(Put(b, granted, under).log).held == held;
      assert held[granted.permit] == under;
    }
  }

  lemma {:induction false} RekeyBalancesIff(b: Books, key: Key)
    requires Balanced(b)
    ensures Balanced(b.(key := Some(key))) <==> Holds(b) ==> b.key == Some(key)
  {
    if Holds(b) {
      assert LedgerOf(b.log).held[b.lock.value.permit] == b.key.value;
      var held := map[b.lock.value.permit := key];
      assert HeldBy(b.(key := Some(key))) == held && held[b.lock.value.permit] == key;
    }
  }

  // ----- What each operation does to the account -----

  /** The lock hands out new permits; a permit passed on is new here or comes back. */
  predicate GenuineGrant(r: Request, op: Op) {
    match op
    case Lookup(_, _, granted) => granted.Write? ==> !Known(LedgerOf(r.log), granted.permit)
    case Found(_, _, granted) => granted.Write? ==> !Known(LedgerOf(r.log), granted.permit)
    case SetWriteLock(permit, lockedUnder) => Genuine(LedgerOf(r.log), permit, lockedUnder)
    case _ => true
  }

  /** The variant is in the slot already looked at: its own, or the primary slot that happens to hold it. */
  predicate StaysInSlot(slot: Option<Variance>, variance: Variance, seen: Meta) {
    slot == Some(variance) || (slot.None? && seen.variance == Some(variance))
  }

  /** The operation neither overwrites a held permit nor lets the key in hand differ from the permit's. */
  predicate Careful(r: Request, op: Op)
    requires Allowed(r, op)
  {
    match op
    case Lookup(stored, deferred, _) => HoldsPermit(r) ==> Visible(r, stored).Some? || deferred
    case Found(_, status, _) => HoldsPermit(r) ==> status.HitFresh? || status.ForceFresh?
    case VaryLookup(variance, seen) => HoldsPermit(r) ==> StaysInSlot(r.key.value.variance, variance, seen)
    case SetCacheKey(key) => HoldsPermit(r) ==> r.key == Some(key)
    case SetWriteLock(_, lockedUnder) => r.lockCtx && !HoldsPermit(r) && r.key == Some(lockedUnder)
    case _ => true
  }

  lemma {:induction false} ReleaseBooks(r: Request, status: LockStatus)
    requires HoldsPermit(r) ==> r.key.Some?
    ensures BooksOf(ReleaseHeld(r, status)) == LetGo(BooksOf(r), status)
  {
  }

  lemma {:induction false} DisableBooks(r: Request, reason: NoCacheReason)
    requires !reason.NeverEnabled? && MayRelease(r, reason)
    ensures
      BooksOf(DisableSpec(r, reason)) ==
      if r.phase.Disabled? then BooksOf(r)
      else
        var b := LetGo(BooksOf(r), if HoldsPermit(r) then StatusFor(reason) else LockDone);
        b.(disabled := true, enabled := false, lockCtx := false)
  {
  }

  lemma {:induction false} GivingUpConserves(r: Request, op: Op)
    requires Conserved(r) && Allowed(r, op)
    requires op.RevalidateUncacheable? || op.ReleaseWriteLock? || op.Disable?
    ensures Conserved(Next(r, op))
  {
    var status := if HoldsPermit(r) then StatusFor(op.reason) else LockDone;
    LetGoBalances(BooksOf(r), status);
    if op.Disable? { DisableBooks(r, op.reason); } else { ReleaseBooks(r, status); }
  }

  lemma {:induction false} LookupConservesIff(r: Request, stored: Option<Meta>, deferred: bool, granted: Locked)
    requires MayLook(r) && (deferred ==> stored.None? && r.phase.CacheKey?)
    requires Conserved(r) && GenuineGrant(r, Lookup(stored, deferred, granted))
    ensures Conserved(LookupSpec(r, stored, deferred, granted)) <==> Careful(r, Lookup(stored, deferred, granted))
  {
    if Visible(r, stored).None? {
      if deferred {
        GivingUpConserves(r, Disable(Deferred));
      } else if r.lockCtx {
        PutBalancesIff(BooksOf(r), granted, r.key.value);
        assert BooksOf(PutLock(r, granted, r.key.value)) == Put(BooksOf(r), granted, r.key.value);
      }
    }
  }

  lemma {:induction false} FoundBooks(r: Request, found: Meta, status: HitStatus, granted: Locked)
    requires MayLook(r)
    ensures
      BooksOf(FoundSpec(r, found, status, granted)) ==
      if status.HitFresh? || status.ForceFresh? || !r.lockCtx then BooksOf(r)
      else Put(BooksOf(r), granted, r.key.value)
  {
    var s := r.(phase := PhaseFor(r.phase, status));
    assert BooksOf(s) == BooksOf(r);
    assert (s.phase.Stale? || TreatedAsMiss(status)) <==> !(status.HitFresh? || status.ForceFresh?);
    var t := if (s.phase.Stale? || TreatedAsMiss(status)) && s.lockCtx then PutLock(s, granted, r.key.value) else s;
    assert BooksOf(FoundSpec(r, found, status, granted)) == BooksOf(t);
  }

  lemma {:induction false} FoundConservesIff(r: Request, found: Meta, status: HitStatus, granted: Locked)
    requires MayLook(r) && Conserved(r) && GenuineGrant(r, Found(found, status, granted))
    ensures Conserved(FoundSpec(r, found, status, granted)) <==> Careful(r, Found(found, status, granted))
  {
    FoundBooks(r, found, status, granted);
    if !(status.HitFresh? || status.ForceFresh?) && r.lockCtx { PutBalancesIff(BooksOf(r), granted, r.key.value); }
  }

  /**
   A transferred permit is kept right iff there is a lock context, no permit in hand, and its key
   is the key in hand.
   */
  lemma {:induction false} SetWriteLockConservesIff(r: Request, permit: Permit, lockedUnder: Key)
    requires Conserved(r) && r.enabled && GenuineGrant(r, SetWriteLock(permit, lockedUnder))
    ensures Conserved(SetWriteLockSpec(r, permit, lockedUnder)) <==> Careful(r, SetWriteLock(permit, lockedUnder))
  {
    if r.lockCtx {
      PutBalancesIff(BooksOf(r), Write(permit), lockedUnder);
      assert BooksOf(PutLock(r, Write(permit), lockedUnder)) == Put(BooksOf(r), Write(permit), lockedUnder);
    } else {
      OneMoreEvent(r.log + [Acquired(permit, lockedUnder)], Dropped(permit));
    }
  }

  lemma {:induction false} UpdateVarianceBooks(r: Request, variance: Option<Variance>)
    requires MayStore(r)
    ensures
      BooksOf(UpdateVarianceSpec(r, variance)) ==
      if !MovesToPrimary(r.key.value, variance) then BooksOf(r)
      else LetGo(BooksOf(r), LockDone).(key := Some(r.key.value.(variance := None)))
  {
    var s := r.(staleVariance := None, meta := Some(Varied(r, variance)));
    assert BooksOf(s) == BooksOf(r);
    ReleaseBooks(s, LockDone);
  }

  lemma {:induction false} UpdateVarianceConserves(r: Request, variance: Option<Variance>)
    requires Conserved(r) && MayStore(r)
    ensures Conserved(UpdateVarianceSpec(r, variance))
  {
    UpdateVarianceBooks(r, variance);
    LetGoBalances(BooksOf(r), LockDone);
    RekeyBalancesIff(LetGo(BooksOf(r), LockDone), r.key.value.(variance := None));
  }

  lemma {:induction false} SetMissHandlerConserves(r: Request, created: bool, attached: bool)
    requires Conserved(r) && MayStore(r) && !r.writing
    ensures Conserved(SetMissHandlerSpec(r, created, attached))
  {
    ReleaseBooks(r.(writing := true), LockDone);
    LetGoBalances(BooksOf(r), LockDone);
  }

  lemma {:induction false} FinishMissConserves(r: Request, ok: bool)
    requires Conserved(r) && MayFinish(r)
    ensures Conserved(FinishMissSpec(r, ok))
  {
    var status := if ok then LockDone else LockTransientError;
    ReleaseBooks(r.(writing := false), status);
    LetGoBalances(BooksOf(r), status);
  }

  lemma {:induction false} RevalidateMetaConserves(r: Request, renewed: Meta)
    requires Conserved(r) && MayRevalidate(r)
    ensures Conserved(RevalidateMetaSpec(r, renewed))
  {
    var stale := r.meta.value;
    var m := renewed.(created := stale.created, provenance := Some(Provenance(stale)));
    ReleaseBooks(r.(meta := Some(m), staleVariance := None), LockDone);
    LetGoBalances(BooksOf(r), LockDone);
  }

  lemma {:induction false} RekeyingConservesIff(r: Request, op: Op)
    requires Conserved(r) && Allowed(r, op)
    requires op.VaryLookup? || op.SetCacheKey?
    ensures Conserved(Next(r, op)) <==> Careful(r, op)
  {
    var t := Next(r, op);
    if op.VaryLookup? {
      assert t.key == r.key <==> StaysInSlot(r.key.value.variance, op.variance, op.seen);
    }
    assert BooksOf(t) == BooksOf(r).(key := t.key);
    RekeyBalancesIff(BooksOf(r), t.key.value);
  }

  lemma {:induction false} QuietConserves(r: Request, op: Op)
    requires Conserved(r) && Allowed(r, op)
    requires
      || op.Enable? || op.SetCacheLock? || op.SetBypass? || op.CacheMiss? || op.SetMeta? || op.SetStaleUpdating?
      || op.LockWait?
    ensures Conserved(Next(r, op))
  {
    assert Next(r, op).log == r.log && HeldBy(BooksOf(Next(r, op))) == HeldBy(BooksOf(r));
  }

  /** An allowed operation keeps the account straight exactly when it is careful. */
  lemma {:induction false} StepConservesIff(r: Request, op: Op)
    requires Conserved(r) && Allowed(r, op) && GenuineGrant(r, op)
    ensures Conserved(Next(r, op)) <==> Careful(r, op)
  {
    match op
    case Lookup(stored, deferred, granted) => LookupConservesIff(r, stored, deferred, granted);
    case Found(found, status, granted) => FoundConservesIff(r, found, status, granted);
    case SetWriteLock(permit, lockedUnder) => SetWriteLockConservesIff(r, permit, lockedUnder);
    case UpdateVariance(variance) => UpdateVarianceConserves(r, variance);
    case SetMissHandler(created, attached) => SetMissHandlerConserves(r, created, attached);
    case FinishMiss(ok) => FinishMissConserves(r, ok);
    case RevalidateMeta(renewed) => RevalidateMetaConserves(r, renewed);
    case RevalidateUncacheable(_) => GivingUpConserves(r, op);
    case ReleaseWriteLock(_) => GivingUpConserves(r, op);
    case Disable(_) => GivingUpConserves(r, op);
    case VaryLookup(_, _) => RekeyingConservesIff(r, op);
    case SetCacheKey(_) => RekeyingConservesIff(r, op);
    case TakeWriteLock => TakenBalances(BooksOf(r));
    case _ => QuietConserves(r, op);
  }

  // ----- Phases -----

  /** The chart of phases; a request may be disabled at any time. */
  predicate MayFollow(before: Phase, after: Phase) {
    after == before ||
    match after
    case Disabled(_) => true
    case Uninit => before.Disabled?
    case CacheKey => before.Uninit?
    case Bypass => before.CacheKey?
    case Hit => before.CacheKey? || before.Stale?
    case Stale => before.CacheKey?
    case Miss => before.CacheKey? || before.Bypass? || before.Stale?
    case StaleUpdating => before.Stale?
    case Expired => before.Stale?
    case Revalidated => before.Stale?
    case RevalidatedNoCache(_) => before.Stale?
  }

  /** Operations follow the chart, and only those named here move a request on. */
  lemma {:induction false} PhasesFollowTheChart(r: Request, op: Op)
    requires Allowed(r, op)
    ensures OnTheChart(r.phase, op, Next(r, op).phase)
  {
    match op
    case UpdateVariance(_) => StoringKeepsContext(r, op);
    case FinishMiss(_) => StoringKeepsContext(r, op);
    case SetMissHandler(_, _) => StoringKeepsContext(r, op);
    case Lookup(_, _, _) => LookupKeepsPhase(r, op);
    case RevalidateUncacheable(_) => GivingUpPhases(r, op);
    case ReleaseWriteLock(_) => GivingUpPhases(r, op);
    case Disable(_) => GivingUpPhases(r, op);
    case _ =>
  }

  lemma {:induction false} GivingUpPhases(r: Request, op: Op)
    requires Allowed(r, op) && (op.RevalidateUncacheable? || op.ReleaseWriteLock? || op.Disable?)
    ensures
      var t := Next(r, op);
      && (op.RevalidateUncacheable? ==> t.phase == RevalidatedNoCache(op.reason))
      && (op.ReleaseWriteLock? ==> t.phase == r.phase) && (op.Disable? ==> t.phase.Disabled?)
  {
    if HoldsPermit(r) { ReleaseLeavesRest(r, StatusFor(op.reason)); }
  }

  predicate OnTheChart(before: Phase, op: Op, after: Phase) {
    && MayFollow(before, after)
    && (after.Hit? && !before.Hit? <==> op.Found? && (op.status.HitFresh? || op.status.ForceFresh?))
    && (after.Miss? && !before.Miss? <==> op.CacheMiss?)
    && (after.Expired? && !before.Expired? <==> op.SetMeta? && before.Stale?)
    && (after.Revalidated? && !before.Revalidated? <==> op.RevalidateMeta?)
  }

  lemma {:induction false} StoringKeepsContext(r: Request, op: Op)
    requires Allowed(r, op) && (op.UpdateVariance? || op.FinishMiss? || op.SetMissHandler?)
    ensures
      var t := Next(r, op);
      t.phase == r.phase && t.streaming == r.streaming
  {
    match op
    case UpdateVariance(variance) =>
      ReleaseLeavesRest(r.(staleVariance := None, meta := Some(Varied(r, variance))), LockDone);
    case FinishMiss(ok) =>
      if r.writing { ReleaseLeavesRest(r.(writing := false), if ok then LockDone else LockTransientError); }
    case SetMissHandler(_, _) => ReleaseLeavesRest(r.(writing := true), LockDone);
  }

  lemma {:induction false} LookupKeepsPhase(r: Request, op: Op)
    requires Allowed(r, op) && op.Lookup?
    ensures
      var t := Next(r, op);
      t.streaming == r.streaming && if op.deferred then t.phase == Disabled(Deferred) else t.phase == r.phase
  {
  }

  /** What was said when a request was enabled stands until it is enabled again. */
  lemma {:induction false} StreamingIsAsEnabled(r: Request, op: Op)
    requires Allowed(r, op)
    ensures Next(r, op).streaming == if op.Enable? then op.streaming else r.streaming
    ensures op.Enable? ==> Next(r, op) == NEW.(phase := Uninit, enabled := true, streaming := op.streaming,
                                               lockCtx := op.lockCtx, log := r.log)
  {
    if op.UpdateVariance? || op.FinishMiss? || op.SetMissHandler? { StoringKeepsContext(r, op); }
    else if op.Lookup? { LookupKeepsPhase(r, op); }
  }

  /** A request has a body to read after a hit that counts as one, or from a write it is attached to. */
  lemma {:induction false} BodyToReadIff(r: Request, op: Op)
    requires Allowed(r, op) && (op.Found? || (op.SetMissHandler? && op.created && r.streaming))
    ensures Next(r, op).reading <==>
            if op.Found? then !TreatedAsMiss(op.status) else op.attached || r.reading
  {
  }

  /** The first reason to be disabled gives way to a later one, except that of never having been enabled. */
  lemma {:induction false} DisabledForTheLastReason(r: Request, reason: NoCacheReason)
    requires Allowed(r, Disable(reason))
    ensures
      var t := Next(r, Disable(reason));
      && t.phase == Disabled(if r.phase == Disabled(NeverEnabled) then NeverEnabled else reason)
      && (!r.phase.Disabled? ==> !t.enabled && t.lock.None? && t.meta.None? && !t.writing && !t.reading)
  {
  }

  // ----- When a permit is released, and what readers are told -----

  /** The response will not be stored for anyone, so readers need no new writer. */
  predicate Uncacheable(reason: NoCacheReason) {
    || reason.OriginNotCache? || reason.ResponseTooLarge? || reason.PredictedResponseTooLarge?
    || (reason.Custom? && reason.name != "CacheFillCancelled")
  }

  /** Readers give up on the lock iff the response is not for the cache; otherwise one of them writes. */
  lemma {:induction false} ReadersGiveUpIffUncacheable(reason: NoCacheReason)
    requires WriterReason(reason)
    ensures StatusFor(reason) == if Uncacheable(reason) then LockGiveUp else LockTransientError
  {
  }

  /** What a permit in hand is released with, if the operation releases it at all. */
  function Verdict(r: Request, op: Op): Option<LockStatus>
    requires Allowed(r, op)
  {
    match op
    case FinishMiss(ok) => if r.writing then Some(if ok then LockDone else LockTransientError) else None
    case SetMissHandler(created, _) => if created && r.streaming then Some(LockDone) else None
    case RevalidateMeta(_) => Some(LockDone)
    case UpdateVariance(variance) =>
      if r.key.value.variance.Some? && r.key.value.variance != variance then Some(LockDone) else None
    case RevalidateUncacheable(reason) => Some(if Uncacheable(reason) then LockGiveUp else LockTransientError)
    case ReleaseWriteLock(reason) => Some(if Uncacheable(reason) then LockGiveUp else LockTransientError)
    case Disable(reason) => Some(if Uncacheable(reason) then LockGiveUp else LockTransientError)
    case Lookup(_, deferred, _) => if deferred then Some(LockTransientError) else None
    case _ => None
  }

  /** The permit is gone from the request, and the log says with what. */
  predicate LetsGo(r: Request, t: Request, status: LockStatus)
    requires HoldsPermit(r) && r.key.Some?
  {
    !HoldsPermit(t) && t.log == r.log + [Released(r.lock.value.permit, r.key.value, status)]
  }

  lemma {:induction false} GivingUpReleases(r: Request, op: Op)
    requires Conserved(r) && Allowed(r, op) && HoldsPermit(r) && r.key.Some?
    requires op.RevalidateUncacheable? || op.ReleaseWriteLock? || op.Disable?
    ensures LetsGo(r, Next(r, op), if Uncacheable(op.reason) then LockGiveUp else LockTransientError)
  {
    ReadersGiveUpIffUncacheable(op.reason);
    if op.Disable? { DisableBooks(r, op.reason); } else { ReleaseBooks(r, StatusFor(op.reason)); }
  }

  /** Finishing a write releases the permit: the fill is done, or another request has to try. */
  lemma {:induction false} FinishReleases(r: Request, ok: bool)
    requires Allowed(r, FinishMiss(ok)) && r.writing && HoldsPermit(r)
    ensures LetsGo(r, Next(r, FinishMiss(ok)), if ok then LockDone else LockTransientError)
  {
    ReleaseBooks(r.(writing := false), if ok then LockDone else LockTransientError);
  }

  /** A write is open from the creation of its handler. */
  lemma {:induction false} HandlerOpensWrite(r: Request, created: bool, attached: bool)
    requires MayStore(r) && !r.writing
    ensures
      var t := SetMissHandlerSpec(r, created, attached);
      t.writing == created && MayFinish(t) && (!created ==> t == r)
  {
    ReleaseLeavesRest(r.(writing := true), LockDone);
  }

  /** A write ends once, however often it is finished. */
  lemma {:induction false} FinishingTwiceIsOnce(r: Request, ok: bool, again: bool)
    requires MayFinish(r)
    ensures
      var t := FinishMissSpec(r, ok);
      !t.writing && MayFinish(t) && FinishMissSpec(t, again) == t && (!r.writing ==> t == r)
  {
    if r.writing { ReleaseLeavesRest(r.(writing := false), if ok then LockDone else LockTransientError); }
  }

  lemma {:induction false} ReleaseLeavesRest(r: Request, status: LockStatus)
    requires HoldsPermit(r) ==> r.key.Some?
    ensures
      var t := ReleaseHeld(r, status);
      && t.phase == r.phase && t.key == r.key && t.meta == r.meta && t.writing == r.writing && t.lock == None
      && t.validAfter == r.validAfter && t.staleVariance == r.staleVariance && t.reading == r.reading
      && t.enabled == r.enabled && t.streaming == r.streaming && t.lockCtx == r.lockCtx
  {
  }

  lemma {:induction false} StoringReleases(r: Request, op: Op)
    requires Allowed(r, op) && HoldsPermit(r) && r.key.Some?
    requires op.UpdateVariance? || op.SetMissHandler? || op.RevalidateMeta?
    ensures
      var t := Next(r, op);
      if Verdict(r, op).Some? then LetsGo(r, t, LockDone) else t.lock == r.lock && t.log == r.log
  {
    match op
    case UpdateVariance(variance) => UpdateVarianceBooks(r, variance);
    case SetMissHandler(_, _) => ReleaseBooks(r.(writing := true), LockDone);
    case RevalidateMeta(renewed) =>
  }

  /**
   Every operation with a permit in hand: it releases it with the verdict, or hands it on, or
   leaves it where it is.
   */
  lemma {:induction false} ReleasesExactly(r: Request, op: Op)
    requires Conserved(r) && Allowed(r, op) && Careful(r, op) && HoldsPermit(r)
    ensures r.key.Some?
    ensures
      var t := Next(r, op);
      match Verdict(r, op)
      case Some(status) => LetsGo(r, t, status)
      case None =>
        if op.TakeWriteLock? then !HoldsPermit(t) && t.log == r.log + [Taken(r.lock.value.permit)]
        else t.lock == r.lock && t.log == r.log
  {
    match op
    case RevalidateUncacheable(_) => GivingUpReleases(r, op);
    case ReleaseWriteLock(_) => GivingUpReleases(r, op);
    case Disable(_) => GivingUpReleases(r, op);
    case FinishMiss(ok) => if r.writing { FinishReleases(r, ok); }
    case UpdateVariance(_) => StoringReleases(r, op);
    case SetMissHandler(_, _) => StoringReleases(r, op);
    case RevalidateMeta(_) => StoringReleases(r, op);
    case Lookup(_, deferred, _) => if deferred { GivingUpReleases(r, Disable(Deferred)); }
    case Found(found, status, granted) => FoundBooks(r, found, status, granted);
    case _ =>
  }

  // ----- Whole requests -----

  /** A sequence of allowed, careful operations, with genuine permits. */
  ghost predicate Runs(r: Request, ops: seq<Op>, t: Request)
    decreases |ops|
  {
    if ops == [] then r == t
    else
      && Allowed(r, ops[0]) && GenuineGrant(r, ops[0]) && Careful(r, ops[0])
      && Runs(Next(r, ops[0]), ops[1..], t)
  }

  lemma {:induction false} RunsConserve(r: Request, ops: seq<Op>, t: Request)
    requires Conserved(r) && Runs(r, ops, t)
    ensures Conserved(t)
    decreases |ops|
  {
    if ops != [] {
      StepConservesIff(r, ops[0]);
      RunsConserve(Next(r, ops[0]), ops[1..], t);
    }
  }

  // ----- What an honest log says -----

  predicate Departs(e: Event, p: Permit) { e.permit == p && !e.Acquired? }

  lemma {:induction false} HonestPrefix(log: seq<Event>, n: nat)
    requires Honest(log) && n < |log|
    ensures Honest(log[..n]) && Proper(LedgerOf(log[..n]), log[n])
    ensures LedgerOf(log[..n + 1]) == Entered(LedgerOf(log[..n]), log[n])
    decreases |log|
  {
    if n + 1 < |log| {
      var front := log[..|log| - 1];
      HonestPrefix(front, n);
      assert front[..n] == log[..n] && front[..n + 1] == log[..n + 1];
    } else {
      assert log[..n + 1] == log;
    }
  }

  /** No permit is in two places. */
  lemma {:induction false} OnePlaceOnly(log: seq<Event>, p: Permit)
    requires Honest(log)
    ensures p in LedgerOf(log).held ==> p !in LedgerOf(log).away && p !in LedgerOf(log).gone
    ensures p in LedgerOf(log).away ==> p !in LedgerOf(log).gone
  {
    if log != [] { OnePlaceOnly(log[..|log| - 1], p); }
  }

  /** Once released, a permit stays gone. */
  lemma {:induction false} GoneStaysGone(log: seq<Event>, i: nat, n: nat)
    requires Honest(log) && i < n <= |log| && log[i].Released?
    ensures log[i].permit in LedgerOf(log[..n]).gone
    decreases n
  {
    HonestPrefix(log, n - 1);
    if i < n - 1 { GoneStaysGone(log, i, n - 1); }
  }

  lemma {:induction false} NothingAfterRelease(log: seq<Event>, i: nat, j: nat)
    requires Honest(log) && i < j < |log| && log[i].Released?
    ensures log[j].permit != log[i].permit
  {
    GoneStaysGone(log, i, j);
    HonestPrefix(log, j);
    OnePlaceOnly(log[..j], log[i].permit);
  }

  /** A permit is held from the moment it comes until it departs. */
  lemma {:induction false} HeldUntilItDeparts(log: seq<Event>, a: nat, n: nat)
    requires Honest(log) && a < n <= |log| && log[a].Acquired?
    ensures
      || (log[a].permit in LedgerOf(log[..n]).held && LedgerOf(log[..n]).held[log[a].permit] == log[a].key)
      || exists i :: a < i < n && Departs(log[i], log[a].permit)
    decreases n
  {
    HonestPrefix(log, n - 1);
    if a < n - 1 {
      HeldUntilItDeparts(log, a, n - 1);
      OnePlaceOnly(log[..n - 1], log[a].permit);
      if Departs(log[n - 1], log[a].permit) { assert a < n - 1 < n; }
    }
  }

  /** A permit that has departed is not held until it comes again. */
  lemma {:induction false} NotHeldUntilItReturns(log: seq<Event>, i: nat, n: nat)
    requires Honest(log) && i < n <= |log| && !log[i].Acquired?
    ensures
      || log[i].permit !in LedgerOf(log[..n]).held
      || exists a :: i < a < n && log[a].Acquired? && log[a].permit == log[i].permit
    decreases n
  {
    HonestPrefix(log, n - 1);
    if i < n - 1 {
      NotHeldUntilItReturns(log, i, n - 1);
      if log[n - 1].Acquired? && log[n - 1].permit == log[i].permit { assert i < n - 1 < n; }
    }
  }

  function KeyIn(l: Ledger, p: Permit): Option<Key> {
    if p in l.held then Some(l.held[p]) else if p in l.away then Some(l.away[p]) else None
  }

  /** Wherever a permit is, its key is the one of every time it came. */
  lemma {:induction false} KeyNeverChanges(log: seq<Event>, a: nat, n: nat)
    requires Honest(log) && a < n <= |log| && log[a].Acquired?
    ensures
      || KeyIn(LedgerOf(log[..n]), log[a].permit) == Some(log[a].key)
      || log[a].permit in LedgerOf(log[..n]).gone
    decreases n
  {
    HonestPrefix(log, n - 1);
    if a < n - 1 {
      KeyNeverChanges(log, a, n - 1);
      OnePlaceOnly(log[..n - 1], log[a].permit);
    }
  }

  lemma {:induction false} HeldHasCome(log: seq<Event>, p: Permit) returns (a: nat)
    requires p in LedgerOf(log).held
    ensures a < |log| && log[a] == Acquired(p, LedgerOf(log).held[p])
    decreases |log|
  {
    var last := log[|log| - 1];
    if last.Acquired? && last.permit == p { a := |log| - 1; }
    else { a := HeldHasCome(log[..|log| - 1], p); }
  }

  // ----- Main results -----

  /**
   Over every careful run from a new request a permit is released at most once, and nothing
   happens to it afterwards.
   */
  lemma {:induction false} ReleasedOnce(ops: seq<Op>, t: Request, i: nat, j: nat)
    requires Runs(NEW, ops, t) && i < |t.log| && j < |t.log| && t.log[i].Released?
    requires t.log[j].permit == t.log[i].permit
    ensures j <= i && (t.log[j].Released? ==> j == i)
    ensures !(HoldsPermit(t) && t.lock.value.permit == t.log[i].permit)
  {
    RunsConserve(NEW, ops, t);
    GoneStaysGone(t.log, i, |t.log|);
    assert t.log[..|t.log|] == t.log;
    OnePlaceOnly(t.log, t.log[i].permit);
    if i < j { NothingAfterRelease(t.log, i, j); }
    else if j < i && t.log[j].Released? { NothingAfterRelease(t.log, j, i); }
  }

  /** No permit is dropped, and between two departures of a permit it was handed on and came back. */
  lemma {:induction false} PermitsLeaveOnce(ops: seq<Op>, t: Request, i: nat, j: nat)
    requires Runs(NEW, ops, t) && i < j < |t.log|
    requires t.log[i].permit == t.log[j].permit && !t.log[i].Acquired? && !t.log[j].Acquired?
    ensures t.log[i].Taken? && !t.log[j].Dropped?
    ensures exists a :: i < a < j && t.log[a].Acquired? && t.log[a].permit == t.log[i].permit
  {
    RunsConserve(NEW, ops, t);
    HonestPrefix(t.log, i);
    HonestPrefix(t.log, j);
    if t.log[i].Released? { NothingAfterRelease(t.log, i, j); }
    NotHeldUntilItReturns(t.log, i, j);
  }

  /** Every release goes out under the very key its permit was locked with, each time it came. */
  lemma {:induction false} ReleasedUnderOwnKey(ops: seq<Op>, t: Request, i: nat) returns (a: nat)
    requires Runs(NEW, ops, t) && i < |t.log| && t.log[i].Released?
    ensures a < i && t.log[a] == Acquired(t.log[i].permit, t.log[i].key)
    ensures forall b | 0 <= b < |t.log| && t.log[b].Acquired? && t.log[b].permit == t.log[i].permit ::
            t.log[b].key == t.log[i].key
  {
    RunsConserve(NEW, ops, t);
    HonestPrefix(t.log, i);
    a := HeldHasCome(t.log[..i], t.log[i].permit);
    forall b | 0 <= b < |t.log| && t.log[b].Acquired? && t.log[b].permit == t.log[i].permit
      ensures t.log[b].key == t.log[i].key
    {
      if i < b { NothingAfterRelease(t.log, i, b); }
      KeyNeverChanges(t.log, b, i);
      OnePlaceOnly(t.log[..i], t.log[i].permit);
    }
  }

  /** Every permit that came is still held, under its key, or has departed later on. */
  lemma {:induction false} NothingIsLost(ops: seq<Op>, t: Request, a: nat)
    requires Runs(NEW, ops, t) && a < |t.log| && t.log[a].Acquired?
    ensures
      || (HoldsPermit(t) && t.lock.value.permit == t.log[a].permit && t.key == Some(t.log[a].key))
      || exists i :: a < i < |t.log| && Departs(t.log[i], t.log[a].permit)
  {
    RunsConserve(NEW, ops, t);
    HeldUntilItDeparts(t.log, a, |t.log|);
    assert t.log[..|t.log|] == t.log;
  }

  /** A permit still held when a second lookup finds nothing is overwritten, and nobody releases it. */
  lemma {:induction false} SecondMissDropsThePermit(r: Request, granted: Locked)
    requires Conserved(r) && HoldsPermit(r) && r.phase.CacheKey?
    ensures Allowed(r, Lookup(None, false, granted))
    ensures Dropped(r.lock.value.permit) in Next(r, Lookup(None, false, granted)).log
  {
    var log := Next(r, Lookup(None, false, granted)).log;
    assert log[|r.log|] == Dropped(r.lock.value.permit);
  }

  /** A permit set under a key it was not locked with is released under that other key. */
  lemma {:induction false} MisplacedPermitIsReleasedElsewhere(
      r: Request, permit: Permit, lockedUnder: Key, reason: NoCacheReason)
    requires Conserved(r) && r.lockCtx && !HoldsPermit(r) && r.key.Some? && r.key != Some(lockedUnder)
    requires WriterReason(reason)
    ensures
      var s := SetWriteLockSpec(r, permit, lockedUnder);
      && Allowed(s, ReleaseWriteLock(reason))
      && Next(s, ReleaseWriteLock(reason)).log ==
         r.log + [Acquired(permit, lockedUnder)] + [Released(permit, r.key.value, StatusFor(reason))]
  {
  }

  lemma {:induction false} OneOpFirst(r: Request, op: Op, rest: seq<Op>, t: Request)
    requires Allowed(r, op) && GenuineGrant(r, op) && Careful(r, op) && Runs(Next(r, op), rest, t)
    ensures Runs(r, [op] + rest, t)
  {
    assert ([op] + rest)[1..] == rest;
  }

  const KEYED := [Enable(false, true), SetCacheKey(Key(0, None))]

  /** A request that has its key and a cache lock. */
  lemma {:induction false} KeyedIsReached() returns (r: Request)
    ensures Runs(NEW, KEYED, r) && r == EnableSpec(NEW, false, true).(phase := CacheKey, key := Some(Key(0, None)))
  {
    var enabled := EnableSpec(NEW, false, true);
    r := Next(enabled, SetCacheKey(Key(0, None)));
    OneOpFirst(enabled, SetCacheKey(Key(0, None)), [], r);
    OneOpFirst(NEW, Enable(false, true), [SetCacheKey(Key(0, None))], r);
  }

  lemma {:induction false} RunsThen(r: Request, ops: seq<Op>, m: Request, op: Op)
    requires Runs(r, ops, m) && Allowed(m, op) && GenuineGrant(m, op) && Careful(m, op)
    ensures Runs(r, ops + [op], Next(m, op))
    decreases |ops|
  {
    if ops == [] {
      assert [] + [op] == [op] && [op][1..] == [];
    } else {
      RunsThen(Next(r, ops[0]), ops[1..], m, op);
      assert (ops + [op])[1..] == ops[1..] + [op];
    }
  }

  /** From a new request, two lookups that find nothing drop the permit of the first. */
  lemma {:induction false} SecondMissIsReached() returns (r: Request)
    ensures Runs(NEW, KEYED + [Lookup(None, false, Write(0))], r)
    ensures Allowed(r, Lookup(None, false, Write(1))) && GenuineGrant(r, Lookup(None, false, Write(1)))
    ensures Dropped(0) in Next(r, Lookup(None, false, Write(1))).log
  {
    var k := KeyedIsReached();
    r := Next(k, Lookup(None, false, Write(0)));
    RunsThen(NEW, KEYED, k, Lookup(None, false, Write(0)));
    assert r.log == [] + [Acquired(0, Key(0, None))];
    OneMoreEvent([], Acquired(0, Key(0, None)));
    RunsConserve(NEW, KEYED + [Lookup(None, false, Write(0))], r);
    SecondMissDropsThePermit(r, Write(1));
  }

  /** From a new request, a permit of key 1 set on a request with key 0 is released under key 0. */
  lemma {:induction false} MisplacedPermitIsReached() returns (r: Request)
    ensures Runs(NEW, KEYED, r)
    ensures Allowed(r, SetWriteLock(0, Key(1, None))) && GenuineGrant(r, SetWriteLock(0, Key(1, None)))
    ensures
      var s := Next(r, SetWriteLock(0, Key(1, None)));
      && Allowed(s, ReleaseWriteLock(UpstreamError))
      && Released(0, Key(0, None), LockTransientError) in Next(s, ReleaseWriteLock(UpstreamError)).log
  {
    r := KeyedIsReached();
    RunsConserve(NEW, KEYED, r);
    MisplacedPermitIsReleasedElsewhere(r, 0, Key(1, None), UpstreamError);
  }

  // ----- The object the proxy drives -----

  /** The step is the specified one, and keeps a straight account straight if it is careful. */
  ghost predicate Accounted(r: Request, op: Op, t: Request) {
    && Allowed(r, op) && t == Next(r, op)
    && (Conserved(r) && GenuineGrant(r, op) && Careful(r, op) ==> Conserved(t))
  }

  lemma {:induction false} Accounting(r: Request, op: Op)
    requires Allowed(r, op)
    ensures Accounted(r, op, Next(r, op))
  {
    if Conserved(r) && GenuineGrant(r, op) { StepConservesIff(r, op); }
  }

  /** What is kept of an entry and its handlers while the cache is enabled. */
  datatype Entry = Entry(
    meta: Option<Meta>, validAfter: Option<Time>, staleVariance: Option<Variance>, writing: bool, reading: bool)

  const NO_ENTRY := Entry(None, None, None, false, false)

  class HttpCache {
    var phase: Phase
    var enabled: bool
    var streaming: bool
    var key: Option<Key>
    var entry: Entry
    var lockCtx: bool
    var lock: Option<Locked>
    ghost var log: seq<Event>

    ghost function View(): Request
      reads this
    {
      var Entry(meta, validAfter, staleVariance, writing, reading) := entry;
      Request(phase, enabled, streaming, key, meta, validAfter, staleVariance, writing, reading, lockCtx, lock, log)
    }

    constructor ()
      ensures View() == NEW && Conserved(View())
    {
      phase, enabled, streaming, key, entry := Disabled(NeverEnabled), false, false, None, NO_ENTRY;
      lockCtx, lock, log := false, None, [];
    }

    /** Hand the permit, if there is one, back to the lock. */
    method Release(status: LockStatus)
      requires HoldsPermit(View()) ==> key.Some?
      modifies this`lock, this`log
      ensures View() == ReleaseHeld(old(View()), status)
    {
      if lock.Some? && lock.value.Write? {
        log := log + [Released(lock.value.permit, key.value, status)];
      }
      lock := None;
    }

    /** Keep a lock taken under a key. */
    method Keep(granted: Locked, ghost under: Key)
      modifies this`lock, this`log
      ensures View() == PutLock(old(View()), granted, under)
    {
      if lock.Some? && lock.value.Write? { log := log + [Dropped(lock.value.permit)]; }
      if granted.Write? { log := log + [Acquired(granted.permit, under)]; }
      lock := Some(granted);
    }

    method Enable(streaming: bool, lockCtx: bool)
      requires phase.Disabled?
      modifies this
      ensures Accounted(old(View()), Op.Enable(streaming, lockCtx), View())
    {
      Accounting(View(), Op.Enable(streaming, lockCtx));
      phase, enabled, key, entry := Uninit, true, None, NO_ENTRY;
      this.streaming, this.lockCtx, lock := streaming, lockCtx, None;
    }

    method ReleaseWriteLock(reason: NoCacheReason)
      requires MayRelease(View(), reason)
      modifies this`lock, this`log
      ensures Accounted(old(View()), Op.ReleaseWriteLock(reason), View())
    {
      Accounting(View(), Op.ReleaseWriteLock(reason));
      if lock.Some? && lock.value.Write? { Release(StatusFor(reason)); } else { lock := None; }
    }

    /** Release, and take the context away. */
    method Shut(reason: NoCacheReason)
      requires MayRelease(View(), reason) && !reason.NeverEnabled? && !phase.Disabled?
      modifies this
      ensures View() == DisableSpec(old(View()), reason)
    {
      if lock.Some? && lock.value.Write? { Release(StatusFor(reason)); } else { lock := None; }
      phase, enabled, entry, lockCtx := Disabled(reason), false, NO_ENTRY, false;
    }

    method Disable(reason: NoCacheReason)
      requires !reason.NeverEnabled? && MayRelease(View(), reason)
      modifies this
      ensures Accounted(old(View()), Op.Disable(reason), View())
    {
      Accounting(View(), Op.Disable(reason));
      if !phase.Disabled? { Shut(reason); }
      else if !phase.reason.NeverEnabled? { phase := Disabled(reason); }
    }

    method CacheLookup(stored: Option<Meta>, deferred: bool, granted: Locked) returns (found: Option<Meta>)
      requires MayLook(View()) && (deferred ==> stored.None? && phase.CacheKey?)
      modifies this
      ensures Accounted(old(View()), Lookup(stored, deferred, granted), View())
      ensures found == Visible(old(View()), stored)
    {
      Accounting(View(), Lookup(stored, deferred, granted));
      found := stored;
      if found.Some? && entry.validAfter.Some? && found.value.created < entry.validAfter.value { found := None; }
      if found.None? {
        if deferred { Disable(Deferred); }
        else if lockCtx { Keep(granted, key.value); }
      }
    }

    method CacheVaryLookup(variance: Variance, seen: Meta) returns (matches: bool)
      requires MayLook(View())
      modifies this`entry, this`key
      ensures Accounted(old(View()), VaryLookup(variance, seen), View())
      ensures matches == VaryLookupSpec(old(View()), variance, seen).1
    {
      Accounting(View(), VaryLookup(variance, seen));
      entry := entry.(validAfter := Some(Provenance(seen)));
      var initial := key.value.variance.None?;
      key := Some(key.value.(variance := Some(variance)));
      matches := seen.variance == key.value.variance;
      if matches && initial { key := Some(key.value.(variance := None)); }
    }

    method CacheFound(found: Meta, status: HitStatus, granted: Locked)
      requires MayLook(View())
      modifies this
      ensures Accounted(old(View()), Found(found, status, granted), View())
    {
      Accounting(View(), Found(found, status, granted));
      phase := PhaseFor(phase, status);
      if (phase.Stale? || TreatedAsMiss(status)) && lockCtx { Keep(granted, key.value); }
      var meta := if TreatedAsMiss(status) then None else Some(found);
      entry := entry.(reading := !TreatedAsMiss(status), meta := meta);
    }

    method SetCacheMeta(newMeta: Meta)
      requires MaySetMeta(View())
      modifies this`phase, this`entry
      ensures Accounted(old(View()), SetMeta(newMeta), View())
    {
      Accounting(View(), SetMeta(newMeta));
      if phase.Stale? {
        var stale := entry.meta.value;
        var meta := newMeta.(provenance := Some(Provenance(stale)));
        entry := entry.(staleVariance := stale.variance, meta := Some(meta));
        phase := Expired;
      } else {
        entry := entry.(staleVariance := None, meta := Some(newMeta));
      }
    }

    /** Write the variance into the metadata, and start a new lineage if that makes a new family. */
    method VaryMeta(variance: Option<Variance>)
      requires MayStore(View())
      modifies this`entry
      ensures View() == old(View()).(staleVariance := None, meta := Some(Varied(old(View()), variance)))
    {
      var own := key.value.variance;
      var reset := phase.Expired? && if own.Some? then own != variance else entry.staleVariance != variance;
      var meta := entry.meta.value.(variance := variance);
      if reset { meta := meta.(provenance := Some(meta.created)); }
      entry := entry.(staleVariance := None, meta := Some(meta));
    }

    method UpdateVariance(variance: Option<Variance>)
      requires MayStore(View())
      modifies this
      ensures Accounted(old(View()), Op.UpdateVariance(variance), View())
    {
      Accounting(View(), Op.UpdateVariance(variance));
      var own := key.value.variance;
      VaryMeta(variance);
      if own.Some? && own != variance {
        Release(LockDone);
        key := Some(key.value.(variance := None));
      }
    }

    method SetMissHandler(created: bool, attached: bool)
      requires MayStore(View()) && !entry.writing
      modifies this
      ensures Accounted(old(View()), Op.SetMissHandler(created, attached), View())
    {
      Accounting(View(), Op.SetMissHandler(created, attached));
      if !created { return; }
      entry := entry.(writing := true);
      if streaming {
        Release(LockDone);
        if attached { entry := entry.(reading := true); }
      }
    }

    method FinishMissHandler(ok: bool)
      requires MayFinish(View())
      modifies this
      ensures Accounted(old(View()), FinishMiss(ok), View())
    {
      Accounting(View(), FinishMiss(ok));
      if !entry.writing { return; }
      entry := entry.(writing := false);
      Release(if ok then LockDone else LockTransientError);
    }

    method RevalidateCacheMeta(renewed: Meta)
      requires MayRevalidate(View())
      modifies this
      ensures Accounted(old(View()), RevalidateMeta(renewed), View())
    {
      Accounting(View(), RevalidateMeta(renewed));
      var stale := entry.meta.value;
      var meta := renewed.(created := stale.created, provenance := Some(Provenance(stale)));
      entry := entry.(meta := Some(meta), staleVariance := None);
      Release(LockDone);
      phase := Revalidated;
    }

    method TakeWriteLock() returns (permit: Permit)
      requires HoldsPermit(View())
      modifies this`lock, this`log
      ensures Accounted(old(View()), Op.TakeWriteLock, View())
      ensures old(View()).lock == Some(Write(permit))
    {
      Accounting(View(), Op.TakeWriteLock);
      permit := lock.value.permit;
      lock, log := None, log + [Taken(permit)];
    }

    /** Nothing checks the key the permit was locked under; only the caller can know it. */
    method SetWriteLock(permit: Permit, ghost lockedUnder: Key)
      requires enabled
      modifies this`lock, this`log
      ensures Accounted(old(View()), Op.SetWriteLock(permit, lockedUnder), View())
    {
      Accounting(View(), Op.SetWriteLock(permit, lockedUnder));
      if lockCtx { Keep(Write(permit), lockedUnder); }
      else { log := log + [Acquired(permit, lockedUnder)] + [Dropped(permit)]; }
    }
  }
}
